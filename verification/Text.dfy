/** The text operations of Go that the names and numbers rest on: decimal printing,
    `strconv.Atoi` on a 64-bit platform, and `strings.Split` on one character. */
module Text {
  import opened Base

  const MAX_INT64: int := 0x7FFF_FFFF_FFFF_FFFF

  predicate IsDigit(c: char) { '0' <= c <= '9' }

  predicate AllDigits(s: string) { forall k :: 0 <= k < |s| ==> IsDigit(s[k]) }

  function Digit(d: nat): (c: char)
    requires d < 10
    ensures IsDigit(c) && DigitValue(c) == d
  {
    (d + '0' as int) as char
  }

  function DigitValue(c: char): nat
    requires IsDigit(c)
  {
    c as int - '0' as int
  }

  /** `%d` of a non-negative integer. */
  function Dec(n: nat): (s: string)
    ensures |s| > 0 && AllDigits(s)
  {
    if n < 10 then [Digit(n)] else Dec(n / 10) + [Digit(n % 10)]
  }

  /** `%d` of any integer. */
  function Fmt(i: int): string {
    if i < 0 then "-" + Dec(-i) else Dec(i)
  }

  function Zeros(k: nat): (s: string)
    ensures |s| == k && forall i :: 0 <= i < k ==> s[i] == '0'
  {
    seq(k, _ => '0')
  }

  /** `%04d` of a non-negative integer. */
  function Pad4(n: nat): (s: string)
    ensures |s| >= 4 && AllDigits(s)
  {
    var d := Dec(n);
    if |d| < 4 then Zeros(4 - |d|) + d else d
  }

  /** The number a string of digits denotes. */
  function Value(s: string): nat
    requires AllDigits(s)
  {
    if s == "" then 0 else 10 * Value(s[..|s| - 1]) + DigitValue(s[|s| - 1])
  }

  lemma {:induction false} ValueOfDec(n: nat)
    ensures Value(Dec(n)) == n
  {
    if n < 10 {
      assert Dec(n)[..0] == "";
    } else {
      ValueOfDec(n / 10);
      assert Dec(n)[..|Dec(n)| - 1] == Dec(n / 10);
    }
  }

  lemma {:induction false} ValueOfZeros(k: nat, s: string)
    requires AllDigits(s)
    ensures Value(Zeros(k) + s) == Value(s)
    decreases |s|, k
  {
    if s != "" {
      ValueOfZeros(k, s[..|s| - 1]);
      assert (Zeros(k) + s)[..k + |s| - 1] == Zeros(k) + s[..|s| - 1];
    } else if k > 0 {
      ValueOfZeros(k - 1, s);
      assert (Zeros(k) + s)[..k - 1] == Zeros(k - 1) + s;
    }
  }

  /** Zero padding does not change the number, so `%04d` is injective. */
  lemma ValueOfPad4(n: nat)
    ensures Value(Pad4(n)) == n
  {
    ValueOfDec(n);
    var d := Dec(n);
    if |d| < 4 { ValueOfZeros(4 - |d|, d); }
  }

  /** `strconv.Atoi`: an optional sign, at least one digit, nothing else, in the int64 range. */
  function Atoi(s: string): (r: Option<int>)
    ensures r.Some? ==> -MAX_INT64 - 1 <= r.value <= MAX_INT64
    ensures r.Some? && '-' !in s ==> r.value >= 0
  {
    var signed := s != "" && (s[0] == '-' || s[0] == '+');
    var digits := if signed then s[1..] else s;
    if digits == "" || !AllDigits(digits) then None
    else
      var v: int := if signed && s[0] == '-' then 0 - Value(digits) else Value(digits);
      if -MAX_INT64 - 1 <= v <= MAX_INT64 then Some(v) else None
  }

  lemma AtoiOfDigits(s: string)
    requires s != "" && AllDigits(s) && Value(s) <= MAX_INT64
    ensures Atoi(s) == Some(Value(s))
  {
    assert IsDigit(s[0]);
  }

  lemma AtoiOfDec(n: nat)
    requires n <= MAX_INT64
    ensures Atoi(Dec(n)) == Some(n)
  {
    ValueOfDec(n);
    AtoiOfDigits(Dec(n));
  }

  /** Printing any integer of the platform and parsing it again gives it back. */
  lemma AtoiOfFmt(i: int)
    requires -MAX_INT64 - 1 <= i <= MAX_INT64
    ensures Atoi(Fmt(i)) == Some(i)
  {
    if i < 0 {
      ValueOfDec(-i);
      assert Fmt(i)[1..] == Dec(-i);
    } else {
      AtoiOfDec(i);
    }
  }

  lemma AtoiOfPad4(n: nat)
    requires n <= MAX_INT64
    ensures Atoi(Pad4(n)) == Some(n)
  {
    ValueOfPad4(n);
    AtoiOfDigits(Pad4(n));
  }

  /** A decimal numeral has the ten digits for the numbers below ten, and no zero in front of others. */
  lemma {:induction false} DecDigits(n: nat)
    ensures n < 10 ==> Dec(n) == ["0123456789"[n]]
    ensures n > 0 ==> Dec(n)[0] != '0'
  {
    if n >= 10 { DecDigits(n / 10); }
  }

  /** What parses as a number: digits, after a sign or not, with a value in range; nothing else does. */
  lemma AtoiExactly(s: string, v: int)
    ensures Atoi(s) == Some(v) <==>
            -0x8000_0000_0000_0000 <= v <= 0x7FFF_FFFF_FFFF_FFFF
            && exists d :: d != "" && AllDigits(d) && (if v >= 0 then Value(d) == v else Value(d) == -v)
                           && ((v >= 0 && s == d) || (v >= 0 && s == "+" + d) || (v <= 0 && s == "-" + d))
  {
    if Atoi(s) == Some(v) {
      var d := if s[0] == '-' || s[0] == '+' then s[1..] else s;
      assert s == d || s == [s[0]] + d;
      assert d != "" && AllDigits(d);
    }
    forall d | d != "" && AllDigits(d)
      ensures !(s == d && (d[0] == '-' || d[0] == '+'))
      ensures s == "+" + d ==> s[1..] == d
      ensures s == "-" + d ==> s[1..] == d
    {
      assert IsDigit(d[0]);
    }
  }

  /** Padding to four digits adds zeros to what is shorter and leaves the rest as it is. */
  lemma Pad4Exactly(n: nat)
    ensures |Dec(n)| <= 4 ==> |Pad4(n)| == 4
    ensures exists k :: 0 <= k <= 4 && Pad4(n) == Zeros(k) + Dec(n) && (k > 0 ==> |Pad4(n)| == 4)
  {
    var k := if |Dec(n)| < 4 then 4 - |Dec(n)| else 0;
    assert Pad4(n) == Zeros(k) + Dec(n);
  }

  lemma DecInjective(a: nat, b: nat)
    requires Dec(a) == Dec(b)
    ensures a == b
  {
    ValueOfDec(a);
    ValueOfDec(b);
  }

  lemma Pad4Injective(a: nat, b: nat)
    requires Pad4(a) == Pad4(b)
    ensures a == b
  {
    ValueOfPad4(a);
    ValueOfPad4(b);
  }

  /** `strings.Split` on a one-character separator. */
  function Split(s: string, sep: char): (parts: seq<string>)
    ensures |parts| >= 1
    ensures forall p :: p in parts ==> sep !in p
  {
    if s == "" then [""]
    else
      var rest := Split(s[1..], sep);
      if s[0] == sep then [""] + rest else [[s[0]] + rest[0]] + rest[1..]
  }

  /** The text before the first separator is the first part, and the rest is split on its own. */
  lemma {:induction false} SplitFirst(a: string, sep: char, b: string)
    requires sep !in a
    ensures Split(a, sep) == [a]
    ensures Split(a + [sep] + b, sep) == [a] + Split(b, sep)
  {
    var s := a + [sep] + b;
    if a == "" {
      assert s[1..] == b;
    } else {
      SplitFirst(a[1..], sep, b);
      assert s[1..] == a[1..] + [sep] + b;
      assert [a[0]] + a[1..] == a;
    }
  }

  /** Joining the parts again gives the text back. */
  function Join(parts: seq<string>, sep: char): string
    requires parts != []
  {
    if |parts| == 1 then parts[0] else parts[0] + [sep] + Join(parts[1..], sep)
  }

  lemma {:induction false} SplitJoins(s: string, sep: char)
    ensures Join(Split(s, sep), sep) == s
    ensures |Split(s, sep)| == 2 ==> s == Split(s, sep)[0] + [sep] + Split(s, sep)[1]
  {
    if s != "" {
      SplitJoins(s[1..], sep);
      var rest := Split(s[1..], sep);
      if s[0] == sep {
        assert ([""] + rest)[1..] == rest;
      } else {
        assert ([[s[0]] + rest[0]] + rest[1..])[1..] == rest[1..];
      }
    }
  }

  /** Two texts cut at the same separator into a separator-free head and a tail are cut alike. */
  lemma CutUnique(a: string, sep: char, b: string, a': string, b': string)
    requires sep !in a && sep !in a'
    requires a + [sep] + b == a' + [sep] + b'
    ensures a == a' && b == b'
  {
    var s := a + [sep] + b;
    var k := if |a| < |a'| then |a| else |a'|;
    FirstAt(a, sep, b, k);
    FirstAt(a', sep, b', k);
    assert a == s[..k] == a';
    assert b == s[k + 1..] == b';
  }

  lemma FirstAt(a: string, sep: char, b: string, k: nat)
    requires sep !in a && k <= |a| && (a + [sep] + b)[k] == sep
    ensures k == |a|
  {
  }

  lemma LastAt(a: string, sep: char, b: string, k: nat)
    requires sep !in b && |a| <= k < |a| + 1 + |b| && (a + [sep] + b)[k] == sep
    ensures k == |a|
  {
  }

  /** The same for a cut at the last separator. */
  lemma CutLastUnique(a: string, sep: char, b: string, a': string, b': string)
    requires sep !in b && sep !in b'
    requires a + [sep] + b == a' + [sep] + b'
    ensures a == a' && b == b'
  {
    var s := a + [sep] + b;
    var k := if |a| < |a'| then |a'| else |a|;
    LastAt(a, sep, b, k);
    LastAt(a', sep, b', k);
    assert a == s[..k] == a';
    assert b == s[k + 1..] == b';
  }
}

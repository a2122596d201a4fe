/** Slice and node pool names (internal/utils/slice.go, internal/utils/static_nodepools.go). */
module Names {
  import opened Text

  /** `s[:min(n, len(s))]` */
  function Prefix(s: string, n: nat): (r: string)
    ensures r <= s && |r| <= n
  {
    if |s| <= n then s else s[..n]
  }

  /** The API server's UIDs have 36 characters; the names use the first eight. */
  type Uid = u: string | |u| >= 8 witness "00000000"

  /** A UID as section 4 of RFC 9562 prints it: eight characters precede the first dash. */
  predicate UidLike(uid: string) {
    |uid| >= 8 && '-' !in uid[..8]
  }

  function Body(name: string, uid: string, part: string): string {
    name + "-" + uid + "-" + part
  }

  function SliceName(jsName: string, jsUid: string, rjName: string, replica: int): string
    requires |jsUid| >= 8
  {
    "js-" + Body(Prefix(jsName, 24), jsUid[..8], Prefix(rjName, 8)) + "-" + Fmt(replica)
  }

  function LegacySliceName(jsName: string, jsUid: string, rjName: string, replica: int): string
    requires |jsUid| >= 8
  {
    "js-" + Body(Prefix(jsName, 32), jsUid[..8], Prefix(rjName, 10)) + "-" + Fmt(replica)
  }

  function LwsName(limit: nat, lwsName: string, lwsUid: string, component: string, replica: int): string
    requires |lwsUid| >= 8
  {
    "lws-" + Body(Prefix(lwsName, limit), lwsUid[..8], component)
    + (if replica >= 0 then "-" + Dec(replica) else "")
  }

  function LWSSliceName(lwsName: string, lwsUid: string, component: string, replica: int): string
    requires |lwsUid| >= 8
  {
    LwsName(23, lwsName, lwsUid, component, replica)
  }

  function LegacyLWSSliceName(lwsName: string, lwsUid: string, component: string, replica: int): string
    requires |lwsUid| >= 8
  {
    LwsName(32, lwsName, lwsUid, component, replica)
  }

  /** Two readings of one text as prefix, dash-free 8-character UID and a suffix of at most 8
      characters agree: a longer suffix would put one of its dashes inside the other UID. */
  lemma BodyUnique(p: string, u: string, r: string, p': string, u': string, r': string)
    requires |u| == |u'| == 8 && '-' !in u && '-' !in u'
    requires |r| <= 8 && |r'| <= 8
    requires p + "-" + u + "-" + r == p' + "-" + u' + "-" + r'
    ensures p == p' && u == u' && r == r'
  {
    var s := p + "-" + u + "-" + r;
    SuffixNotLonger(p, u, r, p', u', r');
    SuffixNotLonger(p', u', r', p, u, r);
    assert r == s[|s| - |r|..] == r';
    assert u == s[|s| - |r| - 9..|s| - |r| - 1] == u';
    assert p == s[..|s| - |r| - 10] == p';
  }

  lemma SuffixNotLonger(p: string, u: string, r: string, p': string, u': string, r': string)
    requires |u| == |u'| == 8 && '-' !in u'
    requires |r| <= 8
    requires p + "-" + u + "-" + r == p' + "-" + u' + "-" + r'
    ensures |r| <= |r'|
  {
    var s := p + "-" + u + "-" + r;
    var k := |s| - |r| - 1;
    assert s[k] == '-';
    assert s == p' + "-" + u' + ("-" + r');
  }

  /** Job slice names are uniquely decodable, up to the parts the format truncates. */
  lemma SliceNameDecodable(js: string, uid: string, rj: string, i: nat, js': string, uid': string, rj': string, i': nat)
    requires UidLike(uid) && UidLike(uid')
    ensures SliceName(js, uid, rj, i) == SliceName(js', uid', rj', i') <==>
            Prefix(js, 24) == Prefix(js', 24) && uid[..8] == uid'[..8]
            && Prefix(rj, 8) == Prefix(rj', 8) && i == i'
  {
    if SliceName(js, uid, rj, i) == SliceName(js', uid', rj', i') {
      JoinedUnique(Prefix(js, 24), uid[..8], Prefix(rj, 8), i, Prefix(js', 24), uid'[..8], Prefix(rj', 8), i');
    }
  }

  lemma JoinedUnique(p: string, u: string, r: string, i: nat, p': string, u': string, r': string, i': nat)
    requires |u| == |u'| == 8 && '-' !in u && '-' !in u' && |r| <= 8 && |r'| <= 8
    requires "js-" + Body(p, u, r) + "-" + Dec(i) == "js-" + Body(p', u', r') + "-" + Dec(i')
    ensures p == p' && u == u' && r == r' && i == i'
  {
    HeadedUnique("js-", Body(p, u, r), Dec(i), Body(p', u', r'), Dec(i'));
    DecInjective(i, i');
    BodyUnique(p, u, r, p', u', r');
  }

  lemma HeadedUnique(h: string, a: string, d: string, a': string, d': string)
    requires '-' !in d && '-' !in d' && h + a + "-" + d == h + a' + "-" + d'
    ensures a == a' && d == d'
  {
    CutLastUnique(h + a, '-', d, h + a', d');
    SameTail(h, a, a');
  }

  lemma SameTail(h: string, t: string, t': string)
    requires h + t == h + t'
    ensures t == t'
  {
    assert t == (h + t)[|h|..];
    assert t' == (h + t')[|h|..];
  }

  /** The legacy format keeps ten characters of the job name, which lets a job-name dash line up
      with the dash before another UID: two different slices, one name. */
  lemma LegacySliceNameAmbiguous()
    ensures UidLike("bbbbbbbb") && UidLike("aaaaaaaa")
    ensures LegacySliceName("x", "aaaaaaaa", "bbbbbbbb-c", 0) == LegacySliceName("x-aaaaaaaa", "bbbbbbbb", "c", 0)
  {
    assert Body("x", "aaaaaaaa", "bbbbbbbb-c") == Body("x-aaaaaaaa", "bbbbbbbb", "c");
  }

  /** The second reading of one text starts one UID later: the job part of the first is the UID, a dash
      and the job part of the second. */
  predicate Shifted(p: string, u: string, r: string, p': string, u': string, r': string) {
    r == u' + "-" + r' && p' == p + "-" + u
  }

  /** A longer job part is longer by exactly the UID and its dash. */
  lemma LongerIsShifted(p: string, u: string, r: string, p': string, u': string, r': string)
    requires |u| == |u'| == 8 && '-' !in u && '-' !in u'
    requires |r'| < |r| <= 10 && r' != ""
    requires Body(p, u, r) == Body(p', u', r')
    ensures Shifted(p, u, r, p', u', r')
  {
    var s := Body(p, u, r);
    var k, k' := |s| - |r| - 1, |s| - |r'| - 1;
    assert s[k] == '-' && s[k' - 9] == '-';
    assert forall x :: k' - 8 <= x < k' ==> s[x] == u'[x - (k' - 8)];
    assert |r'| == 1 && |r| == 10 && k == k' - 9;
    assert r == s[k + 1..] == u' + "-" + r';
    assert p + "-" + u == s[..k] == p';
  }

  lemma BodiesMeetIff(p: string, u: string, r: string, p': string, u': string, r': string)
    requires |u| == |u'| == 8 && '-' !in u && '-' !in u'
    requires r != "" && r' != "" && |r| <= 10 && |r'| <= 10
    ensures Body(p, u, r) == Body(p', u', r') <==>
            (p == p' && u == u' && r == r') || Shifted(p, u, r, p', u', r') || Shifted(p', u', r', p, u, r)
  {
    if Body(p, u, r) == Body(p', u', r') {
      if |r'| < |r| {
        LongerIsShifted(p, u, r, p', u', r');
      } else if |r| < |r'| {
        LongerIsShifted(p', u', r', p, u, r);
      } else {
        SameTails(p + "-" + u, r, p' + "-" + u', r');
        SameTails(p, u, p', u');
      }
    } else {
      if Shifted(p, u, r, p', u', r') { ShiftedMeet(p, u, r, p', u', r'); }
      if Shifted(p', u', r', p, u, r) { ShiftedMeet(p', u', r', p, u, r); }
    }
  }

  lemma SameTails(h: string, r: string, h': string, r': string)
    requires |r| == |r'| && h + "-" + r == h' + "-" + r'
    ensures h == h' && r == r'
  {
    var s := h + "-" + r;
    assert h == s[..|s| - |r| - 1] == h';
    assert r == s[|s| - |r|..] == r';
  }

  lemma ShiftedMeet(p: string, u: string, r: string, p': string, u': string, r': string)
    requires Shifted(p, u, r, p', u', r')
    ensures Body(p, u, r) == Body(p', u', r')
  {
  }

  /** Exactly when two legacy names are equal: index and all parts agree, or they are one UID apart. */
  lemma LegacySliceNamesMeetIff(js: string, uid: string, rj: string, i: nat,
                                js': string, uid': string, rj': string, i': nat)
    requires UidLike(uid) && UidLike(uid') && rj != "" && rj' != ""
    ensures LegacySliceName(js, uid, rj, i) == LegacySliceName(js', uid', rj', i') <==>
            var p, u, r := Prefix(js, 32), uid[..8], Prefix(rj, 10);
            var p', u', r' := Prefix(js', 32), uid'[..8], Prefix(rj', 10);
            i == i' && ((p == p' && u == u' && r == r') || Shifted(p, u, r, p', u', r') || Shifted(p', u', r', p, u, r))
  {
    var p, u, r, p', u', r' := Prefix(js, 32), uid[..8], Prefix(rj, 10), Prefix(js', 32), uid'[..8], Prefix(rj', 10);
    BodiesMeetIff(p, u, r, p', u', r');
    if LegacySliceName(js, uid, rj, i) == LegacySliceName(js', uid', rj', i') {
      HeadedUnique("js-", Body(p, u, r), Dec(i), Body(p', u', r'), Dec(i'));
      DecInjective(i, i');
    }
  }

  /** No dash where the dash of another UID could be. */
  predicate NoDashAtEight(rj: string) { |rj| > 8 ==> rj[8] != '-' }

  /** So legacy names decode as the new ones do as long as no job name has a dash at position eight. */
  lemma LegacySliceNameDecodable(js: string, uid: string, rj: string, i: nat,
                                 js': string, uid': string, rj': string, i': nat)
    requires UidLike(uid) && UidLike(uid') && rj != "" && rj' != "" && NoDashAtEight(rj) && NoDashAtEight(rj')
    ensures LegacySliceName(js, uid, rj, i) == LegacySliceName(js', uid', rj', i') <==>
            Prefix(js, 32) == Prefix(js', 32) && uid[..8] == uid'[..8] && Prefix(rj, 10) == Prefix(rj', 10) && i == i'
  {
    LegacySliceNamesMeetIff(js, uid, rj, i, js', uid', rj', i');
    ShiftNeedsDash(Prefix(js, 32), uid[..8], rj, Prefix(js', 32), uid'[..8], rj');
    ShiftNeedsDash(Prefix(js', 32), uid'[..8], rj', Prefix(js, 32), uid[..8], rj);
  }

  lemma ShiftNeedsDash(p: string, u: string, rj: string, p': string, u': string, rj': string)
    requires |u'| == 8
    ensures Shifted(p, u, Prefix(rj, 10), p', u', Prefix(rj', 10)) ==> |rj| > 8 && rj[8] == '-'
  {
    if Shifted(p, u, Prefix(rj, 10), p', u', Prefix(rj', 10)) { assert Prefix(rj, 10)[8] == rj[8]; }
  }

  /** The two formats meet for one owner only where nothing is cut off. */
  lemma NewMeetsLegacyIff(js: string, uid: string, rj: string, i: nat, rj': string, i': nat)
    requires UidLike(uid) && rj != "" && rj' != ""
    ensures SliceName(js, uid, rj, i) == LegacySliceName(js, uid, rj', i') <==>
            Prefix(js, 24) == Prefix(js, 32) && Prefix(rj, 8) == Prefix(rj', 10) && i == i'
  {
    var p, u, r, p', r' := Prefix(js, 24), uid[..8], Prefix(rj, 8), Prefix(js, 32), Prefix(rj', 10);
    BodiesMeetIff(p, u, r, p', u, r');
    if SliceName(js, uid, rj, i) == LegacySliceName(js, uid, rj', i') {
      HeadedUnique("js-", Body(p, u, r), Dec(i), Body(p', u, r'), Dec(i'));
      DecInjective(i, i');
    }
  }

  /** Legacy names of one owner are equal only for equal job parts and indices. */
  lemma OwnLegacyNamesMeetIff(js: string, uid: string, rj: string, i: nat, rj': string, i': nat)
    requires UidLike(uid) && rj != "" && rj' != ""
    ensures LegacySliceName(js, uid, rj, i) == LegacySliceName(js, uid, rj', i') <==>
              Prefix(rj, 10) == Prefix(rj', 10) && i == i'
  {
    LegacySliceNamesMeetIff(js, uid, rj, i, js, uid, rj', i');
  }

  /** A LeaderWorkerSet slice is the leader slice (no replica suffix) or the slice of worker group
      `replica`. */
  predicate LwsPart(component: string, replica: int) {
    (component == "leader" && replica == -1) || (component == "worker" && replica >= 0)
  }

  /** LeaderWorkerSet slice names, new and legacy, are uniquely decodable, up to truncation, with no
      demand on the dashes of the UID. */
  lemma LwsNameDecodable(limit: nat, n: string, uid: string, c: string, i: int,
                         limit': nat, n': string, uid': string, c': string, i': int)
    requires |uid| >= 8 && |uid'| >= 8 && LwsPart(c, i) && LwsPart(c', i')
    ensures LwsName(limit, n, uid, c, i) == LwsName(limit', n', uid', c', i') <==>
            Prefix(n, limit) == Prefix(n', limit') && uid[..8] == uid'[..8] && c == c' && i == i'
  {
    if LwsName(limit, n, uid, c, i) == LwsName(limit', n', uid', c', i') {
      var p, u, p', u' := Prefix(n, limit), uid[..8], Prefix(n', limit'), uid'[..8];
      var b, b' := LwsBody(p, u, c, i), LwsBody(p', u', c', i');
      var t, t' := LwsTail(c, i), LwsTail(c', i');
      LwsSplit(p, u, c, i);
      LwsSplit(p', u', c', i');
      HeadedUnique("lws-", b, t, b', t');
      assert IsDigit(t[0]) == (i >= 0) && IsDigit(t'[0]) == (i' >= 0);
      if i >= 0 {
        DecInjective(i, i');
        assert p + "-" + u == b[..|b| - 7] && p' + "-" + u' == b'[..|b'| - 7];
      }
      SameTails(p, u, p', u');
    }
  }

  lemma LWSSliceNameDecodable(n: string, uid: string, c: string, i: int, n': string, uid': string, c': string, i': int)
    requires |uid| >= 8 && |uid'| >= 8 && LwsPart(c, i) && LwsPart(c', i')
    ensures LWSSliceName(n, uid, c, i) == LWSSliceName(n', uid', c', i') <==>
            Prefix(n, 23) == Prefix(n', 23) && uid[..8] == uid'[..8] && c == c' && i == i'
  {
    LwsNameDecodable(23, n, uid, c, i, 23, n', uid', c', i');
  }

  /** The part of the name before its last dash, and the part after it. */
  function LwsBody(p: string, u: string, c: string, i: int): string {
    if i >= 0 then Body(p, u, c) else p + "-" + u
  }

  function LwsTail(c: string, i: int): string {
    if i >= 0 then Dec(i) else c
  }

  lemma LwsSplit(p: string, u: string, c: string, i: int)
    ensures "lws-" + Body(p, u, c) + (if i >= 0 then "-" + Dec(i) else "") ==
            "lws-" + LwsBody(p, u, c, i) + "-" + LwsTail(c, i)
  {
  }

  lemma KindsNeverMeet(js: string, uid: string, rj: string, i: int, n: string, uid': string, c: string, k: int)
    requires |uid| >= 8 && |uid'| >= 8
    ensures SliceName(js, uid, rj, i) != LWSSliceName(n, uid', c, k)
    ensures LegacySliceName(js, uid, rj, i) != LegacyLWSSliceName(n, uid', c, k)
    ensures SliceName(js, uid, rj, i) != LegacyLWSSliceName(n, uid', c, k)
    ensures LegacySliceName(js, uid, rj, i) != LWSSliceName(n, uid', c, k)
  {
    assert SliceName(js, uid, rj, i)[0] == 'j' == LegacySliceName(js, uid, rj, i)[0];
    assert LWSSliceName(n, uid', c, k)[0] == 'l' == LegacyLWSSliceName(n, uid', c, k)[0];
  }

  lemma DecLength(n: nat)
    ensures n < 100 ==> |Dec(n)| <= 2
    ensures n < 10000 ==> |Dec(n)| <= 4
  {
    if 10 <= n {
      assert n / 10 < 10 ==> |Dec(n / 10)| == 1;
      assert n / 100 < 10 ==> |Dec(n / 100)| == 1;
      assert n / 1000 < 10 ==> |Dec(n / 1000)| == 1;
      if 100 <= n { assert n / 10 / 10 == n / 100; }
      if 1000 <= n { assert n / 100 / 10 == n / 1000; }
    }
  }

  /** The 48-character limit holds exactly as documented: two-digit replicas for jobs, four-digit
      replicas for LeaderWorkerSets. */
  lemma NameLengths(js: string, uid: string, rj: string, i: nat, c: string, k: int)
    requires |uid| >= 8
    ensures i < 100 ==> |SliceName(js, uid, rj, i)| <= 48
    ensures LwsPart(c, k) && k < 10000 ==> |LWSSliceName(js, uid, c, k)| <= 48
  {
    DecLength(i);
    if k >= 0 { DecLength(k); }
  }

  /** Static node pool names: `%04d` keeps indices apart, with or without a configured prefix. */
  function SetNodePoolName(prefix: string, block: string, index: nat): string {
    if prefix != "" then prefix + "-" + Pad4(index) else block + "-subblock-" + Pad4(index)
  }

  lemma SetNodePoolNameInjective(prefix: string, block: string, i: nat, j: nat)
    requires SetNodePoolName(prefix, block, i) == SetNodePoolName(prefix, block, j)
    ensures i == j
  {
    var h := if prefix != "" then prefix + "-" else block + "-subblock-";
    assert SetNodePoolName(prefix, block, i) == h + Pad4(i);
    assert SetNodePoolName(prefix, block, j) == h + Pad4(j);
    SameTail(h, Pad4(i), Pad4(j));
    Pad4Injective(i, j);
  }

  // ---- The formats ----

  /** The names as they are printed: the kind, the first characters of the name, of the UID and of the part, and
      the index. */
  lemma NameFormats(name: string, uid: string, part: string, i: nat)
    requires |uid| >= 8
    ensures |name| <= 24 && |part| <= 8 ==>
              SliceName(name, uid, part, i) == "js-" + name + "-" + uid[..8] + "-" + part + "-" + Dec(i)
    ensures |name| <= 32 && |part| <= 10 ==>
              LegacySliceName(name, uid, part, i) == "js-" + name + "-" + uid[..8] + "-" + part + "-" + Dec(i)
    ensures |name| <= 23 ==>
              LWSSliceName(name, uid, part, i) == "lws-" + name + "-" + uid[..8] + "-" + part + "-" + Dec(i)
              && LWSSliceName(name, uid, part, -1) == "lws-" + name + "-" + uid[..8] + "-" + part
    ensures |name| <= 32 ==>
              LegacyLWSSliceName(name, uid, part, i) == "lws-" + name + "-" + uid[..8] + "-" + part + "-" + Dec(i)
              && LegacyLWSSliceName(name, uid, part, -1) == "lws-" + name + "-" + uid[..8] + "-" + part
  {
    ClosedBody(name, uid[..8], part, Dec(i));
  }

  lemma ClosedBody(name: string, u: string, part: string, i: string)
    ensures "js-" + Body(name, u, part) + "-" + i == "js-" + name + "-" + u + "-" + part + "-" + i
    ensures "lws-" + Body(name, u, part) + "-" + i == "lws-" + name + "-" + u + "-" + part + "-" + i
    ensures "lws-" + Body(name, u, part) + "" == "lws-" + name + "-" + u + "-" + part
    ensures "lws-" + Body(name, u, part) + ("-" + i) == "lws-" + name + "-" + u + "-" + part + "-" + i
  {
  }

  /** Of longer names only the first characters count: of a JobSet 24 and of its job 8, of a LeaderWorkerSet 23; in
      legacy names 32, 10 and 32. */
  lemma NamesAreCut(name: string, uid: string, part: string, i: int)
    requires |uid| >= 8
    ensures |name| > 24 ==> SliceName(name, uid, part, i) == SliceName(name[..24], uid, part, i)
    ensures |part| > 8 ==> SliceName(name, uid, part, i) == SliceName(name, uid, part[..8], i)
    ensures |name| > 32 ==> LegacySliceName(name, uid, part, i) == LegacySliceName(name[..32], uid, part, i)
    ensures |part| > 10 ==> LegacySliceName(name, uid, part, i) == LegacySliceName(name, uid, part[..10], i)
    ensures |name| > 23 ==> LWSSliceName(name, uid, part, i) == LWSSliceName(name[..23], uid, part, i)
    ensures |name| > 32 ==> LegacyLWSSliceName(name, uid, part, i) == LegacyLWSSliceName(name[..32], uid, part, i)
  {
  }

  /** Static pool names: the configured prefix, or the block and the word between, and the index in four digits. */
  lemma SetNodePoolNameFormat(prefix: string, block: string, i: nat)
    ensures prefix != "" ==> SetNodePoolName(prefix, block, i) == prefix + "-" + Pad4(i)
    ensures SetNodePoolName("", block, i) == block + "-subblock-" + Pad4(i)
    ensures Pad4(i) == Zeros(|Pad4(i)| - |Dec(i)|) + Dec(i) && (|Pad4(i)| == 4 || Pad4(i) == Dec(i))
  {
    Pad4Exactly(i);
  }
}

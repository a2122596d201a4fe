/** The size of a TPU slice: `tpuTopologyToNodeCount` and `tpuMachineType` (internal/cloud/gke.go), with
    64-bit wrap-around and double-precision rounding. */
module Topology {
  import opened Base
  import opened Text

  const V4 := "tpu-v4-podslice"
  const V5E := "tpu-v5-lite-podslice"
  const V5P := "tpu-v5p-slice"
  const V6E := "tpu-v6e-slice"
  const V7X := "tpu7x"

  function Arity(accelerator: string): Option<nat> {
    if accelerator == V4 || accelerator == V5P || accelerator == V7X then Some(3)
    else if accelerator == V5E || accelerator == V6E then Some(2)
    else None
  }

  // ---- Machine arithmetic ----

  /** Wrap-around to a signed 64-bit integer. */
  function Wrap(i: int): int {
    (i + 0x8000_0000_0000_0000) % 0x1_0000_0000_0000_0000 - 0x8000_0000_0000_0000
  }

  const TWO53: nat := 0x20_0000_0000_0000

  /** Whether `q` units and a rest of `r` are rounded up; of two multiples equally near, the even one wins. */
  predicate RoundsUp(q: nat, r: nat, unit: nat) {
    2 * r > unit || (2 * r == unit && q % 2 == 1)
  }

  function Rounded(q: nat, r: nat, unit: nat): nat {
    (q + if RoundsUp(q, r, unit) then 1 else 0) * unit
  }

  /** The nearest multiple of the unit. */
  function HalfEven(m: nat, unit: nat): nat
    requires unit > 0
  {
    Rounded(m / unit, m % unit, unit)
  }

  /** Rounding to a multiple of the smallest power-of-two unit that leaves 53 significant bits. */
  function RoundAt(m: nat, unit: nat): nat
    requires unit > 0
    decreases m - TWO53 * unit
  {
    if m < TWO53 * unit then HalfEven(m, unit) else RoundAt(m, 2 * unit)
  }

  /** `float64(i)`, which is an integer again. */
  function Float64(i: int): int {
    if i < 0 then 0 - RoundAt(-i, 1) else RoundAt(i, 1)
  }

  /** `int(math.Ceil(x / 4))`; dividing a double by 4 is exact. */
  function CeilQuarter(x: int): int { (x + 3) / 4 }

  // ---- The node count ----

  function Product(parts: seq<string>): Option<int> {
    if parts == [] then Some(1)
    else
      var before, x := Product(parts[..|parts| - 1]), Atoi(parts[|parts| - 1]);
      if before.None? || x.None? then None else Some(Wrap(before.value * x.value))
  }

  lemma {:induction false} ProductFails(parts: seq<string>, k: nat)
    requires k < |parts| && Atoi(parts[k]).None?
    ensures Product(parts).None?
  {
    if k < |parts| - 1 { ProductFails(parts[..|parts| - 1], k); }
  }

  lemma ProductSnoc(parts: seq<string>, last: string, v: int, x: int)
    requires Product(parts) == Some(v) && Atoi(last) == Some(x)
    ensures Product(parts + [last]) == Some(Wrap(v * x))
  {
    assert (parts + [last])[..|parts|] == parts;
  }

  function NodeCount(accelerator: string, topo: string): Option<int> {
    var arity, parts := Arity(accelerator), Split(topo, 'x');
    if arity.None? || |parts| != arity.value then None
    else
      var product := Product(parts);
      if product.None? then None else Some(CeilQuarter(Float64(product.value)))
  }

  method TpuTopologyToNodeCount(accelerator: string, topo: string) returns (r: Option<int>)
    ensures r == NodeCount(accelerator, topo)
  {
    var expectedDims := 0;
    if accelerator == V4 || accelerator == V5P || accelerator == V7X { expectedDims := 3; }
    else if accelerator == V5E || accelerator == V6E { expectedDims := 2; }
    else { return None; }
    var split := Split(topo, 'x');
    if |split| != expectedDims { return None; }
    var product := MultiplyAll(split);
    if product.None? { return None; }
    return Some(CeilQuarter(Float64(product.value)));
  }

  method MultiplyAll(split: seq<string>) returns (r: Option<int>)
    ensures r == Product(split)
  {
    var product := 1;
    for i := 0 to |split|
      invariant Product(split[..i]) == Some(product)
    {
      var x := Atoi(split[i]);
      if x.None? {
        ProductFails(split, i);
        return None;
      }
      ProductSnoc(split[..i], split[i], product, x.value);
      assert split[..i + 1] == split[..i] + [split[i]];
      product := Wrap(product * x.value);
    }
    assert split[..|split|] == split;
    return Some(product);
  }

  // ---- What it means ----

  function Print(dims: seq<nat>): string
    requires dims != []
  {
    if |dims| == 1 then Dec(dims[0]) else Dec(dims[0]) + "x" + Print(dims[1..])
  }

  lemma {:induction false} SplitPrint(dims: seq<nat>)
    requires dims != []
    ensures Split(Print(dims), 'x') == Map(Dec, dims)
  {
    if |dims| == 1 {
      SplitFirst(Dec(dims[0]), 'x', "");
    } else {
      SplitPrint(dims[1..]);
      SplitFirst(Dec(dims[0]), 'x', Print(dims[1..]));
      assert Map(Dec, dims) == [Dec(dims[0])] + Map(Dec, dims[1..]);
    }
  }

  /** The product of the dimensions, unbounded. */
  function Volume(dims: seq<nat>): nat {
    if dims == [] then 1 else Volume(dims[..|dims| - 1]) * dims[|dims| - 1]
  }

  predicate Positive(dims: seq<nat>) { forall k :: 0 <= k < |dims| ==> dims[k] > 0 }

  lemma FactorsAreSmaller(a: nat, b: nat)
    requires a > 0 && b > 0
    ensures a * b > 0 && a <= a * b && b <= a * b
  {
    assert a * (b - 1) >= 0 && (a - 1) * b >= 0;
  }

  lemma SmallDoesNotWrap(i: nat)
    requires i <= MAX_INT64
    ensures Wrap(i) == i
  {
  }

  lemma PartsAreSmaller(dims: seq<nat>)
    requires Positive(dims) && dims != []
    ensures Volume(dims[..|dims| - 1]) <= Volume(dims) && dims[|dims| - 1] <= Volume(dims)
  {
    VolumeIsPositive(dims[..|dims| - 1]);
    FactorsAreSmaller(Volume(dims[..|dims| - 1]), dims[|dims| - 1]);
  }

  lemma ProductStep(parts: seq<string>, v: nat, d: nat, p: nat)
    requires Product(parts) == Some(v) && d <= MAX_INT64 && p == v * d && p <= MAX_INT64
    ensures Product(parts + [Dec(d)]) == Some(p)
  {
    AtoiOfDec(d);
    ProductSnoc(parts, Dec(d), v, d);
    SmallDoesNotWrap(p);
  }

  lemma MapSnoc(dims: seq<nat>)
    requires dims != []
    ensures Map(Dec, dims) == Map(Dec, dims[..|dims| - 1]) + [Dec(dims[|dims| - 1])]
  {
  }

  lemma {:induction false} ProductIsVolume(dims: seq<nat>)
    requires Positive(dims) && Volume(dims) <= MAX_INT64
    ensures Product(Map(Dec, dims)) == Some(Volume(dims))
  {
    if dims != [] {
      var init, last := dims[..|dims| - 1], dims[|dims| - 1];
      PartsAreSmaller(dims);
      ProductIsVolume(init);
      MapSnoc(dims);
      ProductStep(Map(Dec, init), Volume(init), last, Volume(dims));
    }
  }

  lemma {:induction false} VolumeIsPositive(dims: seq<nat>)
    requires Positive(dims)
    ensures Volume(dims) > 0
  {
    if dims != [] {
      VolumeIsPositive(dims[..|dims| - 1]);
      FactorsAreSmaller(Volume(dims[..|dims| - 1]), dims[|dims| - 1]);
    }
  }

  lemma SmallIsExact(m: nat)
    requires m <= TWO53
    ensures Float64(m) == m
  {
    if m == TWO53 { assert RoundAt(m, 1) == RoundAt(m, 2); }
  }

  lemma CountOfPrinted(accelerator: string, dims: seq<nat>, product: int)
    requires dims != [] && Arity(accelerator) == Some(|dims|) && Product(Map(Dec, dims)) == Some(product)
    ensures NodeCount(accelerator, Print(dims)) == Some(CeilQuarter(Float64(product)))
  {
    SplitPrint(dims);
  }

  /** As long as the product fits 64 bits, only the rounding stands between it and the node count. */
  lemma CountOfVolume(accelerator: string, dims: seq<nat>, volume: nat)
    requires dims != [] && Arity(accelerator) == Some(|dims|) && Positive(dims) && Volume(dims) == volume <= MAX_INT64
    ensures NodeCount(accelerator, Print(dims)) == Some(CeilQuarter(Float64(volume)))
  {
    ProductIsVolume(dims);
    CountOfPrinted(accelerator, dims, volume);
  }

  lemma CeilQuarterIsLeast(v: int)
    ensures 4 * CeilQuarter(v) >= v && forall m: int :: 4 * m >= v ==> CeilQuarter(v) <= m
  {
  }

  /** For every topology of the accelerator's arity with at most 2^53 chips, the node count is the least
      number of four-chip nodes that hold them all. */
  lemma NodeCountIsLeast(accelerator: string, dims: seq<nat>)
    requires Arity(accelerator) == Some(|dims|) && Positive(dims) && Volume(dims) <= TWO53
    ensures NodeCount(accelerator, Print(dims)).Some?
    ensures var n := NodeCount(accelerator, Print(dims)).value;
            4 * n >= Volume(dims) && forall m: int :: 4 * m >= Volume(dims) ==> n <= m
  {
    CountOfVolume(accelerator, dims, Volume(dims));
    SmallIsExact(Volume(dims));
    CeilQuarterIsLeast(Volume(dims));
  }

  // ---- Exactly when the node count is right ----

  /** The unit to which a product is rounded. */
  function Unit(m: nat, unit: nat): (u: nat)
    requires unit > 0
    ensures u > 0
    decreases m - TWO53 * unit
  {
    if m < TWO53 * unit then unit else Unit(m, 2 * unit)
  }

  lemma {:induction false} RoundsToUnit(m: nat, unit: nat)
    requires unit > 0
    ensures RoundAt(m, unit) == HalfEven(m, Unit(m, unit))
    decreases m - TWO53 * unit
  {
    if m >= TWO53 * unit { RoundsToUnit(m, 2 * unit); }
  }

  predicate PowerOfTwo(u: nat) {
    u in {1, 2, 4, 8, 16, 32, 64, 128, 256, 512, 1024}
  }

  lemma {:induction false} UnitIsPower(m: nat, unit: nat)
    requires m <= MAX_INT64 && PowerOfTwo(unit)
    ensures PowerOfTwo(Unit(m, unit)) && m < TWO53 * Unit(m, unit)
    decreases m - TWO53 * unit
  {
    if m >= TWO53 * unit { UnitIsPower(m, 2 * unit); }
  }

  /** Rounding does not take the product to another group of four chips: it is a multiple of the unit, or it
      lies in the last four below one and is rounded up. */
  predicate KeepsItsNode(q: nat, r: nat, unit: nat) {
    r == 0 || (r >= unit - 3 && RoundsUp(q, r, unit))
  }

  lemma QuarterOfSum(unit: nat, v: nat, q: nat, r: nat)
    requires unit == 4 * v
    ensures CeilQuarter(q * unit + r) == v * q + CeilQuarter(r)
  {
    assert q * unit == 4 * (v * q);
  }

  lemma QuartersAgreeIff(v: nat, r: nat, up: bool)
    requires v >= 1 && r < 4 * v && (r == 0 ==> !up)
    requires r >= 4 * v - 3 && v > 1 ==> up
    ensures (if up then v else 0) == CeilQuarter(r) <==> r == 0 || (r >= 4 * v - 3 && up)
  {
  }

  lemma QuarterOfRounded(unit: nat, v: nat, q: nat, up: bool)
    requires unit == 4 * v
    ensures CeilQuarter((q + if up then 1 else 0) * unit) == v * q + if up then v else 0
  {
    QuarterOfSum(unit, v, q + if up then 1 else 0, 0);
    assert v * (q + 1) == v * q + v;
  }

  lemma QuotientsAgreeIff(unit: nat, v: nat, q: nat, r: nat, up: bool)
    requires unit == 4 * v && v >= 1 && r < unit && (r == 0 ==> !up) && (r >= unit - 3 && v > 1 ==> up)
    ensures CeilQuarter((q + if up then 1 else 0) * unit) == CeilQuarter(q * unit + r) <==>
              r == 0 || (r >= unit - 3 && up)
  {
    QuarterOfSum(unit, v, q, r);
    QuarterOfRounded(unit, v, q, up);
    QuartersAgreeIff(v, r, up);
  }

  lemma LargeUnits(unit: nat, v: nat, q: nat, r: nat)
    requires unit == 4 * v && v >= 1 && r < unit
    ensures CeilQuarter(Rounded(q, r, unit)) == CeilQuarter(q * unit + r) <==> KeepsItsNode(q, r, unit)
  {
    QuotientsAgreeIff(unit, v, q, r, RoundsUp(q, r, unit));
  }

  lemma DivideBack(volume: nat, unit: nat)
    requires unit > 0
    ensures (volume / unit) * unit + volume % unit == volume
  {
  }

  lemma SmallUnits(unit: nat, q: nat, r: nat)
    requires (unit == 1 || unit == 2) && r < unit
    ensures CeilQuarter(Rounded(q, r, unit)) == CeilQuarter(q * unit + r) <==> KeepsItsNode(q, r, unit)
  {
  }

  /** `KeepsItsNode` for a whole product. */
  predicate RoundsWell(volume: nat) {
    var unit := Unit(volume, 1);
    KeepsItsNode(volume / unit, volume % unit, unit)
  }

  lemma RoundingKeepsNodeIff(volume: nat)
    requires volume <= MAX_INT64
    ensures CeilQuarter(Float64(volume)) == CeilQuarter(volume) <==> RoundsWell(volume)
  {
    RoundsToUnit(volume, 1);
    UnitIsPower(volume, 1);
    var unit := Unit(volume, 1);
    var q, r := volume / unit, volume % unit;
    DivideBack(volume, unit);
    if unit >= 4 { LargeUnits(unit, unit / 4, q, r); } else { SmallUnits(unit, q, r); }
  }

  // Beyond 64 bits: what the wrapped product stands for is never the right number of nodes.

  lemma WrapShift(i: int, k: int)
    ensures Wrap(i + k * 0x1_0000_0000_0000_0000) == Wrap(i)
  {
  }

  lemma WrapOfProduct(a: int, b: int)
    ensures Wrap(Wrap(a) * b) == Wrap(a * b)
  {
    var m := 0x1_0000_0000_0000_0000;
    var k := (a + 0x8000_0000_0000_0000) / m;
    assert a == Wrap(a) + k * m;
    assert a * b == Wrap(a) * b + (k * b) * m;
    WrapShift(Wrap(a) * b, k * b);
  }

  /** The machine's product is the product wrapped once, if every dimension is a 64-bit number. */
  lemma {:induction false} ProductWraps(dims: seq<nat>)
    requires forall k :: 0 <= k < |dims| ==> dims[k] <= MAX_INT64
    ensures Product(Map(Dec, dims)) == Some(Wrap(Volume(dims)))
  {
    if dims != [] {
      var init, last := dims[..|dims| - 1], dims[|dims| - 1];
      ProductWraps(init);
      MapSnoc(dims);
      AtoiOfDec(last);
      ProductSnoc(Map(Dec, init), Dec(last), Wrap(Volume(init)), last);
      WrapOfProduct(Volume(init), last);
    }
  }

  lemma LargeDimensionFails(dims: seq<nat>, k: nat)
    requires k < |dims| && dims[k] > MAX_INT64
    ensures Product(Map(Dec, dims)).None?
  {
    var parts := Map(Dec, dims);
    ValueOfDec(dims[k]);
    assert IsDigit(Dec(dims[k])[0]);
    assert Atoi(parts[k]).None?;
    ProductFails(parts, k);
  }

  lemma FloatIsBounded(i: int)
    requires -MAX_INT64 - 1 <= i <= MAX_INT64
    ensures Float64(i) <= 0x8000_0000_0000_0000
    ensures i < 0 ==> Float64(i) <= 0
  {
    if i >= 0 {
      RoundsToUnit(i, 1);
      UnitIsPower(i, 1);
      HalfEvenBound(i, Unit(i, 1));
    }
  }

  lemma HalfEvenBound(m: nat, unit: nat)
    requires unit > 0 && m < TWO53 * unit
    ensures HalfEven(m, unit) <= TWO53 * unit
  {
    var q := m / unit;
    DivideBack(m, unit);
    SmallerFactor(q, TWO53, unit);
    assert (q + 1) * unit == q * unit + unit;
  }

  lemma SmallerFactor(a: nat, b: nat, unit: nat)
    requires a * unit < b * unit
    ensures (a + 1) * unit <= b * unit
  {
    assert a < b;
    assert (b - a - 1) * unit >= 0;
  }

  lemma OverflowIsWrong(volume: nat)
    requires volume > MAX_INT64
    ensures CeilQuarter(Float64(Wrap(volume))) < CeilQuarter(volume)
  {
    FloatIsBounded(Wrap(volume));
  }

  /** For all positive dimensions of the accelerator's arity: the result is the least number of four-chip
      nodes that hold them exactly when the product fits 64 bits and rounding it to a double leaves it among
      its four chips. */
  lemma NodeCountIsLeastIff(accelerator: string, dims: seq<nat>)
    requires dims != [] && Arity(accelerator) == Some(|dims|) && Positive(dims)
    ensures NodeCount(accelerator, Print(dims)) == Some(CeilQuarter(Volume(dims))) <==>
            Volume(dims) <= MAX_INT64 && RoundsWell(Volume(dims))
  {
    var volume := Volume(dims);
    if volume <= MAX_INT64 {
      CountOfVolume(accelerator, dims, volume);
      RoundingKeepsNodeIff(volume);
    } else if k :| 0 <= k < |dims| && dims[k] > MAX_INT64 {
      LargeDimensionFails(dims, k);
      CountFails(accelerator, dims);
    } else {
      ProductWraps(dims);
      CountOfPrinted(accelerator, dims, Wrap(volume));
      OverflowIsWrong(volume);
    }
  }

  lemma CountFails(accelerator: string, dims: seq<nat>)
    requires dims != [] && Product(Map(Dec, dims)).None?
    ensures NodeCount(accelerator, Print(dims)).None?
  {
    SplitPrint(dims);
  }

  /** The nodes a product between 2^53 and 2^54 loses. */
  function Lost(volume: nat): int { if volume % 4 == 1 then 1 else 0 }

  /** Between 2^53 and 2^54 chips, one node is missing exactly when the product is 1 modulo 4. */
  lemma OneChipBeyondIsLost(accelerator: string, dims: seq<nat>, volume: nat)
    requires dims != [] && Arity(accelerator) == Some(|dims|) && Positive(dims)
    requires Volume(dims) == volume && TWO53 <= volume < 2 * TWO53
    ensures NodeCount(accelerator, Print(dims)) == Some(CeilQuarter(volume) - Lost(volume))
  {
    CountOfVolume(accelerator, dims, volume);
    BeyondCount(volume);
  }

  lemma BeyondCount(volume: nat)
    requires TWO53 <= volume < 2 * TWO53
    ensures CeilQuarter(Float64(volume)) == CeilQuarter(volume) - Lost(volume)
  {
    RoundsToUnit(volume, 1);
    UnitIsTwo(volume);
    InFours(volume);
    RoundedFours(volume / 4, volume % 4);
  }

  lemma UnitIsTwo(volume: nat)
    requires TWO53 <= volume < 2 * TWO53
    ensures Unit(volume, 1) == 2
  {
    assert Unit(volume, 1) == Unit(volume, 2);
  }

  /** Halves and quarters of a number by its quotient and rest of four. */
  lemma InFours(v: nat)
    ensures v / 2 == 2 * (v / 4) + (if v % 4 >= 2 then 1 else 0)
    ensures v % 2 == (if v % 4 == 1 || v % 4 == 3 then 1 else 0)
    ensures CeilQuarter(v) == v / 4 + (if v % 4 == 0 then 0 else 1)
  {
  }

  lemma RoundedFours(k: nat, r: nat)
    requires r < 4
    ensures CeilQuarter(Rounded(2 * k + (if r >= 2 then 1 else 0), if r == 1 || r == 3 then 1 else 0, 2)) ==
            k + (if r <= 1 then 0 else 1)
  {
    if r <= 1 {
      assert Rounded(2 * k, r, 2) == 4 * k;
    } else if r == 2 {
      assert Rounded(2 * k + 1, 0, 2) == 4 * k + 2;
    } else {
      assert Rounded(2 * k + 1, 1, 2) == 4 * k + 4;
    }
  }

  /** There is such a topology with 2^53 + 1 chips. */
  lemma OneChipBeyond()
    ensures Volume([3, 107, 28059810762433]) == TWO53 + 1
  {
    VolumeOfTwo(3, 107);
    var dims: seq<nat> := [3, 107, 28059810762433];
    assert dims[..2] == [3, 107];
  }

  lemma VolumeOfTwo(a: nat, b: nat)
    ensures Volume([a, b]) == a * b
  {
    assert [a, b][..1] == [a] && [a][..0] == [];
    assert Volume([a]) == a;
  }

  lemma ProductOfTwo(a: nat, b: nat)
    requires a <= MAX_INT64 && b <= MAX_INT64
    ensures Product([Dec(a), Dec(b)]) == Some(Wrap(a * b))
  {
    AtoiOfDec(a);
    AtoiOfDec(b);
    ProductSnoc([], Dec(a), 1, a);
    assert [] + [Dec(a)] == [Dec(a)];
    SmallDoesNotWrap(a);
    ProductSnoc([Dec(a)], Dec(b), a, b);
    assert [Dec(a)] + [Dec(b)] == [Dec(a), Dec(b)];
  }

  /** Beyond 64 bits the product wraps around: 2^64 chips ask for no node at all. */
  lemma OverflowAsksForNothing(a: nat, b: nat)
    requires a <= MAX_INT64 && b <= MAX_INT64 && a * b == 0x1_0000_0000_0000_0000
    ensures NodeCount(V5E, Print([a, b])) == Some(0)
  {
    ProductOfTwo(a, b);
    assert Map(Dec, [a, b]) == [Dec(a), Dec(b)];
    CountOfPrinted(V5E, [a, b], 0);
  }

  // ---- Machine types ----

  function Family(accelerator: string): Option<string> {
    if accelerator == V4 then Some("ct4p-hightpu")
    else if accelerator == V5E then Some("ct5lp-hightpu")
    else if accelerator == V5P then Some("ct5p-hightpu")
    else if accelerator == V6E then Some("ct6e-standard")
    else if accelerator == V7X then Some("tpu7x-standard")
    else None
  }

  function MachineType(accelerator: string, tpuRequest: int): Option<string> {
    if tpuRequest < 1 || Family(accelerator).None? then None
    else Some(Family(accelerator).value + "-" + (Dec(tpuRequest) + "t"))
  }

  lemma FamiliesDiffer(a: string, b: string)
    requires Family(a).Some? && Family(a) == Family(b)
    ensures a == b
  {
    var f := Family(a).value;
    assert "ct4p-hightpu"[2] == '4' && "ct5lp-hightpu"[2] == '5' && "ct5p-hightpu"[2] == '5'
           && "ct6e-standard"[2] == '6';
    assert "ct5lp-hightpu"[3] == 'l' && "ct5p-hightpu"[3] == 'p' && "tpu7x-standard"[2] == 'u';
    assert f[2] == f[2];
  }

  /** A machine type names one accelerator and one number of chips. */
  lemma MachineTypeInjective(a: string, i: int, b: string, j: int)
    requires MachineType(a, i).Some? && MachineType(a, i) == MachineType(b, j)
    ensures a == b && i == j
  {
    CutLastUnique(Family(a).value, '-', Dec(i) + "t", Family(b).value, Dec(j) + "t");
    FamiliesDiffer(a, b);
    assert Dec(i) == (Dec(i) + "t")[..|Dec(i)|];
    assert Dec(j) == (Dec(j) + "t")[..|Dec(j)|];
    DecInjective(i, j);
  }

  // ---- The accelerators ----

  /** A topology has a node count exactly when it is made of numbers, three for a v4, a v5p or a 7x and two for a v5e
      or a v6e. */
  lemma NodeCountIff(accelerator: string, topo: string)
    ensures NodeCount(accelerator, topo).Some? <==>
            && (forall part :: part in Split(topo, 'x') ==> Atoi(part).Some?)
            && (if accelerator in ["tpu-v4-podslice", "tpu-v5p-slice", "tpu7x"] then |Split(topo, 'x')| == 3
                else accelerator in ["tpu-v5-lite-podslice", "tpu-v6e-slice"] && |Split(topo, 'x')| == 2)
  {
    ProductIff(Split(topo, 'x'));
  }

  lemma {:induction false} ProductIff(parts: seq<string>)
    ensures Product(parts).Some? <==> forall part :: part in parts ==> Atoi(part).Some?
  {
    if parts != [] {
      ProductIff(parts[..|parts| - 1]);
      assert parts == parts[..|parts| - 1] + [parts[|parts| - 1]];
    }
  }

  /** The machines of each accelerator, by the number of chips; no other accelerator has any. */
  lemma MachineTypes(accelerator: string, chips: int)
    ensures MachineType(accelerator, chips) ==
            if chips < 1 then None
            else match accelerator
              case "tpu-v4-podslice" => Some("ct4p-hightpu-" + Dec(chips) + "t")
              case "tpu-v5-lite-podslice" => Some("ct5lp-hightpu-" + Dec(chips) + "t")
              case "tpu-v5p-slice" => Some("ct5p-hightpu-" + Dec(chips) + "t")
              case "tpu-v6e-slice" => Some("ct6e-standard-" + Dec(chips) + "t")
              case "tpu7x" => Some("tpu7x-standard-" + Dec(chips) + "t")
              case _ => None
  {
    if chips >= 1 {
      var d := Dec(chips);
      assert "ct4p-hightpu" + "-" == "ct4p-hightpu-" && "ct5lp-hightpu" + "-" == "ct5lp-hightpu-";
      assert "ct5p-hightpu" + "-" == "ct5p-hightpu-" && "ct6e-standard" + "-" == "ct6e-standard-";
      assert "tpu7x-standard" + "-" == "tpu7x-standard-";
      if Family(accelerator).Some? { Regrouped(Family(accelerator).value + "-", d); }
    }
  }

  lemma Regrouped(head: string, d: string)
    ensures head + (d + "t") == head + d + "t"
  {
  }
}

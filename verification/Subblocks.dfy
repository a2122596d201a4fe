/** From the ConfigMap's reservations to desired pools: `ParseSubBlocks` (internal/cloud/gke.go) and
    `constructDesiredNodePools` (internal/controller/static_nodepool_controller.go). */
module Subblocks {
  import opened Base
  import opened Text
  import opened Names
  import opened NodePools

  datatype GscBlock = GscBlock(name: string, subblocks: string, prefix: string)

  datatype Reservation = Reservation(name: string, blocks: seq<GscBlock>)

  datatype Range = Range(first: int, last: int)

  function ParseSubBlocks(s: string): Option<Range> {
    if '-' !in s then
      var i := Atoi(s);
      if i.None? then None else Some(Range(i.value, i.value))
    else
      var parts := Split(s, '-');
      if |parts| != 2 then None
      else
        var first, last := Atoi(parts[0]), Atoi(parts[1]);
        if first.None? || last.None? || first.value > last.value then None else Some(Range(first.value, last.value))
  }

  /** What parses is a range of natural numbers. */
  lemma ParsedRangesAreNatural(s: string)
    requires ParseSubBlocks(s).Some?
    ensures 0 <= ParseSubBlocks(s).value.first <= ParseSubBlocks(s).value.last
  {
    if '-' in s {
      var parts := Split(s, '-');
      assert parts[0] in parts && parts[1] in parts;
    }
  }

  /** Parsing inverts the zero-padded printing of a range and of a single index. */
  lemma ParseInvertsPrinting(a: nat, b: nat)
    requires a <= b <= MAX_INT64
    ensures ParseSubBlocks(Pad4(a) + "-" + Pad4(b)) == Some(Range(a, b))
    ensures ParseSubBlocks(Pad4(a)) == Some(Range(a, a))
  {
    AtoiOfPad4(a);
    AtoiOfPad4(b);
    ParsesAs(Pad4(a), Pad4(b), a, b);
  }

  lemma ParsesAs(first: string, last: string, a: int, b: int)
    requires '-' !in first && '-' !in last
    requires Atoi(first) == Some(a) && Atoi(last) == Some(b) && a <= b
    ensures ParseSubBlocks(first + "-" + last) == Some(Range(a, b))
    ensures ParseSubBlocks(first) == Some(Range(a, a))
  {
    SplitFirst(first, '-', last);
    SplitFirst(last, '-', "");
    assert (first + "-" + last)[|first|] == '-';
  }

  /** What parses, exactly: a number, or two numbers in order with one dash between them. */
  lemma ParsesExactly(s: string, first: int, last: int)
    ensures ParseSubBlocks(s) == Some(Range(first, last)) <==>
            || ('-' !in s && Atoi(s) == Some(first) && first == last)
            || (exists a, b :: '-' !in a && '-' !in b && s == a + "-" + b
                               && Atoi(a) == Some(first) && Atoi(b) == Some(last) && first <= last)
  {
    forall a, b | '-' !in a && '-' !in b && s == a + "-" + b
      ensures '-' in s && Split(s, '-') == [a, b]
    {
      SplitFirst(a, '-', b);
      SplitFirst(b, '-', "");
      assert s[|a|] == '-';
    }
    if '-' in s && |Split(s, '-')| == 2 {
      var parts := Split(s, '-');
      assert parts[0] in parts && parts[1] in parts;
      SplitJoins(s, '-');
      assert s == parts[0] + "-" + parts[1];
    }
  }

  function SubblockName(block: string, i: nat): string { block + "-subblock-" + Pad4(i) }

  function SubblockPath(project: string, reservation: string, block: string, i: nat): string {
    "projects/" + project + "/reservations/" + Tail(reservation, block, SubblockName(block, i))
  }

  function Tail(reservation: string, block: string, subblock: string): string {
    reservation + "/" + ("reservationBlocks/" + (block + "/" + ("reservationSubBlocks/" + subblock)))
  }

  function PoolAt(project: string, reservation: string, b: GscBlock, i: nat, config: Config): DesiredPool {
    DesiredPool(SetNodePoolName(b.prefix, b.name, i), SubblockPath(project, reservation, b.name, i), config)
  }

  /** The pools of the first `n` indices of a range. */
  function BlockPools(project: string, reservation: string, b: GscBlock, first: nat, n: nat,
                      config: Config): seq<DesiredPool> {
    seq(n, k requires 0 <= k < n => PoolAt(project, reservation, b, first + k, config))
  }

  datatype Placed = Placed(reservation: string, block: GscBlock)

  function PlacedIn(r: Reservation, n: nat): (ps: seq<Placed>)
    requires n <= |r.blocks|
    ensures |ps| == n
  {
    if n == 0 then [] else PlacedIn(r, n - 1) + [Placed(r.name, r.blocks[n - 1])]
  }

  function Flatten(rs: seq<Reservation>): seq<Placed> {
    if rs == [] then [] else Flatten(rs[..|rs| - 1]) + PlacedIn(rs[|rs| - 1], |rs[|rs| - 1].blocks|)
  }

  /** The pools of one block, or nothing when its range does not parse. */
  function PoolsOf(project: string, p: Placed, config: Config): Option<seq<DesiredPool>> {
    var range := ParseSubBlocks(p.block.subblocks);
    if range.None? then None
    else
      ParsedRangesAreNatural(p.block.subblocks);
      Some(BlockPools(project, p.reservation, p.block, range.value.first, range.value.last - range.value.first + 1,
                      config))
  }

  function Expand(project: string, ps: seq<Placed>, config: Config): Option<seq<DesiredPool>> {
    if ps == [] then Some([])
    else
      var before := Expand(project, ps[..|ps| - 1], config);
      var added := PoolsOf(project, ps[|ps| - 1], config);
      if before.None? || added.None? then None else Some(before.value + added.value)
  }

  lemma {:induction false} ExpandFailsOn(project: string, a: seq<Placed>, b: seq<Placed>, config: Config)
    requires a <= b && Expand(project, a, config).None?
    ensures Expand(project, b, config).None?
  {
    if a != b { ExpandFailsOn(project, a, b[..|b| - 1], config); }
  }

  lemma ExpandSnoc(project: string, ps: seq<Placed>, p: Placed, config: Config)
    ensures Expand(project, ps + [p], config) ==
            var before, added := Expand(project, ps, config), PoolsOf(project, p, config);
            if before.None? || added.None? then None else Some(before.value + added.value)
  {
    assert (ps + [p])[..|ps|] == ps;
  }

  lemma {:induction false} FlattenPrefix(rs: seq<Reservation>, j: nat)
    requires j <= |rs|
    ensures Flatten(rs[..j]) <= Flatten(rs)
  {
    if j < |rs| {
      FlattenPrefix(rs[..|rs| - 1], j);
      assert rs[..|rs| - 1][..j] == rs[..j];
    } else {
      assert rs[..j] == rs;
    }
  }

  lemma {:induction false} PlacedPrefix(r: Reservation, k: nat, n: nat)
    requires k <= n <= |r.blocks|
    ensures PlacedIn(r, k) <= PlacedIn(r, n)
  {
    if k < n { PlacedPrefix(r, k, n - 1); }
  }

  method ConstructDesiredNodePools(project: string, rs: seq<Reservation>, config: Config)
    returns (r: Option<seq<DesiredPool>>)
    ensures r == Expand(project, Flatten(rs), config)
  {
    r := Some([]);
    for j := 0 to |rs|
      invariant r.Some? && Expand(project, Flatten(rs[..j]), config) == r
    {
      assert rs[..j + 1][..j] == rs[..j];
      r := AddReservation(project, Flatten(rs[..j]), rs[j], config, r.value);
      if r.None? {
        FlattenPrefix(rs, j + 1);
        ExpandFailsOn(project, Flatten(rs[..j + 1]), Flatten(rs), config);
        return;
      }
    }
    assert rs[..|rs|] == rs;
  }

  /** The loop over the blocks of one reservation. */
  method AddReservation(project: string, ghost before: seq<Placed>, rsv: Reservation, config: Config,
                        desired0: seq<DesiredPool>)
    returns (r: Option<seq<DesiredPool>>)
    requires Expand(project, before, config) == Some(desired0)
    ensures r == Expand(project, before + PlacedIn(rsv, |rsv.blocks|), config)
  {
    r := Some(desired0);
    assert before + PlacedIn(rsv, 0) == before;
    for k := 0 to |rsv.blocks|
      invariant r.Some? && Expand(project, before + PlacedIn(rsv, k), config) == r
    {
      var p := Placed(rsv.name, rsv.blocks[k]);
      ExpandSnoc(project, before + PlacedIn(rsv, k), p, config);
      assert before + PlacedIn(rsv, k) + [p] == before + PlacedIn(rsv, k + 1);
      r := AddBlock(project, p, config, r.value);
      if r.None? {
        ReservationFailsOn(project, before, rsv, k + 1, config);
        return;
      }
    }
  }

  lemma ReservationFailsOn(project: string, before: seq<Placed>, rsv: Reservation, k: nat, config: Config)
    requires k <= |rsv.blocks| && Expand(project, before + PlacedIn(rsv, k), config).None?
    ensures Expand(project, before + PlacedIn(rsv, |rsv.blocks|), config).None?
  {
    PlacedPrefix(rsv, k, |rsv.blocks|);
    ExpandFailsOn(project, before + PlacedIn(rsv, k), before + PlacedIn(rsv, |rsv.blocks|), config);
  }

  /** One block: parse its range, then the loop over its indices. */
  method AddBlock(project: string, p: Placed, config: Config, desired0: seq<DesiredPool>)
    returns (r: Option<seq<DesiredPool>>)
    ensures r == var added := PoolsOf(project, p, config); if added.None? then None else Some(desired0 + added.value)
  {
    var range := ParseSubBlocks(p.block.subblocks);
    if range.None? { return None; }
    ParsedRangesAreNatural(p.block.subblocks);
    var desired := AddRange(project, p, range.value.first, range.value.last, config, desired0);
    return Some(desired);
  }

  method AddRange(project: string, p: Placed, first: nat, last: nat, config: Config, desired0: seq<DesiredPool>)
    returns (desired: seq<DesiredPool>)
    requires first <= last
    ensures desired == desired0 + BlockPools(project, p.reservation, p.block, first, last - first + 1, config)
  {
    desired := desired0;
    var i := first;
    while i <= last
      invariant first <= i <= last + 1
      invariant desired == desired0 + BlockPools(project, p.reservation, p.block, first, i - first, config)
    {
      desired := desired + [PoolAt(project, p.reservation, p.block, i, config)];
      i := i + 1;
    }
  }

  // ---- Counting and distinctness ----

  function RangeSize(s: string): nat {
    if ParseSubBlocks(s).None? then 0
    else
      ParsedRangesAreNatural(s);
      ParseSubBlocks(s).value.last - ParseSubBlocks(s).value.first + 1
  }

  function TotalSize(ps: seq<Placed>): nat {
    if ps == [] then 0 else TotalSize(ps[..|ps| - 1]) + RangeSize(ps[|ps| - 1].block.subblocks)
  }

  predicate InRange(s: string, i: nat) {
    ParseSubBlocks(s).Some? && ParseSubBlocks(s).value.first <= i <= ParseSubBlocks(s).value.last
  }

  ghost predicate IsPoolOf(project: string, p: Placed, config: Config, d: DesiredPool) {
    exists i: nat :: InRange(p.block.subblocks, i) && d == PoolAt(project, p.reservation, p.block, i, config)
  }

  lemma BlockIsExact(project: string, p: Placed, config: Config)
    requires PoolsOf(project, p, config).Some?
    ensures |PoolsOf(project, p, config).value| == RangeSize(p.block.subblocks)
    ensures forall d :: d in PoolsOf(project, p, config).value <==> IsPoolOf(project, p, config, d)
  {
    var added := PoolsOf(project, p, config).value;
    ParsedRangesAreNatural(p.block.subblocks);
    var first := ParseSubBlocks(p.block.subblocks).value.first;
    forall d ensures d in added <==> IsPoolOf(project, p, config, d) {
      if i: nat :| InRange(p.block.subblocks, i) && d == PoolAt(project, p.reservation, p.block, i, config) {
        assert added[i - first] == d;
      }
      if d in added {
        var k :| 0 <= k < |added| && added[k] == d;
        assert InRange(p.block.subblocks, first + k);
      }
    }
  }

  ghost predicate IsPoolOfSome(project: string, ps: seq<Placed>, config: Config, d: DesiredPool) {
    exists p :: p in ps && IsPoolOf(project, p, config, d)
  }

  /** `ds` holds exactly the pools of the blocks `ps`. */
  ghost predicate AreThePools(project: string, ps: seq<Placed>, config: Config, ds: seq<DesiredPool>) {
    forall d :: d in ds <==> IsPoolOfSome(project, ps, config, d)
  }

  lemma JoinIsExact(project: string, ps: seq<Placed>, last: Placed, config: Config, a: seq<DesiredPool>)
    requires AreThePools(project, ps, config, a) && PoolsOf(project, last, config).Some?
    ensures AreThePools(project, ps + [last], config, a + PoolsOf(project, last, config).value)
  {
    BlockIsExact(project, last, config);
    var b := PoolsOf(project, last, config).value;
    forall d ensures d in a + b <==> IsPoolOfSome(project, ps + [last], config, d) {
      if p :| p in ps && IsPoolOf(project, p, config, d) { assert p in ps + [last]; }
      if IsPoolOf(project, last, config, d) { assert last in ps + [last]; }
    }
  }

  lemma {:induction false} PlacedMembers(r: Reservation, n: nat, p: Placed)
    requires n <= |r.blocks|
    ensures p in PlacedIn(r, n) <==> p.reservation == r.name && p.block in r.blocks[..n]
  {
    if n > 0 {
      PlacedMembers(r, n - 1, p);
      assert r.blocks[..n] == r.blocks[..n - 1] + [r.blocks[n - 1]];
    }
  }

  lemma {:induction false} FlattenMembers(rs: seq<Reservation>, p: Placed)
    ensures p in Flatten(rs) <==> exists r :: r in rs && p.reservation == r.name && p.block in r.blocks
  {
    if rs != [] {
      var init, last := rs[..|rs| - 1], rs[|rs| - 1];
      assert rs == init + [last];
      FlattenMembers(init, p);
      PlacedMembers(last, |last.blocks|, p);
      assert last.blocks[..|last.blocks|] == last.blocks;
    }
  }

  /** `d` is the pool of index `i` of block `b`: named after the block's prefix, or after the block where it has
      none, and on that subblock of the reservation. */
  predicate IsIndexPool(project: string, reservation: string, b: GscBlock, i: nat, config: Config, d: DesiredPool) {
    && (if b.prefix != "" then d.name == b.prefix + "-" + Pad4(i) else d.name == b.name + "-subblock-" + Pad4(i))
    && d.subblock == SubblockPath(project, reservation, b.name, i) && d.config == config
  }

  lemma PoolAtExactly(project: string, reservation: string, b: GscBlock, i: nat, config: Config, d: DesiredPool)
    ensures d == PoolAt(project, reservation, b, i, config) <==> IsIndexPool(project, reservation, b, i, config, d)
  {
    SetNodePoolNameFormat(b.prefix, b.name, i);
  }

  /** The desired pools are exactly those of the indices of all blocks of all reservations. */
  lemma DesiredPoolsExactly(project: string, rs: seq<Reservation>, config: Config, d: DesiredPool)
    requires Expand(project, Flatten(rs), config).Some?
    ensures d in Expand(project, Flatten(rs), config).value <==>
            exists r, b, i: nat :: r in rs && b in r.blocks && InRange(b.subblocks, i)
                                   && IsIndexPool(project, r.name, b, i, config, d)
  {
    var ps := Flatten(rs);
    ExpansionMembers(project, ps, config);
    if d in Expand(project, ps, config).value {
      var p :| p in ps && IsPoolOf(project, p, config, d);
      var i: nat :| InRange(p.block.subblocks, i) && d == PoolAt(project, p.reservation, p.block, i, config);
      FlattenMembers(rs, p);
      var r :| r in rs && p.reservation == r.name && p.block in r.blocks;
      PoolAtExactly(project, r.name, p.block, i, config, d);
    }
    forall r, b, i: nat | r in rs && b in r.blocks && InRange(b.subblocks, i)
                          && IsIndexPool(project, r.name, b, i, config, d)
      ensures d in Expand(project, ps, config).value
    {
      var p := Placed(r.name, b);
      FlattenMembers(rs, p);
      PoolAtExactly(project, r.name, b, i, config, d);
      assert IsPoolOf(project, p, config, d) && IsPoolOfSome(project, ps, config, d);
    }
  }

  /** And there is no such list exactly when the range of some block does not parse. */
  lemma {:induction false} ExpansionFailsIff(project: string, ps: seq<Placed>, config: Config)
    ensures Expand(project, ps, config).None? <==> exists p :: p in ps && ParseSubBlocks(p.block.subblocks).None?
  {
    if ps != [] {
      var init, last := ps[..|ps| - 1], ps[|ps| - 1];
      assert ps == init + [last];
      ExpansionFailsIff(project, init, config);
    }
  }

  lemma {:induction false} ExpansionSize(project: string, ps: seq<Placed>, config: Config)
    requires Expand(project, ps, config).Some?
    ensures |Expand(project, ps, config).value| == TotalSize(ps)
  {
    if ps != [] {
      ExpansionSize(project, ps[..|ps| - 1], config);
      BlockIsExact(project, ps[|ps| - 1], config);
    }
  }

  lemma {:induction false} ExpansionMembers(project: string, ps: seq<Placed>, config: Config)
    requires Expand(project, ps, config).Some?
    ensures AreThePools(project, ps, config, Expand(project, ps, config).value)
  {
    if ps != [] {
      var init, last := ps[..|ps| - 1], ps[|ps| - 1];
      ExpansionMembers(project, init, config);
      JoinIsExact(project, init, last, config, Expand(project, init, config).value);
      assert ps == init + [last];
    }
  }

  /** The expansion has exactly one pool per index of each range, and nothing else. */
  lemma ExpansionIsExact(project: string, ps: seq<Placed>, config: Config)
    requires Expand(project, ps, config).Some?
    ensures |Expand(project, ps, config).value| == TotalSize(ps)
    ensures AreThePools(project, ps, config, Expand(project, ps, config).value)
  {
    ExpansionSize(project, ps, config);
    ExpansionMembers(project, ps, config);
  }

  /** Subblock paths tell reservation, block and index apart when names contain no slash. */
  lemma SubblockPathInjective(project: string, r: string, b: string, i: nat, r': string, b': string, i': nat)
    requires '/' !in r && '/' !in r' && '/' !in b && '/' !in b'
    requires SubblockPath(project, r, b, i) == SubblockPath(project, r', b', i')
    ensures r == r' && b == b' && i == i'
  {
    SameTail("projects/" + project + "/reservations/", Tail(r, b, SubblockName(b, i)),
             Tail(r', b', SubblockName(b', i')));
    var t := b + "/" + ("reservationSubBlocks/" + SubblockName(b, i));
    var t' := b' + "/" + ("reservationSubBlocks/" + SubblockName(b', i'));
    CutUnique(r, '/', "reservationBlocks/" + t, r', "reservationBlocks/" + t');
    SameTail("reservationBlocks/", t, t');
    CutUnique(b, '/', "reservationSubBlocks/" + SubblockName(b, i), b', "reservationSubBlocks/" + SubblockName(b', i'));
    SameTail("reservationSubBlocks/", SubblockName(b, i), SubblockName(b', i'));
    SameTail(b + "-subblock-", Pad4(i), Pad4(i'));
    Pad4Injective(i, i');
  }

  lemma TailParts(r: string, b: string, name: string)
    requires '/' !in r && '/' !in b && '/' !in name
    ensures Split(Tail(r, b, name), '/') == [r, "reservationBlocks", b, "reservationSubBlocks", name]
  {
    SplitFirst(name, '/', "");
    OneMorePart("reservationSubBlocks", name, [name]);
    assert "reservationSubBlocks" + "/" == "reservationSubBlocks/" && "reservationBlocks" + "/" == "reservationBlocks/";
    var rest := b + "/" + ("reservationSubBlocks/" + name);
    OneMorePart(b, "reservationSubBlocks/" + name, ["reservationSubBlocks", name]);
    OneMorePart("reservationBlocks", rest, [b, "reservationSubBlocks", name]);
    assert Tail(r, b, name) == r + "/" + ("reservationBlocks/" + rest);
    OneMorePart(r, "reservationBlocks/" + rest, ["reservationBlocks", b, "reservationSubBlocks", name]);
  }

  lemma PathParts(project: string, tail: string, parts: seq<string>)
    requires '/' !in project && Split(tail, '/') == parts
    ensures Split("projects" + "/" + (project + "/" + ("reservations" + "/" + tail)), '/') ==
            ["projects"] + ([project] + (["reservations"] + parts))
  {
    OneMorePart("reservations", tail, parts);
    OneMorePart(project, "reservations" + "/" + tail, ["reservations"] + parts);
    OneMorePart("projects", project + "/" + ("reservations" + "/" + tail), [project] + (["reservations"] + parts));
  }

  /** A subblock path has eight parts: the project, the reservation, the block and the subblock, each after the
      name of its collection; the subblock is named after its block and its index in four digits. */
  lemma SubblockPathParts(project: string, r: string, b: string, i: nat)
    requires '/' !in project && '/' !in r && '/' !in b
    ensures Split(SubblockPath(project, r, b, i), '/') ==
            ["projects", project, "reservations", r, "reservationBlocks", b, "reservationSubBlocks",
             b + "-subblock-" + Pad4(i)]
  {
    var name := SubblockName(b, i);
    NoSlashInName(b, i);
    TailParts(r, b, name);
    PathParts(project, Tail(r, b, name), [r, "reservationBlocks", b, "reservationSubBlocks", name]);
    PathRegrouped(project, r, b, i);
  }

  lemma NoSlashInName(b: string, i: nat)
    requires '/' !in b
    ensures '/' !in SubblockName(b, i)
  {
    assert '/' !in "-subblock-" && '/' !in Pad4(i);
  }

  lemma OneMorePart(head: string, rest: string, parts: seq<string>)
    requires '/' !in head && Split(rest, '/') == parts
    ensures Split(head + "/" + rest, '/') == [head] + parts
  {
    SplitFirst(head, '/', rest);
  }

  lemma PathRegrouped(project: string, r: string, b: string, i: nat)
    ensures var tail := Tail(r, b, SubblockName(b, i));
            SubblockPath(project, r, b, i) == "projects" + "/" + (project + "/" + ("reservations" + "/" + tail))
  {
    Regrouped(project, Tail(r, b, SubblockName(b, i)));
  }

  lemma Regrouped(project: string, tail: string)
    ensures "projects/" + project + "/reservations/" + tail ==
            "projects" + "/" + (project + "/" + ("reservations" + "/" + tail))
  {
    assert "reservations" + "/" == "reservations/" && "projects" + "/" == "projects/";
    assert "/" + ("reservations/" + tail) == "/reservations/" + tail;
  }

  lemma PoolsDiffer(project: string, reservation: string, b: GscBlock, i: nat, j: nat, config: Config)
    requires '/' !in reservation && '/' !in b.name && i != j
    ensures PoolAt(project, reservation, b, i, config).subblock != PoolAt(project, reservation, b, j, config).subblock
    ensures PoolAt(project, reservation, b, i, config).name != PoolAt(project, reservation, b, j, config).name
  {
    if SubblockPath(project, reservation, b.name, i) == SubblockPath(project, reservation, b.name, j) {
      SubblockPathInjective(project, reservation, b.name, i, reservation, b.name, j);
    }
    if SetNodePoolName(b.prefix, b.name, i) == SetNodePoolName(b.prefix, b.name, j) {
      SetNodePoolNameInjective(b.prefix, b.name, i, j);
    }
  }

  /** Within one block, distinct indices give distinct pools: distinct names and distinct subblocks. */
  lemma BlockPoolsAreDistinct(project: string, p: Placed, config: Config)
    requires '/' !in p.reservation && '/' !in p.block.name && PoolsOf(project, p, config).Some?
    ensures DistinctSubblocks(PoolsOf(project, p, config).value)
    ensures DistinctPoolNames(PoolsOf(project, p, config).value)
  {
    var first, n := RangePools(project, p, config);
    RangePoolsAreDistinct(project, p.reservation, p.block, first, n, config);
  }

  lemma RangePools(project: string, p: Placed, config: Config) returns (first: nat, n: nat)
    requires PoolsOf(project, p, config).Some?
    ensures PoolsOf(project, p, config).value == BlockPools(project, p.reservation, p.block, first, n, config)
    ensures n == RangeSize(p.block.subblocks)
  {
    ParsedRangesAreNatural(p.block.subblocks);
    var range := ParseSubBlocks(p.block.subblocks).value;
    first, n := range.first, range.last - range.first + 1;
  }

  lemma RangePoolsAreDistinct(project: string, reservation: string, b: GscBlock, first: nat, n: nat, config: Config)
    requires '/' !in reservation && '/' !in b.name
    ensures DistinctSubblocks(BlockPools(project, reservation, b, first, n, config))
    ensures DistinctPoolNames(BlockPools(project, reservation, b, first, n, config))
  {
    var ds := BlockPools(project, reservation, b, first, n, config);
    forall i, j | 0 <= i < j < |ds| ensures ds[i].subblock != ds[j].subblock && ds[i].name != ds[j].name {
      ItemsDiffer(project, reservation, b, first + i, first + j, config, ds[i], ds[j]);
    }
  }

  lemma ItemsDiffer(project: string, reservation: string, b: GscBlock, i: nat, j: nat, config: Config,
                    d: DesiredPool, e: DesiredPool)
    requires '/' !in reservation && '/' !in b.name && i != j
    requires d == PoolAt(project, reservation, b, i, config) && e == PoolAt(project, reservation, b, j, config)
    ensures d.subblock != e.subblock && d.name != e.name
  {
    PoolsDiffer(project, reservation, b, i, j, config);
  }

  predicate NoSlash(ps: seq<Placed>) {
    forall p :: p in ps ==> '/' !in p.reservation && '/' !in p.block.name
  }

  predicate DistinctBlocks(ps: seq<Placed>) {
    forall i, j :: 0 <= i < j < |ps| ==> ps[i].reservation != ps[j].reservation || ps[i].block.name != ps[j].block.name
  }

  predicate DistinctPoolNames(ds: seq<DesiredPool>) {
    forall i, j :: 0 <= i < j < |ds| ==> ds[i].name != ds[j].name
  }

  predicate DistinctSubblocks(ds: seq<DesiredPool>) {
    forall i, j :: 0 <= i < j < |ds| ==> ds[i].subblock != ds[j].subblock
  }

  lemma BlocksAreApart(project: string, p: Placed, q: Placed, config: Config, d: DesiredPool, e: DesiredPool)
    requires '/' !in p.reservation && '/' !in p.block.name && '/' !in q.reservation && '/' !in q.block.name
    requires p.reservation != q.reservation || p.block.name != q.block.name
    requires IsPoolOf(project, p, config, d) && IsPoolOf(project, q, config, e)
    ensures d.subblock != e.subblock
  {
    var i: nat :| InRange(p.block.subblocks, i) && d == PoolAt(project, p.reservation, p.block, i, config);
    var j: nat :| InRange(q.block.subblocks, j) && e == PoolAt(project, q.reservation, q.block, j, config);
    if d.subblock == e.subblock {
      SubblockPathInjective(project, p.reservation, p.block.name, i, q.reservation, q.block.name, j);
    }
  }

  lemma JoinDistinct(a: seq<DesiredPool>, b: seq<DesiredPool>)
    requires DistinctSubblocks(a) && DistinctSubblocks(b)
    requires forall d, e :: d in a && e in b ==> d.subblock != e.subblock
    ensures DistinctSubblocks(a + b)
  {
    var all := a + b;
    forall i, j | 0 <= i < j < |all| ensures all[i].subblock != all[j].subblock {
      if i < |a| && j >= |a| { assert a[i] in a && b[j - |a|] in b; }
    }
  }

  lemma BlockApartFromOthers(project: string, ps: seq<Placed>, last: Placed, config: Config, d: DesiredPool,
                             e: DesiredPool)
    requires NoSlash(ps + [last]) && DistinctBlocks(ps + [last])
    requires IsPoolOfSome(project, ps, config, d) && IsPoolOf(project, last, config, e)
    ensures d.subblock != e.subblock
  {
    var all := ps + [last];
    var p :| p in ps && IsPoolOf(project, p, config, d);
    var x :| 0 <= x < |ps| && ps[x] == p;
    assert all[x] == p && all[|ps|] == last && p in all && last in all;
    BlocksAreApart(project, p, last, config, d, e);
  }

  /** So no two desired pools ask for the same subblock when no (reservation, block) pair is repeated. */
  lemma {:induction false} SubblocksAreDistinct(project: string, ps: seq<Placed>, config: Config)
    requires Expand(project, ps, config).Some? && NoSlash(ps) && DistinctBlocks(ps)
    ensures DistinctSubblocks(Expand(project, ps, config).value)
  {
    if ps != [] {
      var init, last := ps[..|ps| - 1], ps[|ps| - 1];
      assert ps == init + [last];
      SubblocksAreDistinct(project, init, config);
      var a, b := Expand(project, init, config).value, PoolsOf(project, last, config).value;
      BlockPoolsAreDistinct(project, last, config);
      ExpansionIsExact(project, init, config);
      BlockIsExact(project, last, config);
      forall d, e | d in a && e in b ensures d.subblock != e.subblock {
        BlockApartFromOthers(project, init, last, config, d, e);
      }
      JoinDistinct(a, b);
    }
  }
}

/** The imperative reconcilers over a mutable API server. Each is proved to do exactly what the pass
    machine of `Cluster` does, for every script of replies. */
module Reconcilers {
  import opened Base
  import opened Slices
  import opened Desired
  import opened Cluster

  /** Owners under a JobSet key are JobSets, all others are LeaderWorkerSets. */
  predicate Typed(st: Store) {
    forall k :: k in st.owners ==> (k.kind.JobSetKind? <==> st.owners[k].spec.JobSetSpec?)
  }

  lemma CheckedIsCreated(key: OwnerKey, p: Policy, ctx: Context, st: Store, todo: seq<Slice>, skipped: bool,
                         script: seq<Reply>)
    requires todo != []
    ensures var (st', status) := CreateOp(st, todo[0], Head(script));
            Drain(key, p, st, Checking(ctx, todo, |todo[0].partitions|, skipped), script) ==
            if status.Ok? then Drain(key, p, st', NextCreate(key, p, ctx, todo[1..], skipped), Tail(script))
            else Final(st', Failed, Tail(script))
  {
  }

  /** The client the reconcilers are handed. `script` holds the network's replies still to come. */
  class Client {
    var owners: map<OwnerKey, Owner>
    var slices: map<string, Slice>
    var clock: int
    var script: seq<Reply>

    function St(): Store
      reads this
    {
      Store(owners, slices, clock)
    }

    method Next() returns (r: Reply)
      modifies this`script
      ensures r == Head(old(script)) && script == Tail(old(script))
    {
      r := Head(script);
      script := Tail(script);
    }

    method Get(key: OwnerKey) returns (status: Reported, owner: Option<Owner>)
      modifies this`script
      ensures script == Tail(old(script))
      ensures status == if Head(old(script)).Lost? || Head(old(script)).Unacked? then Error
                        else if key in owners then Ok else NotFound
      ensures owner == if status.Ok? then Some(owners[key]) else None
    {
      var r := Next();
      if r.Lost? || r.Unacked? { return Error, None; }
      if key !in owners { return NotFound, None; }
      return Ok, Some(owners[key]);
    }

    method List(key: OwnerKey) returns (status: Reported, items: seq<Slice>)
      modifies this`script
      ensures script == Tail(old(script))
      ensures status == if Head(old(script)).Items? && IsListing(St(), key, Head(old(script)).slices) then Ok else Error
      ensures status.Ok? ==> items == Head(old(script)).slices
    {
      var r := Next();
      if r.Items? && IsListing(St(), key, r.slices) { return Ok, r.slices; }
      return Error, [];
    }

    method ListByPartition(id: string) returns (status: Reported, overlap: bool)
      modifies this`script
      ensures script == Tail(old(script))
      ensures status == if Head(old(script)).Lost? || Head(old(script)).Unacked? then Error else Ok
      ensures status.Ok? ==> (overlap <==> Holds(St(), id))
    {
      var r := Next();
      if r.Lost? || r.Unacked? { return Error, false; }
      return Ok, Holds(St(), id);
    }

    method Delete(name: string) returns (status: Reported)
      modifies this
      ensures script == Tail(old(script))
      ensures (St(), status) == DeleteOp(old(St()), name, Head(old(script)))
    {
      var r := Next();
      if r.Lost? { return Error; }
      if name !in slices { return if r.Unacked? then Error else NotFound; }
      slices := slices[name := slices[name].(terminating := true)];
      return Answer(r);
    }

    method Create(s: Slice) returns (status: Reported)
      modifies this
      ensures script == Tail(old(script))
      ensures (St(), status) == CreateOp(old(St()), s, Head(old(script)))
    {
      var r := Next();
      if r.Lost? || s.name in slices { return Error; }
      slices := slices[s.name := s.(created := clock)];
      return Answer(r);
    }

    /** The patch response carries the object as the server now has it. */
    method AddFinalizer(key: OwnerKey) returns (status: Reported, owner: Option<Owner>)
      modifies this
      ensures script == Tail(old(script))
      ensures (St(), status) == AddFinalizerOp(old(St()), key, Head(old(script)))
      ensures owner == if status.Ok? then Some(owners[key]) else None
    {
      var r := Next();
      if r.Lost? || key !in owners || owners[key].deleting { return Error, None; }
      owners := owners[key := owners[key].(finalizer := true)];
      status := Answer(r);
      owner := if status.Ok? then Some(owners[key]) else None;
    }

    method RemoveFinalizer(key: OwnerKey) returns (status: Reported)
      modifies this
      ensures script == Tail(old(script))
      ensures (St(), status) == RemoveFinalizerOp(old(St()), key, Head(old(script)))
    {
      var r := Next();
      if r.Lost? || key !in owners { return Error; }
      var o := owners[key].(finalizer := false);
      if o.deleting && !o.otherFinalizers { owners := owners - {key}; } else { owners := owners[key := o]; }
      return Answer(r);
    }

    method PatchSuspend(key: OwnerKey, value: bool) returns (status: Reported)
      modifies this
      ensures script == Tail(old(script))
      ensures (St(), status) == SuspendOp(old(St()), key, value, Head(old(script)))
    {
      var r := Next();
      if r.Lost? || key !in owners { return Error; }
      owners := owners[key := owners[key].(suspend := Some(value))];
      return Answer(r);
    }

    /** `applySliceChanges`: delete what changed, then create what is missing and does not overlap. */
    method ApplySliceChanges(key: OwnerKey, p: Policy, ghost ctx: Context, toDelete: seq<Slice>, toCreate: seq<Slice>)
      returns (requeueAfter: int, ok: bool)
      requires toDelete == ctx.plan.toDelete && toCreate == ctx.plan.toCreate
      modifies this
      ensures owners == old(owners) && clock == old(clock)
      ensures requeueAfter == 0 || requeueAfter == SECOND
      ensures Drain(key, p, old(St()), NextDelete(key, p, ctx, toDelete), old(script)) ==
              if ok then Drain(key, p, St(), AfterApply(key, p, ctx, requeueAfter != 0), script)
              else Final(St(), Failed, script)
    {
      var deleted := DeleteChanged(key, p, ctx, toDelete);
      if !deleted { return 0, false; }
      requeueAfter, ok := CreateMissing(key, p, ctx, toCreate);
    }

    /** The first loop of `applySliceChanges`. */
    method DeleteChanged(key: OwnerKey, p: Policy, ghost ctx: Context, toDelete: seq<Slice>) returns (ok: bool)
      modifies this
      ensures owners == old(owners) && clock == old(clock)
      ensures Drain(key, p, old(St()), NextDelete(key, p, ctx, toDelete), old(script)) ==
              if ok then Drain(key, p, St(), NextCreate(key, p, ctx, ctx.plan.toCreate, false), script)
              else Final(St(), Failed, script)
    {
      ghost var goal := Drain(key, p, St(), NextDelete(key, p, ctx, toDelete), script);
      assert toDelete[0..] == toDelete;
      for i := 0 to |toDelete|
        invariant owners == old(owners) && clock == old(clock)
        invariant Drain(key, p, St(), NextDelete(key, p, ctx, toDelete[i..]), script) == goal
      {
        assert toDelete[i..][1..] == toDelete[i + 1..];
        if toDelete[i].terminating { continue; }
        var status := Delete(toDelete[i].name);
        if !status.Ok? { return false; }
      }
      return true;
    }

    /** The second loop of `applySliceChanges`. */
    method CreateMissing(key: OwnerKey, p: Policy, ghost ctx: Context, toCreate: seq<Slice>)
      returns (requeueAfter: int, ok: bool)
      modifies this
      ensures owners == old(owners) && clock == old(clock)
      ensures requeueAfter == 0 || requeueAfter == SECOND
      ensures Drain(key, p, old(St()), NextCreate(key, p, ctx, toCreate, false), old(script)) ==
              if ok then Drain(key, p, St(), AfterApply(key, p, ctx, requeueAfter != 0), script)
              else Final(St(), Failed, script)
    {
      requeueAfter := 0;
      ghost var goal := Drain(key, p, St(), NextCreate(key, p, ctx, toCreate, false), script);
      assert toCreate[0..] == toCreate;
      for i := 0 to |toCreate|
        invariant owners == old(owners) && clock == old(clock)
        invariant requeueAfter == 0 || requeueAfter == SECOND
        invariant Drain(key, p, St(), NextCreate(key, p, ctx, toCreate[i..], requeueAfter != 0), script) == goal
      {
        assert toCreate[i..][1..] == toCreate[i + 1..];
        var slice := toCreate[i];
        var listed, skipped := CheckOverlap(key, p, ctx, toCreate[i..], requeueAfter != 0);
        if !listed { return 0, false; }
        if skipped {
          requeueAfter := SECOND;
          continue;
        }
        CheckedIsCreated(key, p, ctx, St(), toCreate[i..], requeueAfter != 0, script);
        var status := Create(slice);
        if !status.Ok? { return 0, false; }
      }
      ok := true;
    }

    /** The overlap loop of one creation: stops at the first partition that some slice holds. */
    method CheckOverlap(key: OwnerKey, p: Policy, ghost ctx: Context, todo: seq<Slice>, ghost before: bool)
      returns (listed: bool, skipped: bool)
      requires todo != []
      modifies this`script
      ensures Drain(key, p, St(), Checking(ctx, todo, 0, before), old(script)) ==
              if !listed then Final(St(), Failed, script)
              else if skipped then Drain(key, p, St(), NextCreate(key, p, ctx, todo[1..], true), script)
              else Drain(key, p, St(), Checking(ctx, todo, |todo[0].partitions|, before), script)
    {
      ghost var goal := Drain(key, p, St(), Checking(ctx, todo, 0, before), script);
      var ids := todo[0].partitions;
      for k := 0 to |ids|
        invariant Drain(key, p, St(), Checking(ctx, todo, k, before), script) == goal
      {
        var status, overlap := ListByPartition(ids[k]);
        if !status.Ok? { return false, false; }
        if overlap { return true, true; }
      }
      return true, false;
    }

    /** `handleSyncMode` */
    method HandleSyncMode(key: OwnerKey, p: Policy, ghost ctx: Context, ghost skipped: bool, owner: Owner,
                          desired: seq<Slice>, existing: seq<Slice>, legacy: map<string, string>)
      returns (ok: bool)
      requires key.kind.JobSetKind? && owner == ctx.owner && owner.mode == "sync"
      requires desired == ctx.wanted.slices && existing == ctx.listed && legacy == ctx.wanted.legacy
      modifies this
      ensures Drain(key, p, old(St()), AfterApply(key, p, ctx, skipped), old(script)) ==
              if ok then Drain(key, p, St(), Finish(ctx, skipped), script) else Final(St(), Failed, script)
      ensures Typed(old(St())) ==> Typed(St())
    {
      var ready := AllSlicesReady(desired, existing, legacy, p.unknownActiveIsReady);
      var suspended := owner.suspend.Some? && owner.suspend.value;
      if ready && suspended {
        var status := PatchSuspend(key, false);
        return status.Ok?;
      } else if !ready && !suspended {
        var status := PatchSuspend(key, true);
        return status.Ok?;
      }
      return true;
    }

    /** The deletion loop both reconcilers run for an owner that goes away. */
    method CleanUp(key: OwnerKey, p: Policy, owner: Owner, items: seq<Slice>) returns (result: Result)
      modifies this
      ensures Drain(key, p, old(St()), NextClean(owner, items), old(script)) == Final(St(), result, script)
    {
      ghost var goal := Drain(key, p, St(), NextClean(owner, items), script);
      assert items[0..] == items;
      for i := 0 to |items|
        invariant Drain(key, p, St(), NextClean(owner, items[i..]), script) == goal
      {
        assert items[i..][1..] == items[i + 1..];
        if !items[i].terminating {
          var status := Delete(items[i].name);
          if status.Error? { return Failed; }
        }
      }
      if owner.finalizer {
        var status := RemoveFinalizer(key);
        if !status.Ok? { return Failed; }
      }
      return Succeeded(0);
    }

    /** Adding our finalizer to an owner that lacks it. */
    method EnsureFinalizer(key: OwnerKey, p: Policy, ghost items: seq<Slice>, owner: Owner)
      returns (ok: bool, updated: Owner)
      requires Typed(St())
      modifies this
      ensures Drain(key, p, old(St()), AddingFinalizer(owner, items), old(script)) ==
              if ok then Drain(key, p, St(), Planned(key, p, updated, items), script) else Final(St(), Failed, script)
      ensures ok ==> key in owners && updated == owners[key] && Typed(St())
    {
      var patched, patchedOwner := AddFinalizer(key);
      if !patched.Ok? { return false, owner; }
      return true, patchedOwner.value;
    }

    /** The JobSet reconciler. */
    method ReconcileJobSet(key: OwnerKey, p: Policy) returns (result: Result)
      requires key.kind.JobSetKind? && Typed(St())
      modifies this
      ensures Final(St(), result, script) == Drain(key, p, old(St()), Fetching, old(script))
    {
      ghost var goal := Drain(key, p, St(), Fetching, script);
      var got, fetched := Get(key);
      if got.NotFound? { return Succeeded(0); }
      if !got.Ok? { return Failed; }
      var js := fetched.value;
      assert Drain(key, p, St(), Listing(js), script) == goal;
      var listed, items := List(key);
      if !listed.Ok? { return Failed; }
      assert Drain(key, p, St(), AfterList(key, p, js, items), script) == goal;
      if js.deleting || js.finished {
        result := CleanUp(key, p, js, items);
        return;
      }
      if !js.finalizer {
        var added, updated := EnsureFinalizer(key, p, items, js);
        if !added { return Failed; }
        js := updated;
      }
      assert Drain(key, p, St(), Planned(key, p, js, items), script) == goal;
      var wanted := JobSetSlices(key, js.spec.js);
      if wanted.None? { return Succeeded(0); }
      var w := wanted.value;
      var toDelete, toCreate, diffRequeue := DiffSlices(w.slices, items, w.legacy, p);
      ghost var ctx := Context(js, items, w, Plan(toDelete, toCreate, diffRequeue));
      var applyRequeue, ok := ApplySliceChanges(key, p, ctx, toDelete, toCreate);
      if !ok { return Failed; }
      if js.mode == "sync" {
        var synced := HandleSyncMode(key, p, ctx, applyRequeue != 0, js, w.slices, items, w.legacy);
        if !synced { return Failed; }
      }
      return Succeeded(MinDuration(diffRequeue, applyRequeue));
    }

    /** The LeaderWorkerSet reconciler: clean-up comes before the mode check, and there is no sync
        mode. */
    method ReconcileLws(key: OwnerKey, p: Policy) returns (result: Result)
      requires key.kind.LwsKind? && Typed(St())
      modifies this
      ensures Final(St(), result, script) == Drain(key, p, old(St()), Fetching, old(script))
    {
      ghost var goal := Drain(key, p, St(), Fetching, script);
      var got, fetched := Get(key);
      if got.NotFound? { return Succeeded(0); }
      if !got.Ok? { return Failed; }
      var lws := fetched.value;
      assert Drain(key, p, St(), Listing(lws), script) == goal;
      var listed, items := List(key);
      if !listed.Ok? { return Failed; }
      assert Drain(key, p, St(), AfterList(key, p, lws, items), script) == goal;
      if lws.deleting {
        result := CleanUp(key, p, lws, items);
        return;
      }
      if lws.mode != "async" { return Succeeded(0); }
      if !lws.finalizer {
        var added, updated := EnsureFinalizer(key, p, items, lws);
        if !added { return Failed; }
        lws := updated;
      }
      assert Drain(key, p, St(), Planned(key, p, lws, items), script) == goal;
      var wanted := LwsSlices(key, lws.spec.lws);
      if wanted.None? { return Succeeded(0); }
      var w := wanted.value;
      var toDelete, toCreate, diffRequeue := DiffSlices(w.slices, items, w.legacy, p);
      ghost var ctx := Context(lws, items, w, Plan(toDelete, toCreate, diffRequeue));
      var applyRequeue, ok := ApplySliceChanges(key, p, ctx, toDelete, toCreate);
      if !ok { return Failed; }
      return Succeeded(MinDuration(diffRequeue, applyRequeue));
    }
  }
}

/** The controller's reconcile pass: compare the workloads serve wants with the
    engine's objects and act on the difference. It keeps no state of its own. */
module Controller {
  import opened Faults
  import opened Options
  import opened Decimal
  import opened Workloads

  /** An engine object; since is its creation while running, its finish once exited. */
  datatype Observed = Observed(running: bool, exitCode: int, since: int)

  type Objects = map<Bytes, Observed>

  const UNLABELLED: Bytes := []

  function Get(objects: Objects, id: Bytes): Option<Observed> {
    if id in objects then Some(objects[id]) else None
  }

  // ---------- what one reconcile should do ----------

  /** The state an exited object calls for. */
  function Finished(o: Observed): State {
    if o.exitCode != 0 then Failed else Exited
  }

  predicate Doomed(w: Workload) {
    w.stopped || w.state == Expired
  }

  /** The state the pass reports for w, None when it leaves w alone. */
  function Verdict(w: Workload, obj: Option<Observed>, now: int, grace: nat): Option<State> {
    if Doomed(w) then Some(Removed)
    else match obj
      case None =>
        if w.state != Approved then None else if !w.supported then Some(Failed) else Some(Running)
      case Some(o) =>
        if o.running then (if w.state == Running then None else Some(Running))
        else if w.state != Finished(o) then Some(Finished(o))
        else if now - o.since < grace then None
        else Some(Removed)
  }

  function NextWorkload(w: Workload, obj: Option<Observed>, now: int, grace: nat): Workload {
    match Verdict(w, obj, now, grace)
    case None => w
    case Some(s) => SetState(w, now, s, "controller")
  }

  function NextObject(w: Workload, obj: Option<Observed>, now: int, grace: nat): Option<Observed> {
    match Verdict(w, obj, now, grace)
    case Some(Removed) => None
    case Some(Running) => if obj.None? then Some(Observed(true, 0, now)) else obj
    case _ => obj
  }

  /** An object without a live request, past its grace. */
  predicate Orphaned(id: Bytes, o: Observed, now: int, grace: nat) {
    id != UNLABELLED && now - o.since >= grace
  }

  ghost predicate DistinctIds(ws: seq<Workload>) {
    forall i, j :: 0 <= i < j < |ws| ==> ws[i].id != ws[j].id
  }

  ghost predicate Visible(ws: seq<Workload>, id: Bytes) {
    exists i :: 0 <= i < |ws| && ws[i].id == id && ControllerVisible(ws[i])
  }

  /** ws' differs from ws at most in record i, up to the expiry sweep, which any
      report may bring forward. */
  ghost predicate OnlyRecord(ws: seq<Workload>, ws': seq<Workload>, i: nat, now: int) {
    && |ws'| == |ws|
    && (forall k :: 0 <= k < |ws| ==> ws'[k].id == ws[k].id)
    && (forall k :: 0 <= k < |ws| && k != i ==> ExpireOne(ws'[k], now) == ExpireOne(ws[k], now))
  }

  /** Record and object i are as an error-free reconcile leaves them. */
  ghost predicate Reconciled(ws: seq<Workload>, objects: Objects, now: int, grace: nat, ws': seq<Workload>, objects': Objects, i: nat)
    requires i < |ws| == |ws'|
  {
    if ControllerVisible(ws[i]) then
      && ExpireOne(ws'[i], now) == ExpireOne(NextWorkload(ws[i], Get(objects, ws[i].id), now, grace), now)
      && Get(objects', ws[i].id) == NextObject(ws[i], Get(objects, ws[i].id), now, grace)
    else ExpireOne(ws'[i], now) == ws[i]
  }

  /** One pass: ws are the records as read, swept. Whatever failed for some IDs,
      everything else is as an error-free pass leaves it. */
  ghost predicate PassedBut(failed: set<Bytes>, ws: seq<Workload>, objects: Objects, now: int, grace: nat, ws': seq<Workload>, objects': Objects) {
    && |ws'| == |ws|
    && (forall i :: 0 <= i < |ws| ==>
          ws'[i].id == ws[i].id && (ws[i].id !in failed ==> Reconciled(ws, objects, now, grace, ws', objects', i)))
    && (forall id :: !Visible(ws, id) ==>
          Get(objects', id) == if id in objects && Orphaned(id, objects[id], now, grace) && id !in failed then None else Get(objects, id))
  }

  /** One error-free pass. */
  ghost predicate Passed(ws: seq<Workload>, objects: Objects, now: int, grace: nat, ws': seq<Workload>, objects': Objects) {
    PassedBut({}, ws, objects, now, grace, ws', objects')
  }

  /** A pass would do nothing. */
  ghost predicate Settled(ws: seq<Workload>, objects: Objects, now: int, grace: nat) {
    && (forall i :: 0 <= i < |ws| && ControllerVisible(ws[i]) ==> Verdict(ws[i], Get(objects, ws[i].id), now, grace).None?)
    && (forall id :: id in objects && !Visible(ws, id) ==> !Orphaned(id, objects[id], now, grace))
  }

  // ---------- the pass ----------

  /** What a pass can change: the records, the objects and the engine's call count. */
  datatype Picture = Picture(workloads: seq<Workload>, objects: Objects, calls: nat)

  /** The engine: it changes only through these calls, which may fail unless
      the times are calm. calls counts them; failed are the IDs for which a call
      to the engine, or a report to the store, failed in this pass, and lost
      counts the reports that did. */
  class Engine {
    const calm: bool
    var objects: Objects
    var calls: nat
    ghost var failed: set<Bytes>
    ghost var lost: nat

    constructor (calm: bool)
      ensures this.calm == calm && objects == map[] && calls == 0 && failed == {}
    {
      this.calm := calm;
      objects, calls, failed, lost := map[], 0, {}, 0;
    }

    method Start(id: Bytes, now: int) returns (ok: bool)
      modifies this
      ensures calls == old(calls) + 1
      ensures ok ==> id !in old(objects) && objects == old(objects)[id := Observed(true, 0, now)]
      ensures !ok ==> objects == old(objects)
      ensures failed == old(failed) + (if ok then {} else {id}) && lost == old(lost)
      ensures calm && id !in old(objects) ==> ok
    {
      calls := calls + 1;
      var refused := Disturbed(calm);
      ok := !refused && id !in objects;
      if ok {
        objects := objects[id := Observed(true, 0, now)];
      } else {
        failed := failed + {id};
      }
    }

    method Delete(id: Bytes) returns (ok: bool)
      modifies this
      ensures calls == old(calls) + 1
      ensures objects == if ok then old(objects) - {id} else old(objects)
      ensures failed == old(failed) + (if ok then {} else {id}) && lost == old(lost)
      ensures calm ==> ok
    {
      calls := calls + 1;
      var refused := Disturbed(calm);
      ok := !refused;
      if ok {
        objects := objects - {id};
      } else {
        failed := failed + {id};
      }
    }
  }

  /** The report reaches the store, which sweeps and then records it, or is lost on the way. */
  method SendReport(store: WorkloadStore, engine: Engine, p: Policy, ghost i: nat, id: Bytes, state: State, now: int) returns (ok: bool)
    requires i < |store.workloads| && store.workloads[i].id == id && DistinctIds(store.workloads)
    requires ReportedState(state) && ControllerVisible(ExpireOne(store.workloads[i], now))
    modifies store, engine`failed, engine`lost
    ensures OnlyRecord(old(store.workloads), store.workloads, i, now)
    ensures engine.failed == old(engine.failed) + if ok then {} else {id}
    ensures engine.lost == old(engine.lost) + if ok then 0 else 1
    ensures !ok ==> store.workloads == old(store.workloads)
    ensures ok ==> store.workloads[i] == SetState(ExpireOne(old(store.workloads)[i], now), now, state, "controller")
    ensures engine.calm ==> ok
  {
    ReportLands(p, store.Contents(), i, state, now);
    var lost := Disturbed(engine.calm);
    if lost {
      engine.failed, engine.lost := engine.failed + {id}, engine.lost + 1;
      return false;
    }
    ok := store.Update(p, Report(id, state, now), now);
  }

  lemma FindIs(ws: seq<Workload>, i: nat)
    requires DistinctIds(ws) && i < |ws|
    ensures Find(ws, ws[i].id) == i
  {
    var k := Find(ws, ws[i].id);
    assert k <= i;
  }

  lemma ReportLands(p: Policy, f: File, i: nat, state: State, now: int)
    requires DistinctIds(f.workloads) && i < |f.workloads|
    requires ReportedState(state) && ControllerVisible(ExpireOne(f.workloads[i], now))
    ensures Applies(f, Report(f.workloads[i].id, state, now), now)
    ensures var ws' := Apply(p, f, Report(f.workloads[i].id, state, now), now).workloads;
      OnlyRecord(f.workloads, ws', i, now) && ws'[i] == SetState(ExpireOne(f.workloads[i], now), now, state, "controller")
  {
    var ws, op := SweepAll(f.workloads, now), Report(f.workloads[i].id, state, now);
    FindIs(ws, i);
    assert Find(ws, op.id) == i && Changed(ws[i], op) == Some(SetState(ws[i], now, state, "controller"));
    assert Apply(p, f, op, now).workloads == ws[i := Changed(ws[i], op).value];
    assert forall k :: 0 <= k < |ws| ==> ExpireOne(ws[k], now) == ws[k];
  }

  /** What holds of the engine after any try at a workload: others' objects stay. */
  ghost predicate OthersKept(id: Bytes, objects: Objects, objects': Objects) {
    forall other :: other != id ==> Get(objects', other) == Get(objects, other)
  }

  /** Reconcile one workload; w is record i as the pass read it. */
  method Reconcile(store: WorkloadStore, engine: Engine, p: Policy, ghost i: nat, w: Workload, obj: Option<Observed>, now: int, grace: nat)
    returns (ok: bool)
    requires i < |store.workloads| && ExpireOne(store.workloads[i], now) == w && DistinctIds(store.workloads)
    requires ControllerVisible(w) && obj == Get(engine.objects, w.id)
    modifies store, engine
    ensures OnlyRecord(old(store.workloads), store.workloads, i, now) && OthersKept(w.id, old(engine.objects), engine.objects)
    ensures engine.failed == old(engine.failed) + if ok then {} else {w.id}
    ensures ok ==> ExpireOne(store.workloads[i], now) == ExpireOne(NextWorkload(w, obj, now, grace), now)
    ensures ok ==> Get(engine.objects, w.id) == NextObject(w, obj, now, grace)
    ensures engine.lost >= old(engine.lost)
    ensures !ok && engine.lost == old(engine.lost) ==>
      && engine.objects == old(engine.objects)
      && if w.state == Approved && !w.stopped && obj.None? then store.workloads[i] == SetState(w, now, Failed, "controller")
         else store.workloads == old(store.workloads)
    ensures engine.calm ==> ok
    ensures Verdict(w, obj, now, grace).None? ==>
      ok && Picture(store.workloads, engine.objects, engine.calls) == old(Picture(store.workloads, engine.objects, engine.calls))
  {
    ok := true;
    if w.stopped || w.state == Expired {
      ok := Retire(store, engine, p, i, w, obj.Some?, now);
    } else if obj.None? {
      if w.state == Approved {
        ok := CreateObject(store, engine, p, i, w, now);
      }
    } else if obj.value.running {
      if w.state != Running {
        ok := SendReport(store, engine, p, i, w.id, Running, now);
      }
    } else {
      var state := if obj.value.exitCode != 0 then Failed else Exited;
      if w.state != state {
        ok := SendReport(store, engine, p, i, w.id, state, now);
      } else if now - obj.value.since >= grace {
        ok := Retire(store, engine, p, i, w, true, now);
      }
    }
  }

  /** Remove the engine object, if any, and say so. */
  method Retire(store: WorkloadStore, engine: Engine, p: Policy, ghost i: nat, w: Workload, has: bool, now: int) returns (ok: bool)
    requires i < |store.workloads| && ExpireOne(store.workloads[i], now) == w && DistinctIds(store.workloads)
    requires ControllerVisible(w) && (has <==> w.id in engine.objects)
    modifies store, engine
    ensures OnlyRecord(old(store.workloads), store.workloads, i, now) && OthersKept(w.id, old(engine.objects), engine.objects)
    ensures engine.failed == old(engine.failed) + if ok then {} else {w.id}
    ensures ok ==> store.workloads[i] == SetState(w, now, Removed, "controller") && w.id !in engine.objects
    ensures engine.lost >= old(engine.lost)
    ensures !ok && engine.lost == old(engine.lost) ==> engine.objects == old(engine.objects) && store.workloads == old(store.workloads)
    ensures engine.calm ==> ok
  {
    if has {
      ok := engine.Delete(w.id);
      if !ok {
        return;
      }
    }
    ok := SendReport(store, engine, p, i, w.id, Removed, now);
  }

  method CreateObject(store: WorkloadStore, engine: Engine, p: Policy, ghost i: nat, w: Workload, now: int) returns (ok: bool)
    requires i < |store.workloads| && ExpireOne(store.workloads[i], now) == w && DistinctIds(store.workloads)
    requires ControllerVisible(w) && w.id !in engine.objects
    modifies store, engine
    ensures OnlyRecord(old(store.workloads), store.workloads, i, now) && OthersKept(w.id, old(engine.objects), engine.objects)
    ensures engine.failed == old(engine.failed) + if ok then {} else {w.id}
    ensures ok ==> Get(engine.objects, w.id) == if w.supported then Some(Observed(true, 0, now)) else None
    ensures engine.lost >= old(engine.lost)
    ensures engine.lost == old(engine.lost) ==>
      store.workloads[i] == SetState(w, now, if w.id in engine.objects then Running else Failed, "controller")
    ensures !ok && engine.lost == old(engine.lost) ==> engine.objects == old(engine.objects)
    ensures ok ==> engine.lost == old(engine.lost)
    ensures engine.calm ==> ok
  {
    if !w.supported {
      ok := SendReport(store, engine, p, i, w.id, Failed, now);
      return;
    }
    var started := engine.Start(w.id, now);
    ok := SendReport(store, engine, p, i, w.id, if started then Running else Failed, now);
    ok := ok && started;
  }

  // ---------- the pass as a whole ----------

  lemma VisibleMore(ws: seq<Workload>, n: nat, id: Bytes)
    requires n < |ws|
    ensures Visible(ws[..n + 1], id) <==> Visible(ws[..n], id) || (ws[n].id == id && ControllerVisible(ws[n]))
  {
    var more, less := ws[..n + 1], ws[..n];
    assert more[n] == ws[n] && forall i :: 0 <= i < n ==> more[i] == less[i];
  }

  /** What a pass has done after its first n records; what it has not reached is
      untouched, even when something before it failed. */
  ghost predicate Reached(ws: seq<Workload>, objects: Objects, now: int, grace: nat, n: nat, failed: set<Bytes>, ws': seq<Workload>, objects': Objects)
    requires n <= |ws|
  {
    && (forall id :: id in failed ==> Visible(ws[..n], id))
    && |ws'| == |ws| && (forall k :: 0 <= k < |ws| ==> ws'[k].id == ws[k].id)
    && (forall k :: n <= k < |ws| ==> ExpireOne(ws'[k], now) == ws[k])
    && (forall id :: !Visible(ws[..n], id) ==> Get(objects', id) == Get(objects, id))
    && (forall k :: 0 <= k < n && ws[k].id !in failed ==> Reconciled(ws, objects, now, grace, ws', objects', k))
  }

  lemma ReachedMore(ws: seq<Workload>, objects: Objects, now: int, grace: nat, n: nat, failed: set<Bytes>, failed': set<Bytes>,
                    ws': seq<Workload>, objects': Objects, ws'': seq<Workload>, objects'': Objects)
    requires n < |ws| && DistinctIds(ws) && Reached(ws, objects, now, grace, n, failed, ws', objects')
    requires failed <= failed' <= failed + (if ControllerVisible(ws[n]) then {ws[n].id} else {})
    requires OnlyRecord(ws', ws'', n, now)
    requires forall id :: id != ws[n].id || !ControllerVisible(ws[n]) ==> Get(objects'', id) == Get(objects', id)
    requires ws[n].id !in failed' ==> Reconciled(ws, objects, now, grace, ws'', objects'', n)
    ensures Reached(ws, objects, now, grace, n + 1, failed', ws'', objects'')
  {
    forall id ensures id in failed' ==> Visible(ws[..n + 1], id)
              ensures !Visible(ws[..n + 1], id) ==> Get(objects'', id) == Get(objects, id) {
      VisibleMore(ws, n, id);
    }
    forall k | 0 <= k < n && ws[k].id !in failed' ensures Reconciled(ws, objects, now, grace, ws'', objects'', k) {
      assert Reconciled(ws, objects, now, grace, ws', objects', k);
    }
  }

  ghost predicate OrphansGone(failed: set<Bytes>, byId: Objects, todo: set<Bytes>, now: int, grace: nat, objects: Objects, objects': Objects) {
    forall id :: Get(objects', id) ==
      (if id in byId && id !in todo && Orphaned(id, byId[id], now, grace) && id !in failed then None else Get(objects, id))
  }

  ghost predicate NoneOrphaned(byId: Objects, now: int, grace: nat) {
    forall id :: id in byId ==> !Orphaned(id, byId[id], now, grace)
  }

  /** One object more: removed, or a call that failed. */
  lemma OrphanTried(failed: set<Bytes>, byId: Objects, todo: set<Bytes>, id: Bytes, now: int, grace: nat, objects: Objects, objects': Objects, removed: bool)
    requires OrphansGone(failed, byId, todo, now, grace, objects, objects') && id in todo && id in byId
    requires Orphaned(id, byId[id], now, grace) && id !in failed
    ensures OrphansGone(failed + if removed then {} else {id}, byId, todo - {id}, now, grace, objects, if removed then objects' - {id} else objects')
  {
  }

  lemma OrphanSpared(failed: set<Bytes>, byId: Objects, todo: set<Bytes>, id: Bytes, now: int, grace: nat, objects: Objects, objects': Objects)
    requires OrphansGone(failed, byId, todo, now, grace, objects, objects') && id in todo && id in byId
    requires !Orphaned(id, byId[id], now, grace)
    ensures OrphansGone(failed, byId, todo - {id}, now, grace, objects, objects')
  {
  }

  /** Remove what no visible workload claims and the grace period no longer spares. */
  method RemoveOrphans(engine: Engine, byId: Objects, now: int, grace: nat) returns (ok: bool)
    requires forall id :: id in byId ==> Get(engine.objects, id) == Some(byId[id]) && id !in engine.failed
    modifies engine
    ensures OrphansGone(engine.failed, byId, {}, now, grace, old(engine.objects), engine.objects)
    ensures old(engine.failed) <= engine.failed <= old(engine.failed) + byId.Keys
    ensures ok <==> engine.failed <= old(engine.failed)
    ensures engine.calm ==> ok
    ensures NoneOrphaned(byId, now, grace) ==>
      ok && engine.objects == old(engine.objects) && engine.calls == old(engine.calls)
  {
    ok := true;
    var todo := byId.Keys;
    assert OrphansGone(engine.failed, byId, todo, now, grace, engine.objects, engine.objects);
    while todo != {}
      invariant todo <= byId.Keys && (engine.calm ==> ok) && engine.failed !! todo
      invariant old(engine.failed) <= engine.failed <= old(engine.failed) + byId.Keys
      invariant ok <==> engine.failed <= old(engine.failed)
      invariant OrphansGone(engine.failed, byId, todo, now, grace, old(engine.objects), engine.objects)
      invariant NoneOrphaned(byId, now, grace) ==>
        ok && engine.objects == old(engine.objects) && engine.calls == old(engine.calls)
      decreases |todo|
    {
      var id :| id in todo;
      ghost var left, objects, failed := todo, engine.objects, engine.failed;
      todo := todo - {id};
      if id == UNLABELLED || now - byId[id].since < grace {
        OrphanSpared(failed, byId, left, id, now, grace, old(engine.objects), objects);
        continue;
      }
      var removed := engine.Delete(id);
      OrphanTried(failed, byId, left, id, now, grace, old(engine.objects), objects, removed);
      assert !removed ==> id in engine.failed && id !in old(engine.failed);
      ok := ok && removed;
    }
  }

  /** byId is objects without what the first n records claimed. */
  ghost predicate Unclaimed(ws: seq<Workload>, n: nat, objects: Objects, byId: Objects)
    requires n <= |ws|
  {
    forall id :: Get(byId, id) == if Visible(ws[..n], id) then None else Get(objects, id)
  }

  lemma UnclaimedMore(ws: seq<Workload>, n: nat, objects: Objects, byId: Objects)
    requires n < |ws| && Unclaimed(ws, n, objects, byId)
    ensures Unclaimed(ws, n + 1, objects, if ControllerVisible(ws[n]) then byId - {ws[n].id} else byId)
  {
    forall id ensures Get(if ControllerVisible(ws[n]) then byId - {ws[n].id} else byId, id)
                   == if Visible(ws[..n + 1], id) then None else Get(objects, id)
    {
      VisibleMore(ws, n, id);
    }
  }

  lemma NotClaimedBefore(ws: seq<Workload>, n: nat, objects: Objects, byId: Objects)
    requires n < |ws| && DistinctIds(ws) && Unclaimed(ws, n, objects, byId)
    ensures !Visible(ws[..n], ws[n].id) && Get(byId, ws[n].id) == Get(objects, ws[n].id)
  {
  }

  /** The pass's step on record n. */
  method ReconcileNth(store: WorkloadStore, engine: Engine, p: Policy, ghost ws: seq<Workload>, ghost objects: Objects,
                      ghost n: nat, w: Workload, obj: Option<Observed>, now: int, grace: nat) returns (ok: bool)
    requires n < |ws| && w == ws[n] && ControllerVisible(w) && DistinctIds(ws) && !Visible(ws[..n], w.id)
    requires Reached(ws, objects, now, grace, n, engine.failed, store.workloads, engine.objects) && obj == Get(objects, w.id)
    modifies store, engine
    ensures Reached(ws, objects, now, grace, n + 1, engine.failed, store.workloads, engine.objects)
    ensures engine.failed == old(engine.failed) + if ok then {} else {w.id}
    ensures engine.calm ==> ok
    ensures Verdict(w, obj, now, grace).None? ==>
      ok && Picture(store.workloads, engine.objects, engine.calls) == old(Picture(store.workloads, engine.objects, engine.calls))
  {
    ghost var ws', objects', failed := store.workloads, engine.objects, engine.failed;
    ok := Reconcile(store, engine, p, n, w, obj, now, grace);
    ReachedMore(ws, objects, now, grace, n, failed, engine.failed, ws', objects', store.workloads, engine.objects);
  }

  lemma SkipInvisible(ws: seq<Workload>, objects: Objects, now: int, grace: nat, n: nat, failed: set<Bytes>, ws': seq<Workload>, objects': Objects)
    requires n < |ws| && !ControllerVisible(ws[n]) && DistinctIds(ws) && Reached(ws, objects, now, grace, n, failed, ws', objects')
    ensures Reached(ws, objects, now, grace, n + 1, failed, ws', objects')
  {
    ReachedMore(ws, objects, now, grace, n, failed, failed, ws', objects', ws', objects');
  }

  lemma NothingReached(ws: seq<Workload>, objects: Objects, now: int, grace: nat)
    ensures Reached(SweepAll(ws, now), objects, now, grace, 0, {}, ws, objects)
    ensures Unclaimed(SweepAll(ws, now), 0, objects, objects)
  {
    assert forall id :: !Visible(SweepAll(ws, now)[..0], id);
  }

  /** Reconcile every workload as read; returns the objects nobody claimed. */
  method ReconcileAll(store: WorkloadStore, engine: Engine, p: Policy, ws: seq<Workload>, now: int, grace: nat)
    returns (ok: bool, byId: Objects)
    requires DistinctIds(store.workloads) && ws == SweepAll(store.workloads, now) && engine.failed == {}
    modifies store, engine
    ensures Reached(ws, old(engine.objects), now, grace, |ws|, engine.failed, store.workloads, engine.objects)
    ensures ok <==> engine.failed == {}
    ensures Unclaimed(ws, |ws|, old(engine.objects), byId)
    ensures engine.calm ==> ok
    ensures Settled(ws, old(engine.objects), now, grace) ==>
      ok && Picture(store.workloads, engine.objects, engine.calls) == old(Picture(store.workloads, engine.objects, engine.calls))
  {
    ghost var objects, picture := engine.objects, Picture(store.workloads, engine.objects, engine.calls);
    byId, ok := engine.objects, true;
    NothingReached(store.workloads, objects, now, grace);
    for n := 0 to |ws|
      invariant Reached(ws, objects, now, grace, n, engine.failed, store.workloads, engine.objects)
      invariant ok <==> engine.failed == {}
      invariant Unclaimed(ws, n, objects, byId) && (engine.calm ==> ok)
      invariant Settled(ws, objects, now, grace) ==> ok && Picture(store.workloads, engine.objects, engine.calls) == picture
    {
      UnclaimedMore(ws, n, objects, byId);
      if ControllerVisible(ws[n]) {
        NotClaimedBefore(ws, n, objects, byId);
        var obj := Get(byId, ws[n].id);
        byId := byId - {ws[n].id};
        var ok1 := ReconcileNth(store, engine, p, ws, objects, n, ws[n], obj, now, grace);
        ok := ok && ok1;
      } else {
        SkipInvisible(ws, objects, now, grace, n, engine.failed, store.workloads, engine.objects);
      }
    }
  }

  lemma PassFinished(ws: seq<Workload>, objects: Objects, now: int, grace: nat, failed: set<Bytes>, ws': seq<Workload>,
                     objects': Objects, byId: Objects, failed': set<Bytes>, objects'': Objects)
    requires Reached(ws, objects, now, grace, |ws|, failed, ws', objects') && failed <= failed'
    requires Unclaimed(ws, |ws|, objects, byId) && OrphansGone(failed', byId, {}, now, grace, objects', objects'')
    ensures PassedBut(failed', ws, objects, now, grace, ws', objects'')
  {
    assert ws[..|ws|] == ws;
    forall i | 0 <= i < |ws| && ws[i].id !in failed' ensures Reconciled(ws, objects, now, grace, ws', objects'', i) {
      assert Reconciled(ws, objects, now, grace, ws', objects', i);
      if ControllerVisible(ws[i]) {
        assert Visible(ws, ws[i].id);
        assert Get(byId, ws[i].id) == None;
      }
    }
    forall id | !Visible(ws, id)
      ensures Get(objects'', id) == if id in objects && Orphaned(id, objects[id], now, grace) && id !in failed' then None else Get(objects, id)
    {
      assert Get(byId, id) == Get(objects, id) == Get(objects', id);
    }
  }

  lemma NothingOrphaned(ws: seq<Workload>, objects: Objects, now: int, grace: nat, byId: Objects)
    requires Settled(ws, objects, now, grace) && Unclaimed(ws, |ws|, objects, byId)
    ensures NoneOrphaned(byId, now, grace)
  {
    assert ws[..|ws|] == ws;
    forall id | id in byId ensures !Orphaned(id, byId[id], now, grace) {
      assert Get(byId, id) == Some(byId[id]);
    }
  }

  lemma UnclaimedIsThere(ws: seq<Workload>, objects: Objects, now: int, grace: nat, failed: set<Bytes>, ws': seq<Workload>, objects': Objects, byId: Objects)
    requires Reached(ws, objects, now, grace, |ws|, failed, ws', objects') && Unclaimed(ws, |ws|, objects, byId)
    ensures forall id :: id in byId ==> Get(objects', id) == Some(byId[id]) && id !in failed
  {
    forall id | id in byId ensures Get(objects', id) == Some(byId[id]) && id !in failed {
      assert Get(byId, id) == Some(byId[id]);
    }
  }

  /** One reconcile pass; after an error it goes on with the next workload, so
      everything no call failed for is done. */
  method Once(store: WorkloadStore, engine: Engine, p: Policy, now: int, grace: nat) returns (ok: bool)
    requires DistinctIds(store.workloads)
    modifies store, engine
    ensures DistinctIds(store.workloads)
    ensures PassedBut(engine.failed, SweepAll(old(store.workloads), now), old(engine.objects), now, grace, store.workloads, engine.objects)
    ensures ok <==> engine.failed == {}
    ensures engine.calm ==> ok
    ensures Settled(SweepAll(old(store.workloads), now), old(engine.objects), now, grace) ==>
      ok && Picture(store.workloads, engine.objects, engine.calls) == old(Picture(store.workloads, engine.objects, engine.calls))
  {
    ghost var objects := engine.objects;
    engine.failed := {};
    var ws := store.Expire(store.workloads, now);
    var byId;
    ok, byId := ReconcileAll(store, engine, p, ws, now, grace);
    ghost var objects', failed := engine.objects, engine.failed;
    UnclaimedIsThere(ws, objects, now, grace, failed, store.workloads, objects', byId);
    if Settled(ws, objects, now, grace) {
      NothingOrphaned(ws, objects, now, grace, byId);
    }
    var ok2 := RemoveOrphans(engine, byId, now, grace);
    PassFinished(ws, objects, now, grace, failed, store.workloads, objects', byId, engine.failed, engine.objects);
    ok := ok && ok2;
  }

  // ---------- convergence ----------

  /** One record and its object over two error-free passes at a fixed clock. */
  lemma TwoRounds(w0: Workload, o0: Option<Observed>, w1: Workload, o1: Option<Observed>, w2: Workload, o2: Option<Observed>, now: int, grace: nat)
    requires ControllerVisible(w0) && ExpireOne(w0, now) == w0
    requires w1 == ExpireOne(NextWorkload(w0, o0, now, grace), now) && o1 == NextObject(w0, o0, now, grace)
    requires w2 == ExpireOne(NextWorkload(w1, o1, now, grace), now) && o2 == NextObject(w1, o1, now, grace)
    ensures !ControllerVisible(w1) ==> w1.state == Removed && o1.None?
    ensures Doomed(w0) ==> w1.state == Removed
    ensures ControllerVisible(w1) && ControllerVisible(w2) ==> Verdict(w2, o2, now, grace).None?
    ensures ControllerVisible(w1) && !ControllerVisible(w2) ==> o2.None?
  {
  }

  lemma InvisibleIds(ws: seq<Workload>, i: nat)
    requires DistinctIds(ws) && i < |ws| && !ControllerVisible(ws[i])
    ensures !Visible(ws, ws[i].id)
  {
  }

  /** Three states of the store as the passes read them, and of the engine. */
  ghost predicate TwoPasses(g0: seq<Workload>, e0: Objects, g1: seq<Workload>, e1: Objects, g2: seq<Workload>, e2: Objects, now: int, grace: nat) {
    && DistinctIds(g0) && DistinctIds(g1)
    && g0 == SweepAll(g0, now) && g1 == SweepAll(g1, now) && g2 == SweepAll(g2, now)
    && Passed(g0, e0, now, grace, g1, e1) && Passed(g1, e1, now, grace, g2, e2)
  }

  lemma RecordSettles(g0: seq<Workload>, e0: Objects, g1: seq<Workload>, e1: Objects, g2: seq<Workload>, e2: Objects, now: int, grace: nat, i: nat)
    requires TwoPasses(g0, e0, g1, e1, g2, e2, now, grace) && i < |g0|
    ensures ControllerVisible(g2[i]) ==> Verdict(g2[i], Get(e2, g2[i].id), now, grace).None?
    ensures ControllerVisible(g1[i]) && !ControllerVisible(g2[i]) ==> Get(e2, g2[i].id).None?
    ensures ControllerVisible(g0[i]) && Doomed(g0[i]) ==> g2[i].state == Removed && Get(e2, g0[i].id).None?
  {
    var id := g0[i].id;
    assert Reconciled(g0, e0, now, grace, g1, e1, i) && Reconciled(g1, e1, now, grace, g2, e2, i);
    assert g1[i] == ExpireOne(g1[i], now) && g2[i] == ExpireOne(g2[i], now) && g0[i] == ExpireOne(g0[i], now);
    assert g1[i].id == id && g2[i].id == id;
    if ControllerVisible(g0[i]) {
      var w2 := ExpireOne(NextWorkload(g1[i], Get(e1, id), now, grace), now);
      TwoRounds(g0[i], Get(e0, id), g1[i], Get(e1, id), w2, NextObject(g1[i], Get(e1, id), now, grace), now, grace);
    }
    if !ControllerVisible(g1[i]) {
      InvisibleIds(g1, i);
    }
  }

  /** Every workload that was stopped or expired is removed and has no object. */
  ghost predicate DoomedGone(ws: seq<Workload>, ws': seq<Workload>, objects: Objects) {
    && |ws'| == |ws|
    && forall i :: 0 <= i < |ws| && ControllerVisible(ws[i]) && Doomed(ws[i]) ==> ws'[i].state == Removed && ws[i].id !in objects
  }

  /** Reconcile converges: at a fixed clock and with an engine nobody else
      touches, two error-free passes leave nothing for a third to do, and every
      stopped or expired workload is removed and has no object. */
  lemma Converges(g0: seq<Workload>, e0: Objects, g1: seq<Workload>, e1: Objects, g2: seq<Workload>, e2: Objects, now: int, grace: nat)
    requires TwoPasses(g0, e0, g1, e1, g2, e2, now, grace)
    ensures Settled(g2, e2, now, grace)
    ensures DoomedGone(g0, g2, e2)
  {
    forall i | 0 <= i < |g2| && ControllerVisible(g2[i]) ensures Verdict(g2[i], Get(e2, g2[i].id), now, grace).None? {
      RecordSettles(g0, e0, g1, e1, g2, e2, now, grace, i);
    }
    forall id | id in e2 && !Visible(g2, id) ensures !Orphaned(id, e2[id], now, grace) {
      if i :| 0 <= i < |g1| && g1[i].id == id && ControllerVisible(g1[i]) {
        RecordSettles(g0, e0, g1, e1, g2, e2, now, grace, i);
      } else {
        assert !Visible(g1, id);
        assert Get(e2, id) == Some(e2[id]);
      }
    }
    forall i | 0 <= i < |g0| && ControllerVisible(g0[i]) && Doomed(g0[i]) ensures g2[i].state == Removed && g0[i].id !in e2 {
      RecordSettles(g0, e0, g1, e1, g2, e2, now, grace, i);
    }
  }

  lemma PassedSwept(ws: seq<Workload>, objects: Objects, now: int, grace: nat, ws': seq<Workload>, objects': Objects)
    requires Passed(ws, objects, now, grace, ws', objects')
    ensures Passed(ws, objects, now, grace, SweepAll(ws', now), objects')
    ensures SweepAll(SweepAll(ws', now), now) == SweepAll(ws', now)
  {
    forall i | 0 <= i < |ws| ensures Reconciled(ws, objects, now, grace, SweepAll(ws', now), objects', i) {
      assert Reconciled(ws, objects, now, grace, ws', objects', i);
      assert ExpireOne(ExpireOne(ws'[i], now), now) == ExpireOne(ws'[i], now);
    }
  }

  /** Three passes in a row: once two went without an error, the third makes no
      engine call and sends no report, which would lengthen a history. */
  method ThreePasses(store: WorkloadStore, engine: Engine, p: Policy, now: int, grace: nat)
    returns (ok: bool, second: Picture, third: Picture)
    requires DistinctIds(store.workloads)
    modifies store, engine
    ensures third == Picture(store.workloads, engine.objects, engine.calls)
    ensures ok ==> second == third
    ensures engine.calm ==> ok
    ensures ok ==> DoomedGone(SweepAll(old(store.workloads), now), SweepAll(store.workloads, now), engine.objects)
  {
    ghost var g0, e0 := SweepAll(store.workloads, now), engine.objects;
    var ok1 := Once(store, engine, p, now, grace);
    ghost var g1, e1 := SweepAll(store.workloads, now), engine.objects;
    if ok1 { PassedSwept(g0, e0, now, grace, store.workloads, e1); }
    var ok2 := Once(store, engine, p, now, grace);
    ghost var g2, e2 := SweepAll(store.workloads, now), engine.objects;
    if ok1 && ok2 {
      PassedSwept(g1, e1, now, grace, store.workloads, e2);
      Converges(g0, e0, g1, e1, g2, e2, now, grace);
    }
    second := Picture(store.workloads, engine.objects, engine.calls);
    var _ := Once(store, engine, p, now, grace);
    third := Picture(store.workloads, engine.objects, engine.calls);
    ok := ok1 && ok2;
  }
}

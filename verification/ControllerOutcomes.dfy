/** What a reconcile pass leaves, case by case: the workloads as read and the
    engine's objects on one side, the records and objects afterwards on the other.
    failed are the IDs for which some call failed; the others get what is said here. */
module ControllerOutcomes {
  import opened Options
  import opened Decimal
  import opened Workloads
  import opened Controller

  /** The controller reported s about w. */
  ghost predicate Says(w: Workload, w': Workload, s: State, now: int) {
    w' == w.(state := s, history := w.history + [Event(now, s, "controller")])
  }

  /** The same of a workload said to be running; one whose lifetime is over is
      expired by the next sweep. */
  ghost predicate SaysRunning(w: Workload, w': Workload, now: int) {
    if w.expiresAt.Some? && w.expiresAt.value <= now then ExpireOne(w', now).state == Expired else Says(w, w', Running, now)
  }

  /** The object is the one it was. */
  ghost predicate Kept(objects: Objects, objects': Objects, id: Bytes) {
    (id in objects' <==> id in objects) && (id in objects ==> objects'[id] == objects[id])
  }

  /** Records as read, a pass over them, and one of them for which nothing failed. */
  ghost predicate PassOver(failed: set<Bytes>, ws: seq<Workload>, objects: Objects, now: int, grace: nat, ws': seq<Workload>, objects': Objects, i: nat) {
    && PassedBut(failed, ws, objects, now, grace, ws', objects') && i < |ws| && ws[i].id !in failed
    && SweepAll(ws, now) == ws
  }

  lemma AsRead(ws: seq<Workload>, now: int, i: nat)
    requires SweepAll(ws, now) == ws && i < |ws|
    ensures ExpireOne(ws[i], now) == ws[i]
  {
    assert SweepAll(ws, now)[i] == ExpireOne(ws[i], now);
  }

  /** What was stopped or has expired is removed, with its object. */
  lemma DoomedIsRemoved(failed: set<Bytes>, ws: seq<Workload>, objects: Objects, now: int, grace: nat, ws': seq<Workload>, objects': Objects, i: nat)
    requires PassOver(failed, ws, objects, now, grace, ws', objects', i) && ws[i].state !in {Pending, Denied, Removed}
    requires ws[i].stopped || ws[i].state == Expired
    ensures Says(ws[i], ws'[i], Removed, now) && ws[i].id !in objects'
  {
    AsRead(ws, now, i);
    assert Reconciled(ws, objects, now, grace, ws', objects', i);
  }

  /** An object that exited with code 0 makes its workload exited, any other code
      failed; once the record says so it stays for the grace period and then goes. */
  lemma ExitIsReported(failed: set<Bytes>, ws: seq<Workload>, objects: Objects, now: int, grace: nat, ws': seq<Workload>, objects': Objects, i: nat)
    requires PassOver(failed, ws, objects, now, grace, ws', objects', i)
    requires !ws[i].stopped && ws[i].state !in {Pending, Denied, Expired, Removed}
    requires ws[i].id in objects && !objects[ws[i].id].running
    ensures var w, o := ws[i], objects[ws[i].id];
      if o.exitCode == 0 && w.state != Exited then Says(w, ws'[i], Exited, now) && Kept(objects, objects', w.id)
      else if o.exitCode != 0 && w.state != Failed then Says(w, ws'[i], Failed, now) && Kept(objects, objects', w.id)
      else if now < o.since + grace then ws'[i] == w && Kept(objects, objects', w.id)
      else Says(w, ws'[i], Removed, now) && w.id !in objects'
  {
    AsRead(ws, now, i);
    assert Reconciled(ws, objects, now, grace, ws', objects', i);
  }

  /** A running object makes its workload running. */
  lemma RunningIsReported(failed: set<Bytes>, ws: seq<Workload>, objects: Objects, now: int, grace: nat, ws': seq<Workload>, objects': Objects, i: nat)
    requires PassOver(failed, ws, objects, now, grace, ws', objects', i)
    requires !ws[i].stopped && ws[i].state !in {Pending, Denied, Expired, Removed}
    requires ws[i].id in objects && objects[ws[i].id].running
    ensures Kept(objects, objects', ws[i].id)
    ensures if ws[i].state == Running then ws'[i] == ws[i] else SaysRunning(ws[i], ws'[i], now)
  {
    AsRead(ws, now, i);
    assert Reconciled(ws, objects, now, grace, ws', objects', i);
  }

  /** An approved workload without an object is started, or fails when the engine
      cannot run its spec; any other without an object is left alone. */
  lemma ApprovedIsStarted(failed: set<Bytes>, ws: seq<Workload>, objects: Objects, now: int, grace: nat, ws': seq<Workload>, objects': Objects, i: nat)
    requires PassOver(failed, ws, objects, now, grace, ws', objects', i)
    requires !ws[i].stopped && ws[i].state !in {Pending, Denied, Expired, Removed}
    requires ws[i].id !in objects
    ensures var w := ws[i];
      if w.state != Approved then ws'[i] == w && w.id !in objects'
      else if w.supported then Says(w, ws'[i], Running, now) && w.id in objects' && objects'[w.id] == Observed(true, 0, now)
      else Says(w, ws'[i], Failed, now) && w.id !in objects'
  {
    AsRead(ws, now, i);
    assert Reconciled(ws, objects, now, grace, ws', objects', i);
  }

  /** What the controller does not see it leaves alone. */
  lemma UnseenIsLeft(failed: set<Bytes>, ws: seq<Workload>, objects: Objects, now: int, grace: nat, ws': seq<Workload>, objects': Objects, i: nat)
    requires PassOver(failed, ws, objects, now, grace, ws', objects', i) && ws[i].state in {Pending, Denied, Removed}
    ensures ws'[i] == ws[i]
  {
    assert Reconciled(ws, objects, now, grace, ws', objects', i);
  }

  /** An object no workload claims goes exactly when it has a label and is past its grace. */
  lemma OrphanGoes(failed: set<Bytes>, ws: seq<Workload>, objects: Objects, now: int, grace: nat, ws': seq<Workload>, objects': Objects, id: Bytes)
    requires PassedBut(failed, ws, objects, now, grace, ws', objects') && id !in failed
    requires forall i :: 0 <= i < |ws| && ws[i].id == id ==> ws[i].state in {Pending, Denied, Removed}
    ensures if id in objects && id != [] && objects[id].since + grace <= now then id !in objects' else Kept(objects, objects', id)
  {
    assert !Visible(ws, id);
    assert Get(objects', id) == if id in objects && Orphaned(id, objects[id], now, grace) && id !in failed then None else Get(objects, id);
  }
}

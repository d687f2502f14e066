/** Who may change a workload's record, and to what: each operation on a record it
    finds, and over every run who stopped a workload and who let it through. */
module WorkloadUpdates {
  import opened Options
  import opened Decimal
  import opened Workloads
  import opened WorkloadRuns

  /** Record i is the one id names. */
  ghost predicate Names(f: File, id: Bytes, i: nat) {
    i < |f.workloads| && f.workloads[i].id == id && forall j :: 0 <= j < i ==> f.workloads[j].id != id
  }

  /** The record w as an operation at now finds it: expired when its lifetime is over. */
  ghost predicate AsFound(w: Workload, now: int, w': Workload) {
    if w.state in {Approved, Creating, Running} && w.expiresAt.Some? && w.expiresAt.value <= now
    then w' == w.(state := Expired, history := w.history + [Event(now, Expired, "serve")])
    else w' == w
  }

  /** Record i is w', and the others are as an operation finds them. */
  ghost predicate OnlyChange(f: File, now: int, i: nat, w': Workload, f': File) {
    && f'.next == f.next && |f'.workloads| == |f.workloads| && i < |f.workloads|
    && f'.workloads[i] == w'
    && forall k :: 0 <= k < |f.workloads| && k != i ==> AsFound(f.workloads[k], now, f'.workloads[k])
  }

  lemma Located(f: File, op: Op, now: int, i: nat, w: Workload)
    requires !op.Request? && Names(f, op.id, i) && AsFound(f.workloads[i], now, w)
    ensures Find(SweepAll(f.workloads, now), op.id) == i && SweepAll(f.workloads, now)[i] == w
    ensures forall k :: 0 <= k < |f.workloads| ==> AsFound(f.workloads[k], now, SweepAll(f.workloads, now)[k])
  {
    var ws := SweepAll(f.workloads, now);
    assert forall j :: 0 <= j < |ws| ==> ws[j].id == f.workloads[j].id;
    var k := Find(ws, op.id);
    assert k <= i;
  }

  /** An operation on an ID no record has changes nothing. */
  lemma UnknownFails(p: Policy, f: File, op: Op, now: int)
    requires !op.Request? && forall i :: 0 <= i < |f.workloads| ==> f.workloads[i].id != op.id
    ensures Apply(p, f, op, now) == f && !Applies(f, op, now)
  {
    var ws := SweepAll(f.workloads, now);
    assert forall j :: 0 <= j < |ws| ==> ws[j].id == f.workloads[j].id;
  }

  /** Only the owner and gemba may stop a workload: a request that waits is
      withdrawn, one the controller sees is marked once, and any other stays. */
  lemma StopDecides(p: Policy, f: File, op: Op, now: int, i: nat, w: Workload)
    requires op.Stop? && Names(f, op.id, i) && AsFound(f.workloads[i], now, w)
    ensures Applies(f, op, now) <==> op.station == w.station || op.gemba
    ensures var f' := Apply(p, f, op, now);
      if op.station != w.station && !op.gemba then f' == f
      else if w.state == Pending then
        OnlyChange(f, now, i, w.(state := Removed, history := w.history + [Event(op.stamp, Removed, op.station)]), f')
      else if w.state in {Denied, Removed} || w.stopped then OnlyChange(f, now, i, w, f')
      else OnlyChange(f, now, i, w.(stopped := true, history := w.history + [Event(op.stamp, w.state, op.station)]), f')
  {
    Located(f, op, now, i, w);
  }

  /** An approval turns exactly a pending request into an approved one, and starts its lifetime. */
  lemma ApprovalDecides(p: Policy, f: File, op: Op, now: int, i: nat, w: Workload)
    requires op.Approve? && Names(f, op.id, i) && AsFound(f.workloads[i], now, w)
    ensures Applies(f, op, now) <==> w.state == Pending
    ensures var f' := Apply(p, f, op, now);
      if w.state != Pending then f' == f
      else OnlyChange(f, now, i, w.(state := Approved, expiresAt := Some(op.stamp + w.ttl),
                                    history := w.history + [Event(op.stamp, Approved, op.msg)]), f')
  {
    Located(f, op, now, i, w);
  }

  /** A report sets the state it reports, of a record the controller sees. */
  lemma ReportDecides(p: Policy, f: File, op: Op, now: int, i: nat, w: Workload)
    requires op.Report? && Names(f, op.id, i) && AsFound(f.workloads[i], now, w)
    ensures Applies(f, op, now) <==>
      op.state in {Creating, Running, Exited, Failed, Removed} && w.state !in {Pending, Denied, Removed}
    ensures var f' := Apply(p, f, op, now);
      if !Applies(f, op, now) then f' == f
      else OnlyChange(f, now, i, w.(state := op.state, history := w.history + [Event(op.stamp, op.state, "controller")]), f')
  {
    Located(f, op, now, i, w);
  }

  // ---------- who stopped a workload, and who let it through ----------

  /** A stop of this workload by its station or by gemba. */
  predicate StopsIt(op: Op, w: Workload) {
    op.Stop? && op.id == w.id && (op.station == w.station || op.gemba)
  }

  /** The king's approval of this workload, or its request under a rule that approves by itself. */
  ghost predicate LetsThrough(p: Policy, op: Op, w: Workload) {
    || (op.Approve? && op.id == w.id)
    || (op.Request? && op.station == w.station && op.kind == w.kind && !op.refused
        && exists r :: r in p.rules && p.roleOf(op.station) in r.roles && op.kind in r.kinds && r.auto)
  }

  /** w becomes w' under op only on its owner's or gemba's word if it is marked or
      withdrawn, and only as LetsThrough says if the controller comes to see it. */
  ghost predicate HasAuthor(p: Policy, op: Op, w: Workload, w': Workload) {
    && (w'.stopped && !w.stopped ==> StopsIt(op, w'))
    && (w'.state == Removed && w.state == Pending ==> StopsIt(op, w'))
    && (ControllerVisible(w') && w.state == Pending ==> LetsThrough(p, op, w'))
  }

  lemma ChangeHasAuthor(p: Policy, op: Op, w: Workload, now: int)
    requires !op.Request? && op.id == w.id
    ensures HasAuthor(p, op, w, ExpireOne(w, now))
    ensures Changed(ExpireOne(w, now), op).Some? ==> HasAuthor(p, op, w, Changed(ExpireOne(w, now), op).value)
  {
  }

  /** The same of any operation and any record that was there before it. */
  lemma StepHasAuthor(p: Policy, f: File, op: Op, now: int, i: nat)
    requires i < |f.workloads|
    ensures i < |Apply(p, f, op, now).workloads| && HasAuthor(p, op, f.workloads[i], Apply(p, f, op, now).workloads[i])
  {
    var g := Swept(f, now);
    assert g.workloads[i] == ExpireOne(f.workloads[i], now);
    assert HasAuthor(p, op, f.workloads[i], g.workloads[i]);
    if !op.Request? && Applies(f, op, now) && i == Find(g.workloads, op.id) {
      ChangeHasAuthor(p, op, f.workloads[i], now);
    }
  }

  /** A new record is not stopped, and the controller sees it only under a rule that
      approves by itself. */
  lemma NewHasAuthor(p: Policy, f: File, op: Op, now: int)
    ensures var ws := Apply(p, f, op, now).workloads;
      |f.workloads| < |ws| ==>
        |ws| == |f.workloads| + 1 && !ws[|f.workloads|].stopped
        && (ControllerVisible(ws[|f.workloads|]) ==> LetsThrough(p, op, ws[|f.workloads|]))
  {
    if op.Request? {
      var g := Swept(f, now);
      var rule := RuleFor(p.rules, p.roleOf(op.station), op.kind);
      var live := if rule.Some? then LiveCount(g.workloads, op.station, rule.value.kinds) else 0;
      var w := Requested(rule, op, live).(id := IdOf(f.next + 1));
      assert Apply(p, f, op, now).workloads == g.workloads + [w];
      assert ControllerVisible(w) ==> rule.value in p.rules && rule.value.auto;
    }
  }

  /** The first step marked the workload that end shows marked, or a later one did. */
  lemma MarkedNowOrLater(p: Policy, f: File, op: Op, now: int, end: File, i: nat)
    requires Grows(Apply(p, f, op, now), end) && i < |end.workloads|
    requires i < |f.workloads| ==> !f.workloads[i].stopped
    ensures StopsIt(op, end.workloads[i]) || (i < |Apply(p, f, op, now).workloads| ==> !Apply(p, f, op, now).workloads[i].stopped)
  {
    var g := Apply(p, f, op, now);
    NewHasAuthor(p, f, op, now);
    if i < |f.workloads| {
      StepHasAuthor(p, f, op, now, i);
    }
    assert i < |g.workloads| ==> Follows(g.workloads[i], end.workloads[i]);
  }

  /** The same of a workload that end shows before the controller. */
  lemma SeenNowOrLater(p: Policy, f: File, op: Op, now: int, end: File, i: nat)
    requires Grows(Apply(p, f, op, now), end) && i < |end.workloads| && ControllerVisible(end.workloads[i])
    requires i < |f.workloads| ==> f.workloads[i].state == Pending
    ensures LetsThrough(p, op, end.workloads[i])
         || (i < |Apply(p, f, op, now).workloads| ==> Apply(p, f, op, now).workloads[i].state == Pending)
  {
    var g := Apply(p, f, op, now);
    NewHasAuthor(p, f, op, now);
    if i < |f.workloads| {
      StepHasAuthor(p, f, op, now, i);
    }
    assert i < |g.workloads| ==> Follows(g.workloads[i], end.workloads[i]);
    assert i < |g.workloads| ==> Final(g.workloads[i]) || ControllerVisible(g.workloads[i]) || g.workloads[i].state == Pending;
  }

  /** Over every run: a workload found stopped was stopped by its station or by gemba. */
  lemma {:induction false} StoppedByItsOwner(p: Policy, f: File, steps: seq<Step>, i: nat) returns (k: nat)
    requires FileOk(f) && i < |Run(p, f, steps).workloads| && Run(p, f, steps).workloads[i].stopped
    requires i < |f.workloads| ==> !f.workloads[i].stopped
    ensures k < |steps| && StopsIt(steps[k].op, Run(p, f, steps).workloads[i])
    decreases |steps|
  {
    assert steps != [];
    var op, now := steps[0].op, steps[0].now;
    ApplyOk(p, f, op, now);
    RunsKeepRecords(p, Apply(p, f, op, now), steps[1..]);
    MarkedNowOrLater(p, f, op, now, Run(p, f, steps), i);
    k := 0;
    if !StopsIt(op, Run(p, f, steps).workloads[i]) {
      k := StoppedByItsOwner(p, Apply(p, f, op, now), steps[1..], i);
      k := k + 1;
    }
  }

  /** Over every run: a workload the controller sees was approved by the king, or asked
      for under a rule that approves by itself. */
  lemma {:induction false} SomeoneLetItThrough(p: Policy, f: File, steps: seq<Step>, i: nat) returns (k: nat)
    requires FileOk(f) && i < |Run(p, f, steps).workloads| && ControllerVisible(Run(p, f, steps).workloads[i])
    requires i < |f.workloads| ==> f.workloads[i].state == Pending
    ensures k < |steps| && LetsThrough(p, steps[k].op, Run(p, f, steps).workloads[i])
    decreases |steps|
  {
    assert steps != [];
    var op, now := steps[0].op, steps[0].now;
    ApplyOk(p, f, op, now);
    RunsKeepRecords(p, Apply(p, f, op, now), steps[1..]);
    SeenNowOrLater(p, f, op, now, Run(p, f, steps), i);
    k := 0;
    if !LetsThrough(p, op, Run(p, f, steps).workloads[i]) {
      k := SomeoneLetItThrough(p, Apply(p, f, op, now), steps[1..], i);
      k := k + 1;
    }
  }
}

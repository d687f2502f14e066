/** What every run of workload operations keeps: the audit record, the IDs, the
    approval before any engine object, and the per-station quota. */
module WorkloadRuns {
  import opened Options
  import opened Decimal
  import opened Workloads

  /** An operation and the time its sweep reads under the lock. */
  datatype Step = Step(op: Op, now: int)

  ghost function Run(p: Policy, f: File, steps: seq<Step>): File
    decreases |steps|
  {
    if steps == [] then f else Run(p, Apply(p, f, steps[0].op, steps[0].now), steps[1..])
  }

  // ---------- every record ----------

  ghost predicate HasApproval(history: seq<Event>) {
    exists i :: 0 <= i < |history| && history[i].state == Approved
  }

  ghost predicate RecordOk(w: Workload) {
    && |w.history| > 0 && w.history[|w.history| - 1].state == w.state
    && (ControllerVisible(w) ==> HasApproval(w.history))
  }

  ghost predicate FileOk(f: File) {
    && f.next == |f.workloads|
    && forall i :: 0 <= i < |f.workloads| ==> f.workloads[i].id == IdOf(i + 1) && RecordOk(f.workloads[i])
  }

  predicate Final(w: Workload) {
    w.state == Denied || w.state == Removed
  }

  /** w' is a later state of the record w. */
  ghost predicate Follows(w: Workload, w': Workload) {
    && w'.id == w.id && w'.station == w.station && w'.kind == w.kind
    && w.history <= w'.history
    && (w.stopped ==> w'.stopped)
    && (Final(w) ==> w' == w)
  }

  ghost predicate Grows(f: File, f': File) {
    |f.workloads| <= |f'.workloads| && forall i :: 0 <= i < |f.workloads| ==> Follows(f.workloads[i], f'.workloads[i])
  }

  lemma Longer(history: seq<Event>, e: Event)
    ensures history <= history + [e]
    ensures HasApproval(history) || e.state == Approved ==> HasApproval(history + [e])
  {
    if i :| 0 <= i < |history| && history[i].state == Approved {
      assert (history + [e])[i].state == Approved;
    } else if e.state == Approved {
      assert (history + [e])[|history|].state == Approved;
    }
  }

  lemma ExpireOneOk(w: Workload, now: int)
    requires RecordOk(w)
    ensures RecordOk(ExpireOne(w, now)) && Follows(w, ExpireOne(w, now))
  {
    Longer(w.history, Event(now, Expired, "serve"));
  }

  lemma ChangedOk(w: Workload, op: Op)
    requires RecordOk(w) && !op.Request? && Changed(w, op).Some?
    ensures RecordOk(Changed(w, op).value) && Follows(w, Changed(w, op).value)
  {
    var w' := Changed(w, op).value;
    if w' != w {
      Longer(w.history, w'.history[|w'.history| - 1]);
      assert w'.history == w.history + [w'.history[|w'.history| - 1]];
    }
  }

  lemma RequestedOk(rule: Option<Rule>, op: Op, live: nat)
    requires op.Request?
    ensures RecordOk(Requested(rule, op, live))
  {
    var w := Requested(rule, op, live);
    if ControllerVisible(w) {
      assert w.history[1].state == Approved;
    }
  }

  lemma ApplyOk(p: Policy, f: File, op: Op, now: int)
    requires FileOk(f)
    ensures FileOk(Apply(p, f, op, now)) && Grows(f, Apply(p, f, op, now))
  {
    var g := Swept(f, now);
    var f' := Apply(p, f, op, now);
    forall i | 0 <= i < |f.workloads|
      ensures f'.workloads[i].id == IdOf(i + 1) && RecordOk(f'.workloads[i]) && Follows(f.workloads[i], f'.workloads[i])
    {
      ExpireOneOk(f.workloads[i], now);
      if !op.Request? && f' != f {
        if i == Find(g.workloads, op.id) {
          ChangedOk(g.workloads[i], op);
        }
      }
    }
    if op.Request? {
      var rule := RuleFor(p.rules, p.roleOf(op.station), op.kind);
      RequestedOk(rule, op, if rule.Some? then LiveCount(g.workloads, op.station, rule.value.kinds) else 0);
    }
  }

  lemma GrowsTransitive(a: File, b: File, c: File)
    requires Grows(a, b) && Grows(b, c)
    ensures Grows(a, c)
  {
    forall i | 0 <= i < |a.workloads| ensures Follows(a.workloads[i], c.workloads[i]) {
      assert Follows(a.workloads[i], b.workloads[i]) && Follows(b.workloads[i], c.workloads[i]);
    }
  }

  /** Over every run: histories only grow and end with the current state,
      denied and removed records never change again, and a record the
      controller sees was approved. */
  lemma {:induction false} RunsKeepRecords(p: Policy, f: File, steps: seq<Step>)
    requires FileOk(f)
    ensures FileOk(Run(p, f, steps)) && Grows(f, Run(p, f, steps))
    decreases |steps|
  {
    if steps != [] {
      var g := Apply(p, f, steps[0].op, steps[0].now);
      ApplyOk(p, f, steps[0].op, steps[0].now);
      RunsKeepRecords(p, g, steps[1..]);
      GrowsTransitive(f, g, Run(p, g, steps[1..]));
    }
  }

  lemma SameNumber(m: nat, n: nat)
    requires IdOf(m) == IdOf(n)
    ensures m == n
  {
    assert IdOf(m)[|WL|..] == Print(m) && IdOf(n)[|WL|..] == Print(n);
    PrintInjective(m, n);
  }

  lemma IdsDistinct(f: File, i: nat, j: nat)
    requires FileOk(f) && i < |f.workloads| && j < |f.workloads| && f.workloads[i].id == f.workloads[j].id
    ensures i == j
  {
    SameNumber(i + 1, j + 1);
  }

  // ---------- the quota ----------

  /** How many of a station's workloads of these kinds are live and unexpired at t. */
  ghost function LiveAt(ws: seq<Workload>, station: string, kinds: seq<string>, t: int): nat {
    LiveCount(SweepAll(ws, t), station, kinds)
  }

  ghost predicate WithinQuota(p: Policy, f: File, t: int) {
    forall station, r :: r in p.rules && p.roleOf(station) in r.roles && r.maxPerStation > 0 ==>
      LiveAt(f.workloads, station, r.kinds, t) <= r.maxPerStation
  }

  /** What expired did so by the clock. */
  ghost predicate ExpiredBy(f: File, clock: int) {
    forall i :: 0 <= i < |f.workloads| ==>
      (f.workloads[i].state == Expired ==> f.workloads[i].expiresAt.Some? && f.workloads[i].expiresAt.value <= clock)
  }

  /** The controller takes a finished workload for a live one. */
  ghost predicate Revives(f: File, op: Op, now: int) {
    && op.Report? && (op.state == Creating || op.state == Running)
    && var i := Find(SweepAll(f.workloads, now), op.id);
       i < |f.workloads| && (f.workloads[i].state == Exited || f.workloads[i].state == Failed)
  }

  lemma {:induction false} CountBelow(ws: seq<Workload>, ws': seq<Workload>, station: string, kinds: seq<string>)
    requires |ws| == |ws'|
    requires forall i :: 0 <= i < |ws| && Counts(ws'[i], station, kinds) ==> Counts(ws[i], station, kinds)
    ensures LiveCount(ws', station, kinds) <= LiveCount(ws, station, kinds)
  {
    if ws != [] {
      CountBelow(ws[..|ws| - 1], ws'[..|ws| - 1], station, kinds);
    }
  }

  lemma ChangedStaysCounted(w: Workload, op: Op, now: int, t: int, clock: int, station: string, kinds: seq<string>)
    requires clock <= now <= t && !op.Request?
    requires w.state == Expired ==> w.expiresAt.Some? && w.expiresAt.value <= clock
    requires Changed(ExpireOne(w, now), op).Some?
    requires op.Report? && (op.state == Creating || op.state == Running) ==> w.state != Exited && w.state != Failed
    ensures Counts(ExpireOne(Changed(ExpireOne(w, now), op).value, t), station, kinds) ==> Counts(ExpireOne(w, t), station, kinds)
  {
  }

  /** Time only takes workloads away, and so does every operation but a request. */
  lemma UpdateWithinQuota(p: Policy, f: File, op: Op, now: int, t: int, clock: int)
    requires clock <= now <= t && !op.Request? && ExpiredBy(f, clock) && !Revives(f, op, now) && WithinQuota(p, f, t)
    ensures WithinQuota(p, Apply(p, f, op, now), t)
  {
    var f' := Apply(p, f, op, now);
    if f' != f {
      forall station, r | r in p.rules && p.roleOf(station) in r.roles && r.maxPerStation > 0
        ensures LiveAt(f'.workloads, station, r.kinds, t) <= r.maxPerStation
      {
        var k := Find(SweepAll(f.workloads, now), op.id);
        forall i | 0 <= i < |f.workloads| && Counts(ExpireOne(f'.workloads[i], t), station, r.kinds)
          ensures Counts(ExpireOne(f.workloads[i], t), station, r.kinds)
        {
          if i == k {
            ChangedStaysCounted(f.workloads[i], op, now, t, clock, station, r.kinds);
          }
        }
        CountBelow(SweepAll(f.workloads, t), SweepAll(f'.workloads, t), station, r.kinds);
      }
    }
  }

  /** A record of the station and the kinds that waits, is approved, or runs, and is not stopped. */
  ghost predicate LiveOne(w: Workload, station: string, kinds: seq<string>) {
    w.station == station && w.kind in kinds && !w.stopped && w.state in {Pending, Approved, Creating, Running}
  }

  ghost function LiveOnes(ws: seq<Workload>, station: string, kinds: seq<string>): set<nat> {
    set i: nat | i < |ws| && LiveOne(ws[i], station, kinds)
  }

  /** The count is the number of such records. */
  lemma {:induction false} LiveCountCounts(ws: seq<Workload>, station: string, kinds: seq<string>)
    ensures LiveCount(ws, station, kinds) == |LiveOnes(ws, station, kinds)|
  {
    if ws != [] {
      var n := |ws| - 1;
      LiveCountCounts(ws[..n], station, kinds);
      var less, all := LiveOnes(ws[..n], station, kinds), LiveOnes(ws, station, kinds);
      forall i: nat | i < n ensures i in less <==> i in all {
        assert ws[..n][i] == ws[i];
      }
      assert n !in less && all == if LiveOne(ws[n], station, kinds) then less + {n} else less;
      assert Counts(ws[n], station, kinds) <==> LiveOne(ws[n], station, kinds);
    }
  }

  lemma CountAppended(ws: seq<Workload>, w: Workload, station: string, kinds: seq<string>)
    ensures LiveCount(ws + [w], station, kinds) == LiveCount(ws, station, kinds) + if Counts(w, station, kinds) then 1 else 0
  {
    assert (ws + [w])[..|ws|] == ws;
  }

  /** The record a request adds, and what its being live says of the rule that governs it. */
  lemma RequestAdds(p: Policy, f: File, op: Op, now: int) returns (w: Workload)
    requires op.Request?
    ensures Apply(p, f, op, now).workloads == SweepAll(f.workloads, now) + [w]
    ensures w.station == op.station && w.kind == op.kind
    ensures var rule := RuleFor(p.rules, p.roleOf(op.station), op.kind);
      Live(w) ==> rule.Some? && (rule.value.maxPerStation > 0 ==> LiveAt(f.workloads, op.station, rule.value.kinds, now) < rule.value.maxPerStation)
  {
    var rule := RuleFor(p.rules, p.roleOf(op.station), op.kind);
    var live := if rule.Some? then LiveCount(SweepAll(f.workloads, now), op.station, rule.value.kinds) else 0;
    w := Requested(rule, op, live).(id := IdOf(f.next + 1));
  }

  lemma LaterCountsLess(ws: seq<Workload>, station: string, kinds: seq<string>, t: int)
    ensures LiveCount(SweepAll(ws, t), station, kinds) <= LiveCount(ws, station, kinds)
  {
    CountBelow(ws, SweepAll(ws, t), station, kinds);
  }

  /** A request adds one live workload to its own rule only, below the cap. */
  lemma RequestWithinQuota(p: Policy, f: File, op: Op, now: int, t: int)
    requires now <= t && op.Request? && Disjoint(p.rules) && WithinQuota(p, f, now)
    ensures WithinQuota(p, Apply(p, f, op, now), t)
  {
    var g := SweepAll(f.workloads, now);
    var w := RequestAdds(p, f, op, now);
    forall station, r | r in p.rules && p.roleOf(station) in r.roles && r.maxPerStation > 0
      ensures LiveAt(g + [w], station, r.kinds, t) <= r.maxPerStation
    {
      assert SweepAll(g + [w], t) == SweepAll(g, t) + [ExpireOne(w, t)];
      CountAppended(SweepAll(g, t), ExpireOne(w, t), station, r.kinds);
      LaterCountsLess(g, station, r.kinds, t);
      if Counts(ExpireOne(w, t), station, r.kinds) {
        OnlyRule(p.rules, r, p.roleOf(op.station), op.kind);
      }
    }
  }

  /** A rule covers the request and has room for it. */
  ghost predicate HasRoom(p: Policy, f: File, op: Op, now: int, r: Rule)
    requires op.Request?
  {
    && r in p.rules && p.roleOf(op.station) in r.roles && op.kind in r.kinds && !op.refused
    && (r.maxPerStation > 0 ==> LiveAt(f.workloads, op.station, r.kinds, now) < r.maxPerStation)
  }

  /** What a request's record says: who asked for what under the next number, and how it was answered. */
  lemma RequestRecords(p: Policy, f: File, op: Op, now: int)
    requires op.Request?
    ensures var f' := Apply(p, f, op, now);
      && f'.next == f.next + 1 && |f'.workloads| == |f.workloads| + 1
      && var w := f'.workloads[|f.workloads|];
         && w.id == IdOf(f.next + 1) && w.station == op.station && w.kind == op.kind && w.ttl == op.ttl
         && w.supported == op.supported && !w.stopped
         && w.expiresAt == (if w.state == Approved then Some(op.stamp + op.ttl) else None)
         && w.history == match w.state
                         case Approved => [Event(op.stamp, Pending, op.station), Event(op.stamp, Approved, "serve")]
                         case Pending => [Event(op.stamp, Pending, op.station)]
                         case _ => [Event(op.stamp, w.state, "serve")]
  {
    var rule := RuleFor(p.rules, p.roleOf(op.station), op.kind);
    var live := if rule.Some? then LiveCount(SweepAll(f.workloads, now), op.station, rule.value.kinds) else 0;
    assert Apply(p, f, op, now) == Add(Swept(f, now), Requested(rule, op, live));
  }

  /** A request is recorded as live exactly when some rule has room for it, and
      as denied otherwise; it waits for the king unless that rule approves. */
  lemma RequestDecides(p: Policy, f: File, op: Op, now: int)
    requires op.Request? && Disjoint(p.rules)
    ensures var ws := Apply(p, f, op, now).workloads;
      var w := ws[|ws| - 1];
      && |ws| == |f.workloads| + 1 && ws[..|f.workloads|] == SweepAll(f.workloads, now)
      && (w.state != Denied <==> exists r :: HasRoom(p, f, op, now, r))
      && forall r :: HasRoom(p, f, op, now, r) ==> w.state == if r.auto then Approved else Pending
  {
    forall r | HasRoom(p, f, op, now, r) ensures RuleFor(p.rules, p.roleOf(op.station), op.kind) == Some(r) {
      OnlyRule(p.rules, r, p.roleOf(op.station), op.kind);
    }
    var rule := RuleFor(p.rules, p.roleOf(op.station), op.kind);
    var ws := Apply(p, f, op, now).workloads;
    if ws[|ws| - 1].state != Denied {
      assert HasRoom(p, f, op, now, rule.value);
    }
  }

  ghost predicate ClockRuns(clock: int, steps: seq<Step>) {
    forall i :: 0 <= i < |steps| ==> clock <= steps[i].now && (i > 0 ==> steps[i - 1].now <= steps[i].now)
  }

  ghost predicate NeverRevives(p: Policy, f: File, steps: seq<Step>)
    decreases |steps|
  {
    steps == [] ||
    (!Revives(f, steps[0].op, steps[0].now) && NeverRevives(p, Apply(p, f, steps[0].op, steps[0].now), steps[1..]))
  }

  lemma LaterWithinQuota(p: Policy, f: File, t: int, t': int)
    requires WithinQuota(p, f, t) && t <= t'
    ensures WithinQuota(p, f, t')
  {
    forall station, r | r in p.rules && p.roleOf(station) in r.roles && r.maxPerStation > 0
      ensures LiveAt(f.workloads, station, r.kinds, t') <= r.maxPerStation
    {
      CountBelow(SweepAll(f.workloads, t), SweepAll(f.workloads, t'), station, r.kinds);
    }
  }

  lemma SweptExpiredBy(f: File, now: int, clock: int)
    requires clock <= now && ExpiredBy(f, clock)
    ensures ExpiredBy(f, now) && ExpiredBy(Swept(f, now), now)
  {
  }

  lemma ChangedNotExpired(w: Workload, op: Op)
    requires !op.Request? && Changed(w, op).Some? && Changed(w, op).value.state == Expired
    ensures w.state == Expired && Changed(w, op).value.expiresAt == w.expiresAt
  {
  }

  lemma ApplyExpiredBy(p: Policy, f: File, op: Op, now: int, clock: int)
    requires clock <= now && ExpiredBy(f, clock)
    ensures ExpiredBy(Apply(p, f, op, now), now)
  {
    SweptExpiredBy(f, now, clock);
    if !op.Request? && Applies(f, op, now) {
      var g := Swept(f, now);
      var i := Find(g.workloads, op.id);
      if Changed(g.workloads[i], op).value.state == Expired {
        ChangedNotExpired(g.workloads[i], op);
      }
    }
  }

  lemma ApplyWithinQuota(p: Policy, f: File, op: Op, now: int, clock: int)
    requires Disjoint(p.rules) && clock <= now && ExpiredBy(f, clock) && !Revives(f, op, now) && WithinQuota(p, f, clock)
    ensures WithinQuota(p, Apply(p, f, op, now), now)
  {
    LaterWithinQuota(p, f, clock, now);
    if op.Request? {
      RequestWithinQuota(p, f, op, now, now);
    } else {
      UpdateWithinQuota(p, f, op, now, now, clock);
    }
  }

  /** Over every run on a clock that does not go back, in which the controller
      never takes a finished workload for a live one, no station ever has more
      live, unexpired workloads under a rule than the rule allows. */
  lemma {:induction false} RunsStayWithinQuota(p: Policy, f: File, steps: seq<Step>, clock: int, t: int)
    requires Disjoint(p.rules) && ExpiredBy(f, clock) && WithinQuota(p, f, clock)
    requires ClockRuns(clock, steps) && NeverRevives(p, f, steps)
    requires clock <= t && (steps != [] ==> steps[|steps| - 1].now <= t)
    ensures WithinQuota(p, Run(p, f, steps), t)
    decreases |steps|
  {
    if steps == [] {
      LaterWithinQuota(p, f, clock, t);
    } else {
      var op, now := steps[0].op, steps[0].now;
      ApplyWithinQuota(p, f, op, now, clock);
      ApplyExpiredBy(p, f, op, now, clock);
      RestClockRuns(clock, steps);
      RunsStayWithinQuota(p, Apply(p, f, op, now), steps[1..], now, t);
    }
  }

  lemma RestClockRuns(clock: int, steps: seq<Step>)
    requires ClockRuns(clock, steps) && steps != []
    ensures ClockRuns(steps[0].now, steps[1..]) && forall i :: 0 <= i < |steps| ==> steps[0].now <= steps[i].now
  {
    forall i | 0 <= i < |steps| ensures steps[0].now <= steps[i].now {
      ClockRunsFrom(clock, steps, i);
    }
  }

  lemma {:induction false} ClockRunsFrom(clock: int, steps: seq<Step>, i: nat)
    requires ClockRuns(clock, steps) && i < |steps|
    ensures steps[0].now <= steps[i].now
  {
    if i > 0 {
      ClockRunsFrom(clock, steps, i - 1);
    }
  }

  lemma EmptyStoreIsFine(p: Policy, clock: int)
    ensures FileOk(File(0, [])) && ExpiredBy(File(0, []), clock) && WithinQuota(p, File(0, []), clock)
  {
  }

  lemma {:induction false} CountReplaced(ws: seq<Workload>, i: nat, w: Workload, station: string, kinds: seq<string>)
    requires i < |ws|
    ensures LiveCount(ws[i := w], station, kinds) + (if Counts(ws[i], station, kinds) then 1 else 0)
         == LiveCount(ws, station, kinds) + (if Counts(w, station, kinds) then 1 else 0)
  {
    var n := |ws| - 1;
    if i < n {
      assert ws[i := w][..n] == ws[..n][i := w];
      CountReplaced(ws[..n], i, w, station, kinds);
    } else {
      assert ws[i := w][..n] == ws[..n];
    }
  }

  // ---------- exactly when a run stays within quota ----------

  /** The workload a report is about. */
  function Reported(f: File, op: Op, now: int): nat
    requires op.Report?
  {
    Find(SweepAll(f.workloads, now), op.id)
  }

  /** The step revives an unstopped, unexpired workload under a capped rule that
      has no place left. */
  ghost predicate Overfills(p: Policy, f: File, op: Op, now: int) {
    Revives(f, op, now) && exists r :: r in p.rules && OverfillsRule(p, f, f.workloads[Reported(f, op, now)], now, r)
  }

  ghost predicate OverfillsRule(p: Policy, f: File, w: Workload, now: int, r: Rule) {
    && !w.stopped && (w.expiresAt.Some? ==> now < w.expiresAt.value)
    && p.roleOf(w.station) in r.roles && w.kind in r.kinds && r.maxPerStation > 0
    && LiveAt(f.workloads, w.station, r.kinds, now) >= r.maxPerStation
  }

  /** A revival adds the workload to the counts it falls under, unless it is
      stopped or its lifetime is over. */
  lemma RevivalCounts(p: Policy, f: File, op: Op, now: int, station: string, kinds: seq<string>)
    requires Revives(f, op, now)
    ensures var w := f.workloads[Reported(f, op, now)];
      LiveAt(Apply(p, f, op, now).workloads, station, kinds, now) == LiveAt(f.workloads, station, kinds, now)
        + if w.station == station && w.kind in kinds && !w.stopped && (w.expiresAt.Some? ==> now < w.expiresAt.value) then 1 else 0
  {
    var g := SweepAll(f.workloads, now);
    var i := Reported(f, op, now);
    var w' := SetState(f.workloads[i], op.stamp, op.state, "controller");
    RevivalApplies(p, f, op, now);
    RevivedCounts(f.workloads[i], w', now, station, kinds);
    CountReplaced(g, i, ExpireOne(w', now), station, kinds);
    assert SweepAll(g[i := w'], now) == g[i := ExpireOne(w', now)];
  }

  /** A finished workload does not count; one said to be live again counts if it
      is not stopped and its lifetime is not over. */
  lemma RevivedCounts(w: Workload, w': Workload, now: int, station: string, kinds: seq<string>)
    requires (w.state == Exited || w.state == Failed) && (w'.state == Creating || w'.state == Running)
    requires w'.station == w.station && w'.kind == w.kind && w'.stopped == w.stopped && w'.expiresAt == w.expiresAt
    ensures !Counts(w, station, kinds)
    ensures Counts(ExpireOne(w', now), station, kinds) <==>
      w.station == station && w.kind in kinds && !w.stopped && (w.expiresAt.Some? ==> now < w.expiresAt.value)
  {
  }

  lemma RevivalApplies(p: Policy, f: File, op: Op, now: int)
    requires Revives(f, op, now)
    ensures var g, i := SweepAll(f.workloads, now), Reported(f, op, now);
      && g[i] == f.workloads[i]
      && Apply(p, f, op, now).workloads == g[i := SetState(f.workloads[i], op.stamp, op.state, "controller")]
  {
    var g, i := SweepAll(f.workloads, now), Reported(f, op, now);
    assert Changed(g[i], op) == Some(SetState(f.workloads[i], op.stamp, op.state, "controller"));
  }

  lemma RevivalWithinQuotaIff(p: Policy, f: File, op: Op, now: int)
    requires Revives(f, op, now) && WithinQuota(p, f, now)
    ensures WithinQuota(p, Apply(p, f, op, now), now) <==> !Overfills(p, f, op, now)
  {
    var w := f.workloads[Reported(f, op, now)];
    var f' := Apply(p, f, op, now);
    if Overfills(p, f, op, now) {
      var r :| r in p.rules && OverfillsRule(p, f, w, now, r);
      RevivalCounts(p, f, op, now, w.station, r.kinds);
    } else {
      forall station, r | r in p.rules && p.roleOf(station) in r.roles && r.maxPerStation > 0
        ensures LiveAt(f'.workloads, station, r.kinds, now) <= r.maxPerStation
      {
        RevivalCounts(p, f, op, now, station, r.kinds);
        assert !OverfillsRule(p, f, w, now, r);
      }
    }
  }

  /** One step keeps every station within quota exactly when it overfills none. */
  lemma ApplyWithinQuotaIff(p: Policy, f: File, op: Op, now: int, clock: int)
    requires Disjoint(p.rules) && clock <= now && ExpiredBy(f, clock) && WithinQuota(p, f, clock)
    ensures WithinQuota(p, Apply(p, f, op, now), now) <==> !Overfills(p, f, op, now)
  {
    if Revives(f, op, now) {
      LaterWithinQuota(p, f, clock, now);
      RevivalWithinQuotaIff(p, f, op, now);
    } else {
      ApplyWithinQuota(p, f, op, now, clock);
    }
  }

  /** Every station is within quota after every step. */
  ghost predicate AlwaysWithin(p: Policy, f: File, steps: seq<Step>)
    decreases |steps|
  {
    steps == [] ||
    (var g := Apply(p, f, steps[0].op, steps[0].now); WithinQuota(p, g, steps[0].now) && AlwaysWithin(p, g, steps[1..]))
  }

  ghost predicate NeverOverfills(p: Policy, f: File, steps: seq<Step>)
    decreases |steps|
  {
    steps == [] ||
    (!Overfills(p, f, steps[0].op, steps[0].now) && NeverOverfills(p, Apply(p, f, steps[0].op, steps[0].now), steps[1..]))
  }

  /** Over every run on a clock that does not go back, from a store within quota,
      every station stays within quota after every step exactly when no report
      revives a workload that has no place left. */
  lemma {:induction false} AlwaysWithinIff(p: Policy, f: File, steps: seq<Step>, clock: int)
    requires Disjoint(p.rules) && ExpiredBy(f, clock) && WithinQuota(p, f, clock) && ClockRuns(clock, steps)
    ensures AlwaysWithin(p, f, steps) <==> NeverOverfills(p, f, steps)
    decreases |steps|
  {
    if steps != [] {
      var op, now := steps[0].op, steps[0].now;
      ApplyWithinQuotaIff(p, f, op, now, clock);
      if !Overfills(p, f, op, now) {
        ApplyExpiredBy(p, f, op, now, clock);
        RestClockRuns(clock, steps);
        AlwaysWithinIff(p, Apply(p, f, op, now), steps[1..], now);
      }
    }
  }

  // ---------- a run that goes over the cap ----------

  /** One place for a maker's web workload. */
  function OnePlace(): Policy {
    Policy([Rule(["maker"], ["web"], true, 1)], (station: string) => "maker")
  }

  const ASK := Request("s", "web", 10, true, false, 0)

  function Now(op: Op): Step {
    Step(op, 0)
  }

  /** Workload n of the run below, in its state. */
  function Ran(n: nat, state: State, more: seq<Event>): Workload {
    Workload(IdOf(n), "s", "web", 10, true, state, false, Some(10), [Event(0, Pending, "s"), Event(0, Approved, "serve")] + more)
  }

  lemma FirstRequest()
    ensures Apply(OnePlace(), File(0, []), ASK, 0) == File(1, [Ran(1, Approved, [])])
  {
    assert SweepAll([], 0) == [];
    assert Ran(1, Approved, []).history == [Event(0, Pending, "s")] + [Event(0, Approved, "serve")];
  }

  lemma ReportExited()
    ensures Apply(OnePlace(), File(1, [Ran(1, Approved, [])]), Report(IdOf(1), Exited, 0), 0)
         == File(1, [Ran(1, Exited, [Event(0, Exited, "controller")])])
  {
    assert SweepAll([Ran(1, Approved, [])], 0) == [Ran(1, Approved, [])];
    assert Ran(1, Exited, [Event(0, Exited, "controller")]).history == Ran(1, Approved, []).history + [Event(0, Exited, "controller")];
  }

  lemma SecondRequest()
    ensures Apply(OnePlace(), File(1, [Ran(1, Exited, [Event(0, Exited, "controller")])]), ASK, 0)
         == File(2, [Ran(1, Exited, [Event(0, Exited, "controller")]), Ran(2, Approved, [])])
  {
    var gone := Ran(1, Exited, [Event(0, Exited, "controller")]);
    assert SweepAll([gone], 0) == [gone];
    assert [gone][..0] == [];
    assert LiveCount([gone], "s", ["web"]) == 0;
    assert Ran(2, Approved, []).history == [Event(0, Pending, "s")] + [Event(0, Approved, "serve")];
  }

  /** A run of four steps through the stores f1, f2 and f3. */
  lemma RunFour(p: Policy, f: File, f1: File, f2: File, f3: File, steps: seq<Step>)
    requires |steps| == 4 && Apply(p, f, steps[0].op, steps[0].now) == f1
    requires Apply(p, f1, steps[1].op, steps[1].now) == f2 && Apply(p, f2, steps[2].op, steps[2].now) == f3
    ensures Run(p, f, steps) == Apply(p, f3, steps[3].op, steps[3].now)
    ensures NeverOverfills(p, f, steps) ==> !Overfills(p, f3, steps[3].op, steps[3].now)
  {
    var a, b, c := steps[1..], steps[1..][1..], steps[1..][1..][1..];
    assert a[0] == steps[1] && b[0] == steps[2] && c[0] == steps[3] && c[1..] == [];
    assert Run(p, f3, c) == Run(p, Apply(p, f3, steps[3].op, steps[3].now), []);
    assert Run(p, f2, b) == Run(p, f3, c);
    assert Run(p, f1, a) == Run(p, f2, b);
    if NeverOverfills(p, f, steps) {
      assert NeverOverfills(p, f1, a);
      assert NeverOverfills(p, f2, b);
      assert NeverOverfills(p, f3, c);
    }
  }

  /** Request, report it exited, request again, report the first one running. */
  function FourSteps(): seq<Step> {
    [Now(ASK), Now(Report(IdOf(1), Exited, 0)), Now(ASK), Now(Report(IdOf(1), Running, 0))]
  }

  lemma FourStepsAreFine()
    ensures ClockRuns(0, FourSteps()) && Disjoint(OnePlace().rules)
  {
    assert forall i :: 0 <= i < 4 ==> FourSteps()[i].now == 0;
  }

  /** From the empty store the station ends with two live workloads under a cap of one. */
  lemma RevivalCanExceedTheCap()
    ensures ClockRuns(0, FourSteps()) && Disjoint(OnePlace().rules)
    ensures !WithinQuota(OnePlace(), Run(OnePlace(), File(0, []), FourSteps()), 0)
    ensures !NeverOverfills(OnePlace(), File(0, []), FourSteps())
  {
    var first := Ran(1, Exited, [Event(0, Exited, "controller")]);
    var f1, f2, f3 := File(1, [Ran(1, Approved, [])]), File(1, [first]), File(2, [first, Ran(2, Approved, [])]);
    FourStepsAreFine();
    FirstRequest();
    ReportExited();
    SecondRequest();
    RunFour(OnePlace(), File(0, []), f1, f2, f3, FourSteps());
    ThirdOverfills(f3, first);
  }

  lemma ThirdOverfills(f: File, first: Workload)
    requires first == Ran(1, Exited, [Event(0, Exited, "controller")]) && f == File(2, [first, Ran(2, Approved, [])])
    ensures var p, revive := OnePlace(), Report(IdOf(1), Running, 0);
      !WithinQuota(p, Apply(p, f, revive, 0), 0) && Overfills(p, f, revive, 0)
  {
    var p, revive := OnePlace(), Report(IdOf(1), Running, 0);
    var r := p.rules[0];
    OneLive(first);
    assert Find(SweepAll(f.workloads, 0), IdOf(1)) == 0;
    RevivalCounts(p, f, revive, 0, "s", r.kinds);
    assert OverfillsRule(p, f, first, 0, r);
  }

  lemma OneLive(first: Workload)
    requires first == Ran(1, Exited, [Event(0, Exited, "controller")])
    ensures LiveAt([first, Ran(2, Approved, [])], "s", ["web"], 0) == 1
  {
    var ws := [first, Ran(2, Approved, [])];
    assert SweepAll(ws, 0) == ws && ws[..1] == [first] && [first][..0] == [];
    assert LiveCount([first], "s", ["web"]) == 0;
  }
}

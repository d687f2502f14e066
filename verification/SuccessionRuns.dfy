/** Every interleaving of bootstraps, successions, check-ins, rollbacks and
    admissions in one supervisor process. */
module SuccessionRuns {
  import opened Options
  import opened Decimal
  import opened Succession

  /** Where a call stands between its critical sections. */
  datatype Call =
    | Idle
    | Booting
    | BootChecked
    | Succeeding
    | SucceedRead(cur: Generation)
    | Launched(g: Generation)
    | Ending
    | CheckingIn(t: nat)
    | OldRemoved(t: nat)
    | Watching(t: nat)
    | Admitting(saw: Option<Generation>)

  predicate HoldsStart(c: Call) {
    c.Booting? || c.BootChecked? || c.Succeeding? || c.SucceedRead? || c.Launched? || c.Ending?
  }

  /** A generation is being launched and is not pending yet. */
  predicate Launching(c: Call) {
    HoldsStart(c) && !c.Ending?
  }

  datatype State = State(s: Shared, calls: map<nat, Call>)

  datatype Action =
    | BeginBoot(pid: nat)
    | BootCheck(pid: nat, running: bool)
    | BootRecord(pid: nat, commit: string, rec: Recording)
    | BeginSucceed(pid: nat)
    | ReadCurrent(pid: nat)
    | Launch(pid: nat, asked: string, commit: string)
    | SetPending(pid: nat, watcher: nat)
    | StartCheckin(pid: nat, header: Bytes)
    | RemoveOld(pid: nat)
    | EndCheckin(pid: nat, rec: Recording)
    | GiveUp(pid: nat)
    | StartAdmit(pid: nat)
    | EndAdmit(pid: nat, header: Bytes, post: bool)
    | Return(pid: nat)

  function CallOf(st: State, pid: nat): Call {
    if pid in st.calls then st.calls[pid] else Idle
  }

  function Goto(st: State, pid: nat, c: Call): State {
    st.(calls := st.calls[pid := c])
  }

  /** Return from a call, clearing the starting flag if the call set it. */
  function Leave(st: State, pid: nat): State {
    Goto(st, pid, Idle).(s := if HoldsStart(CallOf(st, pid)) then st.s.(starting := false) else st.s)
  }

  /** One step. Engine calls happen between steps; an action that does not fit
      the call's place changes nothing, and Return is a failure at any place. */
  function Apply(st: State, a: Action): State {
    var c := CallOf(st, a.pid);
    match a
    case BeginBoot(pid) =>
      if c.Idle? && MayBegin(st.s) then Goto(st, pid, Booting).(s := st.s.(starting := true)) else st
    case BootCheck(pid, running) =>
      if !c.Booting? then st
      else if st.s.current.Some? && (running || st.s.current.value.gen != 1) then Leave(st, pid)
      else Goto(st, pid, BootChecked)
    case BootRecord(pid, commit, rec) =>
      if !c.BootChecked? then st else Leave(st, pid).(s := Record(st.s, Line(Generation(1, commit, ""), None), rec).(starting := false))
    case BeginSucceed(pid) =>
      if c.Idle? && MayBegin(st.s) then Goto(st, pid, Succeeding).(s := st.s.(starting := true)) else st
    case ReadCurrent(pid) =>
      if !c.Succeeding? then st
      else if st.s.current.None? then Leave(st, pid)
      else Goto(st, pid, SucceedRead(st.s.current.value))
    case Launch(pid, asked, commit) => // commit is asked, or master when asked is one of its ancestors
      if !c.SucceedRead? then st
      else if asked == c.cur.commit then Leave(st, pid)
      else Goto(st, pid, Launched(Generation(c.cur.gen + 1, commit, c.cur.commit)))
    case SetPending(pid, watcher) =>
      if !c.Launched? || watcher == pid || !CallOf(st, watcher).Idle? then st
      else Goto(Goto(st, pid, Ending), watcher, Watching(|st.s.made|)).(s := Install(st.s, c.g))
    case StartCheckin(pid, header) =>
      if c.Idle? && FromPending(st.s, header) then Goto(st, pid, CheckingIn(st.s.pending.value)) else st
    case RemoveOld(pid) =>
      if c.CheckingIn? then Goto(st, pid, OldRemoved(c.t)) else st
    case EndCheckin(pid, rec) =>
      if c.OldRemoved? then Leave(st, pid).(s := FinishCheckin(st.s, c.t, rec)) else st
    case GiveUp(pid) =>
      if c.Watching? then Leave(st, pid).(s := RollBack(st.s, c.t)) else st
    case StartAdmit(pid) =>
      if c.Idle? then Goto(st, pid, Admitting(st.s.current)) else st
    case EndAdmit(pid, header, post) =>
      if c.Admitting? then Leave(st, pid).(s := Admitted(st.s, c.saw, header, post)) else st
    case Return(pid) => Leave(st, pid)
  }

  function Run(st: State, acts: seq<Action>): State
    decreases |acts|
  {
    if acts == [] then st else Run(Apply(st, acts[0]), acts[1..])
  }

  function OldLines(history: seq<Generation>): seq<Line> {
    seq(|history|, i requires 0 <= i < |history| => Line(history[i], None))
  }

  /** A fresh process: whatever generation is on disk, nothing in flight. */
  function Fresh(current: Option<Generation>, history: seq<Generation>): State {
    State(Shared(current, false, None, [], OldLines(history)), map[])
  }

  // ---------- the invariant ----------

  ghost predicate MadeOk(m: Made) {
    m.recorded + m.rolledBack <= 1 && m.closed == m.recorded && m.posts <= 1
  }

  ghost predicate PendingOk(s: Shared) {
    s.pending.Some? ==>
      && s.pending.value < |s.made|
      && s.current.Some?
      && var m := s.made[s.pending.value];
         && m.g.gen == s.current.value.gen + 1
         && m.recorded == 0 && m.rolledBack == 0 && m.closed == 0 && m.posts == if m.posted then 1 else 0
  }

  ghost predicate CallOk(s: Shared, c: Call) {
    match c
    case SucceedRead(cur) => s.current == Some(cur)
    case Launched(g) => s.current.Some? && g.gen == s.current.value.gen + 1
    case CheckingIn(t) => t < |s.made|
    case OldRemoved(t) => t < |s.made|
    case Watching(t) => t < |s.made|
    case Admitting(cur) => cur.Some? ==> s.current.Some? && cur.value.gen <= s.current.value.gen
    case BootChecked => s.current.Some? ==> s.current.value.gen == 1
    case _ => true
  }

  ghost predicate StartOk(st: State) {
    && (forall p :: p in st.calls && HoldsStart(st.calls[p]) ==> st.s.starting)
    && (forall p, q :: p in st.calls && q in st.calls && HoldsStart(st.calls[p]) && HoldsStart(st.calls[q]) ==> p == q)
    && (forall p :: p in st.calls && Launching(st.calls[p]) ==> st.s.pending.None?)
  }

  ghost predicate Inv(st: State) {
    && StartOk(st) && PendingOk(st.s)
    && (forall t :: 0 <= t < |st.s.made| ==> MadeOk(st.s.made[t]))
    && (forall p :: p in st.calls ==> CallOk(st.s, st.calls[p]))
  }

  // ---------- steps keep it ----------

  lemma LeaveKeeps(st: State, pid: nat)
    requires Inv(st)
    ensures Inv(Leave(st, pid))
  {
  }

  lemma GotoKeeps(st: State, pid: nat, c: Call)
    requires Inv(st) && CallOk(st.s, c)
    requires HoldsStart(c) ==> HoldsStart(CallOf(st, pid))
    requires Launching(c) ==> Launching(CallOf(st, pid))
    ensures Inv(Goto(st, pid, c))
  {
  }

  lemma BeginKeeps(st: State, pid: nat, c: Call)
    requires Inv(st) && MayBegin(st.s) && (c.Booting? || c.Succeeding?)
    ensures Inv(Goto(st, pid, c).(s := st.s.(starting := true)))
  {
  }

  lemma BootRecordKeeps(st: State, pid: nat, commit: string, rec: Recording)
    requires Inv(st) && CallOf(st, pid).BootChecked?
    ensures Inv(Apply(st, BootRecord(pid, commit, rec)))
  {
    var st' := Apply(st, BootRecord(pid, commit, rec));
    forall p | p in st'.calls ensures CallOk(st'.s, st'.calls[p]) {
      if p != pid {
        assert CallOk(st.s, st.calls[p]);
        assert !HoldsStart(st.calls[p]);
      }
    }
  }

  lemma SetPendingKeeps(st: State, pid: nat, watcher: nat)
    requires Inv(st) && CallOf(st, pid).Launched? && watcher != pid && CallOf(st, watcher).Idle?
    ensures Inv(Apply(st, SetPending(pid, watcher)))
  {
  }

  /** A section that changes only the pending record and what it names. */
  lemma SharedKeeps(st: State, pid: nat, s': Shared)
    requires Inv(st) && !HoldsStart(CallOf(st, pid)) && s'.starting == st.s.starting
    requires s'.pending == st.s.pending || s'.pending.None?
    requires PendingOk(s') && |s'.made| == |st.s.made|
    requires forall t :: 0 <= t < |s'.made| ==> MadeOk(s'.made[t])
    requires s'.current == st.s.current
      || (st.s.pending.Some? && st.s.current.Some? && s'.current.Some? && st.s.current.value.gen <= s'.current.value.gen)
    ensures Inv(Goto(st, pid, Idle).(s := s'))
  {
    var st' := Goto(st, pid, Idle).(s := s');
    forall p | p in st'.calls ensures CallOk(st'.s, st'.calls[p]) {
      if p != pid {
        assert CallOk(st.s, st.calls[p]);
        if s'.current != st.s.current {
          assert !Launching(st.calls[p]);
        }
      }
    }
  }

  lemma CheckinKeeps(st: State, pid: nat, rec: Recording)
    requires Inv(st) && CallOf(st, pid).OldRemoved?
    ensures Inv(Apply(st, EndCheckin(pid, rec)))
  {
    SharedKeeps(st, pid, FinishCheckin(st.s, CallOf(st, pid).t, rec));
  }

  lemma RollBackKeeps(st: State, pid: nat)
    requires Inv(st) && CallOf(st, pid).Watching?
    ensures Inv(Apply(st, GiveUp(pid)))
  {
    SharedKeeps(st, pid, RollBack(st.s, CallOf(st, pid).t));
  }

  /** A generation read as current is older than the pending one, so the pending
      generation's number is never let through as the current one. */
  lemma AdmitKeeps(st: State, pid: nat, header: Bytes, post: bool)
    requires Inv(st) && CallOf(st, pid).Admitting?
    ensures Inv(Apply(st, EndAdmit(pid, header, post)))
  {
    var cur := CallOf(st, pid).saw;
    if FromPending(st.s, header) && cur.Some? && header == Print(cur.value.gen) {
      PrintInjective(cur.value.gen, st.s.made[st.s.pending.value].g.gen);
    }
    SharedKeeps(st, pid, Admitted(st.s, cur, header, post));
  }

  lemma ApplyKeeps(st: State, a: Action)
    requires Inv(st)
    ensures Inv(Apply(st, a))
  {
    var c := CallOf(st, a.pid);
    LeaveKeeps(st, a.pid);
    match a {
      case BeginBoot(pid) => if c.Idle? && MayBegin(st.s) { BeginKeeps(st, pid, Booting); }
      case BeginSucceed(pid) => if c.Idle? && MayBegin(st.s) { BeginKeeps(st, pid, Succeeding); }
      case BootCheck(pid, running) =>
        if c.Booting? && !(st.s.current.Some? && (running || st.s.current.value.gen != 1)) { GotoKeeps(st, pid, BootChecked); }
      case BootRecord(pid, commit, rec) => if c.BootChecked? { BootRecordKeeps(st, pid, commit, rec); }
      case ReadCurrent(pid) => if c.Succeeding? && st.s.current.Some? { GotoKeeps(st, pid, SucceedRead(st.s.current.value)); }
      case Launch(pid, asked, commit) =>
        if c.SucceedRead? { GotoKeeps(st, pid, Launched(Generation(c.cur.gen + 1, commit, c.cur.commit))); }
      case SetPending(pid, watcher) =>
        if c.Launched? && watcher != pid && CallOf(st, watcher).Idle? { SetPendingKeeps(st, pid, watcher); }
      case StartCheckin(pid, header) => if FromPending(st.s, header) { GotoKeeps(st, pid, CheckingIn(st.s.pending.value)); }
      case RemoveOld(pid) => if c.CheckingIn? { GotoKeeps(st, pid, OldRemoved(c.t)); }
      case EndCheckin(pid, rec) => if c.OldRemoved? { CheckinKeeps(st, pid, rec); }
      case GiveUp(pid) => if c.Watching? { RollBackKeeps(st, pid); }
      case StartAdmit(pid) => GotoKeeps(st, pid, Admitting(st.s.current));
      case EndAdmit(pid, header, post) => if c.Admitting? { AdmitKeeps(st, pid, header, post); }
      case Return(pid) =>
    }
  }

  lemma {:induction false} RunKeeps(st: State, acts: seq<Action>)
    requires Inv(st)
    ensures Inv(Run(st, acts))
    decreases |acts|
  {
    if acts != [] {
      ApplyKeeps(st, acts[0]);
      RunKeeps(Apply(st, acts[0]), acts[1..]);
    }
  }

  /** In every interleaving: at most one succession is launching or pending; the
      pending generation is the current one plus one; each launched generation
      is recorded or rolled back but never both, its done channel closes at most
      once, and its number is let through at most once while it is pending. */
  lemma SuccessionIsSafe(current: Option<Generation>, history: seq<Generation>, acts: seq<Action>)
    ensures var st := Run(Fresh(current, history), acts);
      && (forall p, q :: p in st.calls && q in st.calls && Launching(st.calls[p]) && Launching(st.calls[q]) ==> p == q)
      && (forall p :: p in st.calls && Launching(st.calls[p]) ==> st.s.pending.None?)
      && (st.s.pending.Some? ==>
            && st.s.pending.value < |st.s.made| && st.s.current.Some?
            && st.s.made[st.s.pending.value].g.gen == st.s.current.value.gen + 1)
      && (forall t :: 0 <= t < |st.s.made| ==>
            && st.s.made[t].recorded + st.s.made[t].rolledBack <= 1
            && st.s.made[t].closed <= 1 && st.s.made[t].posts <= 1)
  {
    RunKeeps(Fresh(current, history), acts);
  }

  // ---------- what the history file says ----------

  /** The history file has a line for pending record t. */
  ghost predicate InHistory(s: Shared, t: nat)
    requires t < |s.made|
  {
    Line(s.made[t].g, Some(t)) in s.history
  }

  ghost predicate HistoryOk(s: Shared) {
    && (forall line :: line in s.history && line.made.Some? ==> line.made.value < |s.made|)
    && (forall t :: 0 <= t < |s.made| ==> (InHistory(s, t) <==> s.made[t].recorded + s.made[t].partly > 0))
  }

  /** The step ends a check-in of the pending record t by writing the record so far. */
  ghost predicate EndsCheckin(st: State, a: Action, t: nat, rec: Recording) {
    a.EndCheckin? && a.rec == rec && CallOf(st, a.pid) == OldRemoved(t) && IsPending(st.s, t)
  }

  lemma FinishHistory(s: Shared, t: nat, rec: Recording)
    requires HistoryOk(s)
    ensures HistoryOk(FinishCheckin(s, t, rec))
  {
    var s' := FinishCheckin(s, t, rec);
    if IsPending(s, t) {
      forall u | 0 <= u < |s'.made| ensures InHistory(s', u) <==> s'.made[u].recorded + s'.made[u].partly > 0 {
        assert InHistory(s, u) <==> s.made[u].recorded + s.made[u].partly > 0;
        assert s'.made[u].g == s.made[u].g;
      }
    }
  }

  lemma InstallHistory(s: Shared, g: Generation)
    requires HistoryOk(s)
    ensures HistoryOk(Install(s, g))
  {
    var s' := Install(s, g);
    assert Line(g, Some(|s.made|)) !in s.history;
    forall u | 0 <= u < |s'.made| ensures InHistory(s', u) <==> s'.made[u].recorded + s'.made[u].partly > 0 {
      if u < |s.made| {
        assert InHistory(s, u) <==> s.made[u].recorded + s.made[u].partly > 0;
      }
    }
  }

  /** A section that at most adds a line for no pending record, and leaves the records' counts. */
  lemma OtherHistory(s: Shared, s': Shared)
    requires HistoryOk(s) && |s'.made| == |s.made|
    requires s'.history == s.history || exists g :: s'.history == s.history + [Line(g, None)]
    requires forall t :: 0 <= t < |s.made| ==>
      s'.made[t].g == s.made[t].g && s'.made[t].recorded == s.made[t].recorded && s'.made[t].partly == s.made[t].partly
    ensures HistoryOk(s')
  {
    forall u | 0 <= u < |s'.made| ensures InHistory(s', u) <==> s'.made[u].recorded + s'.made[u].partly > 0 {
      assert InHistory(s, u) <==> s.made[u].recorded + s.made[u].partly > 0;
    }
  }

  lemma ApplyHistory(st: State, a: Action)
    requires Inv(st) && HistoryOk(st.s)
    ensures HistoryOk(Apply(st, a).s)
  {
    var c, s' := CallOf(st, a.pid), Apply(st, a).s;
    assert a.pid in st.calls ==> CallOk(st.s, st.calls[a.pid]);
    if a.EndCheckin? && c.OldRemoved? {
      FinishHistory(st.s, c.t, a.rec);
    } else if a.SetPending? && c.Launched? {
      InstallHistory(st.s, c.g);
    } else {
      OtherHistory(st.s, s');
    }
  }

  /** A record's counts go up by exactly the check-ins that end so. */
  lemma ApplyCounts(st: State, a: Action, t: nat)
    requires t < |Apply(st, a).s.made|
    ensures t < |st.s.made| ==>
      && Apply(st, a).s.made[t].partly == st.s.made[t].partly + (if EndsCheckin(st, a, t, HistoryOnly) then 1 else 0)
      && Apply(st, a).s.made[t].recorded == st.s.made[t].recorded + (if EndsCheckin(st, a, t, Whole) then 1 else 0)
    ensures t >= |st.s.made| ==>
      && Apply(st, a).s.made[t].partly == 0 && Apply(st, a).s.made[t].recorded == 0
      && !EndsCheckin(st, a, t, HistoryOnly) && !EndsCheckin(st, a, t, Whole)
  {
  }

  lemma {:induction false} RunInTwo(st: State, a: seq<Action>, b: seq<Action>)
    ensures Run(st, a + b) == Run(Run(st, a), b)
    decreases |a|
  {
    if a == [] {
      assert a + b == b;
    } else {
      assert (a + b)[1..] == a[1..] + b;
      RunInTwo(Apply(st, a[0]), a[1..], b);
    }
  }

  lemma RunMore(st: State, acts: seq<Action>, a: Action)
    ensures Run(st, acts + [a]) == Apply(Run(st, acts), a)
  {
    RunInTwo(st, acts, [a]);
    assert Run(Run(st, acts), [a]) == Run(Apply(Run(st, acts), a), []);
  }

  /** Some check-in of record t in the run ended so. */
  ghost predicate Ended(st: State, acts: seq<Action>, t: nat, rec: Recording) {
    exists i :: 0 <= i < |acts| && EndsCheckin(Run(st, acts[..i]), acts[i], t, rec)
  }

  lemma EndedMore(st: State, acts: seq<Action>, a: Action, t: nat, rec: Recording)
    ensures Ended(st, acts + [a], t, rec) <==> Ended(st, acts, t, rec) || EndsCheckin(Run(st, acts), a, t, rec)
  {
    var more := acts + [a];
    assert more[..|acts|] == acts && more[|acts|] == a;
    assert forall i :: 0 <= i < |acts| ==> more[i] == acts[i] && more[..i] == acts[..i];
    if Ended(st, acts, t, rec) {
      var i :| 0 <= i < |acts| && EndsCheckin(Run(st, acts[..i]), acts[i], t, rec);
      assert EndsCheckin(Run(st, more[..i]), more[i], t, rec);
    }
    if EndsCheckin(Run(st, acts), a, t, rec) {
      assert EndsCheckin(Run(st, more[..|acts|]), more[|acts|], t, rec);
    }
  }

  lemma NotEndedBefore(st: State, acts: seq<Action>, t: nat, rec: Recording)
    requires st.s.made == [] && t >= |Run(st, acts).s.made|
    ensures !Ended(st, acts, t, rec)
  {
    forall i | 0 <= i < |acts| ensures !EndsCheckin(Run(st, acts[..i]), acts[i], t, rec) {
      MadeGrows(st, acts, i);
    }
  }

  lemma {:induction false} MadeGrows(st: State, acts: seq<Action>, i: nat)
    requires i <= |acts|
    ensures |Run(st, acts[..i]).s.made| <= |Run(st, acts).s.made|
    decreases |acts| - i
  {
    if i < |acts| {
      assert acts[..i + 1] == acts[..i] + [acts[i]];
      RunMore(st, acts[..i], acts[i]);
      MadeGrows(st, acts, i + 1);
    } else {
      assert acts[..i] == acts;
    }
  }

  lemma {:induction false} CountsMean(st: State, acts: seq<Action>, t: nat)
    requires st.s.made == [] && t < |Run(st, acts).s.made|
    ensures Run(st, acts).s.made[t].partly > 0 <==> Ended(st, acts, t, HistoryOnly)
    ensures Run(st, acts).s.made[t].recorded > 0 <==> Ended(st, acts, t, Whole)
    decreases |acts|
  {
    if acts != [] {
      var front, a := acts[..|acts| - 1], acts[|acts| - 1];
      assert acts == front + [a];
      RunMore(st, front, a);
      ApplyCounts(Run(st, front), a, t);
      EndedMore(st, front, a, t, HistoryOnly);
      EndedMore(st, front, a, t, Whole);
      if t < |Run(st, front).s.made| {
        CountsMean(st, front, t);
      } else {
        NotEndedBefore(st, front, t, HistoryOnly);
        NotEndedBefore(st, front, t, Whole);
      }
    }
  }

  lemma {:induction false} RunHistory(st: State, acts: seq<Action>)
    requires Inv(st) && HistoryOk(st.s)
    ensures HistoryOk(Run(st, acts).s)
    decreases |acts|
  {
    if acts != [] {
      ApplyKeeps(st, acts[0]);
      ApplyHistory(st, acts[0]);
      RunHistory(Apply(st, acts[0]), acts[1..]);
    }
  }

  /** In every interleaving: a launched generation is in the history file exactly
      when some check-in of it got as far as writing there while it was pending;
      and a rolled-back one is there exactly when such a check-in wrote the history
      file and then failed to write the current generation. */
  lemma InHistoryIff(current: Option<Generation>, history: seq<Generation>, acts: seq<Action>, t: nat)
    requires t < |Run(Fresh(current, history), acts).s.made|
    ensures var st0 := Fresh(current, history);
      var s := Run(st0, acts).s;
      && (InHistory(s, t) <==> Ended(st0, acts, t, HistoryOnly) || Ended(st0, acts, t, Whole))
      && (s.made[t].rolledBack > 0 ==> (InHistory(s, t) <==> Ended(st0, acts, t, HistoryOnly)))
  {
    var st0 := Fresh(current, history);
    RunKeeps(st0, acts);
    RunHistory(st0, acts);
    CountsMean(st0, acts, t);
  }

  function OldOne(): Generation { Generation(1, "a", "") }
  function NewOne(): Generation { Generation(2, "b", "a") }

  /** A successor checks in, its record reaches the history file only, and it is rolled back. */
  function HalfRecorded(): seq<Action> {
    [BeginSucceed(0), ReadCurrent(0), Launch(0, "b", "b"), SetPending(0, 1), Return(0),
     StartCheckin(2, Print(2)), RemoveOld(2), EndCheckin(2, HistoryOnly), GiveUp(1)]
  }

  /** A generation that was rolled back can stand in the history file: the record
      is appended there before the current generation is written. */
  lemma RolledBackCanBeInHistory()
    ensures var s := Run(Fresh(Some(OldOne()), []), HalfRecorded()).s;
      |s.made| == 1 && s.made[0].rolledBack == 1 && InHistory(s, 0) && s.current == Some(OldOne())
  {
    var st := Fresh(Some(OldOne()), []);
    var launched := LaunchAlone(st, 0, 1, "b");
    var launch := [BeginSucceed(0), ReadCurrent(0), Launch(0, "b", "b"), SetPending(0, 1), Return(0)];
    var rest := [StartCheckin(2, Print(2)), RemoveOld(2), EndCheckin(2, HistoryOnly), GiveUp(1)];
    assert HalfRecorded() == launch + rest;
    RunInTwo(st, launch, rest);
    RunFive(st, launch);
    LaunchDecides(st, 0, 1, "b");
    RunOfFour(launched, rest);
    LaunchedIsReady(launched);
    HalfCheckin(launched);
  }

  lemma RunFive(st: State, acts: seq<Action>)
    requires |acts| == 5
    ensures Run(st, acts) == Apply(Apply(Apply(Apply(Apply(st, acts[0]), acts[1]), acts[2]), acts[3]), acts[4])
  {
    var rest := acts[1..];
    assert forall i :: 0 <= i < 4 ==> rest[i] == acts[i + 1];
    RunOfFour(Apply(st, acts[0]), rest);
  }

  lemma RunOfFour(st: State, acts: seq<Action>)
    requires |acts| == 4
    ensures Run(st, acts) == Apply(Apply(Apply(Apply(st, acts[0]), acts[1]), acts[2]), acts[3])
  {
    var a, b, c := acts[1..], acts[1..][1..], acts[1..][1..][1..];
    var st1 := Apply(st, acts[0]);
    var st2 := Apply(st1, acts[1]);
    var st3 := Apply(st2, acts[2]);
    assert a[0] == acts[1] && b[0] == acts[2] && c[0] == acts[3] && c[1..] == [];
    assert Run(st3, c) == Run(Apply(st3, acts[3]), []);
    assert Run(st2, b) == Run(st3, c);
    assert Run(st1, a) == Run(st2, b);
  }

  lemma CheckinAloneIs(st: State, pid: nat, t: nat, rec: Recording)
    requires CallOf(st, pid).Idle? && IsPending(st.s, t)
    ensures CheckinAlone(st, pid, Print(st.s.made[t].g.gen), rec).s == FinishCheckin(st.s, t, rec)
    ensures forall p :: p != pid ==> CallOf(CheckinAlone(st, pid, Print(st.s.made[t].g.gen), rec), p) == CallOf(st, p)
  {
  }

  lemma HalfThenRolledBack(s: Shared, t: nat)
    requires IsPending(s, t)
    ensures var s' := RollBack(FinishCheckin(s, t, HistoryOnly), t);
      && |s'.made| == |s.made| && s'.made[t].rolledBack == s.made[t].rolledBack + 1
      && InHistory(s', t) && s'.current == s.current
  {
    assert Line(s.made[t].g, Some(t)) in s.history + [Line(s.made[t].g, Some(t))];
  }

  /** A pending generation, its watcher, and a process free to check in. */
  ghost predicate ReadyToCheckIn(st: State) {
    && IsPending(st.s, 0) && |st.s.made| == 1 && st.s.made[0].rolledBack == 0 && st.s.made[0].g.gen == 2
    && st.s.current == Some(OldOne()) && CallOf(st, 1) == Watching(0) && CallOf(st, 2) == Idle
  }

  lemma LaunchedIsReady(st: State)
    requires st == LaunchAlone(Fresh(Some(OldOne()), []), 0, 1, "b")
    ensures ReadyToCheckIn(st)
  {
    LaunchDecides(Fresh(Some(OldOne()), []), 0, 1, "b");
    assert CallOf(st, 1) == Watching(0);
    assert CallOf(st, 2) == Idle;
  }

  lemma HalfCheckin(st: State)
    requires ReadyToCheckIn(st)
    ensures var s := Apply(CheckinAlone(st, 2, Print(2), HistoryOnly), GiveUp(1)).s;
      |s.made| == 1 && s.made[0].rolledBack == 1 && InHistory(s, 0) && s.current == Some(OldOne())
  {
    CheckinAloneIs(st, 2, 0, HistoryOnly);
    HalfThenRolledBack(st.s, 0);
    assert CallOf(CheckinAlone(st, 2, Print(2), HistoryOnly), 1) == Watching(0);
  }

  /** A generation number on record, once there is one, never goes back and
      never skips. */
  ghost predicate StepsUp(before: Option<Generation>, after: Option<Generation>) {
    before.Some? ==> after.Some? && before.value.gen <= after.value.gen <= before.value.gen + 1
  }

  lemma ApplyStepsUp(st: State, a: Action)
    requires Inv(st)
    ensures StepsUp(st.s.current, Apply(st, a).s.current)
  {
    var c := CallOf(st, a.pid);
    assert a.pid in st.calls ==> CallOk(st.s, st.calls[a.pid]);
  }

  lemma {:induction false} CurrentNeverGoesBack(st: State, acts: seq<Action>)
    requires Inv(st) && st.s.current.Some?
    ensures Run(st, acts).s.current.Some? && st.s.current.value.gen <= Run(st, acts).s.current.value.gen
    decreases |acts|
  {
    if acts != [] {
      ApplyKeeps(st, acts[0]);
      ApplyStepsUp(st, acts[0]);
      CurrentNeverGoesBack(Apply(st, acts[0]), acts[1..]);
    }
  }

  /** Launch a successor at commit with nothing interleaved. */
  function LaunchAlone(st: State, pid: nat, watcher: nat, commit: string): State {
    Apply(Apply(Apply(Apply(Apply(st, BeginSucceed(pid)), ReadCurrent(pid)), Launch(pid, commit, commit)), SetPending(pid, watcher)), Return(pid))
  }

  function CheckinAlone(st: State, pid: nat, header: Bytes, rec: Recording): State {
    Apply(Apply(Apply(st, StartCheckin(pid, header)), RemoveOld(pid)), EndCheckin(pid, rec))
  }

  /** A launch makes the next generation pending exactly when nothing is in
      progress and the commit is not the one already running. */
  lemma LaunchDecides(st: State, pid: nat, watcher: nat, commit: string)
    requires CallOf(st, pid).Idle? && CallOf(st, watcher).Idle? && watcher != pid
    ensures var s, s' := st.s, LaunchAlone(st, pid, watcher, commit).s;
      if !s.starting && s.pending.None? && s.current.Some? && s.current.value.commit != commit
      then
        var g := Generation(s.current.value.gen + 1, commit, s.current.value.commit);
        s' == Shared(s.current, false, Some(|s.made|), s.made + [Made(g, false, 0, 0, 0, 0, 0)], s.history)
      else s' == s
  {
  }

  /** A check-in makes the pending generation current exactly when it names it
      and the record is written whole. */
  lemma CheckinDecides(st: State, pid: nat, header: Bytes, rec: Recording)
    requires CallOf(st, pid).Idle?
    requires st.s.pending.Some? ==> st.s.pending.value < |st.s.made|
    ensures var s, s' := st.s, CheckinAlone(st, pid, header, rec).s;
      if s.pending.Some? && header == Print(s.made[s.pending.value].g.gen) && rec == Whole
      then s'.current == Some(s.made[s.pending.value].g) && s'.pending.None?
      else s'.current == s.current && s'.pending == s.pending
  {
  }

  /** A watcher that gives up takes back the generation it watches exactly when that
      one is still pending, and never another. */
  lemma RollbackDecides(st: State, pid: nat)
    requires CallOf(st, pid).Watching? && CallOf(st, pid).t < |st.s.made|
    ensures var s, s', t := st.s, Apply(st, GiveUp(pid)).s, CallOf(st, pid).t;
      && s'.current == s.current && s'.history == s.history && s'.starting == s.starting
      && s'.pending == (if s.pending == Some(t) then None else s.pending)
      && |s'.made| == |s.made|
      && forall u :: 0 <= u < |s.made| ==>
           s'.made[u].rolledBack == s.made[u].rolledBack + if u == t && s.pending == Some(t) then 1 else 0
  {
  }

  /** The first generation is recorded with nothing interleaved. */
  function BootAlone(st: State, pid: nat, running: bool, commit: string, rec: Recording): State {
    Apply(Apply(Apply(st, BeginBoot(pid)), BootCheck(pid, running)), BootRecord(pid, commit, rec))
  }

  /** Generation 1 is recorded exactly when nothing is in progress and there is no
      generation yet, or only a first one that does not run. */
  lemma BootDecides(st: State, pid: nat, running: bool, commit: string, rec: Recording)
    requires CallOf(st, pid).Idle?
    ensures var s, s' := st.s, BootAlone(st, pid, running, commit, rec).s;
      && s'.current == (if !s.starting && s.pending.None? && rec == Whole
                           && (s.current.None? || (s.current.value.gen == 1 && !running))
                        then Some(Generation(1, commit, "")) else s.current)
      && s'.starting == s.starting && s'.pending == s.pending && s'.made == s.made
  {
  }

  // ---------- which requests are let through ----------

  /** A request that names generation n goes through exactly when n is current, or n
      is pending and this is its one post, or there is no generation at all. */
  lemma AdmitDecides(s: Shared, cur: Option<Generation>, n: nat, post: bool)
    requires s.pending.Some? ==> s.pending.value < |s.made|
    ensures Admits(s, cur, Print(n), post) <==>
      || (cur.Some? && n == cur.value.gen)
      || (s.pending.Some? && n == s.made[s.pending.value].g.gen && post && !s.made[s.pending.value].posted)
      || (cur.None? && s.pending.None?)
  {
    if cur.Some? && Print(n) == Print(cur.value.gen) {
      PrintInjective(n, cur.value.gen);
    }
    if s.pending.Some? && Print(n) == Print(s.made[s.pending.value].g.gen) {
      PrintInjective(n, s.made[s.pending.value].g.gen);
    }
  }

  /** An unmarked request goes through; one marked with no number only before there
      is any generation. */
  lemma OtherHeaders(s: Shared, cur: Option<Generation>, header: Bytes, post: bool)
    requires forall n: nat :: header != Print(n)
    ensures Admits(s, cur, header, post) <==> header == [] || (cur.None? && s.pending.None?)
  {
  }

  /** A post under the pending generation's number, when none was let through yet. */
  ghost predicate PendingsPost(s: Shared, n: nat, post: bool) {
    s.pending.Some? && s.pending.value < |s.made| && s.made[s.pending.value].g.gen == n && post && s.made[s.pending.value].posts == 0
  }

  /** In every interleaving: of the numbered requests, those of the generation read as
      current go through, the pending one's single post does, and no others; so a
      generation that was superseded is refused. */
  lemma OnlyTheLiveAreAdmitted(current: Option<Generation>, history: seq<Generation>, acts: seq<Action>, pid: nat, n: nat, post: bool)
    requires var c := CallOf(Run(Fresh(current, history), acts), pid); c.Admitting? && c.saw.Some?
    ensures var st := Run(Fresh(current, history), acts);
      var cur := CallOf(st, pid).saw;
      && (Admits(st.s, cur, Print(n), post) <==> n == cur.value.gen || PendingsPost(st.s, n, post))
      && (n < cur.value.gen ==> !Admits(st.s, cur, Print(n), post))
  {
    RunKeeps(Fresh(current, history), acts);
    var st := Run(Fresh(current, history), acts);
    assert CallOk(st.s, st.calls[pid]);
    AdmitDecides(st.s, CallOf(st, pid).saw, n, post);
  }
}

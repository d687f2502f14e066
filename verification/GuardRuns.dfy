/** What every interleaving of merges, pulls and clears keeps. The refs are a
    function of the log of successful writes, every entry of the log satisfies
    what its call checked when it checked it, and the main theorems
    follow from the log alone. */
module GuardRuns {
  import opened Options
  import opened Refs
  import opened Checks
  import opened Guard

  // ---------- the refs as a function of the log ----------

  ghost function MasterAt(l: Line, log: seq<Entry>): Id {
    if log == [] then l.seed
    else
      var n := |log| - 1;
      if log[n].Landed? then log[n].commit else MasterAt(l, log[..n])
  }

  ghost function StopAt(log: seq<Entry>): Id {
    if log == [] then ""
    else
      var n := |log| - 1;
      match log[n]
      case Landed(_, _, _, _, _) => StopAt(log[..n])
      case Pulled(e, _, _, _) => e
      case Cleared(_, _, _, _, _, _) => ""
  }

  lemma Grown(log: seq<Entry>, e: Entry)
    ensures (log + [e])[..|log|] == log
    ensures forall t {:trigger (log + [e])[..t]} {:trigger log[..t]} :: 0 <= t <= |log| ==> (log + [e])[..t] == log[..t]
  {
  }

  lemma RefsGrown(l: Line, log: seq<Entry>, e: Entry)
    ensures MasterAt(l, log + [e]) == if e.Landed? then e.commit else MasterAt(l, log)
    ensures StopAt(log + [e]) == if e.Landed? then StopAt(log) else if e.Pulled? then e.event else ""
  {
    assert (log + [e])[..|log|] == log;
  }

  // ---------- what holds of each entry and of each call ----------

  ghost predicate NoLanding(log: seq<Entry>, from: nat, to: nat)
    requires to <= |log|
  {
    forall k :: from <= k < to ==> !log[k].Landed?
  }

  ghost predicate StopCheckPassed(l: Line, log: seq<Entry>, commit: Id, seen: Id, seenAt: nat) {
    && seenAt <= |log|
    && seen == StopAt(log[..seenAt])
    && (seen == "" || seen in l.trailers(commit))
  }

  ghost predicate ClearChecked(l: Line, log: seq<Entry>, env: Envelope, id: Id, sawAt: nat, commit: Id, masterAt: nat) {
    && id != "" && sawAt <= masterAt <= |log|
    && StopAt(log[..sawAt]) == id
    && MasterAt(l, log[..masterAt]) == commit
    && exists st :: AttestsTo(l, env, commit, st)
  }

  /** The event is readable and was raised on this commit. */
  ghost predicate RaisedOn(l: Line, event: Id, commit: Id) {
    event != "" && exists e :: l.event(event) == Some(e) && e.commit == commit
  }

  ghost predicate ClearRechecked(l: Line, log: seq<Entry>, env: Envelope, commit: Id, masterAt: nat, recheckAt: nat) {
    && masterAt <= recheckAt <= |log|
    && !RaisedOn(l, StopAt(log[..recheckAt]), commit)
    && exists st :: AttestsTo(l, env, commit, st) && AllRanClean(l.required, st.checks)
  }

  /** What an entry written after past must satisfy. */
  ghost predicate Fits(l: Line, past: seq<Entry>, e: Entry) {
    match e
    case Landed(commit, env, base, seen, seenAt) =>
      && Admitted(l, commit, base, env)
      && commit != "" && base == MasterAt(l, past)
      && StopCheckPassed(l, past, commit, seen, seenAt)
      && NoLanding(past, seenAt, |past|)
    case Pulled(event, env, commit, masterAt) =>
      && event != "" && StopAt(past) == ""
      && masterAt <= |past| && MasterAt(l, past[..masterAt]) == commit
      && exists failure :: Proves(l, env, commit, failure) && EventTells(l, event, commit, failure)
    case Cleared(event, commit, env, sawAt, masterAt, recheckAt) =>
      && StopAt(past) == event
      && ClearChecked(l, past, env, event, sawAt, commit, masterAt)
      && ClearRechecked(l, past, env, commit, masterAt, recheckAt)
  }

  ghost predicate EntryOk(l: Line, log: seq<Entry>, k: nat)
    requires k < |log|
  {
    Fits(l, log[..k], log[k])
  }

  ghost predicate CallOk(l: Line, log: seq<Entry>, c: Call) {
    match c
    case MergeChecked(commit, env) => MayMerge(l, commit, env)
    case MergeUnstopped(commit, env, seen, at) =>
      MayMerge(l, commit, env) && StopCheckPassed(l, log, commit, seen, at) && NoLanding(log, at, |log|)
    case MergeBased(commit, env, seen, at, base) =>
      commit != "" && Admitted(l, commit, base, env) && StopCheckPassed(l, log, commit, seen, at) && NoLanding(log, at, |log|)
    case PullVerified(env, commit) => exists st :: AttestsTo(l, env, commit, st)
    case PullAtMaster(env, commit, at) =>
      at <= |log| && MasterAt(l, log[..at]) == commit && exists st :: AttestsTo(l, env, commit, st)
    case PullUnstopped(env, commit, at, failure) =>
      at <= |log| && MasterAt(l, log[..at]) == commit && Proves(l, env, commit, failure)
    case ClearSaw(_, id, sawAt) => id != "" && sawAt <= |log| && StopAt(log[..sawAt]) == id
    case ClearAtMaster(env, id, sawAt, commit, at) => ClearChecked(l, log, env, id, sawAt, commit, at)
    case ClearNewer(env, id, sawAt, commit, at, again) =>
      ClearChecked(l, log, env, id, sawAt, commit, at) && ClearRechecked(l, log, env, commit, at, again)
    case _ => true
  }

  /** The envelope attests to the commit, and failure is what a pull finds in it. */
  ghost predicate Proves(l: Line, env: Envelope, commit: Id, failure: CheckResult) {
    exists st :: AttestsTo(l, env, commit, st) && IsFirstFailure(l.required, st.checks, failure)
  }

  ghost predicate MayMerge(l: Line, commit: Id, env: Envelope) {
    commit != "" && exists st :: AttestsTo(l, env, commit, st) && AllPass(l.required, st.checks, l.docsOnly(commit))
  }

  ghost predicate LogOk(l: Line, log: seq<Entry>) {
    forall k :: 0 <= k < |log| ==> EntryOk(l, log, k)
  }

  ghost predicate RefsOk(l: Line, s: State) {
    Value(s.refs, MASTER) == MasterAt(l, s.log) && Value(s.refs, STOP) == StopAt(s.log)
  }

  ghost predicate SlotOk(s: State) {
    && (forall p :: p in s.calls && HoldsSlot(s.calls[p]) ==> s.busy)
    && (forall p, q :: p in s.calls && q in s.calls && HoldsSlot(s.calls[p]) && HoldsSlot(s.calls[q]) ==> p == q)
  }

  ghost predicate CallsOk(l: Line, s: State) {
    forall p :: p in s.calls ==> CallOk(l, s.log, s.calls[p])
  }

  ghost predicate Inv(l: Line, s: State) {
    RefsOk(l, s) && SlotOk(s) && CallsOk(l, s) && LogOk(l, s.log)
  }

  // ---------- the invariant is inductive ----------

  lemma EntryKept(l: Line, log: seq<Entry>, e: Entry, k: nat)
    requires k < |log| && EntryOk(l, log, k)
    ensures EntryOk(l, log + [e], k)
  {
    Grown(log, e);
    assert (log + [e])[k] == log[k];
  }

  /** A new entry disturbs a call only if it is a landing and the call is a merge. */
  lemma CallKept(l: Line, log: seq<Entry>, e: Entry, c: Call)
    requires CallOk(l, log, c)
    requires e.Landed? ==> !HoldsSlot(c)
    ensures CallOk(l, log + [e], c)
  {
    Grown(log, e);
    if c.MergeUnstopped? || c.MergeBased? {
      assert NoLanding(log + [e], c.seenAt, |log + [e]|);
    }
  }

  /** A step that writes nothing. */
  lemma MovedKeeps(l: Line, s: State, pid: nat, c: Call)
    requires Inv(l, s) && CallOk(l, s.log, c)
    requires HoldsSlot(c) ==> HoldsSlot(CallOf(s, pid))
    ensures Inv(l, Goto(s, pid, c))
  {
  }

  lemma ReturnKeeps(l: Line, s: State, pid: nat)
    requires Inv(l, s)
    ensures Inv(l, Return(s, pid))
  {
  }

  lemma TakeSlotKeeps(l: Line, s: State, pid: nat, c: Call)
    requires Inv(l, s) && !s.busy && (c.Slotted? || c.MergeHolding?)
    ensures Inv(l, Goto(s, pid, c).(busy := true))
  {
  }

  /** A step that writes: the call is over and its entry joins the log. */
  lemma WroteKeeps(l: Line, s: State, pid: nat, e: Entry, refs: RefMap)
    requires Inv(l, s) && pid in s.calls
    requires e.Landed? ==> HoldsSlot(s.calls[pid])
    requires Fits(l, s.log, e)
    requires Value(refs, MASTER) == MasterAt(l, s.log + [e]) && Value(refs, STOP) == StopAt(s.log + [e])
    ensures Inv(l, Wrote(s, pid, e, refs))
  {
    var s' := Wrote(s, pid, e, refs);
    assert s'.log[..|s.log|] == s.log;
    forall k | 0 <= k < |s'.log| ensures EntryOk(l, s'.log, k) {
      if k < |s.log| {
        EntryKept(l, s.log, e, k);
      }
    }
    forall p | p in s'.calls ensures CallOk(l, s'.log, s'.calls[p]) {
      if p != pid {
        CallKept(l, s.log, e, s.calls[p]);
      }
    }
  }

  /** The state once the call of pid has written e. */
  ghost function Wrote(s: State, pid: nat, e: Entry, refs: RefMap): State {
    Return(s, pid).(refs := refs, log := s.log + [e])
  }

  lemma LandingFits(l: Line, s: State, c: Call)
    requires RefsOk(l, s) && CallOk(l, s.log, c) && c.MergeBased? && Value(s.refs, MASTER) == c.base
    ensures Fits(l, s.log, Landed(c.commit, c.env, c.base, c.seen, c.seenAt))
  {
  }

  /** Where the swap at the end of a merge leaves the state. */
  lemma LandingStep(l: Line, s: State, pid: nat)
    requires CallOf(s, pid).MergeBased?
    ensures var c := CallOf(s, pid);
      Step(l, s, pid, c) == if Value(s.refs, MASTER) == c.base
        then Wrote(s, pid, Landed(c.commit, c.env, c.base, c.seen, c.seenAt), s.refs[MASTER := c.commit])
        else Return(s, pid)
  {
  }

  lemma LandingKeeps(l: Line, s: State, pid: nat)
    requires Inv(l, s) && CallOf(s, pid).MergeBased?
    ensures Inv(l, Step(l, s, pid, CallOf(s, pid)))
  {
    var c := CallOf(s, pid);
    if Value(s.refs, MASTER) == c.base {
      var e, refs := Landed(c.commit, c.env, c.base, c.seen, c.seenAt), s.refs[MASTER := c.commit];
      LandingFits(l, s, c);
      RefsGrown(l, s.log, e);
      WroteKeeps(l, s, pid, e, refs);
    } else {
      ReturnKeeps(l, s, pid);
    }
    LandingStep(l, s, pid);
  }

  lemma PullFits(l: Line, s: State, c: Call, blob: Id)
    requires RefsOk(l, s) && CallOk(l, s.log, c) && c.PullUnstopped? && Value(s.refs, STOP) == "" && blob != ""
    requires Records(l, blob, c.commit, c.failure)
    ensures Fits(l, s.log, Pulled(blob, c.env, c.commit, c.masterAt))
  {
    RecordsTells(l, blob, c.commit, c.failure);
  }

  lemma PullStep(l: Line, s: State, pid: nat, blob: Id)
    requires CallOf(s, pid).PullUnstopped? && blob != "" && Records(l, blob, CallOf(s, pid).commit, CallOf(s, pid).failure)
    ensures var c := CallOf(s, pid);
      Apply(l, s, WriteStop(pid, blob)) == if Value(s.refs, STOP) == ""
        then Wrote(s, pid, Pulled(blob, c.env, c.commit, c.masterAt), s.refs[STOP := blob])
        else Return(s, pid)
  {
  }

  lemma PullKeeps(l: Line, s: State, pid: nat, blob: Id)
    requires Inv(l, s) && CallOf(s, pid).PullUnstopped? && blob != ""
    requires Records(l, blob, CallOf(s, pid).commit, CallOf(s, pid).failure)
    ensures Inv(l, Apply(l, s, WriteStop(pid, blob)))
  {
    var c := CallOf(s, pid);
    if Value(s.refs, STOP) == "" {
      var e, refs := Pulled(blob, c.env, c.commit, c.masterAt), s.refs[STOP := blob];
      PullFits(l, s, c, blob);
      RefsGrown(l, s.log, e);
      WroteKeeps(l, s, pid, e, refs);
    } else {
      ReturnKeeps(l, s, pid);
    }
    PullStep(l, s, pid, blob);
  }

  lemma ClearFits(l: Line, s: State, c: Call)
    requires RefsOk(l, s) && CallOk(l, s.log, c) && c.ClearNewer? && Value(s.refs, STOP) == c.id
    ensures Fits(l, s.log, Cleared(c.id, c.commit, c.env, c.sawAt, c.masterAt, c.recheckAt))
  {
  }

  lemma ClearStep(l: Line, s: State, pid: nat)
    requires CallOf(s, pid).ClearNewer?
    ensures var c := CallOf(s, pid);
      Step(l, s, pid, c) == if Drop(s.refs, STOP, c.id).1 == Written
        then Wrote(s, pid, Cleared(c.id, c.commit, c.env, c.sawAt, c.masterAt, c.recheckAt), s.refs - {STOP})
        else Return(s, pid)
  {
  }

  lemma ClearKeeps(l: Line, s: State, pid: nat)
    requires Inv(l, s) && CallOf(s, pid).ClearNewer?
    ensures Inv(l, Step(l, s, pid, CallOf(s, pid)))
  {
    var c := CallOf(s, pid);
    if Drop(s.refs, STOP, c.id).1 == Written {
      var e, refs := Cleared(c.id, c.commit, c.env, c.sawAt, c.masterAt, c.recheckAt), s.refs - {STOP};
      ClearFits(l, s, c);
      RefsGrown(l, s.log, e);
      WroteKeeps(l, s, pid, e, refs);
    } else {
      ReturnKeeps(l, s, pid);
    }
    ClearStep(l, s, pid);
  }

  lemma FullSlice(log: seq<Entry>)
    ensures log[..|log|] == log
  {
  }

  lemma MergeReadsKeep(l: Line, s: State, pid: nat)
    requires Inv(l, s)
    requires var c := CallOf(s, pid); c.MergeHolding? || c.MergeChecked? || c.MergeUnstopped?
    ensures Inv(l, Step(l, s, pid, CallOf(s, pid)))
  {
    var c := CallOf(s, pid);
    FullSlice(s.log);
    VerifyExact(l, c.env, c.commit);
    ReturnKeeps(l, s, pid);
    var next := CallOf(Step(l, s, pid, c), pid);
    if next.MergeChecked? {
      var v := Verify(l, c.env, c.commit);
      GuardTests(l, c.commit, "", v.statement.role, v.statement.checks);
    }
    if next.MergeBased? {
      var v := Verify(l, c.env, c.commit);
      var st :| AttestsTo(l, c.env, c.commit, st) && AllPass(l.required, st.checks, l.docsOnly(c.commit));
      assert st == v.statement;
      GuardTests(l, c.commit, next.base, st.role, st.checks);
      assert Admitted(l, c.commit, next.base, c.env);
    }
    if !next.Idle? {
      MovedKeeps(l, s, pid, next);
    }
  }

  lemma PullReadsKeep(l: Line, s: State, pid: nat)
    requires Inv(l, s)
    requires CallOf(s, pid).PullVerified? || CallOf(s, pid).PullAtMaster?
    ensures Inv(l, Step(l, s, pid, CallOf(s, pid)))
  {
    var c := CallOf(s, pid);
    FullSlice(s.log);
    ReturnKeeps(l, s, pid);
    var next := CallOf(Step(l, s, pid, c), pid);
    if next.PullUnstopped? {
      var st :| AttestsTo(l, c.env, c.commit, st);
      assert st == Verify(l, c.env, "").statement;
      FindFailureIff(l.required, st.checks);
    }
    if !next.Idle? {
      MovedKeeps(l, s, pid, next);
    }
  }

  lemma ClearReadsKeep(l: Line, s: State, pid: nat)
    requires Inv(l, s)
    requires CallOf(s, pid).ClearSaw? || CallOf(s, pid).ClearAtMaster?
    ensures Inv(l, Step(l, s, pid, CallOf(s, pid)))
  {
    var c := CallOf(s, pid);
    FullSlice(s.log);
    VerifyExact(l, c.env, "");
    ReturnKeeps(l, s, pid);
    var next := CallOf(Step(l, s, pid, c), pid);
    if next.ClearNewer? {
      var st :| AttestsTo(l, c.env, c.commit, st);
      assert st == Verify(l, c.env, "").statement;
      AcceptedUnskippedRanClean(l.required, st.checks);
    }
    if !next.Idle? {
      MovedKeeps(l, s, pid, next);
    }
  }

  lemma ApplyKeeps(l: Line, s: State, a: Action)
    requires Inv(l, s)
    ensures Inv(l, Apply(l, s, a))
  {
    var c := CallOf(s, a.pid);
    match a {
      case TakeSlot(pid) => if c.Idle? && !s.busy { TakeSlotKeeps(l, s, pid, Slotted); }
      case StartMerge(pid, commit, env) => if c.Idle? && !s.busy { TakeSlotKeeps(l, s, pid, MergeHolding(commit, env)); }
      case StartPull(pid, env) =>
        VerifyExact(l, env, "");
        if Verify(l, env, "").Verified? { MovedKeeps(l, s, pid, PullVerified(env, Verify(l, env, "").commit)); }
      case StartClear(pid, env) =>
        FullSlice(s.log);
        if Value(s.refs, STOP) != "" { MovedKeeps(l, s, pid, ClearSaw(env, Value(s.refs, STOP), |s.log|)); }
      case WriteStop(pid, blob) =>
        if c.PullUnstopped? && blob != "" && Records(l, blob, c.commit, c.failure) { PullKeeps(l, s, pid, blob); }
      case Finish(pid) => ReturnKeeps(l, s, pid);
      case Advance(pid) =>
        if c.MergeHolding? || c.MergeChecked? || c.MergeUnstopped? { MergeReadsKeep(l, s, pid); }
        else if c.PullVerified? || c.PullAtMaster? { PullReadsKeep(l, s, pid); }
        else if c.ClearSaw? || c.ClearAtMaster? { ClearReadsKeep(l, s, pid); }
        else if c.MergeBased? { LandingKeeps(l, s, pid); }
        else if c.ClearNewer? { ClearKeeps(l, s, pid); }
    }
  }

  lemma {:induction false} RunKeeps(l: Line, s: State, acts: seq<Action>)
    requires Inv(l, s)
    ensures Inv(l, Run(l, s, acts))
    decreases |acts|
  {
    if acts != [] {
      ApplyKeeps(l, s, acts[0]);
      RunKeeps(l, Apply(l, s, acts[0]), acts[1..]);
    }
  }

  /** Every reachable state satisfies the invariant. */
  lemma InvAlways(l: Line, acts: seq<Action>)
    ensures Inv(l, After(l, acts))
  {
    assert Value(map[MASTER := l.seed], STOP) == "";
    RunKeeps(l, Init(l), acts);
  }

  // ---------- the guarded branch is a chain of admitted commits ----------

  ghost predicate FirstParentPath(l: Line, path: seq<Id>) {
    forall i, j :: 0 <= i && j == i + 1 < |path| ==> FirstParentIs(l, path[j], path[i])
  }

  ghost predicate DescendsOrIs(l: Line, d: Id, a: Id) {
    exists path: seq<Id> :: |path| >= 1 && path[0] == a && path[|path| - 1] == d && FirstParentPath(l, path)
  }

  ghost predicate StrictlyDescends(l: Line, d: Id, a: Id) {
    exists path: seq<Id> :: |path| >= 2 && path[0] == a && path[|path| - 1] == d && FirstParentPath(l, path)
  }

  /** Every value the guarded ref has had, oldest first. */
  ghost function Masters(l: Line, log: seq<Entry>): (ms: seq<Id>)
    ensures |ms| > 0 && ms[0] == l.seed && ms[|ms| - 1] == MasterAt(l, log)
  {
    if log == [] then [l.seed]
    else
      var n := |log| - 1;
      if log[n].Landed? then Masters(l, log[..n]) + [log[n].commit] else Masters(l, log[..n])
  }

  lemma {:induction false} MastersFormPath(l: Line, log: seq<Entry>)
    requires LogOk(l, log)
    ensures FirstParentPath(l, Masters(l, log))
  {
    if log != [] {
      var n := |log| - 1;
      LogOkPrefix(l, log, n);
      MastersFormPath(l, log[..n]);
      assert EntryOk(l, log, n);
    }
  }

  lemma LogOkPrefix(l: Line, log: seq<Entry>, n: nat)
    requires LogOk(l, log) && n <= |log|
    ensures LogOk(l, log[..n])
  {
    forall k | 0 <= k < n ensures EntryOk(l, log[..n], k) {
      assert EntryOk(l, log, k);
      assert log[..n][..k] == log[..k];
    }
  }

  /** In every run the values of the guarded ref form a first-parent path from
      the seed, and each link was admitted by an envelope about exactly that
      commit. */
  lemma MasterIsAdmittedChain(l: Line, acts: seq<Action>)
    ensures var s := After(l, acts);
      && FirstParentPath(l, Masters(l, s.log))
      && Value(s.refs, MASTER) == MasterAt(l, s.log)
      && forall k :: 0 <= k < |s.log| && s.log[k].Landed? ==>
           s.log[k].base == MasterAt(l, s.log[..k]) && Admitted(l, s.log[k].commit, s.log[k].base, s.log[k].env)
  {
    InvAlways(l, acts);
    var s := After(l, acts);
    MastersFormPath(l, s.log);
    forall k | 0 <= k < |s.log| && s.log[k].Landed?
      ensures s.log[k].base == MasterAt(l, s.log[..k]) && Admitted(l, s.log[k].commit, s.log[k].base, s.log[k].env)
    {
      assert EntryOk(l, s.log, k);
    }
  }

  lemma DescendsOneMore(l: Line, d: Id, a: Id, c: Id)
    requires DescendsOrIs(l, d, a) && FirstParentIs(l, c, d)
    ensures DescendsOrIs(l, c, a)
  {
    var path: seq<Id> :| |path| >= 1 && path[0] == a && path[|path| - 1] == d && FirstParentPath(l, path);
    var longer := path + [c];
    assert forall i :: 0 <= i < |path| ==> longer[i] == path[i];
    assert FirstParentPath(l, longer);
  }

  lemma DescendsSelf(l: Line, a: Id)
    ensures DescendsOrIs(l, a, a)
  {
    var path := [a];
    assert FirstParentPath(l, path);
  }

  /** One entry leaves master alone or moves it to a first-parent child. */
  lemma MasterStep(l: Line, log: seq<Entry>, k: nat)
    requires k < |log| && EntryOk(l, log, k)
    ensures var m, m' := MasterAt(l, log[..k]), MasterAt(l, log[..k + 1]); m' == m || FirstParentIs(l, m', m)
  {
    assert log[..k + 1][..k] == log[..k];
  }

  /** A later value of the guarded ref descends from an earlier one. */
  lemma {:induction false} LaterMasterDescends(l: Line, log: seq<Entry>, a: nat, b: nat)
    requires LogOk(l, log) && a <= b <= |log|
    ensures DescendsOrIs(l, MasterAt(l, log[..b]), MasterAt(l, log[..a]))
    decreases b
  {
    if a == b {
      DescendsSelf(l, MasterAt(l, log[..a]));
    } else {
      LaterMasterDescends(l, log, a, b - 1);
      MasterStep(l, log, b - 1);
      var m, m' := MasterAt(l, log[..b - 1]), MasterAt(l, log[..b]);
      if m' != m {
        DescendsOneMore(l, m, MasterAt(l, log[..a]), m');
      }
    }
  }

  // ---------- a stop lets at most one untagged commit through ----------

  /** log[k] landed while the stop raised by log[i] was still up, without its trailer. */
  ghost predicate UntaggedLanding(l: Line, log: seq<Entry>, i: nat, k: nat)
    requires i < |log| && log[i].Pulled?
  {
    && i < k < |log| && log[k].Landed?
    && (forall j :: i < j < k ==> !log[j].Cleared?)
    && log[i].event !in l.trailers(log[k].commit)
  }

  lemma {:induction false} StopStays(l: Line, log: seq<Entry>, i: nat, t: nat)
    requires LogOk(l, log) && i < t <= |log| && log[i].Pulled?
    requires forall j :: i < j < t ==> !log[j].Cleared?
    ensures StopAt(log[..t]) == log[i].event
    decreases t
  {
    assert log[..t][..t - 1] == log[..t - 1];
    if t > i + 1 {
      StopStays(l, log, i, t - 1);
      assert EntryOk(l, log, t - 1) && EntryOk(l, log, i);
    }
  }

  lemma UntaggedWasInFlight(l: Line, log: seq<Entry>, i: nat, k: nat)
    requires LogOk(l, log) && i < |log| && log[i].Pulled? && UntaggedLanding(l, log, i, k)
    ensures log[k].seenAt <= i
  {
    assert EntryOk(l, log, k) && EntryOk(l, log, i);
    var at := log[k].seenAt;
    if i < at {
      assert log[..k][..at] == log[..at];
      StopStays(l, log, i, at);
    }
  }

  lemma LandingsExclude(l: Line, log: seq<Entry>, k: nat, k': nat)
    requires LogOk(l, log) && k < k' < |log| && log[k].Landed? && log[k'].Landed?
    ensures k < log[k'].seenAt
  {
    assert EntryOk(l, log, k');
    assert log[..k'][k] == log[k];
  }

  /** In every run, between a pull and the clear of its event at most one commit
      without the event's trailer lands, and it is a merge whose stop check came
      before the pull and whose write came after it. */
  lemma StopLetsOneThrough(l: Line, acts: seq<Action>, i: nat, k: nat, k': nat)
    requires i < |After(l, acts).log| && After(l, acts).log[i].Pulled?
    requires UntaggedLanding(l, After(l, acts).log, i, k) && UntaggedLanding(l, After(l, acts).log, i, k')
    ensures k == k' && After(l, acts).log[k].seenAt <= i
  {
    InvAlways(l, acts);
    var log := After(l, acts).log;
    UntaggedWasInFlight(l, log, i, k);
    UntaggedWasInFlight(l, log, i, k');
    if k < k' {
      LandingsExclude(l, log, k, k');
    } else if k' < k {
      LandingsExclude(l, log, k', k);
    }
  }

  /** In every run each stop was raised on proof: by an envelope that attests to
      the commit that was master when the pull read it, with a failing required
      check in it, and the event records that very failure. */
  lemma StopsHaveProof(l: Line, acts: seq<Action>, k: nat)
    requires k < |After(l, acts).log| && After(l, acts).log[k].Pulled?
    ensures var log := After(l, acts).log;
      && log[k].masterAt <= k && log[k].commit == MasterAt(l, log[..log[k].masterAt])
      && exists failure :: Proves(l, log[k].env, log[k].commit, failure) && EventTells(l, log[k].event, log[k].commit, failure)
  {
    InvAlways(l, acts);
    var log := After(l, acts).log;
    assert EntryOk(l, log, k);
    assert log[..k][..log[k].masterAt] == log[..log[k].masterAt];
  }

  // ---------- a clear removes the event it read, after a real fix ----------

  /** No two pulls wrote the same event ID. */
  ghost predicate FreshEvents(log: seq<Entry>) {
    forall i, j :: 0 <= i < j < |log| && log[i].Pulled? && log[j].Pulled? ==> log[i].event != log[j].event
  }

  /** log[i] raised the stop that is up at t, and nothing cleared it since. */
  ghost predicate RaisedBy(log: seq<Entry>, i: nat, t: nat)
    requires t <= |log|
  {
    i < t && log[i].Pulled? && log[i].event == StopAt(log[..t]) && forall j :: i < j < t ==> !log[j].Cleared? && !log[j].Pulled?
  }

  lemma {:induction false} StopWasRaised(log: seq<Entry>, t: nat) returns (i: nat)
    requires t <= |log| && StopAt(log[..t]) != ""
    ensures RaisedBy(log, i, t)
    decreases t
  {
    assert log[..t][..t - 1] == log[..t - 1];
    if log[t - 1].Pulled? {
      i := t - 1;
    } else {
      i := StopWasRaised(log, t - 1);
    }
  }

  /** The event a clear removes was up from before its first read: an event ID
      that comes back would need a second pull writing it. */
  lemma EventUpThroughout(l: Line, log: seq<Entry>, k: nat) returns (i: nat)
    requires LogOk(l, log) && k < |log| && log[k].Cleared? && FreshEvents(log)
    ensures i < log[k].sawAt <= k && log[i].Pulled? && log[i].event == log[k].event
    ensures forall t :: i < t <= k ==> StopAt(log[..t]) == log[k].event
  {
    var c := log[k];
    assert EntryOk(l, log, k);
    assert log[..k][..c.sawAt] == log[..c.sawAt];
    i := StopWasRaised(log, k);
    var i' := StopWasRaised(log, c.sawAt);
    assert i == i';
    forall t | i < t <= k ensures StopAt(log[..t]) == c.event {
      StopStays(l, log, i, t);
    }
  }

  /** The commit that clears an event is a newer master than the one it was
      raised on, because the event the call re-reads is the one it removes. */
  lemma ClearingCommitIsNewer(l: Line, log: seq<Entry>, i: nat, k: nat)
    requires LogOk(l, log) && k < |log| && log[k].Cleared?
    requires i < log[k].sawAt && i < k && log[i].Pulled? && log[i].event == log[k].event
    requires forall t :: i < t <= k ==> StopAt(log[..t]) == log[k].event
    ensures StrictlyDescends(l, log[k].commit, log[i].commit)
  {
    var c, p := log[k], log[i];
    assert EntryOk(l, log, k) && EntryOk(l, log, i);
    assert log[..k][..c.masterAt] == log[..c.masterAt] && log[..k][..c.recheckAt] == log[..c.recheckAt];
    assert StopAt(log[..c.recheckAt]) == c.event;
    assert log[..i][..p.masterAt] == log[..p.masterAt];
    LaterMasterDescends(l, log, p.masterAt, c.masterAt);
    var path: seq<Id> :| |path| >= 1 && path[0] == p.commit && path[|path| - 1] == c.commit && FirstParentPath(l, path);
    assert c.commit != p.commit;
    assert |path| >= 2;
  }

  lemma ClearingRunWasClean(l: Line, log: seq<Entry>, k: nat)
    requires LogOk(l, log) && k < |log| && log[k].Cleared?
    ensures exists st :: AttestsTo(l, log[k].env, log[k].commit, st) && AllRanClean(l.required, st.checks)
  {
    assert EntryOk(l, log, k);
    var c := log[k];
  }

  /** What a successful clear at log[k] of the event pulled at log[i] guarantees. */
  ghost predicate SoundClear(l: Line, log: seq<Entry>, i: nat, k: nat)
    requires k < |log| && log[k].Cleared?
  {
    var c := log[k];
    && i < c.sawAt <= c.masterAt <= k
    && log[i].Pulled? && log[i].event == c.event
    && (forall t :: i < t <= k ==> StopAt(log[..t]) == c.event)
    && StopAt(log[..k + 1]) == ""
    && MasterAt(l, log[..c.masterAt]) == c.commit
    && StrictlyDescends(l, c.commit, log[i].commit)
    && exists st :: AttestsTo(l, c.env, c.commit, st) && AllRanClean(l.required, st.checks)
  }

  lemma ClearInLogIsSound(l: Line, log: seq<Entry>, k: nat) returns (i: nat)
    requires LogOk(l, log) && k < |log| && log[k].Cleared? && FreshEvents(log)
    ensures SoundClear(l, log, i, k)
  {
    i := EventUpThroughout(l, log, k);
    ClearingCommitIsNewer(l, log, i, k);
    ClearingRunWasClean(l, log, k);
    ClearedAtMaster(l, log, k);
  }

  lemma ClearedAtMaster(l: Line, log: seq<Entry>, k: nat)
    requires LogOk(l, log) && k < |log| && log[k].Cleared?
    ensures log[k].sawAt <= log[k].masterAt <= k && MasterAt(l, log[..log[k].masterAt]) == log[k].commit
    ensures StopAt(log[..k + 1]) == ""
  {
    assert EntryOk(l, log, k);
    assert log[..k][..log[k].masterAt] == log[..log[k].masterAt];
  }

  /** In every run with fresh event IDs, a successful clear removes the event it
      read first, which was up during the whole call (although the call reads the
      stop three times); the clearing commit was master during the call, ran every
      required check to exit 0, and strictly descends from the failing commit. */
  lemma ClearIsSound(l: Line, acts: seq<Action>, k: nat) returns (i: nat)
    requires k < |After(l, acts).log| && After(l, acts).log[k].Cleared? && FreshEvents(After(l, acts).log)
    ensures SoundClear(l, After(l, acts).log, i, k)
  {
    InvAlways(l, acts);
    i := ClearInLogIsSound(l, After(l, acts).log, k);
  }
}

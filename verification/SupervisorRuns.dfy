/** Interleavings carried out on the supervisor: every step of a run is one of
    its critical sections, and it ends up as the runs say. */
module SupervisorRuns {
  import opened Options
  import opened Succession
  import opened SuccessionRuns

  /** Take one step on the supervisor. */
  method Perform(sup: Supervisor, calls: map<nat, Call>, a: Action) returns (calls': map<nat, Call>)
    requires Inv(State(sup.s, calls))
    modifies sup
    ensures State(sup.s, calls') == Apply(State(old(sup.s), calls), a) && Inv(State(sup.s, calls'))
  {
    ghost var st := State(sup.s, calls);
    ApplyKeeps(st, a);
    var pid := a.pid;
    var c := if pid in calls then calls[pid] else Idle;
    assert pid in calls ==> CallOk(sup.s, calls[pid]);
    calls' := calls;
    match a {
      case BeginBoot(_) =>
        if c.Idle? {
          var ok := sup.Begin();
          if ok { calls' := calls[pid := Booting]; }
        }
      case BeginSucceed(_) =>
        if c.Idle? {
          var ok := sup.Begin();
          if ok { calls' := calls[pid := Succeeding]; }
        }
      case SetPending(_, watcher) =>
        var w := if watcher in calls then calls[watcher] else Idle;
        if c.Launched? && watcher != pid && w.Idle? {
          var t := sup.SetPending(c.g);
          calls' := calls[pid := Ending][watcher := Watching(t)];
        }
      case EndCheckin(_, rec) =>
        if c.OldRemoved? {
          var _ := sup.CompleteCheckin(c.t, rec);
          calls' := calls[pid := Idle];
        }
      case GiveUp(_) =>
        if c.Watching? {
          var _ := sup.Rollback(c.t);
          calls' := calls[pid := Idle];
        }
      case EndAdmit(_, header, post) =>
        if c.Admitting? {
          var _ := sup.Admit(c.saw, header, post);
          calls' := calls[pid := Idle];
        }
      case Return(_) =>
        if HoldsStart(c) { sup.End(); }
        calls' := calls[pid := Idle];
      case _ =>
        var next := Apply(State(sup.s, calls), a);
        sup.s, calls' := next.s, next.calls;
    }
  }

  /** Any interleaving, played on a fresh supervisor, ends as the runs say, so
      what is proved of runs holds of it. */
  method Play(current: Option<Generation>, history: seq<Generation>, acts: seq<Action>) returns (sup: Supervisor, calls: map<nat, Call>)
    ensures fresh(sup) && State(sup.s, calls) == Run(Fresh(current, history), acts) && Inv(State(sup.s, calls))
  {
    sup := new Supervisor(Shared(current, false, None, [], OldLines(history)));
    calls := map[];
    for i := 0 to |acts|
      invariant fresh(sup) && Inv(State(sup.s, calls)) && State(sup.s, calls) == Run(Fresh(current, history), acts[..i])
    {
      calls := Perform(sup, calls, acts[i]);
      RunMore(Fresh(current, history), acts[..i], acts[i]);
      assert acts[..i + 1] == acts[..i] + [acts[i]];
    }
    assert acts[..|acts|] == acts;
  }
}

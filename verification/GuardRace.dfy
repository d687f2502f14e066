/** A run that shows the bound of one untagged commit per stop is tight. */
module GuardRace {
  import opened Options
  import opened Refs
  import opened Checks
  import opened Guard
  import opened GuardRuns

  lemma {:induction false} RunSplit(l: Line, s: State, first: seq<Action>, rest: seq<Action>)
    ensures Run(l, s, first + rest) == Run(l, Run(l, s, first), rest)
    decreases |first|
  {
    if first == [] {
      assert first + rest == rest;
    } else {
      assert (first + rest)[1..] == first[1..] + rest;
      RunSplit(l, Apply(l, s, first[0]), first[1..], rest);
    }
  }

  lemma RunTwo(l: Line, s: State, a: Action, b: Action)
    ensures Run(l, s, [a, b]) == Apply(l, Apply(l, s, a), b)
  {
    assert [a, b][1..] == [b];
    assert Run(l, Apply(l, s, a), [b]) == Run(l, Apply(l, Apply(l, s, a), b), []);
  }

  /** A line on which "seed" fails its one check and "c" is an ordinary child of it. */
  function RacyLine(): Line {
    Line("seed", [Check("ci", "just ci", false)], "", "", map[],
         (env: Envelope) => if env == "pass" then Some(Says("c", 0)) else Some(Says("seed", 1)),
         (commit: Id) => if commit == "c" then ["seed"] else [],
         (commit: Id) => [], (commit: Id) => false, (a: Id, b: Id) => [],
         (path: string) => None, (a: Id, b: Id) => true,
         (blob: Id) => Some(AndonEvent("seed", "ci", 1, "", 0)))
  }

  function Says(commit: Id, code: int): Opened {
    Opened(Statement(Some(commit), "maker", "", "", [CheckResult("ci", "just ci", code, "", "")]), "key")
  }

  const MERGE_READY: State :=
    State(map[MASTER := "seed"], true, map[0 := MergeUnstopped("c", "pass", "", 0)], [])

  const STOPPED: State :=
    State(map[MASTER := "seed", STOP := "event"], true, map[0 := MergeUnstopped("c", "pass", "", 0), 1 := Idle],
          [Pulled("event", "fail", "seed", 0)])

  const PULL_READY: State :=
    Goto(MERGE_READY, 1, PullUnstopped("fail", "seed", 0, Says("seed", 1).statement.checks[0]))

  lemma MergePassesItsStopCheck()
    ensures Run(RacyLine(), Init(RacyLine()), [StartMerge(0, "c", "pass"), Advance(0)] + [Advance(0)]) == MERGE_READY
  {
    var l := RacyLine();
    var pass := Says("c", 0).statement.checks;
    LastAt(pass, 0);
    JudgeFirst(l.required, pass, false, 1);
    RunSplit(l, Init(l), [StartMerge(0, "c", "pass"), Advance(0)], [Advance(0)]);
    RunTwo(l, Init(l), StartMerge(0, "c", "pass"), Advance(0));
    var checked := State(map[MASTER := "seed"], true, map[0 := MergeChecked("c", "pass")], []);
    assert Apply(l, Apply(l, Init(l), StartMerge(0, "c", "pass")), Advance(0)) == checked;
    assert Run(l, checked, [Advance(0)]) == Apply(l, checked, Advance(0));
  }

  lemma PullReadsMaster()
    ensures Apply(RacyLine(), Apply(RacyLine(), MERGE_READY, StartPull(1, "fail")), Advance(1))
         == Goto(MERGE_READY, 1, PullAtMaster("fail", "seed", 0))
  {
    assert Apply(RacyLine(), MERGE_READY, StartPull(1, "fail")) == Goto(MERGE_READY, 1, PullVerified("fail", "seed"));
  }

  lemma PullReadsStop()
    ensures Apply(RacyLine(), Goto(MERGE_READY, 1, PullAtMaster("fail", "seed", 0)), Advance(1)) == PULL_READY
  {
    FindFailureFirst(RacyLine().required, Says("seed", 1).statement.checks, 0, 0);
  }

  lemma ThenThePullReads()
    ensures Run(RacyLine(), MERGE_READY, [StartPull(1, "fail"), Advance(1)] + [Advance(1)]) == PULL_READY
  {
    var l := RacyLine();
    RunSplit(l, MERGE_READY, [StartPull(1, "fail"), Advance(1)], [Advance(1)]);
    RunTwo(l, MERGE_READY, StartPull(1, "fail"), Advance(1));
    PullReadsMaster();
    PullReadsStop();
  }

  lemma PullWrites()
    ensures Apply(RacyLine(), PULL_READY, WriteStop(1, "event")) == STOPPED
  {
  }

  lemma MergeLands()
    ensures Apply(RacyLine(), Apply(RacyLine(), STOPPED, Advance(0)), Advance(0)).log
         == [Pulled("event", "fail", "seed", 0), Landed("c", "pass", "seed", "", 0)]
  {
    assert Apply(RacyLine(), STOPPED, Advance(0)) == Goto(STOPPED, 0, MergeBased("c", "pass", "", 0, "seed"));
  }

  lemma ThenTheCordIsPulledAndTheMergeLands()
    ensures Run(RacyLine(), PULL_READY, [WriteStop(1, "event")] + [Advance(0), Advance(0)]).log
         == [Pulled("event", "fail", "seed", 0), Landed("c", "pass", "seed", "", 0)]
  {
    var l := RacyLine();
    RunSplit(l, PULL_READY, [WriteStop(1, "event")], [Advance(0), Advance(0)]);
    PullWrites();
    RunTwo(l, STOPPED, Advance(0), Advance(0));
    MergeLands();
  }

  /** The bound is tight: the stop check is not atomic with the ref update, so a
      commit without the trailer can land on a stopped line. */
  lemma OneCanLandWhileStopped() returns (acts: seq<Action>)
    ensures var log := After(RacyLine(), acts).log;
      |log| == 2 && log[0].Pulled? && UntaggedLanding(RacyLine(), log, 0, 1)
  {
    var l := RacyLine();
    var a := [StartMerge(0, "c", "pass"), Advance(0)] + [Advance(0)];
    var b := [StartPull(1, "fail"), Advance(1)] + [Advance(1)];
    var c := [WriteStop(1, "event")] + [Advance(0), Advance(0)];
    acts := a + (b + c);
    RunSplit(l, Init(l), a, b + c);
    MergePassesItsStopCheck();
    RunSplit(l, MERGE_READY, b, c);
    ThenThePullReads();
    ThenTheCordIsPulledAndTheMergeLands();
  }
}

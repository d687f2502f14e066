/** What each guard call decides when nothing interleaves with it: its steps,
    one after the other, amount to one atomic test of the refs and one write. */
module GuardAlone {
  import opened Options
  import opened Refs
  import opened Checks
  import opened Guard
  import opened GuardRuns

  /** The call of pid takes n more steps. */
  function Advances(l: Line, s: State, pid: nat, n: nat): State
    decreases n
  {
    if n == 0 then s else Advances(l, Apply(l, s, Advance(pid)), pid, n - 1)
  }

  lemma {:induction false} AdvancesIsARun(l: Line, s: State, pid: nat, n: nat)
    ensures Advances(l, s, pid, n) == Run(l, s, seq(n, i => Advance(pid)))
    decreases n
  {
    if n > 0 {
      assert seq(n, i => Advance(pid))[1..] == seq(n - 1, i => Advance(pid));
      AdvancesIsARun(l, Apply(l, s, Advance(pid)), pid, n - 1);
    }
  }

  /** Nothing happens to a finished call. */
  lemma {:induction false} IdleStays(l: Line, s: State, pid: nat, n: nat)
    requires CallOf(s, pid).Idle?
    ensures Advances(l, s, pid, n) == s
    decreases n
  {
    if n > 0 {
      IdleStays(l, s, pid, n - 1);
    }
  }

  /** An envelope speaks for one commit with one statement. */
  lemma OneStatement(l: Line, env: Envelope, want: Id)
    ensures forall c, st :: AttestsTo(l, env, c, st) && (want != "" ==> c == want) ==>
      Verify(l, env, want).Verified? && Verify(l, env, want).commit == c && Verify(l, env, want).statement == st
  {
  }

  // ---------- merge ----------

  /** The commit may become master as the refs stand. */
  ghost predicate MayLand(l: Line, refs: RefMap, commit: Id, env: Envelope) {
    && commit != "" && Value(refs, MASTER) != "" && Admitted(l, commit, Value(refs, MASTER), env)
    && (Value(refs, STOP) == "" || Value(refs, STOP) in l.trailers(commit))
  }

  function MergeAlone(l: Line, s: State, pid: nat, commit: Id, env: Envelope): State {
    Advances(l, Apply(l, s, StartMerge(pid, commit, env)), pid, 4)
  }

  /** The same said of what the guard computes. */
  lemma MayLandIs(l: Line, refs: RefMap, commit: Id, env: Envelope)
    ensures var v, base, stop := Verify(l, env, commit), Value(refs, MASTER), Value(refs, STOP);
      MayLand(l, refs, commit, env) <==>
        && commit != "" && v.Verified? && ChecksAccepted(l, commit, v.statement.checks)
        && (stop == "" || stop in l.trailers(commit))
        && base != "" && |l.parents(commit)| > 0 && l.parents(commit)[0] == base
        && RoleMayChange(l, l.changed(base, commit), v.statement.role) && l.blobsAllowed(base, commit)
  {
    VerifyExact(l, env, commit);
    OneStatement(l, env, commit);
    var v := Verify(l, env, commit);
    if v.Verified? {
      GuardTests(l, commit, Value(refs, MASTER), v.statement.role, v.statement.checks);
    }
  }

  /** The commit is master now, and nothing else changed but the log. */
  ghost predicate LandedOn(s: State, s': State, pid: nat, commit: Id, env: Envelope) {
    && s'.refs == s.refs[MASTER := commit]
    && s'.log == s.log + [Landed(commit, env, Value(s.refs, MASTER), Value(s.refs, STOP), |s.log|)]
    && !s'.busy && CallOf(s', pid).Idle?
  }

  ghost predicate Unmoved(s: State, s': State, pid: nat) {
    s'.refs == s.refs && s'.log == s.log && !s'.busy && CallOf(s', pid).Idle?
  }

  /** The read of the stop, the read of master and the swap. */
  lemma MergeFromChecked(l: Line, s: State, pid: nat, commit: Id, env: Envelope)
    requires s.busy && CallOf(s, pid) == MergeChecked(commit, env)
    requires commit != "" && Verify(l, env, commit).Verified? && ChecksAccepted(l, commit, Verify(l, env, commit).statement.checks)
    ensures var s' := Advances(l, s, pid, 3);
      if MayLand(l, s.refs, commit, env) then LandedOn(s, s', pid, commit, env) else Unmoved(s, s', pid)
  {
    MayLandIs(l, s.refs, commit, env);
    var s1 := Apply(l, s, Advance(pid));
    var s2 := Apply(l, s1, Advance(pid));
    if CallOf(s1, pid).Idle? {
      IdleStays(l, s1, pid, 2);
    } else if CallOf(s2, pid).Idle? {
      IdleStays(l, s2, pid, 1);
    } else {
      assert Advances(l, s2, pid, 1) == Apply(l, s2, Advance(pid));
    }
    assert Advances(l, s, pid, 3) == Advances(l, s1, pid, 2) == Advances(l, s2, pid, 1);
  }

  /** A merge alone lands its commit exactly when it may land. */
  lemma MergeDecides(l: Line, s: State, pid: nat, commit: Id, env: Envelope)
    requires CallOf(s, pid).Idle? && !s.busy
    ensures var s' := MergeAlone(l, s, pid, commit, env);
      if MayLand(l, s.refs, commit, env) then LandedOn(s, s', pid, commit, env) else Unmoved(s, s', pid)
  {
    var s1 := Apply(l, s, StartMerge(pid, commit, env));
    var s2 := Apply(l, s1, Advance(pid));
    assert MergeAlone(l, s, pid, commit, env) == Advances(l, s2, pid, 3);
    if CallOf(s2, pid).Idle? {
      MayLandIs(l, s.refs, commit, env);
      IdleStays(l, s2, pid, 3);
    } else {
      MergeFromChecked(l, s2, pid, commit, env);
    }
  }

  // ---------- pull ----------

  /** The envelope proves that master fails a required check, and nothing stops the line. */
  ghost predicate MayPull(l: Line, refs: RefMap, env: Envelope, blob: Id) {
    && Value(refs, STOP) == ""
    && exists failure :: Proves(l, env, Value(refs, MASTER), failure) && EventTells(l, blob, Value(refs, MASTER), failure)
  }

  lemma MayPullIs(l: Line, refs: RefMap, env: Envelope, blob: Id)
    ensures var v := Verify(l, env, "");
      MayPull(l, refs, env, blob) <==>
        && Value(refs, STOP) == "" && v.Verified? && v.commit == Value(refs, MASTER)
        && FindFailure(l.required, v.statement.checks).Some?
        && Records(l, blob, v.commit, FindFailure(l.required, v.statement.checks).value)
  {
    VerifyExact(l, env, "");
    OneStatement(l, env, "");
    var v := Verify(l, env, "");
    if v.Verified? {
      FindFailureIff(l.required, v.statement.checks);
      if FindFailure(l.required, v.statement.checks).Some? {
        RecordsTells(l, blob, v.commit, FindFailure(l.required, v.statement.checks).value);
      }
    }
  }

  function PullAlone(l: Line, s: State, pid: nat, env: Envelope, blob: Id): State {
    Apply(l, Advances(l, Apply(l, s, StartPull(pid, env)), pid, 2), WriteStop(pid, blob))
  }

  ghost predicate Raised(s: State, s': State, env: Envelope, blob: Id) {
    s'.refs == s.refs[STOP := blob] && s'.log == s.log + [Pulled(blob, env, Value(s.refs, MASTER), |s.log|)]
  }

  ghost predicate SameLine(s: State, s': State) {
    s'.refs == s.refs && s'.log == s.log
  }

  /** The read of the stop and the write. */
  lemma PullFromMaster(l: Line, s: State, pid: nat, blob: Id)
    requires CallOf(s, pid).PullAtMaster? && CallOf(s, pid).masterAt == |s.log| && blob != ""
    requires CallOf(s, pid).commit == Value(s.refs, MASTER)
    ensures var c, v := CallOf(s, pid), Verify(l, CallOf(s, pid).env, "");
      var s' := Apply(l, Apply(l, s, Advance(pid)), WriteStop(pid, blob));
      if Value(s.refs, STOP) == "" && v.Verified? && FindFailure(l.required, v.statement.checks).Some?
        && Records(l, blob, c.commit, FindFailure(l.required, v.statement.checks).value)
      then Raised(s, s', c.env, blob) else SameLine(s, s')
  {
  }

  /** A pull alone raises the stop exactly when it may. */
  lemma PullDecides(l: Line, s: State, pid: nat, env: Envelope, blob: Id)
    requires CallOf(s, pid).Idle? && blob != ""
    ensures var s' := PullAlone(l, s, pid, env, blob);
      if MayPull(l, s.refs, env, blob) then Raised(s, s', env, blob) else SameLine(s, s')
  {
    MayPullIs(l, s.refs, env, blob);
    var s1 := Apply(l, s, StartPull(pid, env));
    var s2 := Apply(l, s1, Advance(pid));
    assert Advances(l, s1, pid, 2) == Advances(l, s2, pid, 1) == Apply(l, s2, Advance(pid));
    if CallOf(s2, pid).PullAtMaster? {
      PullFromMaster(l, s2, pid, blob);
    } else {
      IdleStays(l, s2, pid, 1);
    }
  }

  // ---------- clear ----------

  /** The envelope proves that master, newer than the failing commit, passes every required check. */
  ghost predicate MayClear(l: Line, refs: RefMap, env: Envelope) {
    && Value(refs, STOP) != "" && !RaisedOn(l, Value(refs, STOP), Value(refs, MASTER))
    && exists st :: AttestsTo(l, env, Value(refs, MASTER), st) && AllRanClean(l.required, st.checks)
  }

  lemma MayClearIs(l: Line, refs: RefMap, env: Envelope)
    ensures var v := Verify(l, env, "");
      MayClear(l, refs, env) <==>
        && Value(refs, STOP) != "" && v.Verified? && v.commit == Value(refs, MASTER)
        && !IsEventOn(l, Value(refs, STOP), v.commit) && Judge(l.required, v.statement.checks, false) == Accepted
  {
    VerifyExact(l, env, "");
    OneStatement(l, env, "");
    if Verify(l, env, "").Verified? {
      AcceptedUnskippedRanClean(l.required, Verify(l, env, "").statement.checks);
    }
  }

  function ClearAlone(l: Line, s: State, pid: nat, env: Envelope): State {
    Advances(l, Apply(l, s, StartClear(pid, env)), pid, 3)
  }

  ghost predicate Lifted(s: State, s': State, env: Envelope) {
    var n := |s.log|;
    s'.refs == s.refs - {STOP} && s'.log == s.log + [Cleared(Value(s.refs, STOP), Value(s.refs, MASTER), env, n, n, n)]
  }

  /** The second read of the stop and the delete. */
  lemma ClearFromMaster(l: Line, s: State, pid: nat)
    requires CallOf(s, pid).ClearAtMaster? && CallOf(s, pid).id == Value(s.refs, STOP) != ""
    requires var c := CallOf(s, pid); c.commit == Value(s.refs, MASTER) && c.sawAt == c.masterAt == |s.log|
    ensures var c, v := CallOf(s, pid), Verify(l, CallOf(s, pid).env, "");
      var s' := Advances(l, s, pid, 2);
      if !IsEventOn(l, c.id, c.commit) && v.Verified? && Judge(l.required, v.statement.checks, false) == Accepted
      then Lifted(s, s', c.env) else SameLine(s, s')
  {
    var s1 := Apply(l, s, Advance(pid));
    assert Advances(l, s, pid, 2) == Advances(l, s1, pid, 1) == Apply(l, s1, Advance(pid));
  }

  /** A clear alone removes the stop exactly when it may. */
  lemma ClearDecides(l: Line, s: State, pid: nat, env: Envelope)
    requires CallOf(s, pid).Idle?
    ensures var s' := ClearAlone(l, s, pid, env);
      if MayClear(l, s.refs, env) then Lifted(s, s', env) else SameLine(s, s')
  {
    MayClearIs(l, s.refs, env);
    var s1 := Apply(l, s, StartClear(pid, env));
    var s2 := Apply(l, s1, Advance(pid));
    assert Advances(l, s1, pid, 3) == Advances(l, s2, pid, 2);
    if CallOf(s2, pid).ClearAtMaster? {
      ClearFromMaster(l, s2, pid);
    } else {
      IdleStays(l, s2, pid, 2);
    }
  }
}

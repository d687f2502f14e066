/** The merge guard and the andon cord as a concurrent protocol. Merge, Pull
    and Clear are sequences of single reads ended by one conditional write;
    calls interleave in any order, and a merge holds the station's single check
    slot from its first step to its last. */
module Guard {
  import opened Options
  import opened Refs
  import opened Checks

  type Envelope = string

  const MASTER := "refs/heads/master"
  const STOP := "refs/line/andon"

  /** The signed statement, as far as the guard reads it. commit is None when
      the statement has no commit subject. */
  datatype Statement = Statement(commit: Option<Id>, role: string, constitution: string, runner: string, checks: seq<CheckResult>)

  /** What verifying an envelope under the trusted keys yields. */
  datatype Opened = Opened(statement: Statement, keyId: string)

  datatype AndonEvent = AndonEvent(commit: Id, check: string, exitCode: int, evidenceId: string, pulledAt: int)

  /** One line: the constitution in force, and the facts a commit or an event
      carries once and for all. opens is signature checking and decoding;
      event decodes the blob an ID names. */
  datatype Line = Line(
    seed: Id,
    required: seq<Check>,
    digest: string,
    runner: string,
    keyRoles: map<string, seq<string>>,
    opens: Envelope -> Option<Opened>,
    parents: Id -> seq<Id>,
    trailers: Id -> seq<Id>,
    docsOnly: Id -> bool,
    changed: (Id, Id) -> seq<string>,
    allowedRoles: string -> Option<seq<string>>,
    blobsAllowed: (Id, Id) -> bool,
    event: Id -> Option<AndonEvent>)

  // ---------- verify ----------

  datatype Reason = Untrusted | RoleNotPermitted | CommitMismatch | ConstitutionMismatch | RunnerMismatch

  datatype Verification = Rejected(reason: Reason) | Verified(statement: Statement, keyId: string, commit: Id)

  function Verify(l: Line, env: Envelope, wantCommit: Id): Verification {
    match l.opens(env)
    case None => Rejected(Untrusted)
    case Some(o) =>
      var roles := if o.keyId in l.keyRoles then l.keyRoles[o.keyId] else [];
      if |roles| > 0 && o.statement.role !in roles then Rejected(RoleNotPermitted)
      else if o.statement.commit.None? || o.statement.commit.value == "" then Rejected(Untrusted)
      else if wantCommit != "" && o.statement.commit.value != wantCommit then Rejected(CommitMismatch)
      else if o.statement.constitution != l.digest then Rejected(ConstitutionMismatch)
      else if o.statement.runner != l.runner then Rejected(RunnerMismatch)
      else Verified(o.statement, o.keyId, o.statement.commit.value)
  }

  /** The envelope opens under a trusted key that may speak for the role, and
      its statement is about exactly this commit, under the constitution and
      runner in force. */
  ghost predicate AttestsTo(l: Line, env: Envelope, commit: Id, st: Statement) {
    && commit != ""
    && l.opens(env).Some?
    && var o := l.opens(env).value;
       && o.statement == st
       && st.commit == Some(commit) && st.constitution == l.digest && st.runner == l.runner
       && (o.keyId in l.keyRoles && l.keyRoles[o.keyId] != [] ==> st.role in l.keyRoles[o.keyId])
  }

  lemma VerifyExact(l: Line, env: Envelope, want: Id)
    ensures Verify(l, env, want).Verified? ==>
      var v := Verify(l, env, want); AttestsTo(l, env, v.commit, v.statement) && (want != "" ==> v.commit == want)
    ensures Verify(l, env, want).Verified? <==>
      exists c, st :: AttestsTo(l, env, c, st) && (want != "" ==> c == want)
  {
    if Verify(l, env, want).Verified? {
      var v := Verify(l, env, want);
      assert AttestsTo(l, env, v.commit, v.statement);
    }
  }

  // ---------- what a merge decides from the commit alone ----------

  function ChecksAccepted(l: Line, commit: Id, checks: seq<CheckResult>): bool {
    Judge(l.required, checks, AnySkipped(checks) && l.docsOnly(commit)) == Accepted
  }

  predicate RoleMayChange(l: Line, paths: seq<string>, role: string) {
    forall i :: 0 <= i < |paths| ==>
      (l.allowedRoles(paths[i]).Some? ==> role in l.allowedRoles(paths[i]).value)
  }

  ghost predicate FirstParentIs(l: Line, commit: Id, parent: Id) {
    exists others :: l.parents(commit) == [parent] + others
  }

  /** No changed path is reserved for other roles. */
  ghost predicate PathsOpenTo(l: Line, base: Id, commit: Id, role: string) {
    forall path, roles :: path in l.changed(base, commit) && l.allowedRoles(path) == Some(roles) ==> role in roles
  }

  /** Everything a link of the guarded branch must satisfy. */
  ghost predicate Admitted(l: Line, commit: Id, base: Id, env: Envelope) {
    && FirstParentIs(l, commit, base)
    && l.blobsAllowed(base, commit)
    && exists st :: AttestsTo(l, env, commit, st) && AllPass(l.required, st.checks, l.docsOnly(commit))
                 && PathsOpenTo(l, base, commit, st.role)
  }

  /** What the guard computes is what Admitted asks. */
  lemma GuardTests(l: Line, commit: Id, base: Id, role: string, checks: seq<CheckResult>)
    ensures ChecksAccepted(l, commit, checks) <==> AllPass(l.required, checks, l.docsOnly(commit))
    ensures RoleMayChange(l, l.changed(base, commit), role) <==> PathsOpenTo(l, base, commit, role)
    ensures |l.parents(commit)| > 0 && l.parents(commit)[0] == base <==> FirstParentIs(l, commit, base)
  {
    AcceptedExactly(l.required, checks, l.docsOnly(commit));
    if |l.parents(commit)| > 0 {
      assert l.parents(commit) == [l.parents(commit)[0]] + l.parents(commit)[1..];
    }
    var paths := l.changed(base, commit);
    if PathsOpenTo(l, base, commit, role) {
      forall i | 0 <= i < |paths| && l.allowedRoles(paths[i]).Some? ensures role in l.allowedRoles(paths[i]).value {
        assert l.allowedRoles(paths[i]) == Some(l.allowedRoles(paths[i]).value);
      }
    }
  }

  // ---------- calls in flight ----------

  /** Where a call stands. Every "At" field is the length of the log when the
      read happened. */
  datatype Call =
    | Idle
    | Slotted
    | MergeHolding(commit: Id, env: Envelope)
    | MergeChecked(commit: Id, env: Envelope)
    | MergeUnstopped(commit: Id, env: Envelope, seen: Id, seenAt: nat)
    | MergeBased(commit: Id, env: Envelope, seen: Id, seenAt: nat, base: Id)
    | PullVerified(env: Envelope, commit: Id)
    | PullAtMaster(env: Envelope, commit: Id, masterAt: nat)
    | PullUnstopped(env: Envelope, commit: Id, masterAt: nat, failure: CheckResult)
    | ClearSaw(env: Envelope, id: Id, sawAt: nat)
    | ClearAtMaster(env: Envelope, id: Id, sawAt: nat, commit: Id, masterAt: nat)
    | ClearNewer(env: Envelope, id: Id, sawAt: nat, commit: Id, masterAt: nat, recheckAt: nat)

  predicate HoldsSlot(c: Call) {
    c.Slotted? || c.MergeHolding? || c.MergeChecked? || c.MergeUnstopped? || c.MergeBased?
  }

  /** The successful writes, in order. */
  datatype Entry =
    | Landed(commit: Id, env: Envelope, base: Id, seen: Id, seenAt: nat)
    | Pulled(event: Id, env: Envelope, commit: Id, masterAt: nat)
    | Cleared(event: Id, commit: Id, env: Envelope, sawAt: nat, masterAt: nat, recheckAt: nat)

  datatype State = State(refs: RefMap, busy: bool, calls: map<nat, Call>, log: seq<Entry>)

  function Init(l: Line): State {
    State(map[MASTER := l.seed], false, map[], [])
  }

  function CallOf(s: State, pid: nat): Call {
    if pid in s.calls then s.calls[pid] else Idle
  }

  datatype Action =
    | TakeSlot(pid: nat)
    | StartMerge(pid: nat, commit: Id, env: Envelope)
    | StartPull(pid: nat, env: Envelope)
    | StartClear(pid: nat, env: Envelope)
    | Advance(pid: nat)
    | WriteStop(pid: nat, blob: Id)
    | Finish(pid: nat)

  /** The call returns, releasing the slot if it holds it. */
  function Return(s: State, pid: nat): State {
    s.(calls := s.calls[pid := Idle], busy := s.busy && !HoldsSlot(CallOf(s, pid)))
  }

  function Goto(s: State, pid: nat, c: Call): State {
    s.(calls := s.calls[pid := c])
  }

  /** One atomic step. An action that does not fit the call's place changes
      nothing; Finish is an early return for any reason, an error or a
      cancelled request included. */
  function Apply(l: Line, s: State, a: Action): State {
    var c := CallOf(s, a.pid);
    match a
    case TakeSlot(pid) =>
      if c.Idle? && !s.busy then Goto(s, pid, Slotted).(busy := true) else s
    case StartMerge(pid, commit, env) =>
      if c.Idle? && !s.busy then Goto(s, pid, MergeHolding(commit, env)).(busy := true) else s
    case StartPull(pid, env) =>
      var v := Verify(l, env, "");
      if c.Idle? && v.Verified? then Goto(s, pid, PullVerified(env, v.commit)) else s
    case StartClear(pid, env) =>
      var id := Value(s.refs, STOP);
      if c.Idle? && id != "" then Goto(s, pid, ClearSaw(env, id, |s.log|)) else s
    case Advance(pid) => Step(l, s, pid, c)
    case WriteStop(pid, blob) =>
      if c.PullUnstopped? && blob != "" && Records(l, blob, c.commit, c.failure) then
        var (refs, out) := Swap(s.refs, {blob}, STOP, blob, "");
        if out == Written
        then Return(s, pid).(refs := refs, log := s.log + [Pulled(blob, c.env, c.commit, c.masterAt)])
        else Return(s, pid)
      else s
    case Finish(pid) => Return(s, pid)
  }

  /** The blob decodes to the event a pull on this failure builds. */
  predicate Records(l: Line, blob: Id, commit: Id, failure: CheckResult) {
    && l.event(blob).Some?
    && var e := l.event(blob).value;
       e.commit == commit && e.check == failure.name && e.exitCode == failure.exitCode && e.evidenceId == failure.evidenceId
  }

  /** The event is about this commit and this failure, pulled at some time. */
  ghost predicate EventTells(l: Line, event: Id, commit: Id, failure: CheckResult) {
    exists pulledAt :: l.event(event) == Some(AndonEvent(commit, failure.name, failure.exitCode, failure.evidenceId, pulledAt))
  }

  lemma RecordsTells(l: Line, blob: Id, commit: Id, failure: CheckResult)
    ensures Records(l, blob, commit, failure) <==> EventTells(l, blob, commit, failure)
  {
    if Records(l, blob, commit, failure) {
      var at := l.event(blob).value.pulledAt;
      assert l.event(blob) == Some(AndonEvent(commit, failure.name, failure.exitCode, failure.evidenceId, at));
    }
  }

  /** The next read or write of a call that has one of its own. */
  function Step(l: Line, s: State, pid: nat, c: Call): State {
    match c
    case MergeHolding(commit, env) =>
      var v := Verify(l, env, commit);
      if commit != "" && v.Verified? && ChecksAccepted(l, commit, v.statement.checks)
      then Goto(s, pid, MergeChecked(commit, env)) else Return(s, pid)
    case MergeChecked(commit, env) =>
      var stop := Value(s.refs, STOP);
      if stop == "" || stop in l.trailers(commit)
      then Goto(s, pid, MergeUnstopped(commit, env, stop, |s.log|)) else Return(s, pid)
    case MergeUnstopped(commit, env, seen, at) =>
      var base := Value(s.refs, MASTER);
      var v := Verify(l, env, commit);
      if base != "" && |l.parents(commit)| > 0 && l.parents(commit)[0] == base && v.Verified?
         && RoleMayChange(l, l.changed(base, commit), v.statement.role) && l.blobsAllowed(base, commit)
      then Goto(s, pid, MergeBased(commit, env, seen, at, base)) else Return(s, pid)
    case MergeBased(commit, env, seen, at, base) =>
      var (refs, out) := Swap(s.refs, {commit}, MASTER, commit, base);
      if out == Written
      then Return(s, pid).(refs := refs, log := s.log + [Landed(commit, env, base, seen, at)])
      else Return(s, pid)
    case PullVerified(env, commit) =>
      if Value(s.refs, MASTER) == commit then Goto(s, pid, PullAtMaster(env, commit, |s.log|)) else Return(s, pid)
    case PullAtMaster(env, commit, at) =>
      var v := Verify(l, env, "");
      if Value(s.refs, STOP) == "" && v.Verified? && FindFailure(l.required, v.statement.checks).Some?
      then Goto(s, pid, PullUnstopped(env, commit, at, FindFailure(l.required, v.statement.checks).value))
      else Return(s, pid)
    case ClearSaw(env, id, sawAt) =>
      var v := Verify(l, env, "");
      if v.Verified? && Value(s.refs, MASTER) == v.commit
      then Goto(s, pid, ClearAtMaster(env, id, sawAt, v.commit, |s.log|)) else Return(s, pid)
    case ClearAtMaster(env, id, sawAt, commit, at) =>
      var v := Verify(l, env, "");
      if !IsEventOn(l, Value(s.refs, STOP), commit) && v.Verified? && Judge(l.required, v.statement.checks, false) == Accepted
      then Goto(s, pid, ClearNewer(env, id, sawAt, commit, at, |s.log|)) else Return(s, pid)
    case ClearNewer(env, id, sawAt, commit, at, again) =>
      var (refs, out) := Drop(s.refs, STOP, id);
      if out == Written
      then Return(s, pid).(refs := refs, log := s.log + [Cleared(id, commit, env, sawAt, at, again)])
      else Return(s, pid)
    case _ => s
  }

  /** The stop names a readable event raised on this very commit. */
  predicate IsEventOn(l: Line, stop: Id, commit: Id) {
    stop != "" && l.event(stop).Some? && l.event(stop).value.commit == commit
  }

  /** The state after a run. */
  function Run(l: Line, s: State, acts: seq<Action>): State
    decreases |acts|
  {
    if acts == [] then s else Run(l, Apply(l, s, acts[0]), acts[1..])
  }

  function After(l: Line, acts: seq<Action>): State {
    Run(l, Init(l), acts)
  }
}

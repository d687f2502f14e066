/** Updates of the constitution ref: proposals are numbered refs created once,
    and every change of the constitution is a commit on the version read,
    swapped in only if that version is still there. */
module Proposals {

  type Id = string

  /** What a commit carries; valid says whether its content parses. */
  datatype Commit = Commit(parents: seq<Id>, data: string, valid: bool)

  /** Commits by ID, and a rank that content addressing provides: a commit's ID
      depends on its parents' IDs. */
  type Commits = Id -> Commit

  ghost predicate Acyclic(commits: Commits, rank: Id -> nat) {
    forall c, p :: p in commits(c).parents ==> rank(p) < rank(c)
  }

  const MAX_TRIES: nat := 5

  /** Where a call stands. */
  datatype Call =
    | Idle
    | Proposing(base: Id, data: string, tries: nat)
    | Numbered(base: Id, data: string, tries: nat, n: nat)
    | ApproveGot(n: nat, proposal: Id)
    | ApproveReady(n: nat, proposal: Id, base: Id)
    | EditRead(base: Id)

  /** The successful ref writes, in order. */
  datatype Entry =
    | Proposed(n: nat, commit: Id)
    | Approved(n: nat, proposal: Id, base: Id, commit: Id)
    | Edited(base: Id, commit: Id)

  datatype State = State(head: Id, proposals: map<nat, Id>, calls: map<nat, Call>, log: seq<Entry>)

  datatype Action =
    | StartPropose(pid: nat, data: string, parses: bool)
    | Number(pid: nat, n: nat)
    | CreateRef(pid: nat, commit: Id)
    | StartApprove(pid: nat, n: nat)
    | CheckHead(pid: nat)
    | SwapApproved(pid: nat, commit: Id)
    | StartEdit(pid: nat)
    | SwapEdited(pid: nat, commit: Id)
    | Return(pid: nat)

  /** n is one more than the highest number in use, or 1. */
  predicate IsNext(used: set<nat>, n: nat) {
    n >= 1 && (forall k :: k in used ==> k < n) && (n == 1 || n - 1 in used)
  }

  /** The loop over the existing proposal refs. */
  method NextProposal(numbers: seq<nat>) returns (n: nat)
    ensures IsNext((set k | k in numbers), n)
  {
    var top := 0;
    for i := 0 to |numbers|
      invariant forall j :: 0 <= j < i ==> numbers[j] <= top
      invariant top == 0 || top in numbers
    {
      if numbers[i] > top {
        top := numbers[i];
      }
    }
    n := top + 1;
  }

  function CallOf(s: State, pid: nat): Call {
    if pid in s.calls then s.calls[pid] else Idle
  }

  function Goto(s: State, pid: nat, c: Call): State {
    s.(calls := s.calls[pid := c])
  }

  function Apply(commits: Commits, s: State, a: Action): State {
    var c := CallOf(s, a.pid);
    var back := Goto(s, a.pid, Idle);
    match a
    case StartPropose(pid, data, parses) =>
      if c.Idle? && parses && commits(s.head).data != data then Goto(s, pid, Proposing(s.head, data, 0)) else s
    case Number(pid, n) =>
      if c.Proposing? && IsNext(s.proposals.Keys, n) then Goto(s, pid, Numbered(c.base, c.data, c.tries, n)) else s
    case CreateRef(pid, commit) =>
      if !c.Numbered? || commits(commit).parents != [c.base] || commits(commit).data != c.data then s
      else if c.n !in s.proposals then
        back.(proposals := s.proposals[c.n := commit], log := s.log + [Proposed(c.n, commit)])
      else if c.tries + 1 < MAX_TRIES then Goto(s, pid, Proposing(c.base, c.data, c.tries + 1))
      else back
    case StartApprove(pid, n) =>
      if c.Idle? && n in s.proposals then Goto(s, pid, ApproveGot(n, s.proposals[n])) else s
    case CheckHead(pid) =>
      if !c.ApproveGot? then s
      else if commits(c.proposal).parents == [s.head] && commits(c.proposal).valid
      then Goto(s, pid, ApproveReady(c.n, c.proposal, s.head))
      else back
    case SwapApproved(pid, commit) =>
      if !c.ApproveReady? || commits(commit).parents != [c.base] || commits(commit).data != commits(c.proposal).data then s
      else if s.head == c.base then back.(head := commit, log := s.log + [Approved(c.n, c.proposal, c.base, commit)])
      else back
    case StartEdit(pid) =>
      if c.Idle? then Goto(s, pid, EditRead(s.head)) else s
    case SwapEdited(pid, commit) =>
      if !c.EditRead? || commits(commit).parents != [c.base] then s
      else if s.head == c.base then back.(head := commit, log := s.log + [Edited(c.base, commit)])
      else back
    case Return(pid) => back
  }

  function Run(commits: Commits, s: State, acts: seq<Action>): State
    decreases |acts|
  {
    if acts == [] then s else Run(commits, Apply(commits, s, acts[0]), acts[1..])
  }

  function Init(head: Id): State {
    State(head, map[], map[], [])
  }

  // ---------- what the log says ----------

  ghost function HeadAt(first: Id, log: seq<Entry>): Id {
    if log == [] then first
    else
      var n := |log| - 1;
      if log[n].Proposed? then HeadAt(first, log[..n]) else log[n].commit
  }

  ghost predicate EntryOk(commits: Commits, first: Id, log: seq<Entry>, k: nat)
    requires k < |log|
  {
    match log[k]
    case Proposed(n, _) => forall j :: 0 <= j < k && log[j].Proposed? ==> log[j].n != n
    case Approved(n, proposal, base, commit) =>
      && base == HeadAt(first, log[..k]) && commits(commit).parents == [base]
      && commits(proposal).parents == [base] && commits(commit).data == commits(proposal).data
      && exists j :: 0 <= j < k && log[j] == Proposed(n, proposal)
    case Edited(base, commit) => base == HeadAt(first, log[..k]) && commits(commit).parents == [base]
  }

  ghost predicate LogOk(commits: Commits, first: Id, log: seq<Entry>) {
    forall k :: 0 <= k < |log| ==> EntryOk(commits, first, log, k)
  }

  ghost predicate Raised(log: seq<Entry>, n: nat, commit: Id) {
    exists j :: 0 <= j < |log| && log[j] == Proposed(n, commit)
  }

  ghost predicate CallOk(commits: Commits, log: seq<Entry>, c: Call) {
    match c
    case ApproveGot(n, p) => Raised(log, n, p)
    case ApproveReady(n, p, base) => Raised(log, n, p) && commits(p).parents == [base]
    case _ => true
  }

  ghost predicate Inv(commits: Commits, first: Id, s: State) {
    && s.head == HeadAt(first, s.log) && LogOk(commits, first, s.log)
    && (forall n :: n in s.proposals ==> Raised(s.log, n, s.proposals[n]))
    && (forall j :: 0 <= j < |s.log| && s.log[j].Proposed? ==> s.log[j].n in s.proposals)
    && (forall p :: p in s.calls ==> CallOk(commits, s.log, s.calls[p]))
  }

  lemma Grown(log: seq<Entry>, e: Entry)
    ensures (log + [e])[..|log|] == log
    ensures forall n, c :: Raised(log, n, c) ==> Raised(log + [e], n, c)
  {
    forall n, c | Raised(log, n, c) ensures Raised(log + [e], n, c) {
      var j :| 0 <= j < |log| && log[j] == Proposed(n, c);
      assert (log + [e])[j] == Proposed(n, c);
    }
  }

  lemma LogGrows(commits: Commits, first: Id, log: seq<Entry>, e: Entry)
    requires LogOk(commits, first, log) && EntryOk(commits, first, log + [e], |log|)
    ensures LogOk(commits, first, log + [e])
  {
    forall k | 0 <= k < |log| ensures EntryOk(commits, first, log + [e], k) {
      assert EntryOk(commits, first, log, k);
      assert (log + [e])[..k] == log[..k] && forall j :: 0 <= j <= k ==> (log + [e])[j] == log[j];
    }
  }

  lemma HeadMoves(commits: Commits, first: Id, s: State, pid: nat, e: Entry)
    requires Inv(commits, first, s) && !e.Proposed? && EntryOk(commits, first, s.log + [e], |s.log|)
    ensures Inv(commits, first, Goto(s, pid, Idle).(head := e.commit, log := s.log + [e]))
  {
    Grown(s.log, e);
    LogGrows(commits, first, s.log, e);
  }

  lemma ProposalAdded(commits: Commits, first: Id, s: State, pid: nat, n: nat, commit: Id)
    requires Inv(commits, first, s) && n !in s.proposals
    ensures Inv(commits, first, Goto(s, pid, Idle).(proposals := s.proposals[n := commit], log := s.log + [Proposed(n, commit)]))
  {
    var e := Proposed(n, commit);
    Grown(s.log, e);
    LogGrows(commits, first, s.log, e);
    assert (s.log + [e])[|s.log|] == e;
    assert Raised(s.log + [e], n, commit);
  }

  lemma CallMoves(commits: Commits, first: Id, s: State, pid: nat, c: Call)
    requires Inv(commits, first, s) && CallOk(commits, s.log, c)
    ensures Inv(commits, first, Goto(s, pid, c))
  {
  }

  lemma ApprovedKeeps(commits: Commits, first: Id, s: State, pid: nat, commit: Id)
    requires Inv(commits, first, s) && CallOf(s, pid).ApproveReady? && s.head == CallOf(s, pid).base
    requires var c := CallOf(s, pid); commits(commit).parents == [c.base] && commits(commit).data == commits(c.proposal).data
    ensures Inv(commits, first, Apply(commits, s, SwapApproved(pid, commit)))
  {
    var c := CallOf(s, pid);
    var e := Approved(c.n, c.proposal, c.base, commit);
    Grown(s.log, e);
    assert Raised(s.log, c.n, c.proposal);
    HeadMoves(commits, first, s, pid, e);
  }

  lemma ApplyKeeps(commits: Commits, first: Id, s: State, a: Action)
    requires Inv(commits, first, s)
    ensures Inv(commits, first, Apply(commits, s, a))
  {
    var c, s' := CallOf(s, a.pid), Apply(commits, s, a);
    if s'.log == s.log {
      if s' != s {
        CallMoves(commits, first, s, a.pid, CallOf(s', a.pid));
      }
    } else if a.CreateRef? {
      ProposalAdded(commits, first, s, a.pid, c.n, a.commit);
    } else if a.SwapApproved? {
      ApprovedKeeps(commits, first, s, a.pid, a.commit);
    } else {
      Grown(s.log, Edited(c.base, a.commit));
      HeadMoves(commits, first, s, a.pid, Edited(c.base, a.commit));
    }
  }

  lemma {:induction false} RunKeeps(commits: Commits, first: Id, s: State, acts: seq<Action>)
    requires Inv(commits, first, s)
    ensures Inv(commits, first, Run(commits, s, acts))
    decreases |acts|
  {
    if acts != [] {
      ApplyKeeps(commits, first, s, acts[0]);
      RunKeeps(commits, first, Apply(commits, s, acts[0]), acts[1..]);
    }
  }

  // ---------- the theorems ----------

  /** In every run the constitution ref moves along a parent chain, what an
      approval installs is a proposal made on exactly the version it replaces,
      and a number names one proposal. */
  lemma UpdatesLoseNothing(commits: Commits, first: Id, acts: seq<Action>)
    ensures var s := Run(commits, Init(first), acts);
      s.head == HeadAt(first, s.log) && LogOk(commits, first, s.log)
  {
    RunKeeps(commits, first, Init(first), acts);
  }

  lemma {:induction false} HeadRankGrows(commits: Commits, rank: Id -> nat, first: Id, log: seq<Entry>, i: nat, j: nat)
    requires Acyclic(commits, rank) && LogOk(commits, first, log) && i <= j <= |log|
    ensures rank(HeadAt(first, log[..i])) <= rank(HeadAt(first, log[..j]))
    ensures (exists k :: i <= k < j && !log[k].Proposed?) ==> rank(HeadAt(first, log[..i])) < rank(HeadAt(first, log[..j]))
    decreases j
  {
    if i < j {
      HeadRankGrows(commits, rank, first, log, i, j - 1);
      assert log[..j][..j - 1] == log[..j - 1];
      assert EntryOk(commits, first, log, j - 1);
      if !log[j - 1].Proposed? {
        assert HeadAt(first, log[..j - 1]) in commits(log[j - 1].commit).parents;
      }
    }
  }

  /** The constitution never returns to an earlier version, so of the proposals
      made on one version at most one is ever approved, and none twice. */
  lemma OneApprovalPerVersion(commits: Commits, rank: Id -> nat, first: Id, acts: seq<Action>, log: seq<Entry>, i: nat, j: nat)
    requires Acyclic(commits, rank) && log == Run(commits, Init(first), acts).log
    requires i < j < |log| && log[i].Approved? && log[j].Approved?
    ensures commits(log[i].proposal).parents != commits(log[j].proposal).parents
    ensures log[i].proposal != log[j].proposal && log[i].n != log[j].n
  {
    UpdatesLoseNothing(commits, first, acts);
    assert EntryOk(commits, first, log, i) && EntryOk(commits, first, log, j);
    HeadRankGrows(commits, rank, first, log, i, j);
    if log[i].n == log[j].n {
      var a :| 0 <= a < i && log[a] == Proposed(log[i].n, log[i].proposal);
      var b :| 0 <= b < j && log[b] == Proposed(log[j].n, log[j].proposal);
      NumbersDistinct(commits, first, log, a, b);
    }
  }

  lemma NumbersDistinct(commits: Commits, first: Id, log: seq<Entry>, a: nat, b: nat)
    requires LogOk(commits, first, log) && a < |log| && b < |log| && log[a].Proposed? && log[b].Proposed? && log[a].n == log[b].n
    ensures a == b
  {
    assert EntryOk(commits, first, log, a) && EntryOk(commits, first, log, b);
  }

  lemma RunOfThree(commits: Commits, s: State, a: Action, b: Action, c: Action)
    ensures Run(commits, s, [a, b, c]) == Apply(commits, Apply(commits, Apply(commits, s, a), b), c)
  {
    var s1 := Apply(commits, s, a);
    var s2 := Apply(commits, s1, b);
    var s3 := Apply(commits, s2, c);
    assert [a, b, c][1..] == [b, c] && [b, c][1..] == [c] && [c][1..] == [];
    assert Run(commits, s2, [c]) == Run(commits, s3, []) == s3;
    assert Run(commits, s, [a, b, c]) == Run(commits, s1, [b, c]) == Run(commits, s2, [c]);
  }

  /** A proposal with nothing interleaved creates its ref, under the number after the
      highest, exactly when its text parses and differs from the constitution in force. */
  lemma ProposeDecides(commits: Commits, s: State, pid: nat, data: string, parses: bool, n: nat, commit: Id)
    requires CallOf(s, pid).Idle? && commits(commit).parents == [s.head] && commits(commit).data == data
    requires (forall k :: k in s.proposals ==> k < n) && if s.proposals == map[] then n == 1 else n > 0 && n - 1 in s.proposals
    ensures var s' := Run(commits, s, [StartPropose(pid, data, parses), Number(pid, n), CreateRef(pid, commit)]);
      && s'.head == s.head
      && if parses && commits(s.head).data != data
         then n !in s.proposals && s'.proposals == s.proposals[n := commit] && s'.log == s.log + [Proposed(n, commit)]
         else s'.proposals == s.proposals && s'.log == s.log
  {
    RunOfThree(commits, s, StartPropose(pid, data, parses), Number(pid, n), CreateRef(pid, commit));
    assert s.proposals == map[] ==> s.proposals.Keys == {};
    assert IsNext(s.proposals.Keys, n);
  }

  /** An edit with nothing interleaved moves the constitution to its commit. */
  lemma EditDecides(commits: Commits, s: State, pid: nat, commit: Id)
    requires CallOf(s, pid).Idle? && commits(commit).parents == [s.head]
    ensures var s' := Apply(commits, Apply(commits, s, StartEdit(pid)), SwapEdited(pid, commit));
      s'.head == commit && s'.log == s.log + [Edited(s.head, commit)] && s'.proposals == s.proposals
  {
  }

  /** An approval with nothing interleaved installs its commit exactly when the
      proposal was made on the version in force. */
  lemma ApproveDecides(commits: Commits, s: State, pid: nat, n: nat, commit: Id)
    requires CallOf(s, pid).Idle?
    requires n in s.proposals ==> commits(commit).parents == [s.head] && commits(commit).data == commits(s.proposals[n]).data
    ensures var s' := Run(commits, s, [StartApprove(pid, n), CheckHead(pid), SwapApproved(pid, commit)]);
      if n in s.proposals && commits(s.proposals[n]).parents == [s.head] && commits(s.proposals[n]).valid
      then s'.head == commit && s'.log == s.log + [Approved(n, s.proposals[n], s.head, commit)]
      else s'.head == s.head && s'.log == s.log
  {
    RunOfThree(commits, s, StartApprove(pid, n), CheckHead(pid), SwapApproved(pid, commit));
  }
}

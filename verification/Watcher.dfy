/** The andon watcher: attest every new master, pull the cord on a confirmed
    failure, clear it once a newer master passes, and keep a live card for a
    stop meanwhile. Everyone else acts between its calls. */
module Watcher {
  import opened Options

  type Id = nat

  const NONE: Id := 0

  /** An attestation of a commit, as far as the watcher reads it. */
  datatype Attestation = Attestation(commit: Id, passed: bool)

  datatype PullResult = PullError | Stopped(event: Id) | AlreadyStopped(event: Id) | PullStale | PullRejected
  datatype ClearResult = ClearError | Cleared | NotStopped | ClearStale | ClearRejected

  /** The line's status: master, the stop event and the commit it was raised on. */
  datatype Status = Status(master: Id, event: Id, failing: Option<Id>)

  /** What the watcher asked of the line and of the cards, with the answer; None
      is an answer that did not come. */
  datatype Call =
    | AttestCall(commit: Id, passed: Option<bool>)
    | RunsCall(commit: Id, passing: Option<nat>)
    | FlakeCall(commit: Id, filed: bool)
    | PullCall(commit: Id, pull: PullResult)
    | ClearCall(commit: Id, clear: ClearResult)
    | RaiseCall(event: Id, raised: bool)
    | ResolveCall(event: Id)

  predicate PullsOn(x: Call, commit: Id) {
    x.PullCall? && x.commit == commit
  }

  /** The trace ends with: failed, no stored passing run, failed again. */
  ghost predicate FailedTwice(trace: seq<Call>, commit: Id) {
    var n := |trace|;
    && n >= 3
    && trace[n - 3] == AttestCall(commit, Some(false)) && trace[n - 2] == RunsCall(commit, Some(0))
    && trace[n - 1] == AttestCall(commit, Some(false))
  }

  /** The watcher pulled on a commit exactly when it had failed twice with no
      stored passing run. */
  ghost predicate PullsExact(trace: seq<Call>) {
    forall i, c {:trigger FailedTwice(trace[..i], c)} :: 0 <= i < |trace| ==> (PullsOn(trace[i], c) <==> FailedTwice(trace[..i], c))
  }

  /** No failure is waiting for a second try or a pull. */
  ghost predicate Answered(trace: seq<Call>) {
    (forall c :: !FailedTwice(trace, c)) && (|trace| > 0 ==> !(trace[|trace| - 1].RunsCall? && trace[|trace| - 1].passing == Some(0)))
  }

  // ---------- the course of one step ----------

  /** What a step found out about the master it saw. */
  datatype Finding = NotLooked | NotAttested | Unsettled | FailsTwice | PassesNow | PassedEarlier

  /** One step: what it saw, the last master attested around it, the calls that led
      to its finding, the calls it answered with, and whether it returned no error. */
  datatype StepLog = StepLog(saw: Option<Status>, before: Id, finding: Finding, asked: seq<Call>, answer: seq<Call>, after: Id, ok: bool)

  /** The calls behind each finding: a failure counts when no passing run of the commit
      is stored and it fails again; a pass at any time makes it a flake to be filed. */
  ghost predicate Shows(finding: Finding, commit: Id, calls: seq<Call>) {
    var failed := AttestCall(commit, Some(false));
    match finding
    case NotLooked => calls == []
    case NotAttested => calls == [AttestCall(commit, None)]
    case Unsettled =>
      || calls == [failed, RunsCall(commit, None)]
      || calls == [failed, RunsCall(commit, Some(0)), AttestCall(commit, None)]
      || calls == [failed, RunsCall(commit, Some(0)), AttestCall(commit, Some(true)), FlakeCall(commit, false)]
      || exists k: nat :: k > 0 && calls == [failed, RunsCall(commit, Some(k)), FlakeCall(commit, false)]
    case FailsTwice => calls == [failed, RunsCall(commit, Some(0)), failed]
    case PassesNow =>
      || calls == [AttestCall(commit, Some(true))]
      || calls == [failed, RunsCall(commit, Some(0)), AttestCall(commit, Some(true)), FlakeCall(commit, true)]
    case PassedEarlier => exists k: nat :: k > 0 && calls == [failed, RunsCall(commit, Some(k)), FlakeCall(commit, true)]
  }

  /** The stop, if there is one, gets its card, and ok says whether it did. */
  ghost predicate Carding(event: Id, calls: seq<Call>, ok: bool) {
    if event == NONE then calls == [] && ok else calls == [RaiseCall(event, ok)]
  }

  ghost predicate CardTried(event: Id, calls: seq<Call>) {
    Carding(event, calls, true) || Carding(event, calls, false)
  }

  /** The answer to a failing master: a pull, and a card for the stop it names
      or, when it names none, for the one seen. */
  ghost predicate Pulling(st: Status, calls: seq<Call>, after: Id, ok: bool) {
    && calls != [] && PullsOn(calls[0], st.master)
    && match calls[0].pull
       case Stopped(e) => after == st.master && calls[1..] == [RaiseCall(e, ok)]
       case AlreadyStopped(e) => after == st.master && Carding(if e == NONE then st.event else e, calls[1..], ok)
       case PullStale => after == NONE && |calls| == 1 && ok
       case PullError => after == NONE && |calls| == 1 && !ok
       case PullRejected => after == NONE && |calls| == 1 && !ok
  }

  /** The answer to a passing master on a stopped line: a clear; the cards are
      closed when the stop is gone, and otherwise it keeps one. */
  ghost predicate Clearing(st: Status, calls: seq<Call>, after: Id, ok: bool) {
    && calls != [] && calls[0].ClearCall? && calls[0].commit == st.master
    && match calls[0].clear
       case Cleared => after == st.master && calls[1..] == [ResolveCall(st.event)] && ok
       case NotStopped => after == st.master && calls[1..] == [ResolveCall(st.event)] && ok
       case ClearStale =>
         if st.failing == Some(st.master) then after == st.master && calls[1..] == [RaiseCall(st.event, ok)]
         else after == NONE && !ok && CardTried(st.event, calls[1..])
       case ClearRejected => after == NONE && !ok && CardTried(st.event, calls[1..])
       case ClearError => after == NONE && !ok && |calls| == 1
  }

  /** What a step does about its finding. */
  ghost predicate Answers(st: Status, s: StepLog) {
    match s.finding
    case NotLooked => s.after == s.before && if st.master == NONE then s.answer == [] && s.ok else Carding(st.event, s.answer, s.ok)
    case NotAttested => s.after == s.before && !s.ok && CardTried(st.event, s.answer)
    case Unsettled => s.after == s.before && !s.ok && s.answer == []
    case FailsTwice => Pulling(st, s.answer, s.after, s.ok)
    case PassesNow =>
      if st.event == NONE then s.answer == [] && s.after == st.master && s.ok else Clearing(st, s.answer, s.after, s.ok)
    case PassedEarlier => s.after == st.master && Carding(st.event, s.answer, s.ok)
  }

  /** The whole course of a step: it looks at a master exactly when there is one
      and it is not the last one attested. */
  ghost predicate Ran(s: StepLog) {
    match s.saw
    case None => s.finding.NotLooked? && s.asked == s.answer == [] && s.after == s.before && !s.ok
    case Some(st) =>
      && (s.finding.NotLooked? <==> st.master in {NONE, s.before})
      && Shows(s.finding, st.master, s.asked) && Answers(st, s)
  }

  ghost function Calls(s: StepLog): seq<Call> {
    s.asked + s.answer
  }

  /** A new master is attested first of all; a known one, or none, is not
      attested, pulled on or cleared on. */
  lemma NewMasterIsAttested(s: StepLog)
    requires Ran(s) && s.saw.Some?
    ensures var master := s.saw.value.master;
      if master !in {NONE, s.before} then Calls(s) != [] && Calls(s)[0].AttestCall? && Calls(s)[0].commit == master
      else s.after == s.before && forall i :: 0 <= i < |Calls(s)| ==> Calls(s)[i].RaiseCall?
  {
  }

  /** Nothing is left to do about this master: it failed twice and a stop is up;
      or it passed, and there was no stop, or the clear found none or removed it, or
      refused because the stop is about this very master; or it had passed earlier. */
  ghost predicate DealtWith(st: Status, s: StepLog) {
    || (s.finding.FailsTwice? && s.answer != [] && s.answer[0].PullCall? && (s.answer[0].pull.Stopped? || s.answer[0].pull.AlreadyStopped?))
    || (s.finding.PassesNow? && st.event == NONE)
    || (s.finding.PassesNow? && ClearSettles(st, s.answer))
    || s.finding.PassedEarlier?
  }

  ghost predicate ClearSettles(st: Status, answer: seq<Call>) {
    && answer != [] && answer[0].ClearCall?
    && (answer[0].clear in {Cleared, NotStopped} || (answer[0].clear == ClearStale && st.failing == Some(st.master)))
  }

  /** A new master is the last one attested afterwards exactly when it was dealt
      with; otherwise the next step looks at it again. */
  lemma LastIffDealtWith(s: StepLog)
    requires Ran(s) && s.saw.Some? && s.saw.value.master !in {NONE, s.before}
    ensures s.after == s.saw.value.master <==> DealtWith(s.saw.value, s)
    ensures s.after != s.saw.value.master ==> s.after in {s.before, NONE}
  {
  }

  lemma OneCall(trace: seq<Call>, x: Call)
    requires PullsExact(trace) && forall c :: PullsOn(x, c) <==> FailedTwice(trace, c)
    ensures PullsExact(trace + [x])
  {
    var all := trace + [x];
    assert all[..|trace|] == trace;
    forall i, c | 0 <= i < |all| ensures PullsOn(all[i], c) <==> FailedTwice(all[..i], c) {
      if i < |trace| {
        assert all[..i] == trace[..i];
      }
    }
  }

  /** A call that is no pull, made when no pull is due. */
  lemma PlainCall(trace: seq<Call>, x: Call)
    requires PullsExact(trace) && (forall c :: !FailedTwice(trace, c)) && !x.PullCall?
    ensures PullsExact(trace + [x])
  {
    OneCall(trace, x);
  }

  /** The line and the card store as the watcher meets them. Event IDs are
      fresh: an event that is over (past) never comes back. */
  class Line {
    var master: Id
    var stop: Id
    var raisedOn: Id
    var next: Id
    var live: set<Id>
    ghost var past: set<Id>
    ghost var pulled: set<Id> // the stops the watcher itself raised
    ghost var trace: seq<Call>

    ghost predicate Valid()
      reads this
    {
      && next > NONE && stop < next
      && (forall e :: e in past ==> NONE < e < next)
      && stop !in past
    }

    constructor ()
      ensures Valid() && trace == [] && pulled == {}
    {
      master, stop, raisedOn, next, live := NONE, NONE, NONE, 1, {};
      past, pulled, trace := {}, {}, [];
    }

    /** A stop that was up is still up, or over. */
    twostate predicate OnlyEnds()
      reads this
    {
      old(past) <= past && (old(stop) != NONE ==> stop == old(stop) || old(stop) in past)
    }

    method ClearStop()
      requires Valid()
      modifies `stop, `past
      ensures Valid() && stop == NONE && past == old(past) + (if old(stop) != NONE then {old(stop)} else {})
    {
      if stop != NONE {
        past := past + {stop};
      }
      stop := NONE;
    }

    method RaiseStop(commit: Id) returns (e: Id)
      requires Valid() && stop == NONE
      modifies `stop, `raisedOn, `next
      ensures Valid() && stop == e != NONE && raisedOn == commit && e !in past
    {
      e := next;
      stop, raisedOn, next := e, commit, next + 1;
    }

    /** Whatever the others do: merge, pull, clear, open and close cards. */
    method Others()
      requires Valid()
      modifies `master, `stop, `raisedOn, `next, `live, `past
      ensures Valid() && OnlyEnds()
    {
      var n: nat :| n >= 0;
      for i := 0 to n
        invariant Valid() && old(past) <= past
        invariant old(stop) != NONE ==> stop == old(stop) || old(stop) in past
      {
        if * {
          ClearStop();
        } else if stop == NONE {
          var _ := RaiseStop(master);
        }
        master := *;
        live := *;
      }
    }

    method GetStatus() returns (st: Option<Status>)
      requires Valid()
      modifies `master, `stop, `raisedOn, `next, `live, `past
      ensures Valid() && OnlyEnds() && (st.Some? ==> st.value.event == stop)
    {
      Others();
      st := None;
      if * {
        st := Some(Status(master, stop, if stop == NONE then None else Some(raisedOn)));
      }
    }

    method Attest(commit: Id) returns (r: Option<Attestation>)
      requires Valid()
      modifies this
      ensures Valid() && OnlyEnds() && pulled == old(pulled)
      ensures r.Some? ==> r.value.commit == commit
      ensures trace == old(trace) + [AttestCall(commit, if r.Some? then Some(r.value.passed) else None)]
    {
      Others();
      r := None;
      if * {
        var passed: bool := *;
        r := Some(Attestation(commit, passed));
      }
      trace := trace + [AttestCall(commit, if r.Some? then Some(r.value.passed) else None)];
    }

    method PassingRuns(commit: Id) returns (r: Option<nat>)
      requires Valid()
      modifies this
      ensures Valid() && OnlyEnds() && pulled == old(pulled)
      ensures trace == old(trace) + [RunsCall(commit, r)]
    {
      Others();
      r := None;
      if * {
        var n: nat :| n >= 0;
        r := Some(n);
      }
      trace := trace + [RunsCall(commit, r)];
    }

    method Pull(a: Attestation) returns (r: PullResult)
      requires Valid()
      modifies this
      ensures Valid() && OnlyEnds() && trace == old(trace) + [PullCall(a.commit, r)]
      ensures pulled == old(pulled) + if r.Stopped? then {r.event} else {}
      ensures r.Stopped? ==> r.event != NONE && (old(stop) != NONE ==> old(stop) in past)
      ensures r.AlreadyStopped? && r.event != NONE && old(stop) != NONE ==> r.event == old(stop) || old(stop) in past
    {
      r := GuardPull(a);
      trace := trace + [PullCall(a.commit, r)];
    }

    /** The guard's pull, with others acting up to and after its write. */
    method GuardPull(a: Attestation) returns (r: PullResult)
      requires Valid()
      modifies this
      ensures Valid() && OnlyEnds() && trace == old(trace)
      ensures pulled == old(pulled) + if r.Stopped? then {r.event} else {}
      ensures r.Stopped? ==> r.event != NONE && (old(stop) != NONE ==> old(stop) in past)
      ensures r.AlreadyStopped? && r.event != NONE && old(stop) != NONE ==> r.event == old(stop) || old(stop) in past
    {
      Others();
      if * {
        return PullError;
      }
      if a.commit != master {
        return PullStale;
      }
      if * {
        return PullRejected;
      }
      if stop != NONE {
        r := AlreadyStopped(stop);
        Others();
        return;
      }
      Others();
      if stop != NONE {
        Others();
        r := AlreadyStopped(stop); // the re-read after losing the write may find it gone
        return;
      }
      var e := RaiseStop(a.commit);
      pulled := pulled + {e};
      r := Stopped(e);
      Others();
    }

    method Clear(a: Attestation) returns (r: ClearResult)
      requires Valid()
      modifies this
      ensures Valid() && OnlyEnds() && trace == old(trace) + [ClearCall(a.commit, r)] && pulled == old(pulled)
      ensures r.Cleared? || r.NotStopped? ==> (old(stop) != NONE ==> old(stop) in past)
    {
      r := GuardClear(a);
      trace := trace + [ClearCall(a.commit, r)];
    }

    /** The guard's clear: it removes the event it read first, if it is still there. */
    method GuardClear(a: Attestation) returns (r: ClearResult)
      requires Valid()
      modifies this
      ensures Valid() && OnlyEnds() && trace == old(trace) && pulled == old(pulled)
      ensures r.Cleared? || r.NotStopped? ==> (old(stop) != NONE ==> old(stop) in past)
    {
      Others();
      if * {
        return ClearError;
      }
      var id := stop;
      if id == NONE {
        return NotStopped;
      }
      Others();
      if a.commit != master || a.commit == raisedOn {
        return ClearStale;
      }
      if !a.passed {
        return ClearRejected;
      }
      Others();
      if stop != id {
        return NotStopped;
      }
      ClearStop();
      r := Cleared;
      Others();
    }

    /** Close an event's cards, if the card store can. */
    method Resolve(event: Id)
      requires Valid()
      modifies this
      ensures Valid() && OnlyEnds() && pulled == old(pulled) && trace == old(trace) + [ResolveCall(event)]
    {
      Others();
      if * {
        live := live - {event};
      }
      trace := trace + [ResolveCall(event)];
    }

    /** File the card of a flaky check. */
    method RaiseFlake(commit: Id) returns (ok: bool)
      requires Valid()
      modifies this
      ensures Valid() && OnlyEnds() && pulled == old(pulled) && trace == old(trace) + [FlakeCall(commit, ok)]
    {
      Others();
      ok := *;
      trace := trace + [FlakeCall(commit, ok)];
    }

    /** Find or file the live card of an event. */
    method Raise(event: Id) returns (ok: bool)
      requires Valid()
      modifies this
      ensures Valid() && OnlyEnds() && (ok ==> event in live)
      ensures pulled == old(pulled) && trace == old(trace) + [RaiseCall(event, ok)]
    {
      Others();
      ok := *;
      if ok {
        live := live + {event};
      }
      trace := trace + [RaiseCall(event, ok)];
    }
  }

  /** How a step ended: ok means it returned no error; stale means its pull found
      that master had moved on; carded is the stop it made sure has a card. */
  datatype Outcome = Outcome(saw: Option<Status>, ok: bool, stale: bool, carded: Id)

  /** The stops the watcher raised since were carded. */
  ghost predicate PulledCarded(line: Line, before: set<Id>)
    reads line
  {
    before <= line.pulled && forall e :: e in line.pulled - before ==> e in line.live
  }

  /** What the step says it carded has a live card. */
  ghost predicate CardIsLive(line: Line, o: Outcome)
    reads line
  {
    o.carded != NONE ==> o.carded in line.live
  }

  /** The stop the step saw has a live card, or is over. */
  ghost predicate Tended(line: Line, event: Id)
    reads line
  {
    event in line.live || event in line.past
  }

  ghost function AllCalls(steps: seq<StepLog>): seq<Call> {
    if steps == [] then [] else AllCalls(steps[..|steps| - 1]) + Calls(steps[|steps| - 1])
  }

  /** The last master attested when the first n steps are over. */
  ghost function LastAfter(from: Id, steps: seq<StepLog>, n: nat): Id
    requires n <= |steps|
  {
    if n == 0 then from else steps[n - 1].after
  }

  /** Each step takes up where the one before it stopped. */
  ghost predicate Chained(from: Id, steps: seq<StepLog>, to: Id) {
    && (forall i :: 0 <= i < |steps| ==> Ran(steps[i]) && steps[i].before == LastAfter(from, steps, i))
    && to == LastAfter(from, steps, |steps|)
  }

  lemma CallsMore(trace: seq<Call>, steps: seq<StepLog>, s: StepLog)
    ensures trace + AllCalls(steps + [s]) == trace + AllCalls(steps) + Calls(s)
  {
    assert (steps + [s])[..|steps|] == steps;
  }

  lemma ChainMore(from: Id, steps: seq<StepLog>, to: Id, s: StepLog)
    requires Chained(from, steps, to) && s.before == to && Ran(s)
    ensures Chained(from, steps + [s], s.after)
  {
    var all := steps + [s];
    forall i | 0 <= i < |all| ensures Ran(all[i]) && all[i].before == LastAfter(from, all, i) {
      if i < |steps| {
        assert all[i] == steps[i] && LastAfter(from, all, i) == LastAfter(from, steps, i);
      }
    }
  }

  /** Once a master is dealt with, the steps that see no other do nothing but
      keep the stop's card. */
  lemma {:induction false} DealtWithOnce(from: Id, steps: seq<StepLog>, to: Id, k: nat)
    requires Chained(from, steps, to) && k <= |steps|
    requires forall i :: 0 <= i < k ==> steps[i].saw.None? || steps[i].saw.value.master in {NONE, from}
    ensures forall i :: 0 <= i < k ==> steps[i].before == steps[i].after == from
    ensures forall i, j :: 0 <= i < k && 0 <= j < |Calls(steps[i])| ==> Calls(steps[i])[j].RaiseCall?
  {
    if k > 0 {
      DealtWithOnce(from, steps, to, k - 1);
      var s := steps[k - 1];
      assert Ran(s) && s.before == LastAfter(from, steps, k - 1) == from;
      if s.saw.Some? {
        NewMasterIsAttested(s);
      }
    }
  }

  class Watcher {
    var last: Id

    constructor ()
      ensures last == NONE
    {
      last := NONE;
    }

    /** A failure is confirmed by finding no stored passing run and failing a
        second time. flaky means a pass contradicted it; the attestation to act
        on is the second when there is one. */
    method ConfirmFailure(line: Line, failed: Attestation) returns (ok: bool, act: Attestation, flaky: bool, ghost calls: seq<Call>)
      requires line.Valid() && PullsExact(line.trace) && (forall c :: !FailedTwice(line.trace, c)) && !failed.passed
      requires line.trace != [] && line.trace[|line.trace| - 1] == AttestCall(failed.commit, Some(false))
      modifies line
      ensures line.Valid() && line.OnlyEnds() && PullsExact(line.trace) && line.pulled == old(line.pulled)
      ensures line.trace == old(line.trace) + calls
      ensures act.commit == failed.commit
      ensures ok && !flaky ==> act == failed && calls == [RunsCall(failed.commit, Some(0)), AttestCall(failed.commit, Some(false))]
      ensures ok && flaky && act.passed ==> calls == [RunsCall(failed.commit, Some(0)), AttestCall(failed.commit, Some(true))]
      ensures ok && flaky && !act.passed ==> exists k: nat :: k > 0 && calls == [RunsCall(failed.commit, Some(k))]
      ensures !ok ==>
        || calls == [RunsCall(failed.commit, None)]
        || calls == [RunsCall(failed.commit, Some(0)), AttestCall(failed.commit, None)]
      ensures ok && !flaky ==> FailedTwice(line.trace, failed.commit)
      ensures !ok || flaky ==> Answered(line.trace)
    {
      act, flaky, ok := failed, false, false;
      ghost var before := line.trace;
      var runs := line.PassingRuns(failed.commit);
      calls := [RunsCall(failed.commit, runs)];
      PlainCall(before, line.trace[|before|]);
      if runs.None? {
        return;
      }
      if runs.value > 0 {
        return true, failed, true, calls;
      }
      before := line.trace;
      var second := line.Attest(failed.commit);
      calls := calls + [line.trace[|before|]];
      PlainCall(before, line.trace[|before|]);
      if second.None? {
        return;
      }
      ok, act, flaky := true, second.value, second.value.passed;
    }

    /** What an attestation that came shows: a failure is confirmed first, and a
        flaky check filed. */
    method Examine(line: Line, first: Attestation) returns (ok: bool, act: Attestation, passed: bool, ghost finding: Finding, ghost asked: seq<Call>)
      requires line.Valid() && PullsExact(line.trace) && forall c :: !FailedTwice(line.trace, c)
      requires line.trace != [] && line.trace[|line.trace| - 1] == AttestCall(first.commit, Some(first.passed))
      modifies line
      ensures line.Valid() && line.OnlyEnds() && PullsExact(line.trace) && line.pulled == old(line.pulled)
      ensures asked != [] && line.trace == old(line.trace) + asked[1..] && asked[0] == AttestCall(first.commit, Some(first.passed))
      ensures act.commit == first.commit && Shows(finding, first.commit, asked)
      ensures finding == if !ok then Unsettled else if !passed then FailsTwice else if act.passed then PassesNow else PassedEarlier
      ensures ok && !passed ==> !act.passed && FailedTwice(line.trace, first.commit)
      ensures !ok || passed ==> Answered(line.trace)
    {
      ok, act, passed := true, first, first.passed;
      finding, asked := PassesNow, [AttestCall(first.commit, Some(first.passed))];
      if passed {
        return;
      }
      var flaky;
      ghost var more;
      ok, act, flaky, more := ConfirmFailure(line, first);
      asked := asked + more;
      if ok && flaky {
        ghost var before := line.trace;
        ok := line.RaiseFlake(first.commit);
        PlainCall(before, FlakeCall(first.commit, ok));
        asked := asked + [FlakeCall(first.commit, ok)];
        passed := true;
      }
      finding := if !ok then Unsettled else if !passed then FailsTwice else if act.passed then PassesNow else PassedEarlier;
    }

    /** Attest a commit and examine the outcome. */
    method Look(line: Line, commit: Id)
      returns (attested: bool, ok: bool, act: Attestation, passed: bool, ghost finding: Finding, ghost asked: seq<Call>)
      requires line.Valid() && PullsExact(line.trace) && Answered(line.trace)
      modifies line
      ensures line.Valid() && line.OnlyEnds() && PullsExact(line.trace) && line.pulled == old(line.pulled)
      ensures line.trace == old(line.trace) + asked && act.commit == commit && Shows(finding, commit, asked)
      ensures ok ==> attested
      ensures finding ==
        if !attested then NotAttested else if !ok then Unsettled
        else if !passed then FailsTwice else if act.passed then PassesNow else PassedEarlier
      ensures ok && !passed ==> !act.passed && FailedTwice(line.trace, commit)
      ensures !ok || passed ==> Answered(line.trace)
    {
      ghost var start := line.trace;
      var first := line.Attest(commit);
      finding, asked := NotAttested, [line.trace[|start|]];
      PlainCall(start, asked[0]);
      if first.None? {
        return false, false, Attestation(commit, false), false, finding, asked;
      }
      attested := true;
      ok, act, passed, finding, asked := Examine(line, first.value);
    }

    /** One observation of the line. */
    method Step(line: Line) returns (o: Outcome, ghost log: StepLog)
      requires line.Valid() && PullsExact(line.trace) && Answered(line.trace)
      modifies this, line
      ensures line.Valid() && PullsExact(line.trace) && Answered(line.trace)
      ensures line.trace == old(line.trace) + Calls(log) && Ran(log)
      ensures log.saw == o.saw && log.before == old(last) && log.after == last && log.ok == o.ok
      ensures o.ok && !o.stale && o.saw.value.event != NONE && o.saw.value.master != NONE ==> Tended(line, o.saw.value.event)
      ensures o.ok ==> PulledCarded(line, old(line.pulled)) && CardIsLive(line, o)
    {
      var status := line.GetStatus();
      o := Outcome(status, status.Some?, false, NONE);
      log := StepLog(status, last, NotLooked, [], [], last, o.ok);
      if status.None? || status.value.master == NONE {
        return;
      }
      var st := status.value;
      if st.master == last {
        if st.event != NONE {
          var ok := Card(line, st.event);
          o := o.(ok := ok, carded := st.event);
          log := log.(answer := [RaiseCall(st.event, ok)], ok := ok);
        }
        return;
      }
      ghost var finding, asked, answer;
      o, finding, asked, answer := NewMaster(line, st);
      log := StepLog(o.saw, old(last), finding, asked, answer, last, o.ok);
    }

    /** Attest a master not attested before, and answer what comes of it. */
    method NewMaster(line: Line, st: Status) returns (o: Outcome, ghost finding: Finding, ghost asked: seq<Call>, ghost answer: seq<Call>)
      requires line.Valid() && PullsExact(line.trace) && Answered(line.trace)
      requires st.master !in {NONE, last} && (st.event != NONE ==> st.event == line.stop || st.event in line.past)
      modifies this, line
      ensures line.Valid() && PullsExact(line.trace) && Answered(line.trace) && o.saw == Some(st)
      ensures line.trace == old(line.trace) + asked + answer
      ensures Ran(StepLog(Some(st), old(last), finding, asked, answer, last, o.ok))
      ensures o.ok && !o.stale && st.event != NONE ==> Tended(line, st.event)
      ensures o.ok ==> PulledCarded(line, old(line.pulled)) && CardIsLive(line, o)
    {
      o := Outcome(Some(st), false, false, NONE);
      answer := [];
      var attested, ok, res, passed;
      attested, ok, res, passed, finding, asked := Look(line, st.master);
      if !attested {
        if st.event != NONE {
          var carded := Card(line, st.event);
          answer := [RaiseCall(st.event, carded)];
          assert Carding(st.event, answer, carded);
        }
        return;
      }
      if !ok {
        return;
      }
      last := st.master;
      if !passed {
        o, answer := AfterFailure(line, st, res);
      } else if st.event != NONE {
        o, answer := AfterPass(line, st, res);
      } else {
        o := o.(ok := true);
      }
    }

    /** A live card for the event. */
    method Card(line: Line, event: Id) returns (ok: bool)
      requires line.Valid() && PullsExact(line.trace) && forall c :: !FailedTwice(line.trace, c)
      modifies line
      ensures line.Valid() && line.OnlyEnds() && (ok ==> event in line.live) && line.pulled == old(line.pulled)
      ensures line.trace == old(line.trace) + [RaiseCall(event, ok)]
      ensures PullsExact(line.trace) && Answered(line.trace)
    {
      ghost var before := line.trace;
      ok := line.Raise(event);
      PlainCall(before, RaiseCall(event, ok));
    }

    /** Master fails: pull the cord and card the stop. */
    method AfterFailure(line: Line, st: Status, res: Attestation) returns (o: Outcome, ghost calls: seq<Call>)
      requires line.Valid() && PullsExact(line.trace) && !res.passed && FailedTwice(line.trace, res.commit) && res.commit == st.master
      requires (st.event != NONE ==> st.event == line.stop || st.event in line.past) && last == st.master != NONE
      modifies this, line
      ensures line.Valid() && PullsExact(line.trace) && Answered(line.trace) && o.saw == Some(st)
      ensures line.trace == old(line.trace) + calls && Pulling(st, calls, last, o.ok)
      ensures o.ok && !o.stale && st.event != NONE ==> Tended(line, st.event)
      ensures o.ok ==> PulledCarded(line, old(line.pulled)) && CardIsLive(line, o)
    {
      o := Outcome(Some(st), false, false, NONE);
      ghost var before := line.trace;
      var pr := line.Pull(res);
      calls := [PullCall(res.commit, pr)];
      OneCall(before, PullCall(res.commit, pr));
      match pr
      case Stopped(e) =>
        var ok := Card(line, e);
        calls := calls + [RaiseCall(e, ok)];
        o := o.(ok := ok, carded := e);
      case AlreadyStopped(e) =>
        var event := if st.event != NONE && (e == NONE || e == st.event) then st.event else e;
        if event == NONE {
          return o.(ok := true), calls;
        }
        var ok := Card(line, event);
        calls := calls + [RaiseCall(event, ok)];
        o := o.(ok := ok, carded := event);
      case PullStale =>
        last := NONE;
        o := o.(ok := true, stale := true);
      case _ =>
        last := NONE;
    }

    /** Master passes while the line is stopped: clear it, or keep its card when
        there is only a stored pass to show. */
    method AfterPass(line: Line, st: Status, res: Attestation) returns (o: Outcome, ghost calls: seq<Call>)
      requires line.Valid() && PullsExact(line.trace) && Answered(line.trace) && st.event != NONE && res.commit == st.master
      requires (st.event == line.stop || st.event in line.past) && last == st.master != NONE
      modifies this, line
      ensures line.Valid() && PullsExact(line.trace) && Answered(line.trace) && o.saw == Some(st) && !o.stale
      ensures line.trace == old(line.trace) + calls
      ensures if res.passed then Clearing(st, calls, last, o.ok) else last == st.master && calls == [RaiseCall(st.event, o.ok)]
      ensures o.ok ==> Tended(line, st.event)
      ensures line.pulled == old(line.pulled) && (o.ok ==> CardIsLive(line, o))
    {
      o := Outcome(Some(st), false, false, NONE);
      if !res.passed {
        var ok := Card(line, st.event);
        return o.(ok := ok, carded := st.event), [RaiseCall(st.event, ok)];
      }
      ghost var before := line.trace;
      var cr := line.Clear(res);
      calls := [ClearCall(res.commit, cr)];
      PlainCall(before, calls[0]);
      match cr
      case ClearError =>
        last := NONE;
      case ClearStale =>
        var ok := Card(line, st.event);
        calls := calls + [RaiseCall(st.event, ok)];
        if st.failing == Some(st.master) {
          return o.(ok := ok, carded := st.event), calls;
        }
        last := NONE;
        assert Carding(st.event, calls[1..], ok);
      case ClearRejected =>
        last := NONE;
        var ok := Card(line, st.event);
        calls := calls + [RaiseCall(st.event, ok)];
        assert Carding(st.event, calls[1..], ok);
      case _ =>
        before := line.trace;
        line.Resolve(st.event);
        PlainCall(before, ResolveCall(st.event));
        calls := calls + [ResolveCall(st.event)];
        o := o.(ok := true);
    }

    /** Any number of steps: the watcher pulls exactly on confirmed failures, and
        steps says what each step saw and did. */
    method Watch(line: Line, count: nat) returns (ghost steps: seq<StepLog>)
      requires line.Valid() && PullsExact(line.trace) && Answered(line.trace)
      modifies this, line
      ensures line.Valid() && PullsExact(line.trace) && Answered(line.trace)
      ensures line.trace == old(line.trace) + AllCalls(steps) && |steps| == count
      ensures Chained(old(last), steps, last)
    {
      steps := [];
      ghost var start, from := line.trace, last;
      assert start + AllCalls(steps) == start;
      for i := 0 to count
        invariant line.Valid() && PullsExact(line.trace) && Answered(line.trace)
        invariant |steps| == i && line.trace == start + AllCalls(steps)
        invariant Chained(from, steps, last)
      {
        ghost var before := last;
        var _, log := Step(line);
        CallsMore(start, steps, log);
        ChainMore(from, steps, before, log);
        steps := steps + [log];
      }
    }
  }
}

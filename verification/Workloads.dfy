/** Workload requests: the store's records, the operations on them under the
    store's lock, and the policy they follow. */
module Workloads {
  import opened Options
  import opened Decimal

  datatype State = Pending | Approved | Denied | Creating | Running | Exited | Failed | Expired | Removed

  datatype Event = Event(at: int, state: State, who: string)

  /** supported says whether the controller's engine can run the spec. */
  datatype Workload = Workload(
    id: Bytes, station: string, kind: string, ttl: int, supported: bool,
    state: State, stopped: bool, expiresAt: Option<int>, history: seq<Event>)

  /** A policy rule; maxPerStation 0 means no cap. */
  datatype Rule = Rule(roles: seq<string>, kinds: seq<string>, auto: bool, maxPerStation: nat)

  datatype File = File(next: nat, workloads: seq<Workload>)

  // ---------- policy ----------

  predicate Covers(r: Rule, role: string, kind: string) {
    role in r.roles && kind in r.kinds
  }

  /** The first rule covering role and kind. */
  function RuleFor(rules: seq<Rule>, role: string, kind: string): (r: Option<Rule>)
    ensures r.Some? ==> r.value in rules && role in r.value.roles && kind in r.value.kinds
    ensures r.None? ==> forall i :: 0 <= i < |rules| ==> !(role in rules[i].roles && kind in rules[i].kinds)
  {
    if rules == [] then None
    else if Covers(rules[0], role, kind) then Some(rules[0])
    else RuleFor(rules[1..], role, kind)
  }

  /** No role and kind are covered twice. */
  ghost predicate Disjoint(rules: seq<Rule>) {
    forall i, j, role, kind :: 0 <= i < j < |rules| && role in rules[i].roles && kind in rules[i].kinds ==>
      role !in rules[j].roles || kind !in rules[j].kinds
  }

  /** The validation loop over rule pairs. */
  method RulesDisjoint(rules: seq<Rule>) returns (ok: bool)
    ensures ok <==> Disjoint(rules)
  {
    for j := 0 to |rules|
      invariant forall i, k, role, kind :: 0 <= i < k < j && Covers(rules[i], role, kind) ==> !Covers(rules[k], role, kind)
    {
      for i := 0 to j
        invariant forall k, role, kind :: 0 <= k < i && Covers(rules[k], role, kind) ==> !Covers(rules[j], role, kind)
      {
        for a := 0 to |rules[j].roles|
          invariant forall role, kind :: role in rules[j].roles[..a] && Covers(rules[i], role, kind) ==> kind !in rules[j].kinds
        {
          for b := 0 to |rules[j].kinds|
            invariant forall kind :: kind in rules[j].kinds[..b] ==> !Covers(rules[i], rules[j].roles[a], kind)
          {
            if Covers(rules[i], rules[j].roles[a], rules[j].kinds[b]) {
              assert rules[j].roles[a] in rules[i].roles && rules[j].kinds[b] in rules[i].kinds;
              return false;
            }
          }
          assert rules[j].kinds[..|rules[j].kinds|] == rules[j].kinds;
        }
        assert rules[j].roles[..|rules[j].roles|] == rules[j].roles;
      }
    }
    forall i, j, role, kind | 0 <= i < j < |rules| && role in rules[i].roles && kind in rules[i].kinds
      ensures role !in rules[j].roles || kind !in rules[j].kinds
    {
      assert Covers(rules[i], role, kind) && !Covers(rules[j], role, kind);
    }
    ok := true;
  }

  /** With disjoint rules, whichever rule covers a request is the one that governs it. */
  lemma {:induction false} OnlyRule(rules: seq<Rule>, r: Rule, role: string, kind: string)
    requires Disjoint(rules) && r in rules && Covers(r, role, kind)
    ensures RuleFor(rules, role, kind) == Some(r)
  {
    var i :| 0 <= i < |rules| && rules[i] == r;
    if i > 0 {
      assert !Covers(rules[0], role, kind);
      assert r == rules[1..][i - 1];
      assert Disjoint(rules[1..]) by {
        forall a, b, ro, k | 0 <= a < b < |rules| - 1 && Covers(rules[1..][a], ro, k) ensures !Covers(rules[1..][b], ro, k) {
          assert rules[1..][a] == rules[a + 1] && rules[1..][b] == rules[b + 1];
        }
      }
      OnlyRule(rules[1..], r, role, kind);
    }
  }

  // ---------- records ----------

  predicate Live(w: Workload): (r: bool)
    ensures r <==> !w.stopped && w.state !in {Denied, Exited, Failed, Expired, Removed}
  {
    (w.state == Pending || w.state == Approved || w.state == Creating || w.state == Running) && !w.stopped
  }

  predicate ControllerVisible(w: Workload): (r: bool)
    ensures r <==> w.state !in {Pending, Denied, Removed}
  {
    w.state == Approved || w.state == Creating || w.state == Running || w.state == Exited || w.state == Failed || w.state == Expired
  }

  function SetState(w: Workload, at: int, state: State, who: string): Workload {
    w.(state := state, history := w.history + [Event(at, state, who)])
  }

  /** The lifetime is over and the record does not say so yet. */
  predicate Overdue(w: Workload, now: int) {
    (w.state == Approved || w.state == Creating || w.state == Running) && w.expiresAt.Some? && now >= w.expiresAt.value
  }

  function ExpireOne(w: Workload, now: int): Workload {
    if Overdue(w, now) then SetState(w, now, Expired, "serve") else w
  }

  function SweepAll(ws: seq<Workload>, now: int): (r: seq<Workload>)
    ensures |r| == |ws| && forall i :: 0 <= i < |ws| ==> r[i] == ExpireOne(ws[i], now)
  {
    seq(|ws|, i requires 0 <= i < |ws| => ExpireOne(ws[i], now))
  }

  function Swept(f: File, now: int): File {
    f.(workloads := SweepAll(f.workloads, now))
  }

  const WL: Bytes := [119, 108, 45] // "wl-"

  function IdOf(n: nat): Bytes {
    WL + Print(n)
  }

  /** The index of the workload with id, or the length. */
  function Find(ws: seq<Workload>, id: Bytes): (i: nat)
    ensures i <= |ws|
    ensures i < |ws| ==> ws[i].id == id
    ensures forall j :: 0 <= j < i ==> ws[j].id != id
  {
    if ws == [] || ws[0].id == id then 0 else 1 + Find(ws[1..], id)
  }

  predicate Counts(w: Workload, station: string, kinds: seq<string>) {
    w.station == station && w.kind in kinds && Live(w)
  }

  function LiveCount(ws: seq<Workload>, station: string, kinds: seq<string>): nat {
    if ws == [] then 0
    else LiveCount(ws[..|ws| - 1], station, kinds) + if Counts(ws[|ws| - 1], station, kinds) then 1 else 0
  }

  // ---------- operations ----------

  /** Policy and who has which role. */
  datatype Policy = Policy(rules: seq<Rule>, roleOf: string -> string)

  /** stamp is the clock read before the lock is taken; the sweep reads it again
      inside. refused stands for an image or spec the rule does not allow. */
  datatype Op =
    | Request(station: string, kind: string, ttl: int, supported: bool, refused: bool, stamp: int)
    | Approve(id: Bytes, msg: string, stamp: int)
    | Stop(station: string, gemba: bool, id: Bytes, stamp: int)
    | Report(id: Bytes, state: State, stamp: int)

  function Add(f: File, w: Workload): File {
    File(f.next + 1, f.workloads + [w.(id := IdOf(f.next + 1))])
  }

  /** The record a request gets, given the station's live count under its rule. */
  function Requested(rule: Option<Rule>, op: Op, live: nat): Workload
    requires op.Request?
  {
    var w := Workload([], op.station, op.kind, op.ttl, op.supported, Pending, false, None, []);
    if rule.None? || op.refused || (rule.value.maxPerStation > 0 && live >= rule.value.maxPerStation) then
      SetState(w, op.stamp, Denied, "serve")
    else if rule.value.auto then
      SetState(w.(expiresAt := Some(op.stamp + op.ttl), history := [Event(op.stamp, Pending, op.station)]), op.stamp, Approved, "serve")
    else
      SetState(w, op.stamp, Pending, op.station)
  }

  predicate ReportedState(s: State) {
    s == Creating || s == Running || s == Exited || s == Failed || s == Removed
  }

  /** The one record an operation other than a request changes, or None when it fails. */
  function Changed(w: Workload, op: Op): Option<Workload>
    requires !op.Request?
  {
    match op
    case Approve(_, msg, stamp) =>
      if w.state != Pending then None
      else Some(SetState(w.(expiresAt := Some(stamp + w.ttl)), stamp, Approved, msg))
    case Stop(station, gemba, _, stamp) =>
      if w.station != station && !gemba then None
      else if w.state == Pending then Some(SetState(w, stamp, Removed, station))
      else if ControllerVisible(w) && !w.stopped then
        Some(w.(stopped := true, history := w.history + [Event(stamp, w.state, station)]))
      else Some(w)
    case Report(_, state, stamp) =>
      if !ReportedState(state) || !ControllerVisible(w) then None else Some(SetState(w, stamp, state, "controller"))
  }

  /** The operation finds its record and may change it. */
  predicate Applies(f: File, op: Op, now: int) {
    op.Request? ||
    (var ws := SweepAll(f.workloads, now); var i := Find(ws, op.id); i < |ws| && Changed(ws[i], op).Some?)
  }

  /** The store after an operation; one that fails saves nothing, not even the sweep. */
  function Apply(p: Policy, f: File, op: Op, now: int): File {
    var g := Swept(f, now);
    if op.Request? then
      var rule := RuleFor(p.rules, p.roleOf(op.station), op.kind);
      var live := if rule.Some? then LiveCount(g.workloads, op.station, rule.value.kinds) else 0;
      Add(g, Requested(rule, op, live))
    else
      var i := Find(g.workloads, op.id);
      if !Applies(f, op, now) then f
      else g.(workloads := g.workloads[i := Changed(g.workloads[i], op).value])
  }

  /** The store itself; each method holds the lock. */
  class WorkloadStore {
    var next: nat
    var workloads: seq<Workload>

    ghost function Contents(): File
      reads this
    {
      File(next, workloads)
    }

    constructor ()
      ensures Contents() == File(0, [])
    {
      next, workloads := 0, [];
    }

    /** Move overdue workloads to expired, in place. */
    method Expire(ws: seq<Workload>, now: int) returns (swept: seq<Workload>)
      ensures swept == SweepAll(ws, now)
    {
      swept := ws;
      for i := 0 to |ws|
        invariant |swept| == |ws|
        invariant forall j :: 0 <= j < |ws| ==> swept[j] == if j < i then ExpireOne(ws[j], now) else ws[j]
      {
        if Overdue(swept[i], now) {
          swept := swept[i := SetState(swept[i], now, Expired, "serve")];
        }
      }
    }

    method FindIndex(ws: seq<Workload>, id: Bytes) returns (i: nat)
      ensures i == Find(ws, id)
    {
      for k := 0 to |ws|
        invariant Find(ws, id) == k + Find(ws[k..], id)
      {
        if ws[k].id == id {
          return k;
        }
        assert ws[k..][1..] == ws[k + 1..];
      }
      i := |ws|;
    }

    method CountLive(ws: seq<Workload>, station: string, kinds: seq<string>) returns (n: nat)
      ensures n == LiveCount(ws, station, kinds)
    {
      n := 0;
      for i := 0 to |ws|
        invariant n == LiveCount(ws[..i], station, kinds)
      {
        assert ws[..i + 1][..i] == ws[..i];
        if Counts(ws[i], station, kinds) {
          n := n + 1;
        }
      }
      assert ws[..|ws|] == ws;
    }

    method RequestWorkload(p: Policy, op: Op, now: int) returns (w: Workload)
      requires op.Request?
      modifies this
      ensures Contents() == Apply(p, old(Contents()), op, now)
      ensures w in workloads && w.id == IdOf(next)
    {
      var rule := RuleFor(p.rules, p.roleOf(op.station), op.kind);
      var swept := Expire(workloads, now);
      var live := 0;
      if rule.Some? {
        live := CountLive(swept, op.station, rule.value.kinds);
      }
      w := Requested(rule, op, live);
      next := next + 1;
      w := w.(id := IdOf(next));
      workloads := swept + [w];
    }

    /** Approve, Stop and the controller's report: change one record or fail. */
    method Update(p: Policy, op: Op, now: int) returns (ok: bool)
      requires !op.Request?
      modifies this
      ensures Contents() == Apply(p, old(Contents()), op, now)
      ensures ok <==> Applies(old(Contents()), op, now)
    {
      var swept := Expire(workloads, now);
      var i := FindIndex(swept, op.id);
      if i == |swept| {
        return false;
      }
      var c := Changed(swept[i], op);
      if c.None? {
        return false;
      }
      workloads := swept[i := c.value];
      ok := true;
    }
  }
}

/** Viceroy succession: one supervisor process, whose mutex is dropped around
    engine calls. Each critical section is one step; calls interleave freely. */
module Succession {
  import opened Options
  import opened Decimal

  datatype Generation = Generation(gen: nat, commit: string, predecessor: string)

  /** A pending generation's record and what has happened to it: how often its
      number was admitted while it was pending, and how often it was recorded,
      recorded only in the history file, rolled back, and had its done channel
      closed. */
  datatype Made = Made(g: Generation, posted: bool, posts: nat, recorded: nat, partly: nat, rolledBack: nat, closed: nat)

  /** A line of the history file, and the pending record it was written for, if any. */
  datatype Line = Line(g: Generation, made: Option<nat>)

  /** What the calls share. A pending record is named by its index in made: the
      code compares record addresses, and every launch makes a new record. */
  datatype Shared = Shared(
    current: Option<Generation>, starting: bool, pending: Option<nat>,
    made: seq<Made>, history: seq<Line>)

  /** How writing the record went: not at all, only into the history, or whole. */
  datatype Recording = Nothing | HistoryOnly | Whole

  // ---------- the critical sections ----------

  predicate MayBegin(s: Shared) {
    !s.starting && s.pending.None?
  }

  function Install(s: Shared, g: Generation): Shared {
    s.(pending := Some(|s.made|), made := s.made + [Made(g, false, 0, 0, 0, 0, 0)])
  }

  predicate IsPending(s: Shared, t: nat) {
    s.pending == Some(t) && t < |s.made|
  }

  function RollBack(s: Shared, t: nat): Shared {
    if !IsPending(s, t) then s
    else s.(pending := None, made := s.made[t := s.made[t].(rolledBack := s.made[t].rolledBack + 1)])
  }

  function Record(s: Shared, line: Line, rec: Recording): Shared {
    match rec
    case Nothing => s
    case HistoryOnly => s.(history := s.history + [line])
    case Whole => s.(history := s.history + [line], current := Some(line.g))
  }

  function FinishCheckin(s: Shared, t: nat, rec: Recording): Shared {
    if !IsPending(s, t) then s
    else
      var m, s' := s.made[t], Record(s, Line(s.made[t].g, Some(t)), rec);
      match rec
      case Nothing => s'
      case HistoryOnly => s'.(made := s.made[t := m.(partly := m.partly + 1)])
      case Whole => s'.(pending := None, made := s.made[t := m.(recorded := m.recorded + 1, closed := m.closed + 1)])
  }

  /** The header is the number of the pending generation. */
  predicate FromPending(s: Shared, header: Bytes) {
    s.pending.Some? && s.pending.value < |s.made| && header == Print(s.made[s.pending.value].g.gen)
  }

  /** A request that needs no leave from the pending generation; cur is the
      current generation as read before the lock was taken. */
  predicate Unrestricted(s: Shared, cur: Option<Generation>, header: Bytes) {
    header == [] || (cur.None? && s.pending.None?) || (cur.Some? && header == Print(cur.value.gen))
  }

  predicate Admits(s: Shared, cur: Option<Generation>, header: Bytes, post: bool) {
    Unrestricted(s, cur, header) || (FromPending(s, header) && post && !s.made[s.pending.value].posted)
  }

  /** One more admission under the pending generation's number. */
  function CountPost(s: Shared, posted: bool): Shared
    requires s.pending.Some? && s.pending.value < |s.made|
  {
    var t := s.pending.value;
    s.(made := s.made[t := s.made[t].(posts := s.made[t].posts + 1, posted := posted)])
  }

  function Admitted(s: Shared, cur: Option<Generation>, header: Bytes, post: bool): Shared {
    if !Admits(s, cur, header, post) || !FromPending(s, header) then s
    else if Unrestricted(s, cur, header) then CountPost(s, s.made[s.pending.value].posted)
    else CountPost(s, true)
  }

  /** The supervisor's fields and the sections of code that hold its mutex. */
  class Supervisor {
    var s: Shared

    constructor (s0: Shared)
      ensures s == s0
    {
      s := s0;
    }

    method Begin() returns (ok: bool)
      modifies this
      ensures ok <==> old(MayBegin(s))
      ensures s == if ok then old(s).(starting := true) else old(s)
    {
      if s.starting || s.pending.Some? {
        return false;
      }
      s := s.(starting := true);
      ok := true;
    }

    method End()
      modifies this
      ensures s == old(s).(starting := false)
    {
      s := s.(starting := false);
    }

    method SetPending(g: Generation) returns (t: nat)
      modifies this
      ensures s == Install(old(s), g) && t == |old(s.made)|
    {
      t := |s.made|;
      s := s.(made := s.made + [Made(g, false, 0, 0, 0, 0, 0)]);
      s := s.(pending := Some(t));
    }

    method Rollback(t: nat) returns (mine: bool)
      requires t < |s.made|
      modifies this
      ensures s == RollBack(old(s), t) && mine == old(IsPending(s, t))
    {
      if s.pending != Some(t) {
        return false;
      }
      s := s.(pending := None);
      s := s.(made := s.made[t := s.made[t].(rolledBack := s.made[t].rolledBack + 1)]);
      mine := true;
    }

    method CompleteCheckin(t: nat, rec: Recording) returns (ok: bool)
      requires t < |s.made|
      modifies this
      ensures s == FinishCheckin(old(s), t, rec) && ok == (old(IsPending(s, t)) && rec == Whole)
    {
      if s.pending != Some(t) {
        return false;
      }
      var m := s.made[t];
      s := Record(s, Line(m.g, Some(t)), rec);
      if rec != Whole {
        if rec == HistoryOnly {
          s := s.(made := s.made[t := m.(partly := m.partly + 1)]);
        }
        return false;
      }
      s := s.(pending := None);
      s := s.(made := s.made[t := m.(recorded := m.recorded + 1, closed := m.closed + 1)]);
      ok := true;
    }

    method Admit(cur: Option<Generation>, header: Bytes, post: bool) returns (ok: bool)
      requires s.pending.Some? ==> s.pending.value < |s.made|
      modifies this
      ensures s == Admitted(old(s), cur, header, post) && ok == old(Admits(s, cur, header, post))
    {
      if header == [] || (cur.None? && s.pending.None?) || (cur.Some? && header == Print(cur.value.gen)) {
        if FromPending(s, header) {
          s := CountPost(s, s.made[s.pending.value].posted);
        }
        return true;
      }
      if FromPending(s, header) && post && !s.made[s.pending.value].posted {
        s := CountPost(s, true);
        return true;
      }
      ok := false;
    }
  }
}

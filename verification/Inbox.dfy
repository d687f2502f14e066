/** The king's channel: delivering messages to the inbox exactly once from two
    feeds, and paging through it. */
module Inbox {
  import opened Decimal

  datatype Message = Message(id: Bytes, author: string, text: string)

  const PAGE: nat := 200

  /** The number an ID spells. */
  ghost function Num(id: Bytes): nat {
    if AllDigits(id) then Value(id) else 0
  }

  lemma LessIsNumeric(a: Bytes, b: Bytes)
    requires Canonical(a) && Canonical(b)
    ensures IdLess(a, b) <==> Num(a) < Num(b)
  {
    IdLessIsNumeric(a, b);
  }

  ghost predicate ValidIds(ms: seq<Message>) {
    forall i :: 0 <= i < |ms| ==> Canonical(ms[i].id)
  }

  /** Numerically increasing IDs, so no message appears twice. */
  ghost predicate Increasing(ms: seq<Message>) {
    ValidIds(ms) && forall i, j :: 0 <= i < j < |ms| ==> Num(ms[i].id) < Num(ms[j].id)
  }

  lemma OneMore(ms: seq<Message>, m: Message)
    requires Increasing(ms) && Canonical(m.id) && forall i :: 0 <= i < |ms| ==> Num(ms[i].id) < Num(m.id)
    ensures Increasing(ms + [m])
  {
  }

  // ---------- delivery ----------

  /** What the channel keeps on disk: the inbox, the cursor, and the king's
      messages that were acted on. */
  datatype Feed = Feed(inbox: seq<Message>, last: Bytes, applied: seq<Message>)

  /** Everything in the inbox is at or before the cursor. */
  ghost predicate FeedOk(f: Feed, king: string) {
    && Increasing(f.inbox)
    && (f.last == [] ==> f.inbox == [])
    && (f.last != [] ==> Canonical(f.last) && forall i :: 0 <= i < |f.inbox| ==> Num(f.inbox[i].id) <= Num(f.last))
    && f.applied == FromKing(f.inbox, king)
  }

  function FromKing(ms: seq<Message>, king: string): seq<Message> {
    if ms == [] then []
    else
      var n := |ms| - 1;
      FromKing(ms[..n], king) + if king != "" && ms[n].author == king then [ms[n]] else []
  }

  /** Deliver one message. appended and saved say whether those writes worked. */
  function Deliver(f: Feed, m: Message, me: string, king: string, appended: bool, saved: bool): Feed {
    if !IdLess(f.last, m.id) then f
    else if m.author == me then (if saved then f.(last := m.id) else f)
    else if !appended then f
    else
      var g := f.(inbox := f.inbox + [m], applied := f.applied + if king != "" && m.author == king then [m] else []);
      if saved then g.(last := m.id) else g
  }

  lemma FromKingAppend(ms: seq<Message>, m: Message, king: string)
    ensures FromKing(ms + [m], king) == FromKing(ms, king) + if king != "" && m.author == king then [m] else []
  {
    assert (ms + [m])[..|ms|] == ms;
  }

  /** A message past the cursor is past everything in the inbox. */
  lemma PastCursorIsNew(f: Feed, m: Message, king: string)
    requires FeedOk(f, king) && Canonical(m.id) && IdLess(f.last, m.id)
    ensures Increasing(f.inbox + [m]) && forall i :: 0 <= i < |f.inbox| ==> Num(f.inbox[i].id) < Num(m.id)
  {
    if f.last != [] {
      LessIsNumeric(f.last, m.id);
    }
    OneMore(f.inbox, m);
  }

  lemma SavedKeeps(f: Feed, m: Message, me: string, king: string, appended: bool)
    requires FeedOk(f, king) && Canonical(m.id)
    ensures FeedOk(Deliver(f, m, me, king, appended, true), king)
  {
    if IdLess(f.last, m.id) {
      PastCursorIsNew(f, m, king);
      FromKingAppend(f.inbox, m, king);
    }
  }

  /** A message in the inbox and past the cursor is out of order. */
  lemma PastCursorBreaks(f: Feed, m: Message, king: string)
    requires Canonical(m.id) && m in f.inbox && IdLess(f.last, m.id)
    ensures !FeedOk(f, king)
  {
    if f.last != [] && Canonical(f.last) {
      LessIsNumeric(f.last, m.id);
    }
  }

  /** Delivery keeps the feed in order exactly when the cursor is saved after
      whatever was appended. */
  lemma DeliverKeeps(f: Feed, m: Message, me: string, king: string, appended: bool, saved: bool)
    requires FeedOk(f, king) && Canonical(m.id)
    ensures FeedOk(Deliver(f, m, me, king, appended, saved), king)
       <==> (IdLess(f.last, m.id) && m.author != me && appended ==> saved)
  {
    SavedKeeps(f, m, me, king, appended);
    if IdLess(f.last, m.id) && m.author != me && appended && !saved {
      PastCursorBreaks(Deliver(f, m, me, king, appended, saved), m, king);
    }
  }

  /** If the cursor is not saved, the next delivery of the message repeats it,
      and repeats the king's command. */
  lemma UnsavedCursorRepeats(f: Feed, m: Message, me: string, king: string)
    requires IdLess(f.last, m.id) && m.author != me
    ensures Deliver(Deliver(f, m, me, king, true, false), m, me, king, true, true).inbox == f.inbox + [m] + [m]
    ensures king != "" && m.author == king ==>
      Deliver(Deliver(f, m, me, king, true, false), m, me, king, true, true).applied == f.applied + [m] + [m]
  {
  }

  // ---------- runs of the two feeds ----------

  /** The first cursor, or one delivery of either feed, with the outcomes of its
      two writes. */
  datatype Event =
    | Baseline(id: Bytes)
    | Arrive(m: Message, appended: bool, saved: bool)

  function Apply(f: Feed, e: Event, me: string, king: string): Feed {
    match e
    case Baseline(id) => if f.last == [] then f.(last := id) else f
    case Arrive(m, appended, saved) => Deliver(f, m, me, king, appended, saved)
  }

  function Run(f: Feed, es: seq<Event>, me: string, king: string): Feed
    decreases |es|
  {
    if es == [] then f else Run(Apply(f, es[0], me, king), es[1..], me, king)
  }

  ghost predicate ValidEvents(es: seq<Event>) {
    forall i :: 0 <= i < |es| ==> if es[i].Baseline? then Canonical(es[i].id) else Canonical(es[i].m.id)
  }

  /** The event appends a message of others that is past the cursor, although the
      inbox already holds it or a newer one: an earlier append of it was not saved. */
  ghost predicate Repeats(f: Feed, e: Event, me: string) {
    && e.Arrive? && IdLess(f.last, e.m.id) && e.m.author != me && e.appended
    && exists i :: 0 <= i < |f.inbox| && Num(e.m.id) <= Num(f.inbox[i].id)
  }

  ghost predicate NeverRepeats(f: Feed, es: seq<Event>, me: string, king: string)
    decreases |es|
  {
    es == [] || (!Repeats(f, es[0], me) && NeverRepeats(Apply(f, es[0], me, king), es[1..], me, king))
  }

  /** The inbox is only ever appended to, and the commands applied are always the
      king's messages in it. */
  ghost predicate InboxGrows(f: Feed, g: Feed, king: string) {
    f.inbox <= g.inbox && (f.applied == FromKing(f.inbox, king) ==> g.applied == FromKing(g.inbox, king))
  }

  lemma ApplyGrows(f: Feed, e: Event, me: string, king: string)
    ensures InboxGrows(f, Apply(f, e, me, king), king)
  {
    if e.Arrive? {
      FromKingAppend(f.inbox, e.m, king);
    }
  }

  lemma {:induction false} RunGrows(f: Feed, es: seq<Event>, me: string, king: string)
    ensures InboxGrows(f, Run(f, es, me, king), king)
    decreases |es|
  {
    if es != [] {
      ApplyGrows(f, es[0], me, king);
      RunGrows(Apply(f, es[0], me, king), es[1..], me, king);
    }
  }

  lemma PrefixIncreasing(ms: seq<Message>, more: seq<Message>)
    requires ms <= more && Increasing(more)
    ensures Increasing(ms)
  {
  }

  lemma AppendBreaks(ms: seq<Message>, m: Message, i: nat)
    requires i < |ms| && Num(m.id) <= Num(ms[i].id)
    ensures !Increasing(ms + [m])
  {
    assert (ms + [m])[i] == ms[i] && (ms + [m])[|ms|] == m;
  }

  /** One event keeps the inbox increasing exactly when it repeats nothing. */
  lemma ApplyIncreasesIff(f: Feed, e: Event, me: string, king: string)
    requires Increasing(f.inbox) && (e.Arrive? ==> Canonical(e.m.id))
    ensures Increasing(Apply(f, e, me, king).inbox) <==> !Repeats(f, e, me)
  {
    if Repeats(f, e, me) {
      var i :| 0 <= i < |f.inbox| && Num(e.m.id) <= Num(f.inbox[i].id);
      AppendBreaks(f.inbox, e.m, i);
    } else if e.Arrive? && IdLess(f.last, e.m.id) && e.m.author != me && e.appended {
      OneMore(f.inbox, e.m);
    }
  }

  /** Over any interleaving of polls and gateway events, with any of their writes
      failing, the inbox stays numerically increasing, so no message is stored
      twice and no command of the king applied twice, exactly when no event
      appends what the inbox already holds. */
  lemma {:induction false} RunIncreasesIff(f: Feed, es: seq<Event>, me: string, king: string)
    requires Increasing(f.inbox) && ValidEvents(es)
    ensures Increasing(Run(f, es, me, king).inbox) <==> NeverRepeats(f, es, me, king)
    decreases |es|
  {
    if es != [] {
      var g := Apply(f, es[0], me, king);
      ApplyIncreasesIff(f, es[0], me, king);
      if Repeats(f, es[0], me) {
        RunGrows(g, es[1..], me, king);
        if Increasing(Run(f, es, me, king).inbox) {
          PrefixIncreasing(g.inbox, Run(f, es, me, king).inbox);
        }
      } else {
        RunIncreasesIff(g, es[1..], me, king);
      }
    }
  }

  /** When every save works, however the feeds repeat or reorder messages and
      whichever appends fail, nothing is ever repeated. */
  lemma {:induction false} RunsDeliverOnce(f: Feed, es: seq<Event>, me: string, king: string)
    requires FeedOk(f, king) && ValidEvents(es) && forall i :: 0 <= i < |es| && es[i].Arrive? ==> es[i].saved
    ensures FeedOk(Run(f, es, me, king), king) && NeverRepeats(f, es, me, king)
    decreases |es|
  {
    if es != [] {
      var g := Apply(f, es[0], me, king);
      if es[0].Arrive? {
        DeliverKeeps(f, es[0].m, me, king, es[0].appended, true);
      }
      ApplyIncreasesIff(f, es[0], me, king);
      RunsDeliverOnce(g, es[1..], me, king);
    }
  }

  /** An unsaved cursor does no harm if a newer delivery is saved before the
      message comes again. */
  lemma UnsavedThenNewerRepeatsNothing(f: Feed, a: Message, b: Message, me: string, king: string)
    requires FeedOk(f, king) && Canonical(a.id) && Canonical(b.id) && IdLess(f.last, a.id) && Num(a.id) < Num(b.id)
    requires a.author != me && b.author != me
    ensures var f1 := Deliver(f, a, me, king, true, false);
      var f2 := Deliver(f1, b, me, king, true, true);
      && f2.inbox == f.inbox + [a] + [b] && FeedOk(f2, king) && Deliver(f2, a, me, king, true, true) == f2
  {
    PastCursorIsNew(f, a, king);
    NewerIsPast(f.last, a.id, b.id);
    FromKingAppend(f.inbox, a, king);
    OneMore(f.inbox + [a], b);
    FromKingAppend(f.inbox + [a], b, king);
    LessIsNumeric(b.id, a.id);
  }

  lemma NewerIsPast(last: Bytes, a: Bytes, b: Bytes)
    requires (last == [] || Canonical(last)) && Canonical(a) && Canonical(b) && IdLess(last, a) && Num(a) < Num(b)
    ensures IdLess(last, b)
  {
    if last != [] {
      LessIsNumeric(last, a);
      LessIsNumeric(last, b);
    }
  }

  /** The commands are the messages of the king, when there is one. */
  lemma {:induction false} FromKingIsIn(ms: seq<Message>, king: string, m: Message)
    ensures m in FromKing(ms, king) <==> m in ms && king != "" && m.author == king
  {
    if ms != [] {
      FromKingIsIn(ms[..|ms| - 1], king, m);
      assert ms == ms[..|ms| - 1] + [ms[|ms| - 1]];
    }
  }

  /** The commands applied are increasing too, so none is applied twice. */
  lemma {:induction false} AppliedOnce(ms: seq<Message>, king: string)
    requires Increasing(ms)
    ensures Increasing(FromKing(ms, king))
  {
    if ms != [] {
      var n := |ms| - 1;
      var front := FromKing(ms[..n], king);
      AppliedOnce(ms[..n], king);
      forall i | 0 <= i < |front| ensures Num(front[i].id) < Num(ms[n].id) {
        FromKingIsIn(ms[..n], king, front[i]);
        var j :| 0 <= j < n && ms[..n][j] == front[i];
        assert ms[j] == front[i];
      }
      OneMore(front, ms[n]);
    }
  }

  // ---------- the channel ----------

  /** An ID counts its milliseconds in steps of 2^22. */
  const SNOWFLAKE_UNIT: nat := 4194304

  /** A made-up ID for a point in time. */
  function NowSnowflake(now: nat): (id: Bytes)
    ensures Canonical(id)
  {
    ValueOfPrint(now * SNOWFLAKE_UNIT);
    Print(now * SNOWFLAKE_UNIT)
  }

  ghost predicate Sorted(ms: seq<Message>) {
    ValidIds(ms) && forall i, j :: 0 <= i < j < |ms| ==> Num(ms[i].id) <= Num(ms[j].id)
  }

  /** The library's sort, by insertion. */
  function SortById(ms: seq<Message>): seq<Message> {
    if ms == [] then [] else Insert(SortById(ms[..|ms| - 1]), ms[|ms| - 1])
  }

  function Insert(ms: seq<Message>, m: Message): seq<Message> {
    if ms == [] then [m]
    else
      var n := |ms| - 1;
      if IdLess(m.id, ms[n].id) then Insert(ms[..n], m) + [ms[n]] else ms + [m]
  }

  lemma {:induction false} InsertAdds(ms: seq<Message>, m: Message)
    ensures multiset(Insert(ms, m)) == multiset(ms) + multiset{m}
  {
    if ms != [] {
      var n := |ms| - 1;
      InsertAdds(ms[..n], m);
      assert ms == ms[..n] + [ms[n]];
    }
  }

  lemma InsertMembers(ms: seq<Message>, m: Message, x: Message)
    requires x in Insert(ms, m)
    ensures x == m || x in ms
  {
    InsertAdds(ms, m);
    assert x in multiset(Insert(ms, m));
  }

  lemma SortedMore(ms: seq<Message>, m: Message)
    requires Sorted(ms) && Canonical(m.id) && forall i :: 0 <= i < |ms| ==> Num(ms[i].id) <= Num(m.id)
    ensures Sorted(ms + [m])
  {
  }

  lemma {:induction false} InsertSorts(ms: seq<Message>, m: Message)
    requires Sorted(ms) && Canonical(m.id)
    ensures Sorted(Insert(ms, m))
  {
    if ms != [] {
      var n := |ms| - 1;
      LessIsNumeric(m.id, ms[n].id);
      if IdLess(m.id, ms[n].id) {
        InsertSorts(ms[..n], m);
        var front := Insert(ms[..n], m);
        forall i | 0 <= i < |front| ensures Num(front[i].id) <= Num(ms[n].id) {
          InsertMembers(ms[..n], m, front[i]);
        }
        SortedMore(front, ms[n]);
      } else {
        SortedMore(ms, m);
      }
    }
  }

  /** The sort orders by number and rearranges. */
  lemma {:induction false} SortByIdSorts(ms: seq<Message>)
    requires ValidIds(ms)
    ensures Sorted(SortById(ms)) && multiset(SortById(ms)) == multiset(ms)
  {
    if ms != [] {
      var n := |ms| - 1;
      SortByIdSorts(ms[..n]);
      InsertSorts(SortById(ms[..n]), ms[n]);
      InsertAdds(SortById(ms[..n]), ms[n]);
      assert ms == ms[..n] + [ms[n]];
    }
  }

  lemma SameMembers(a: seq<Message>, b: seq<Message>)
    requires multiset(a) == multiset(b)
    ensures forall m :: m in a <==> m in b
  {
    forall m ensures m in a <==> m in b {
      assert m in a <==> m in multiset(a);
      assert m in b <==> m in multiset(b);
    }
  }

  /** Deliver several messages in order. */
  function DeliverAll(f: Feed, ms: seq<Message>, me: string, king: string): Feed {
    if ms == [] then f else Deliver(DeliverAll(f, ms[..|ms| - 1], me, king), ms[|ms| - 1], me, king, true, true)
  }

  /** Everything in ms newer than the cursor and not our own is in the inbox,
      and nothing else was added. */
  ghost predicate Polled(before: Feed, after: Feed, ms: seq<Message>, me: string) {
    && before.inbox <= after.inbox
    && (forall i :: 0 <= i < |ms| && ms[i].author != me && Num(before.last) < Num(ms[i].id) ==>
          ms[i] in after.inbox)
    && (forall k :: |before.inbox| <= k < |after.inbox| ==> after.inbox[k] in ms && after.inbox[k].author != me)
  }

  /** An ID names one message. */
  ghost predicate OneMessagePerId(ms: seq<Message>) {
    forall a, b :: a in ms && b in ms && Num(a.id) == Num(b.id) ==> a == b
  }

  /** How far the poll has come: i messages done, the cursor at the last of them
      or still where it was. */
  ghost predicate PollAt(before: Feed, f: Feed, ms: seq<Message>, i: nat, me: string)
    requires i <= |ms|
  {
    && Polled(before, f, ms[..i], me)
    && (f.last == before.last || (i > 0 && Num(f.last) == Num(ms[i - 1].id)))
    && forall j :: 0 <= j < i ==> Num(ms[j].id) <= Num(f.last)
  }

  lemma PollStep(before: Feed, f: Feed, ms: seq<Message>, i: nat, me: string, king: string)
    requires i < |ms| && Sorted(ms) && OneMessagePerId(ms) && Canonical(f.last) && PollAt(before, f, ms, i, me)
    ensures PollAt(before, Deliver(f, ms[i], me, king, true, true), ms, i + 1, me)
  {
    var m := ms[i];
    var g := Deliver(f, m, me, king, true, true);
    LessIsNumeric(f.last, m.id);
    var done := ms[..i + 1];
    assert done == ms[..i] + [m];
    if !IdLess(f.last, m.id) && f.last != before.last {
      assert ms[i - 1] == m;
      assert ms[..i][i - 1] == m;
    }
    forall j | 0 <= j < i + 1 && done[j].author != me && Num(before.last) < Num(done[j].id)
      ensures done[j] in g.inbox
    {
      if j != i || !IdLess(f.last, m.id) {
        assert ms[..i][if j == i then i - 1 else j] == done[j];
      }
    }
  }

  lemma DeliverOneMore(f: Feed, ms: seq<Message>, i: nat, me: string, king: string)
    requires i < |ms|
    ensures DeliverAll(f, ms[..i + 1], me, king) == Deliver(DeliverAll(f, ms[..i], me, king), ms[i], me, king, true, true)
  {
    assert ms[..i + 1][..i] == ms[..i];
  }

  /** Where a poll stands after i messages. */
  ghost predicate PolledSoFar(f: Feed, g: Feed, ms: seq<Message>, i: nat, me: string, king: string)
    requires i <= |ms|
  {
    PollAt(f, g, ms, i, me) && FeedOk(g, king) && g.last != []
  }

  lemma PolledMore(f: Feed, g: Feed, ms: seq<Message>, i: nat, me: string, king: string)
    requires i < |ms| && Sorted(ms) && OneMessagePerId(ms) && PolledSoFar(f, g, ms, i, me, king)
    ensures PolledSoFar(f, Deliver(g, ms[i], me, king, true, true), ms, i + 1, me, king)
  {
    PollStep(f, g, ms, i, me, king);
    DeliverKeeps(g, ms[i], me, king, true, true);
  }

  lemma {:induction false} PollsAll(f: Feed, ms: seq<Message>, i: nat, me: string, king: string)
    requires FeedOk(f, king) && f.last != [] && Sorted(ms) && OneMessagePerId(ms) && i <= |ms|
    ensures PolledSoFar(f, DeliverAll(f, ms[..i], me, king), ms, i, me, king)
  {
    if i > 0 {
      PollsAll(f, ms, i - 1, me, king);
      PolledMore(f, DeliverAll(f, ms[..i - 1], me, king), ms, i - 1, me, king);
      DeliverOneMore(f, ms, i - 1, me, king);
    }
  }

  /** Whether each of a delivery's two writes would work, and what did. */
  datatype Writes = Writes(appended: bool, saved: bool)

  const WORKED := Writes(true, true)

  /** The delivery returns an error: the message is past the cursor and a write it needs fails. */
  predicate Failed(f: Feed, m: Message, w: Writes, me: string) {
    IdLess(f.last, m.id) && !(w.saved && (m.author == me || w.appended))
  }

  /** Deliver ms from position i on, stopping at the first error. */
  function DeliverUntil(f: Feed, ms: seq<Message>, i: nat, ws: nat -> Writes, me: string, king: string): (Feed, bool)
    decreases |ms| - i
  {
    if i >= |ms| then (f, true)
    else
      var g := Deliver(f, ms[i], me, king, ws(i).appended, ws(i).saved);
      if Failed(f, ms[i], ws(i), me) then (g, false) else DeliverUntil(g, ms, i + 1, ws, me, king)
  }

  /** Both feeds take the same lock, so each delivery is one step. What the writes
      of a call would do is a parameter. */
  class Channel {
    const me: string
    const king: string
    var f: Feed

    constructor (me: string, king: string)
      ensures this.me == me && this.king == king && f == Feed([], [], [])
    {
      this.me, this.king := me, king;
      f := Feed([], [], []);
    }

    method SaveLast(id: Bytes, works: bool) returns (ok: bool)
      modifies this
      ensures ok == works && f == if works then old(f).(last := id) else old(f)
    {
      if works {
        f := f.(last := id);
      }
      ok := works;
    }

    /** Append, apply a command of the king, advance the cursor. */
    method DeliverOne(m: Message, w: Writes) returns (ok: bool)
      modifies this
      ensures f == Deliver(old(f), m, me, king, w.appended, w.saved)
      ensures ok <==> !Failed(old(f), m, w, me)
    {
      if !IdLess(f.last, m.id) {
        return true;
      }
      if m.author != me {
        if !w.appended {
          return false;
        }
        f := f.(inbox := f.inbox + [m]);
        if king != "" && m.author == king {
          f := f.(applied := f.applied + [m]);
        }
      }
      ok := SaveLast(m.id, w.saved);
    }

    /** Deliver the messages of a poll, stopping at the first error. */
    method DeliverEach(ms: seq<Message>, ws: nat -> Writes) returns (ok: bool)
      modifies this
      ensures (f, ok) == DeliverUntil(old(f), ms, 0, ws, me, king)
    {
      for i := 0 to |ms|
        invariant DeliverUntil(old(f), ms, 0, ws, me, king) == DeliverUntil(f, ms, i, ws, me, king)
      {
        ok := DeliverOne(ms[i], ws(i));
        if !ok {
          return;
        }
      }
      ok := true;
    }

    /** One poll of the REST feed: the first only sets the cursor. */
    method Poll(found: seq<Message>, now: nat, ws: nat -> Writes) returns (ok: bool)
      modifies this
      ensures old(f.last) == [] ==>
        ok == ws(0).saved && f == if ok then old(f).(last := FirstCursor(found, now)) else old(f)
      ensures old(f.last) == [] && ok && ValidIds(found) ==> f.last != []
      ensures old(f.last) != [] ==> (f, ok) == DeliverUntil(old(f), SortById(found), 0, ws, me, king)
    {
      var ms := SortById(found);
      if f.last == [] {
        ok := SaveLast(if ms != [] then ms[|ms| - 1].id else NowSnowflake(now), ws(0).saved);
        if ValidIds(found) {
          SortByIdSorts(found);
        }
      } else {
        ok := DeliverEach(ms, ws);
      }
    }

    /** A gateway event; the session loop lets it through only once a poll has
        filled the gap (ready). An error is only logged. */
    method GatewayMessage(m: Message, ready: bool, w: Writes)
      modifies this
      ensures f == if ready then Deliver(old(f), m, me, king, w.appended, w.saved) else old(f)
    {
      if ready {
        var _ := DeliverOne(m, w);
      }
    }
  }

  // ---------- what a poll achieves ----------

  /** The cursor a first poll sets; now is the clock in milliseconds of the IDs' epoch. */
  function FirstCursor(found: seq<Message>, now: nat): Bytes {
    var ms := SortById(found);
    if ms != [] then ms[|ms| - 1].id else NowSnowflake(now)
  }

  /** A delivery without an error is as good as one whose writes both work. */
  lemma NotFailed(f: Feed, m: Message, w: Writes, me: string, king: string)
    requires !Failed(f, m, w, me)
    ensures Deliver(f, m, me, king, w.appended, w.saved) == Deliver(f, m, me, king, true, true)
  {
  }

  /** A poll without an error delivers everything. */
  lemma {:induction false} FinishedDeliversAll(f: Feed, ms: seq<Message>, i: nat, ws: nat -> Writes, me: string, king: string)
    requires i <= |ms| && DeliverUntil(DeliverAll(f, ms[..i], me, king), ms, i, ws, me, king).1
    ensures DeliverUntil(DeliverAll(f, ms[..i], me, king), ms, i, ws, me, king).0 == DeliverAll(f, ms, me, king)
    decreases |ms| - i
  {
    if i == |ms| {
      assert ms[..i] == ms;
    } else {
      NotFailed(DeliverAll(f, ms[..i], me, king), ms[i], ws(i), me, king);
      assert ms[..i + 1][..i] == ms[..i];
      FinishedDeliversAll(f, ms, i + 1, ws, me, king);
    }
  }

  /** A finished poll delivers every newer message of others and nothing else, in order. */
  lemma PollDelivers(f: Feed, found: seq<Message>, ws: nat -> Writes, me: string, king: string)
    requires FeedOk(f, king) && f.last != [] && ValidIds(found) && OneMessagePerId(found)
    requires DeliverUntil(f, SortById(found), 0, ws, me, king).1
    ensures var g := DeliverUntil(f, SortById(found), 0, ws, me, king).0;
      FeedOk(g, king) && Polled(f, g, SortById(found), me)
  {
    var ms := SortById(found);
    SortByIdSorts(found);
    SameMembers(ms, found);
    PollsAll(f, ms, |ms|, me, king);
    assert ms[..|ms|] == ms && ms[..0] == [];
    FinishedDeliversAll(f, ms, 0, ws, me, king);
  }

  /** The deliveries of a poll, as events of a run. */
  lemma {:induction false} PollIsARun(f: Feed, ms: seq<Message>, i: nat, ws: nat -> Writes, me: string, king: string) returns (es: seq<Event>)
    requires i <= |ms|
    ensures DeliverUntil(f, ms, i, ws, me, king).0 == Run(f, es, me, king) && |es| <= |ms| - i
    ensures forall p :: 0 <= p < |es| ==> es[p] == Arrive(ms[i + p], ws(i + p).appended, ws(i + p).saved)
    decreases |ms| - i
  {
    if i == |ms| {
      es := [];
    } else {
      var e, g := Arrive(ms[i], ws(i).appended, ws(i).saved), Deliver(f, ms[i], me, king, ws(i).appended, ws(i).saved);
      var rest := [];
      if !Failed(f, ms[i], ws(i), me) {
        rest := PollIsARun(g, ms, i + 1, ws, me, king);
      }
      es := [e] + rest;
      assert es[1..] == rest;
    }
  }

  /** The first poll starts after everything it found, so history is not replayed. */
  lemma FirstCursorIsNewest(f: Feed, found: seq<Message>, now: nat, king: string)
    requires FeedOk(f, king) && f.last == [] && ValidIds(found)
    ensures FirstCursor(found, now) != [] && FeedOk(f.(last := FirstCursor(found, now)), king)
    ensures forall m :: m in found ==> Num(m.id) <= Num(FirstCursor(found, now))
    ensures found != [] ==> exists m :: m in found && m.id == FirstCursor(found, now)
  {
    SortByIdSorts(found);
    SameMembers(SortById(found), found);
    ValueOfPrint(now * SNOWFLAKE_UNIT);
    if found != [] {
      assert found[0] in SortById(found);
      var m := SortById(found)[|SortById(found)| - 1];
      assert m in found && m.id == FirstCursor(found, now);
    }
  }

  /** A channel found empty loses nothing: after the first poll, the first message
      sent at a later millisecond is past the cursor and the next poll delivers it. */
  lemma FirstMessageIsDelivered(f: Feed, now: nat, found: seq<Message>, m: Message, ws: nat -> Writes, me: string, king: string)
    requires FeedOk(f, king) && f.last == [] && ValidIds(found) && OneMessagePerId(found)
    requires m in found && m.author != me && Num(m.id) >= (now + 1) * SNOWFLAKE_UNIT
    requires DeliverUntil(f.(last := FirstCursor([], now)), SortById(found), 0, ws, me, king).1
    ensures m in DeliverUntil(f.(last := FirstCursor([], now)), SortById(found), 0, ws, me, king).0.inbox
  {
    var f' := f.(last := FirstCursor([], now));
    FirstCursorIsNewest(f, [], now, king);
    ValueOfPrint(now * SNOWFLAKE_UNIT);
    PollDelivers(f', found, ws, me, king);
    SortByIdSorts(found);
    SameMembers(SortById(found), found);
    assert m in SortById(found);
  }

  /** A poll that stops at an append it could not save. */
  predicate StopsUnsaved(f: Feed, ms: seq<Message>, i: nat, ws: nat -> Writes, me: string, king: string)
    decreases |ms| - i
  {
    i < |ms| && if Failed(f, ms[i], ws(i), me) then ms[i].author != me && ws(i).appended
    else StopsUnsaved(Deliver(f, ms[i], me, king, ws(i).appended, ws(i).saved), ms, i + 1, ws, me, king)
  }

  /** A poll keeps the feed in order exactly when it does not stop there. */
  lemma {:induction false} PollKeepsIff(f: Feed, ms: seq<Message>, i: nat, ws: nat -> Writes, me: string, king: string)
    requires FeedOk(f, king) && ValidIds(ms)
    ensures FeedOk(DeliverUntil(f, ms, i, ws, me, king).0, king) <==> !StopsUnsaved(f, ms, i, ws, me, king)
    decreases |ms| - i
  {
    if i < |ms| {
      DeliverKeeps(f, ms[i], me, king, ws(i).appended, ws(i).saved);
      if !Failed(f, ms[i], ws(i), me) {
        PollKeepsIff(Deliver(f, ms[i], me, king, ws(i).appended, ws(i).saved), ms, i + 1, ws, me, king);
      }
    }
  }

  // ---------- paging ----------

  predicate Newer(after: Bytes, id: Bytes) {
    after == [] || IdLess(after, id)
  }

  /** The messages after a cursor, oldest first. */
  function Later(inbox: seq<Message>, after: Bytes): seq<Message> {
    if inbox == [] then []
    else (if Newer(after, inbox[0].id) then [inbox[0]] else []) + Later(inbox[1..], after)
  }

  function Take(ms: seq<Message>, n: nat): seq<Message> {
    if |ms| <= n then ms else ms[..n]
  }

  lemma {:induction false} LaterAppend(a: seq<Message>, b: seq<Message>, after: Bytes)
    ensures Later(a + b, after) == Later(a, after) + Later(b, after)
  {
    if a == [] {
      assert a + b == b;
    } else {
      assert (a + b)[1..] == a[1..] + b;
      LaterAppend(a[1..], b, after);
    }
  }

  lemma {:induction false} LaterAll(ms: seq<Message>, after: Bytes)
    requires forall i :: 0 <= i < |ms| ==> Newer(after, ms[i].id)
    ensures Later(ms, after) == ms
  {
    if ms != [] {
      LaterAll(ms[1..], after);
    }
  }

  lemma {:induction false} LaterNone(ms: seq<Message>, after: Bytes)
    requires forall i :: 0 <= i < |ms| ==> !Newer(after, ms[i].id)
    ensures Later(ms, after) == []
  {
    if ms != [] {
      LaterNone(ms[1..], after);
    }
  }

  /** In an increasing inbox the later messages are a suffix. */
  lemma {:induction false} LaterIsSuffix(inbox: seq<Message>, after: Bytes) returns (k: nat)
    requires Increasing(inbox) && (after == [] || Canonical(after))
    ensures k <= |inbox| && Later(inbox, after) == inbox[k..]
    ensures forall i :: 0 <= i < k ==> !Newer(after, inbox[i].id)
  {
    if inbox == [] {
      k := 0;
    } else if Newer(after, inbox[0].id) {
      k := 0;
      forall i | 0 <= i < |inbox| ensures Newer(after, inbox[i].id) {
        if after != [] {
          LessIsNumeric(after, inbox[0].id);
          LessIsNumeric(after, inbox[i].id);
        }
      }
      LaterAll(inbox, after);
    } else {
      var k' := LaterIsSuffix(inbox[1..], after);
      k := k' + 1;
    }
  }

  ghost predicate AllNewer(cursor: Bytes, ms: seq<Message>) {
    forall i :: 0 <= i < |ms| ==> Newer(cursor, ms[i].id)
  }

  ghost predicate NoneNewer(cursor: Bytes, ms: seq<Message>) {
    forall i :: 0 <= i < |ms| ==> !Newer(cursor, ms[i].id)
  }

  lemma LaterOfParts(inbox: seq<Message>, front: seq<Message>, rest: seq<Message>, cursor: Bytes)
    requires inbox == front + rest && NoneNewer(cursor, front) && AllNewer(cursor, rest)
    ensures Later(inbox, cursor) == rest
  {
    LaterAppend(front, rest, cursor);
    LaterNone(front, cursor);
    LaterAll(rest, cursor);
  }

  lemma NewerThanNth(inbox: seq<Message>, j: nat, i: nat)
    requires Increasing(inbox) && 0 < j <= |inbox| && i < |inbox|
    ensures Newer(inbox[j - 1].id, inbox[i].id) <==> i >= j
  {
    LessIsNumeric(inbox[j - 1].id, inbox[i].id);
  }

  lemma PartsByNth(inbox: seq<Message>, j: nat, cursor: Bytes)
    requires Increasing(inbox) && 0 < j <= |inbox| && cursor == inbox[j - 1].id
    ensures NoneNewer(cursor, inbox[..j]) && AllNewer(cursor, inbox[j..])
  {
    forall i | 0 <= i < j ensures !Newer(cursor, inbox[..j][i].id) {
      NewerThanNth(inbox, j, i);
    }
    forall i | 0 <= i < |inbox| - j ensures Newer(cursor, inbox[j..][i].id) {
      NewerThanNth(inbox, j, j + i);
    }
  }

  lemma LaterThanNth(inbox: seq<Message>, j: nat, cursor: Bytes)
    requires Increasing(inbox) && 0 < j <= |inbox| && cursor == inbox[j - 1].id
    ensures Later(inbox, cursor) == inbox[j..]
  {
    PartsByNth(inbox, j, cursor);
    assert inbox == inbox[..j] + inbox[j..];
    LaterOfParts(inbox, inbox[..j], inbox[j..], cursor);
  }

  /** Moving the cursor to the nth later message leaves the rest. */
  lemma CursorAdvances(inbox: seq<Message>, after: Bytes, n: nat)
    requires Increasing(inbox) && (after == [] || Canonical(after)) && 0 < n <= |Later(inbox, after)|
    ensures Canonical(Later(inbox, after)[n - 1].id)
    ensures Later(inbox, Later(inbox, after)[n - 1].id) == Later(inbox, after)[n..]
  {
    var k := LaterIsSuffix(inbox, after);
    LaterThanNth(inbox, k + n, inbox[k + n - 1].id);
    assert Later(inbox, after)[n - 1] == inbox[k + n - 1];
  }

  /** Read one page: the loop over the inbox file. */
  method ReadInbox(inbox: seq<Message>, after: Bytes) returns (page: seq<Message>)
    ensures page == Take(Later(inbox, after), PAGE)
  {
    page := [];
    for i := 0 to |inbox|
      invariant |page| < PAGE
      invariant Later(inbox, after) == page + Later(inbox[i..], after)
    {
      assert inbox[i..][1..] == inbox[i + 1..];
      if after == [] || IdLess(after, inbox[i].id) {
        page := page + [inbox[i]];
        if |page| == PAGE {
          return;
        }
      }
    }
  }

  /** The inbox as it grows between reads. */
  ghost predicate Growing(views: seq<seq<Message>>) {
    |views| > 0 && (forall v :: 0 <= v < |views| ==> Increasing(views[v]))
    && forall v, w :: 0 <= v < w < |views| ==> views[v] <= views[w]
  }

  /** A cursor is where paging began or the ID of a message past it. */
  ghost predicate CursorOk(inbox: seq<Message>, after: Bytes, cursor: Bytes) {
    cursor == after || exists m :: m in inbox && m.id == cursor && Newer(after, cursor)
  }

  /** all is what paging from after to cursor has collected. */
  ghost predicate Collected(inbox: seq<Message>, after: Bytes, cursor: Bytes, all: seq<Message>) {
    all + Later(inbox, cursor) == Later(inbox, after) && CursorOk(inbox, after, cursor)
  }

  lemma {:induction false} InLater(inbox: seq<Message>, after: Bytes, m: Message)
    requires m in Later(inbox, after)
    ensures m in inbox && Newer(after, m.id)
  {
    if m != inbox[0] || !Newer(after, m.id) {
      InLater(inbox[1..], after, m);
    }
  }

  lemma NewerTransitive(a: Bytes, b: Bytes, c: Bytes)
    requires (a == [] || Canonical(a)) && Canonical(b) && Canonical(c) && Newer(a, b) && IdLess(b, c)
    ensures Newer(a, c)
  {
    if a != [] {
      LessIsNumeric(a, b);
      LessIsNumeric(b, c);
      LessIsNumeric(a, c);
    }
  }

  lemma Regroup(all: seq<Message>, later: seq<Message>, n: nat)
    requires n <= |later|
    ensures (all + later[..n]) + later[n..] == all + later
  {
  }

  lemma CursorMoves(inbox: seq<Message>, after: Bytes, cursor: Bytes, m: Message)
    requires (after == [] || Canonical(after)) && (cursor == [] || Canonical(cursor)) && Canonical(m.id)
    requires CursorOk(inbox, after, cursor) && m in inbox && Newer(cursor, m.id)
    ensures CursorOk(inbox, after, m.id)
  {
    if cursor != after && cursor != [] {
      NewerTransitive(after, cursor, m.id);
    }
  }

  lemma PageCollected(inbox: seq<Message>, after: Bytes, cursor: Bytes, all: seq<Message>, page: seq<Message>)
    requires Increasing(inbox) && (after == [] || Canonical(after)) && (cursor == [] || Canonical(cursor))
    requires Collected(inbox, after, cursor, all) && page != [] && page == Take(Later(inbox, cursor), PAGE)
    ensures Canonical(page[|page| - 1].id) && Collected(inbox, after, page[|page| - 1].id, all + page)
    ensures |Later(inbox, page[|page| - 1].id)| < |Later(inbox, cursor)|
  {
    var later, n := Later(inbox, cursor), |page|;
    var m := page[n - 1];
    CursorAdvances(inbox, cursor, n);
    assert m == later[n - 1];
    Regroup(all, later, n);
    InLater(inbox, cursor, m);
    CursorMoves(inbox, after, cursor, m);
  }

  lemma MoreIsNewer(inbox: seq<Message>, more: seq<Message>, after: Bytes, cursor: Bytes)
    requires Increasing(inbox + more) && (after == [] || Canonical(after)) && CursorOk(inbox, after, cursor) && cursor != after
    ensures Later(more, cursor) == more == Later(more, after)
  {
    var m :| m in inbox && m.id == cursor && Newer(after, cursor);
    var i :| 0 <= i < |inbox| && inbox[i] == m;
    forall j | 0 <= j < |more| ensures Newer(cursor, more[j].id) && Newer(after, more[j].id) {
      assert (inbox + more)[i] == m && (inbox + more)[|inbox| + j] == more[j];
      LessIsNumeric(cursor, more[j].id);
      NewerTransitive(after, cursor, more[j].id);
    }
    LaterAll(more, cursor);
    LaterAll(more, after);
  }

  lemma AppendBoth(all: seq<Message>, a: seq<Message>, b: seq<Message>, c: seq<Message>, d: seq<Message>)
    requires all + a == c && b == d
    ensures all + (a + b) == c + d
  {
    assert all + (a + b) == (all + a) + b;
  }

  lemma CursorOkGrows(inbox: seq<Message>, more: seq<Message>, after: Bytes, cursor: Bytes)
    requires CursorOk(inbox, after, cursor)
    ensures CursorOk(inbox + more, after, cursor)
  {
    if cursor != after {
      var m :| m in inbox && m.id == cursor && Newer(after, cursor);
      assert m in inbox + more;
    }
  }

  /** What has been collected stays right when the inbox grows. */
  lemma CollectedGrows(inbox: seq<Message>, more: seq<Message>, after: Bytes, cursor: Bytes, all: seq<Message>)
    requires Increasing(inbox + more) && (after == [] || Canonical(after)) && Collected(inbox, after, cursor, all)
    ensures Collected(inbox + more, after, cursor, all)
  {
    if cursor != after {
      MoreIsNewer(inbox, more, after, cursor);
    }
    CursorOkGrows(inbox, more, after, cursor);
    LaterAppend(inbox, more, after);
    LaterAppend(inbox, more, cursor);
    AppendBoth(all, Later(inbox, cursor), Later(more, cursor), Later(inbox, after), Later(more, after));
  }

  /** Page until a page is empty, while the inbox may grow before each read.
      Every message after the cursor in the last view comes back once, in order. */
  method FetchAll(views: seq<seq<Message>>, after: Bytes) returns (all: seq<Message>, v: nat)
    requires Growing(views) && (after == [] || Canonical(after))
    ensures v < |views| && all == Later(views[v], after)
  {
    all, v := [], 0;
    var cursor := after;
    while true
      invariant v < |views| && (cursor == [] || Canonical(cursor))
      invariant Collected(views[v], after, cursor, all)
      decreases |views| - v, |Later(views[v], cursor)|
    {
      var page := ReadInbox(views[v], cursor);
      if page == [] {
        assert Later(views[v], cursor) == [];
        return;
      }
      PageCollected(views[v], after, cursor, all, page);
      all := all + page;
      cursor := page[|page| - 1].id;
      if v + 1 < |views| {
        ghost var more := views[v + 1][|views[v]|..];
        assert views[v + 1] == views[v] + more;
        CollectedGrows(views[v], more, after, cursor, all);
        v := v + 1;
      }
    }
  }
}

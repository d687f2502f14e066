/** Gateway sessions: what is posted while the gateway is down must come in
    through one poll of limited size before events are let through again, and an
    event whose delivery fails is not tried again before the next poll. */
module InboxSessions {
  import opened Decimal
  import opened Inbox

  /** The most messages one poll asks for. */
  const LIMIT: nat := 100

  /** One connection to the gateway, over the channel's whole history: how much of
      it the backfill poll sees, from where on events count (the frames after
      READY or RESUMED), how far events come before it ends, and what the writes
      for each backfilled message and each event would do. A poll with the gateway
      down is a session without events. */
  datatype Session = Session(polled: nat, ready: nat, until: nat, backfill: nat -> Writes, events: nat -> Writes)

  /** The poll happens after READY, so it sees everything posted before it. */
  ghost predicate ValidSession(all: seq<Message>, s: Session) {
    s.ready <= s.polled <= |all| && s.ready <= s.until <= |all|
  }

  /** What the server returns: the first messages after the cursor. */
  function Found(all: seq<Message>, polled: nat, cursor: Bytes): seq<Message>
    requires polled <= |all|
  {
    Take(Later(all[..polled], cursor), LIMIT)
  }

  /** Deliver the messages from position a to b, whatever fails. */
  function Tries(f: Feed, all: seq<Message>, a: nat, b: nat, ws: nat -> Writes, me: string, king: string): Feed
    requires a <= b <= |all|
    decreases b
  {
    if a == b then f
    else Deliver(Tries(f, all, a, b - 1, ws, me, king), all[b - 1], me, king, ws(b - 1).appended, ws(b - 1).saved)
  }

  function Backfill(f: Feed, all: seq<Message>, s: Session, me: string, king: string): (Feed, bool)
    requires s.polled <= |all|
  {
    DeliverUntil(f, Found(all, s.polled, f.last), 0, s.backfill, me, king)
  }

  /** A backfill that fails ends the session before any event. */
  function SessionEnd(f: Feed, all: seq<Message>, s: Session, me: string, king: string): Feed
    requires s.ready <= s.until <= |all| && s.polled <= |all|
  {
    var (g, ok) := Backfill(f, all, s, me, king);
    if ok then Tries(g, all, s.ready, s.until, s.events, me, king) else g
  }

  // ---------- where a cursor stands in the history ----------

  /** The cursor stands just before message k of the history. */
  ghost predicate At(all: seq<Message>, cursor: Bytes, k: nat) {
    k <= |all| && forall i :: 0 <= i < |all| ==> (Newer(cursor, all[i].id) <==> i >= k)
  }

  lemma AtFront(all: seq<Message>, cursor: Bytes, k: nat, n: nat)
    requires At(all, cursor, k) && n <= |all|
    ensures Later(all[..n], cursor) == if k <= n then all[k..n] else []
  {
    var c := if k <= n then k else n;
    assert all[..n] == all[..c] + all[c..n];
    assert NoneNewer(cursor, all[..c]) && AllNewer(cursor, all[c..n]);
    LaterOfParts(all[..n], all[..c], all[c..n], cursor);
  }

  lemma CursorStands(all: seq<Message>, cursor: Bytes) returns (k: nat)
    requires Increasing(all) && Canonical(cursor)
    ensures At(all, cursor, k)
  {
    k := LaterIsSuffix(all, cursor);
    forall i | 0 <= i < |all| ensures Newer(cursor, all[i].id) <==> i >= k {
      if i >= k {
        assert all[i] == all[k..][i - k];
        InLater(all, cursor, all[i]);
      }
    }
  }

  /** A cursor at message n - 1 stands before message n. */
  ghost predicate IdAt(all: seq<Message>, n: nat)
    requires 0 < n <= |all|
  {
    all[n - 1].id != [] && At(all, all[n - 1].id, n)
  }

  ghost predicate Ordered(all: seq<Message>) {
    forall n :: 0 < n <= |all| ==> IdAt(all, n)
  }

  lemma IncreasingIsOrdered(all: seq<Message>)
    requires Increasing(all)
    ensures Ordered(all)
  {
    forall n | 0 < n <= |all| ensures IdAt(all, n) {
      forall i | 0 <= i < |all| ensures Newer(all[n - 1].id, all[i].id) <==> i >= n {
        NewerThanNth(all, n, i);
      }
    }
  }

  // ---------- delivering a stretch of the history ----------

  function Max(a: nat, b: nat): nat {
    if a >= b then a else b
  }

  /** The delivery of a message past the cursor moves the cursor. */
  predicate Moves(m: Message, w: Writes, me: string) {
    w.saved && (m.author == me || w.appended)
  }

  /** It puts the message into the inbox. */
  predicate Adds(m: Message, w: Writes, me: string) {
    w.appended && m.author != me
  }

  /** Where a cursor at k stands after the messages from a to b. */
  function Cursor(all: seq<Message>, k: nat, a: nat, b: nat, ws: nat -> Writes, me: string): nat
    requires a <= b <= |all|
    decreases b
  {
    if a == b then k
    else
      var c := Cursor(all, k, a, b - 1, ws, me);
      if b - 1 >= c && Moves(all[b - 1], ws(b - 1), me) then b else c
  }

  lemma {:induction false} CursorBounds(all: seq<Message>, k: nat, a: nat, b: nat, ws: nat -> Writes, me: string)
    requires a <= b <= |all|
    ensures var c := Cursor(all, k, a, b, ws, me); k <= c && (c == k || (Max(a, k) < c <= b && Moves(all[c - 1], ws(c - 1), me)))
    ensures forall i :: Max(a, k) <= i < b && Moves(all[i], ws(i), me) ==> i < Cursor(all, k, a, b, ws, me)
    decreases b
  {
    if a < b {
      CursorBounds(all, k, a, b - 1, ws, me);
    }
  }

  /** Which messages are in the inbox after those from a to b were tried. */
  ghost predicate AddedOnly(f: Feed, g: Feed, all: seq<Message>, k: nat, a: nat, b: nat, ws: nat -> Writes, me: string) {
    forall q :: 0 <= q < |all| ==>
      (all[q] in g.inbox <==> all[q] in f.inbox || (Max(a, k) <= q < b && Adds(all[q], ws(q), me)))
  }

  ghost predicate Stands(all: seq<Message>, g: Feed, c: nat) {
    g.last != [] && At(all, g.last, c)
  }

  lemma TryMoves(all: seq<Message>, g: Feed, c: nat, i: nat, w: Writes, me: string, king: string)
    requires Ordered(all) && i < |all| && Stands(all, g, c)
    ensures Stands(all, Deliver(g, all[i], me, king, w.appended, w.saved), if i >= c && Moves(all[i], w, me) then i + 1 else c)
  {
    assert IdAt(all, i + 1);
    assert Newer(g.last, all[i].id) <==> i >= c;
  }

  lemma TryAdds(all: seq<Message>, g: Feed, c: nat, i: nat, w: Writes, me: string, king: string, q: nat)
    requires Increasing(all) && i < |all| && q < |all| && Stands(all, g, c)
    ensures all[q] in Deliver(g, all[i], me, king, w.appended, w.saved).inbox <==>
      all[q] in g.inbox || (q == i && i >= c && Adds(all[i], w, me))
  {
    assert Newer(g.last, all[i].id) <==> i >= c;
    if q != i {
      Distinct(all, q, i);
    }
  }

  lemma Distinct(all: seq<Message>, i: nat, j: nat)
    requires Increasing(all) && i < |all| && j < |all| && i != j
    ensures all[i] != all[j]
  {
    if i < j {
      assert Num(all[i].id) < Num(all[j].id);
    } else {
      assert Num(all[j].id) < Num(all[i].id);
    }
  }

  lemma {:induction false} TriesStand(f: Feed, all: seq<Message>, k: nat, a: nat, b: nat, ws: nat -> Writes, me: string, king: string)
    requires Ordered(all) && Stands(all, f, k) && a <= b <= |all|
    ensures Stands(all, Tries(f, all, a, b, ws, me, king), Cursor(all, k, a, b, ws, me))
    decreases b
  {
    if a < b {
      TriesStand(f, all, k, a, b - 1, ws, me, king);
      TryMoves(all, Tries(f, all, a, b - 1, ws, me, king), Cursor(all, k, a, b - 1, ws, me), b - 1, ws(b - 1), me, king);
    }
  }

  lemma {:induction false} TriesAdd(f: Feed, all: seq<Message>, k: nat, a: nat, b: nat, ws: nat -> Writes, me: string, king: string, q: nat)
    requires Increasing(all) && Ordered(all) && Stands(all, f, k) && a <= b <= |all| && q < |all|
    ensures all[q] in Tries(f, all, a, b, ws, me, king).inbox <==>
      all[q] in f.inbox || (Max(a, k) <= q < b && Adds(all[q], ws(q), me))
    decreases b
  {
    if a < b {
      var g, c := Tries(f, all, a, b - 1, ws, me, king), Cursor(all, k, a, b - 1, ws, me);
      TriesAdd(f, all, k, a, b - 1, ws, me, king, q);
      TriesStand(f, all, k, a, b - 1, ws, me, king);
      CursorBounds(all, k, a, b - 1, ws, me);
      assert b - 1 >= c <==> b - 1 >= Max(a, k);
      TryAdds(all, g, c, b - 1, ws(b - 1), me, king, q);
    }
  }

  // ---------- what is lost ----------

  /** No message of others, from message b of the history up to the cursor, is missing. */
  ghost predicate NothingLost(f: Feed, all: seq<Message>, b: nat, me: string) {
    forall i :: b <= i < |all| && !Newer(f.last, all[i].id) && all[i].author != me ==> all[i] in f.inbox
  }

  ghost predicate HasUpTo(f: Feed, all: seq<Message>, b: nat, c: nat, me: string)
    requires c <= |all|
  {
    forall i :: b <= i < c && all[i].author != me ==> all[i] in f.inbox
  }

  lemma NothingLostIs(f: Feed, all: seq<Message>, b: nat, c: nat, me: string)
    requires Stands(all, f, c)
    ensures NothingLost(f, all, b, me) <==> HasUpTo(f, all, b, c, me)
  {
    if NothingLost(f, all, b, me) {
      forall i | b <= i < c && all[i].author != me ensures all[i] in f.inbox {
        assert !Newer(f.last, all[i].id);
      }
    }
  }

  /** Whatever of others a delivery moves the cursor over is in the inbox already
      or was appended on the way. */
  ghost predicate Covered(f: Feed, all: seq<Message>, k: nat, a: nat, b: nat, ws: nat -> Writes, me: string)
    requires a <= b <= |all|
  {
    forall q, i :: k <= q < i && a <= i < b && Moves(all[i], ws(i), me) && all[q].author != me ==>
      all[q] in f.inbox || (a <= q && ws(q).appended)
  }

  /** Trying a stretch loses nothing exactly when no saved delivery passes over a
      message that is not there. */
  lemma TriesLoseNothingIff(f: Feed, all: seq<Message>, k: nat, a: nat, b: nat, ws: nat -> Writes, base: nat, me: string, king: string)
    requires Increasing(all) && Ordered(all) && Stands(all, f, k) && base <= k && a <= b <= |all|
    ensures NothingLost(Tries(f, all, a, b, ws, me, king), all, base, me) <==>
      NothingLost(f, all, base, me) && Covered(f, all, k, a, b, ws, me)
  {
    var g, c := Tries(f, all, a, b, ws, me, king), Cursor(all, k, a, b, ws, me);
    TriesStand(f, all, k, a, b, ws, me, king);
    CursorBounds(all, k, a, b, ws, me);
    NothingLostIs(f, all, base, k, me);
    NothingLostIs(g, all, base, c, me);
    forall q | 0 <= q < |all|
      ensures all[q] in g.inbox <==> all[q] in f.inbox || (Max(a, k) <= q < b && Adds(all[q], ws(q), me))
    {
      TriesAdd(f, all, k, a, b, ws, me, king, q);
    }
    assert AddedOnly(f, g, all, k, a, b, ws, me);
    if HasUpTo(g, all, base, c, me) {
      LostIfNot(f, g, all, k, a, b, c, ws, base, me);
    }
    if HasUpTo(f, all, base, k, me) && Covered(f, all, k, a, b, ws, me) {
      KeptIf(f, g, all, k, a, b, c, ws, base, me);
    }
  }

  lemma LostIfNot(f: Feed, g: Feed, all: seq<Message>, k: nat, a: nat, b: nat, c: nat, ws: nat -> Writes, base: nat, me: string)
    requires base <= k <= c <= |all| && a <= b <= |all| && AddedOnly(f, g, all, k, a, b, ws, me) && HasUpTo(g, all, base, c, me)
    requires forall i :: Max(a, k) <= i < b && Moves(all[i], ws(i), me) ==> i < c
    ensures HasUpTo(f, all, base, k, me) && Covered(f, all, k, a, b, ws, me)
  {
    forall q | base <= q < k && all[q].author != me ensures all[q] in f.inbox {
      assert all[q] in g.inbox;
    }
    forall q, i | k <= q < i && a <= i < b && Moves(all[i], ws(i), me) && all[q].author != me
      ensures all[q] in f.inbox || (a <= q && ws(q).appended)
    {
      assert i < c;
      assert all[q] in g.inbox;
    }
  }

  lemma KeptIf(f: Feed, g: Feed, all: seq<Message>, k: nat, a: nat, b: nat, c: nat, ws: nat -> Writes, base: nat, me: string)
    requires base <= k <= c <= |all| && a <= b <= |all| && AddedOnly(f, g, all, k, a, b, ws, me)
    requires c == k || (Max(a, k) < c <= b && Moves(all[c - 1], ws(c - 1), me))
    requires HasUpTo(f, all, base, k, me) && Covered(f, all, k, a, b, ws, me)
    ensures HasUpTo(g, all, base, c, me)
  {
    forall q | base <= q < c && all[q].author != me ensures all[q] in g.inbox {
      if k <= q < c - 1 {
        assert Moves(all[c - 1], ws(c - 1), me);
        assert all[q] in f.inbox || (a <= q && ws(q).appended);
      }
    }
  }

  // ---------- the backfill ----------

  /** Where a backfill without errors leaves a cursor that stood at k. */
  function Backfilled(k: nat, polled: nat): nat {
    if k > polled then k else if k + LIMIT <= polled then k + LIMIT else polled
  }

  lemma FoundIs(all: seq<Message>, polled: nat, cursor: Bytes, k: nat)
    requires polled <= |all| && At(all, cursor, k)
    ensures k <= Backfilled(k, polled) <= |all| && Found(all, polled, cursor) == all[k..Backfilled(k, polled)]
  {
    AtFront(all, cursor, k, polled);
  }

  /** From message i to j the backfill went as far as x: nothing it passed is
      missing, and it touched nothing else. */
  ghost predicate WentTo(f: Feed, g: Feed, all: seq<Message>, i: nat, x: nat, j: nat, me: string) {
    && i <= x <= j <= |all| && Stands(all, g, x) && HasUpTo(g, all, i, x, me)
    && forall q :: 0 <= q < |all| ==>
         (all[q] in f.inbox ==> all[q] in g.inbox) && (q < i || q >= j ==> (all[q] in g.inbox <==> all[q] in f.inbox))
  }

  lemma WentOneMore(f: Feed, f1: Feed, g: Feed, all: seq<Message>, i: nat, x: nat, j: nat, me: string)
    requires WentTo(f1, g, all, i + 1, x, j, me)
    requires i < |all| && forall q :: 0 <= q < |all| ==> (all[q] in f.inbox ==> all[q] in f1.inbox) && (q != i ==> (all[q] in f1.inbox <==> all[q] in f.inbox))
    requires all[i].author != me ==> all[i] in f1.inbox
    ensures WentTo(f, g, all, i, x, j, me)
  {
  }

  lemma {:induction false} BackfillGoes(f: Feed, all: seq<Message>, found: seq<Message>, k: nat, j: nat, p: nat, ws: nat -> Writes, me: string, king: string)
    returns (x: nat)
    requires Increasing(all) && Ordered(all) && k + p <= j <= |all| && found == all[k..j] && Stands(all, f, k + p)
    ensures var (g, ok) := DeliverUntil(f, found, p, ws, me, king); WentTo(f, g, all, k + p, x, j, me) && (ok ==> x == j)
    decreases j - k - p
  {
    var i := k + p;
    if i == j {
      x := i;
    } else {
      assert found[p] == all[i];
      var f1 := Deliver(f, all[i], me, king, ws(p).appended, ws(p).saved);
      TryMoves(all, f, i, i, ws(p), me, king);
      forall q | 0 <= q < |all| ensures all[q] in f1.inbox <==> all[q] in f.inbox || (q == i && Adds(all[i], ws(p), me)) {
        TryAdds(all, f, i, i, ws(p), me, king, q);
      }
      assert Newer(f.last, all[i].id);
      if Failed(f, all[i], ws(p), me) {
        x := i;
      } else {
        x := BackfillGoes(f1, all, found, k, j, p + 1, ws, me, king);
        var g := DeliverUntil(f1, found, p + 1, ws, me, king).0;
        WentOneMore(f, f1, g, all, i, x, j, me);
      }
    }
  }

  /** A backfill loses nothing, wherever it stops. */
  lemma BackfillFacts(f: Feed, all: seq<Message>, s: Session, k: nat, me: string, king: string) returns (x: nat)
    requires Increasing(all) && Ordered(all) && Stands(all, f, k) && ValidSession(all, s)
    ensures var (g, ok) := Backfill(f, all, s, me, king);
      WentTo(f, g, all, k, x, Backfilled(k, s.polled), me) && (ok ==> x == Backfilled(k, s.polled))
  {
    FoundIs(all, s.polled, f.last, k);
    x := BackfillGoes(f, all, Found(all, s.polled, f.last), k, Backfilled(k, s.polled), 0, s.backfill, me, king);
  }

  lemma BackfillLosesNothing(f: Feed, g: Feed, all: seq<Message>, k: nat, x: nat, j: nat, base: nat, me: string)
    requires Stands(all, f, k) && WentTo(f, g, all, k, x, j, me) && base <= k
    ensures NothingLost(g, all, base, me) <==> NothingLost(f, all, base, me)
  {
    NothingLostIs(f, all, base, k, me);
    NothingLostIs(g, all, base, x, me);
    if HasUpTo(g, all, base, x, me) {
      forall q | base <= q < k && all[q].author != me ensures all[q] in f.inbox {
        assert all[q] in g.inbox;
      }
    }
  }

  // ---------- one session ----------

  /** What was posted after the cursor and before READY, past the first LIMIT
      messages, is our own or already there; or no event moves the cursor. */
  ghost predicate GapFits(f: Feed, all: seq<Message>, s: Session, me: string)
    requires ValidSession(all, s)
  {
    (exists i :: s.ready <= i < s.until && Moves(all[i], s.events(i), me)) ==>
      var gap := Later(all[..s.ready], f.last);
      forall p :: LIMIT <= p < |gap| ==> gap[p].author == me || gap[p] in f.inbox
  }

  /** No event of others past the backfilled cursor whose append fails is followed
      by one that moves the cursor. */
  ghost predicate EventsFit(f: Feed, all: seq<Message>, s: Session, me: string, king: string)
    requires ValidSession(all, s)
  {
    forall q, i :: s.ready <= q < i < s.until && Moves(all[i], s.events(i), me) ==>
      PassedSafely(f, Backfill(f, all, s, me, king).0.last, all[q], s.events(q), me)
  }

  /** Passing over m loses nothing: the cursor is past it, it is our own, already
      there, or appended. */
  ghost predicate PassedSafely(f: Feed, cursor: Bytes, m: Message, w: Writes, me: string) {
    !Newer(cursor, m.id) || m.author == me || m in f.inbox || w.appended
  }

  ghost predicate Fits(f: Feed, all: seq<Message>, s: Session, me: string, king: string)
    requires ValidSession(all, s)
  {
    Backfill(f, all, s, me, king).1 ==> GapFits(f, all, s, me) && EventsFit(f, all, s, me, king)
  }

  lemma GapAt(f: Feed, all: seq<Message>, s: Session, k: nat, me: string)
    requires At(all, f.last, k) && ValidSession(all, s)
    ensures GapFits(f, all, s, me) <==>
      forall q, i :: k + LIMIT <= q < s.ready <= i < s.until && Moves(all[i], s.events(i), me) ==> all[q].author == me || all[q] in f.inbox
  {
    AtFront(all, f.last, k, s.ready);
    var gap := Later(all[..s.ready], f.last);
    assert forall p :: 0 <= p < |gap| ==> gap[p] == all[k + p];
    if GapFits(f, all, s, me) {
      forall q, i | k + LIMIT <= q < s.ready <= i < s.until && Moves(all[i], s.events(i), me) ensures all[q].author == me || all[q] in f.inbox {
        assert gap[q - k] == all[q];
      }
    }
  }

  /** The two conditions together are the one about the stretch of events. */
  lemma FitsIsCovered(f: Feed, g: Feed, all: seq<Message>, s: Session, k: nat, me: string, king: string)
    requires Stands(all, f, k) && ValidSession(all, s) && g == Backfill(f, all, s, me, king).0
    requires WentTo(f, g, all, k, Backfilled(k, s.polled), Backfilled(k, s.polled), me)
    ensures GapFits(f, all, s, me) && EventsFit(f, all, s, me, king) <==>
      Covered(g, all, Backfilled(k, s.polled), s.ready, s.until, s.events, me)
  {
    var j := Backfilled(k, s.polled);
    GapAt(f, all, s, k, me);
    if Covered(g, all, j, s.ready, s.until, s.events, me) {
      forall q, i | k + LIMIT <= q < s.ready <= i < s.until && Moves(all[i], s.events(i), me) ensures all[q].author == me || all[q] in f.inbox {
        assert j <= q;
      }
      forall q, i | s.ready <= q < i < s.until && Moves(all[i], s.events(i), me)
        ensures PassedSafely(f, g.last, all[q], s.events(q), me)
      {
        if Newer(g.last, all[q].id) {
          assert j <= q;
        }
      }
    }
    if GapFits(f, all, s, me) && EventsFit(f, all, s, me, king) {
      forall q, i | j <= q < i && s.ready <= i < s.until && Moves(all[i], s.events(i), me) && all[q].author != me
        ensures all[q] in g.inbox || (s.ready <= q && s.events(q).appended)
      {
        if q >= s.ready {
          assert PassedSafely(f, g.last, all[q], s.events(q), me) && Newer(g.last, all[q].id);
        } else {
          assert k + LIMIT <= q;
        }
      }
    }
  }

  /** A session loses nothing exactly when its gap fits into one poll and no
      failed event is passed over. */
  lemma SessionLosesNothingIff(f: Feed, all: seq<Message>, s: Session, base: nat, me: string, king: string)
    requires Increasing(all) && Canonical(f.last) && ValidSession(all, s)
    requires forall i :: 0 <= i < base && i < |all| ==> !Newer(f.last, all[i].id)
    requires base <= |all|
    ensures NothingLost(SessionEnd(f, all, s, me, king), all, base, me) <==> NothingLost(f, all, base, me) && Fits(f, all, s, me, king)
  {
    IncreasingIsOrdered(all);
    var k := CursorStands(all, f.last);
    BaseIsBefore(all, f.last, k, base);
    var x := BackfillFacts(f, all, s, k, me, king);
    var (g, ok) := Backfill(f, all, s, me, king);
    BackfillLosesNothing(f, g, all, k, x, Backfilled(k, s.polled), base, me);
    if ok {
      FitsIsCovered(f, g, all, s, k, me, king);
      TriesLoseNothingIff(g, all, Backfilled(k, s.polled), s.ready, s.until, s.events, base, me, king);
    }
  }

  lemma BaseIsBefore(all: seq<Message>, cursor: Bytes, k: nat, base: nat)
    requires At(all, cursor, k) && base <= |all| && forall i :: 0 <= i < base ==> !Newer(cursor, all[i].id)
    ensures base <= k
  {
    assert k < |all| ==> Newer(cursor, all[k].id);
  }

  // ---------- any number of sessions ----------

  /** A session leaves a proper cursor, at or past where it stood. */
  lemma SessionStands(f: Feed, all: seq<Message>, s: Session, k: nat, me: string, king: string) returns (c: nat)
    requires Increasing(all) && Stands(all, f, k) && ValidSession(all, s)
    ensures k <= c && Stands(all, SessionEnd(f, all, s, me, king), c)
  {
    IncreasingIsOrdered(all);
    c := BackfillFacts(f, all, s, k, me, king);
    var (g, ok) := Backfill(f, all, s, me, king);
    if ok {
      TriesStand(g, all, c, s.ready, s.until, s.events, me, king);
      CursorBounds(all, c, s.ready, s.until, s.events, me);
      c := Cursor(all, c, s.ready, s.until, s.events, me);
    }
  }

  /** Delivery only ever sets the cursor to a message's ID. */
  lemma {:induction false} UntilCanonical(f: Feed, ms: seq<Message>, i: nat, ws: nat -> Writes, me: string, king: string)
    requires Canonical(f.last) && ValidIds(ms)
    ensures Canonical(DeliverUntil(f, ms, i, ws, me, king).0.last)
    decreases |ms| - i
  {
    if i < |ms| && !Failed(f, ms[i], ws(i), me) {
      UntilCanonical(Deliver(f, ms[i], me, king, ws(i).appended, ws(i).saved), ms, i + 1, ws, me, king);
    }
  }

  lemma {:induction false} TriesCanonical(f: Feed, all: seq<Message>, a: nat, b: nat, ws: nat -> Writes, me: string, king: string)
    requires Canonical(f.last) && ValidIds(all) && a <= b <= |all|
    ensures Canonical(Tries(f, all, a, b, ws, me, king).last)
    decreases b
  {
    if a < b {
      TriesCanonical(f, all, a, b - 1, ws, me, king);
    }
  }

  lemma SessionCanonical(f: Feed, all: seq<Message>, s: Session, me: string, king: string)
    requires Increasing(all) && Canonical(f.last) && ValidSession(all, s)
    ensures Canonical(SessionEnd(f, all, s, me, king).last)
  {
    var k := CursorStands(all, f.last);
    FoundIs(all, s.polled, f.last, k);
    var found := Found(all, s.polled, f.last);
    assert forall p :: 0 <= p < |found| ==> found[p] == all[k + p];
    UntilCanonical(f, found, 0, s.backfill, me, king);
    TriesCanonical(Backfill(f, all, s, me, king).0, all, s.ready, s.until, s.events, me, king);
  }

  ghost predicate ValidSessions(all: seq<Message>, ss: seq<Session>) {
    forall i :: 0 <= i < |ss| ==> ValidSession(all, ss[i])
  }

  function AfterAll(f: Feed, all: seq<Message>, ss: seq<Session>, me: string, king: string): Feed
    requires forall i :: 0 <= i < |ss| ==> ss[i].ready <= ss[i].until <= |all| && ss[i].polled <= |all|
    decreases |ss|
  {
    if ss == [] then f else AfterAll(SessionEnd(f, all, ss[0], me, king), all, ss[1..], me, king)
  }

  ghost predicate AllFit(f: Feed, all: seq<Message>, ss: seq<Session>, me: string, king: string)
    requires ValidSessions(all, ss)
    decreases |ss|
  {
    ss == [] || (Fits(f, all, ss[0], me, king) && AllFit(SessionEnd(f, all, ss[0], me, king), all, ss[1..], me, king))
  }

  /** Over any number of sessions and polls, with any of their writes failing, no
      message of others up to the cursor is missing exactly when every gap fitted
      into its one poll and no failed event was passed over. */
  lemma {:induction false} SessionsLoseNothingIff(f: Feed, all: seq<Message>, ss: seq<Session>, base: nat, me: string, king: string)
    requires Increasing(all) && Canonical(f.last) && ValidSessions(all, ss) && base <= |all|
    requires forall i :: 0 <= i < base ==> !Newer(f.last, all[i].id)
    ensures NothingLost(AfterAll(f, all, ss, me, king), all, base, me) <==> NothingLost(f, all, base, me) && AllFit(f, all, ss, me, king)
    decreases |ss|
  {
    if ss != [] {
      var g := SessionEnd(f, all, ss[0], me, king);
      SessionLosesNothingIff(f, all, ss[0], base, me, king);
      SessionCanonical(f, all, ss[0], me, king);
      var k := CursorStands(all, f.last);
      BaseIsBefore(all, f.last, k, base);
      var c := SessionStands(f, all, ss[0], k, me, king);
      SessionsLoseNothingIff(g, all, ss[1..], base, me, king);
    }
  }

  /** A gap of at most LIMIT messages fits, and working appends pass over nothing. */
  lemma SmallGapFits(f: Feed, all: seq<Message>, s: Session, me: string, king: string)
    requires ValidSession(all, s) && |Later(all[..s.ready], f.last)| <= LIMIT
    requires forall i :: s.ready <= i < s.until ==> s.events(i).appended
    ensures Fits(f, all, s, me, king)
  {
  }

  /** n messages of somebody else, numbered from 1. */
  function Posts(n: nat): seq<Message> {
    seq(n, i requires 0 <= i < n => Message(Print(i + 1), "other", ""))
  }

  lemma PostsIncrease(n: nat)
    ensures Increasing(Posts(n)) && forall i :: 0 <= i < n ==> Num(Posts(n)[i].id) == i + 1
  {
    forall i | 0 <= i < n ensures Canonical(Posts(n)[i].id) && Num(Posts(n)[i].id) == i + 1 {
      ValueOfPrint(i + 1);
    }
  }

  lemma BeforeAllPosts(n: nat)
    ensures At(Posts(n), Print(0), 0)
  {
    PostsIncrease(n);
    ValueOfPrint(0);
    forall i | 0 <= i < n ensures Newer(Print(0), Posts(n)[i].id) {
      LessIsNumeric(Print(0), Posts(n)[i].id);
    }
  }

  /** A gap of n messages of others, more than one poll returns, loses some as
      soon as an event follows. */
  lemma LongGapLosesMessages(n: nat, f: Feed, all: seq<Message>, s: Session)
    requires n > LIMIT && all == Posts(n + 1) && f == Feed([], Print(0), []) && s == Session(n, n, n + 1, i => WORKED, i => WORKED)
    ensures Increasing(all) && ValidSession(all, s) && FeedOk(f, "king") && NothingLost(f, all, 0, "me")
    ensures !NothingLost(SessionEnd(f, all, s, "me", "king"), all, 0, "me")
  {
    PostsIncrease(n + 1);
    BeforeAllPosts(n + 1);
    ValueOfPrint(0);
    GapOverflows(f, all, s, 0, LIMIT, n, "me");
    AllWorkedFinishes(f, all, s);
    SessionLosesNothingIff(f, all, s, 0, "me", "king");
  }

  lemma GapOverflows(f: Feed, all: seq<Message>, s: Session, k: nat, q: nat, i: nat, me: string)
    requires At(all, f.last, k) && ValidSession(all, s) && k + LIMIT <= q < s.ready <= i < s.until && Moves(all[i], s.events(i), me)
    requires all[q].author != me && all[q] !in f.inbox
    ensures !GapFits(f, all, s, me)
  {
    GapAt(f, all, s, k, me);
  }

  lemma {:induction false} WorkingNeverStops(f: Feed, ms: seq<Message>, i: nat, ws: nat -> Writes, me: string, king: string)
    requires forall p :: ws(p) == WORKED
    ensures DeliverUntil(f, ms, i, ws, me, king).1
    decreases |ms| - i
  {
    if i < |ms| {
      WorkingNeverStops(Deliver(f, ms[i], me, king, true, true), ms, i + 1, ws, me, king);
    }
  }

  lemma AllWorkedFinishes(f: Feed, all: seq<Message>, s: Session)
    requires s.polled <= |all| && forall p :: s.backfill(p) == WORKED
    ensures Backfill(f, all, s, "me", "king").1
  {
    WorkingNeverStops(f, Found(all, s.polled, f.last), 0, s.backfill, "me", "king");
  }

  /** With no gap at all, an event whose append fails is lost once the next one is saved. */
  lemma FailedEventLosesAMessage(f: Feed, all: seq<Message>, s: Session)
    requires all == Posts(2) && f == Feed([], Print(0), [])
    requires s == Session(0, 0, 2, i => WORKED, i => if i == 0 then Writes(false, true) else WORKED)
    ensures Increasing(all) && ValidSession(all, s) && FeedOk(f, "king") && NothingLost(f, all, 0, "me") && GapFits(f, all, s, "me")
    ensures !NothingLost(SessionEnd(f, all, s, "me", "king"), all, 0, "me")
  {
    PostsIncrease(2);
    BeforeAllPosts(2);
    ValueOfPrint(0);
    GapAt(f, all, s, 0, "me");
    FoundIs(all, 0, f.last, 0);
    assert Backfill(f, all, s, "me", "king") == (f, true);
    assert Moves(all[1], s.events(1), "me") && all[0].author != "me" && Newer(f.last, all[0].id);
    assert !PassedSafely(f, f.last, all[0], s.events(0), "me");
    SessionLosesNothingIff(f, all, s, 0, "me", "king");
  }

  // ---------- the session loop ----------

  lemma NewestGoesLast(ms: seq<Message>, n: nat)
    requires Increasing(ms) && n < |ms|
    ensures Insert(ms[..n], ms[n]) == ms[..n] + [ms[n]]
  {
    if n > 0 {
      assert Num(ms[n - 1].id) < Num(ms[n].id);
      LessIsNumeric(ms[n].id, ms[n - 1].id);
    }
  }

  lemma {:induction false} SortOfIncreasing(ms: seq<Message>)
    requires Increasing(ms)
    ensures SortById(ms) == ms
  {
    if ms != [] {
      var n := |ms| - 1;
      SortOfIncreasing(ms[..n]);
      NewestGoesLast(ms, n);
      assert ms == ms[..n] + [ms[n]];
    }
  }

  lemma SlicePoll(all: seq<Message>, a: nat, b: nat)
    requires Increasing(all) && a <= b <= |all|
    ensures SortById(all[a..b]) == all[a..b]
  {
    var ms := all[a..b];
    assert forall i :: 0 <= i < |ms| ==> ms[i] == all[a + i];
    assert Increasing(ms);
    SortOfIncreasing(ms);
  }

  /** The frames from a to b, with the ready flag as it stands. */
  method Frames(c: Channel, all: seq<Message>, a: nat, b: nat, ready: bool, ws: nat -> Writes)
    requires a <= b <= |all|
    modifies c
    ensures c.f == if ready then Tries(old(c.f), all, a, b, ws, c.me, c.king) else old(c.f)
  {
    for i := a to b
      invariant c.f == if ready then Tries(old(c.f), all, a, i, ws, c.me, c.king) else old(c.f)
    {
      c.GatewayMessage(all[i], ready, ws(i));
    }
  }

  /** One session: frames from start on arrive, the ones before READY are
      dropped, then the poll, then, unless it failed, the rest are delivered. */
  method RunSession(c: Channel, all: seq<Message>, start: nat, s: Session, now: nat)
    requires Canonical(c.f.last) && Increasing(all) && ValidSession(all, s) && start <= s.ready
    modifies c
    ensures c.f == SessionEnd(old(c.f), all, s, c.me, c.king)
  {
    var ready := false;
    Frames(c, all, start, s.ready, ready, s.events);
    ghost var k := CursorStands(all, c.f.last);
    FoundIs(all, s.polled, c.f.last, k);
    SlicePoll(all, k, Backfilled(k, s.polled));
    ready := c.Poll(Found(all, s.polled, c.f.last), now, s.backfill);
    if ready {
      Frames(c, all, s.ready, s.until, ready, s.events);
    }
  }
}

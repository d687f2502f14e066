/** Two buffers that keep the last max bytes written: the maker's, which
    appends and reslices, and the witness's, which is a ring. */
module TailBuffer {
  import opened Decimal

  /** The last max bytes of s. */
  function Tail(max: nat, s: Bytes): Bytes {
    if |s| <= max then s else s[|s| - max..]
  }

  function Concat(writes: seq<Bytes>): Bytes {
    if writes == [] then [] else Concat(writes[..|writes| - 1]) + writes[|writes| - 1]
  }

  lemma ConcatMore(writes: seq<Bytes>, i: nat)
    requires i < |writes|
    ensures Concat(writes[..i + 1]) == Concat(writes[..i]) + writes[i]
  {
    assert writes[..i + 1][..i] == writes[..i];
  }

  lemma TailOfTail(max: nat, a: Bytes, b: Bytes)
    ensures Tail(max, Tail(max, a) + b) == Tail(max, a + b)
  {
  }

  /** Forgetting early is harmless: cutting after every write keeps what one
      cut at the end would. */
  function CutEachTime(max: nat, writes: seq<Bytes>): Bytes {
    if writes == [] then []
    else Tail(max, CutEachTime(max, writes[..|writes| - 1]) + writes[|writes| - 1])
  }

  lemma {:induction false} CutEachTimeIsTail(max: nat, writes: seq<Bytes>)
    ensures CutEachTime(max, writes) == Tail(max, Concat(writes))
  {
    if writes != [] {
      var n := |writes| - 1;
      CutEachTimeIsTail(max, writes[..n]);
      TailOfTail(max, Concat(writes[..n]), writes[n]);
    }
  }

  /** The maker's buffer. */
  class SimpleTail {
    const max: nat
    var buf: Bytes
    ghost var written: Bytes

    ghost predicate Valid()
      reads this
    {
      buf == Tail(max, written)
    }

    constructor (max: nat)
      ensures Valid() && this.max == max && written == []
    {
      this.max := max;
      buf, written := [], [];
    }

    method Write(p: Bytes) returns (n: nat)
      requires Valid()
      modifies this
      ensures Valid() && n == |p| && written == old(written) + p
      ensures buf == Tail(max, old(buf) + p)
    {
      TailOfTail(max, written, p);
      buf := buf + p;
      if |buf| > max {
        buf := buf[|buf| - max..];
      }
      written := written + p;
      n := |p|;
    }
  }

  // ---------- the ring ----------

  /** The bytes a ring holds, oldest first. */
  function Unrolled(buf: Bytes, start: nat): Bytes
    requires start <= |buf|
  {
    buf[start..] + buf[..start]
  }

  lemma DropFront(m: Bytes, z: Bytes)
    ensures (m + z)[|m|..] == z
  {
  }

  lemma UnrolledAt(a: Bytes, z: Bytes)
    ensures Unrolled(a + z, |a|) == z + a
  {
    assert (a + z)[|a|..] == z && (a + z)[..|a|] == a;
  }

  /** Overwriting the oldest bytes drops them and adds the new ones at the end.
      Here a, m and z are what lies before, under and after the write. */
  lemma Overwrite(a: Bytes, m: Bytes, z: Bytes, q: Bytes)
    requires |q| == |m|
    ensures Unrolled(a + m + z, |a|)[|q|..] + q == z + a + q
    ensures Unrolled(a + q + z, |a + q|) == z + a + q
    ensures z == [] ==> Unrolled(a + q + z, 0) == z + a + q
  {
    assert a + m + z == a + (m + z);
    UnrolledAt(a, m + z);
    assert m + z + a == m + (z + a);
    DropFront(m, z + a);
    UnrolledAt(a + q, z);
    assert z + (a + q) == z + a + q;
    if z == [] {
      assert a + q + z == a + q && z + a == a;
    }
  }

  /** Sliding a full window. */
  lemma Slide(max: nat, w: Bytes, q: Bytes)
    requires |w| >= max >= |q|
    ensures Tail(max, w + q) == Tail(max, w)[|q|..] + q
  {
  }

  lemma Replace(max: nat, w: Bytes, p: Bytes)
    requires |p| >= max
    ensures Tail(max, w + p) == p[|p| - max..]
  {
  }

  lemma Regroup(done: Bytes, rest: Bytes, c: nat)
    requires c <= |rest|
    ensures (done + rest[..c]) + rest[c..] == done + rest && |rest[c..]| == |rest| - c
  {
    assert rest[..c] + rest[c..] == rest;
  }

  const TRUNCATED: Bytes := [91, 116, 114, 117, 110, 99, 97, 116, 101, 100, 93, 10] // "[truncated]\n"

  class RingTail {
    const max: nat
    var buf: Bytes
    var start: nat
    var dropped: bool
    ghost var written: Bytes

    /** The ring holds exactly the last max bytes of w, and knows whether any
        byte of w was lost. */
    ghost predicate Holds(w: Bytes)
      reads this
    {
      && start <= |buf| <= max
      && (start == 0 || start < |buf| == max)
      && Unrolled(buf, start) == Tail(max, w)
      && (dropped <==> |w| > max)
    }

    ghost predicate Valid()
      reads this
    {
      Holds(written)
    }

    constructor (max: nat)
      ensures Valid() && this.max == max && written == []
    {
      this.max := max;
      buf, start, dropped, written := [], 0, false, [];
    }

    method Write(p: Bytes) returns (n: nat)
      requires Valid()
      modifies this
      ensures Valid() && n == |p| && written == old(written) + p
    {
      n := |p|;
      if |p| >= max {
        Overflow(p, written);
      } else {
        Absorb(p, written);
      }
      written := written + p;
    }

    /** A write at least as long as the ring replaces everything. */
    method Overflow(p: Bytes, ghost w: Bytes)
      requires Holds(w) && |p| >= max
      modifies `buf, `start, `dropped
      ensures Holds(w + p)
    {
      Replace(max, w, p);
      if |p| > max || |buf| > 0 {
        dropped := true;
      }
      buf := p[|p| - max..];
      start := 0;
      assert Unrolled(buf, start) == buf;
    }

    /** A shorter write: fill the room there is, then overwrite. */
    method Absorb(p: Bytes, ghost w: Bytes)
      requires Holds(w) && |p| < max
      modifies `buf, `start, `dropped
      ensures Holds(w + p)
    {
      if |buf| < max {
        var take := if max - |buf| < |p| then max - |buf| else |p|;
        assert buf == w;
        buf := buf + p[..take];
        assert w + p == buf + p[take..];
        Fill(p[take..], buf);
      } else {
        Fill(p, w);
      }
    }

    /** The ring is full (or nothing is left to write): overwrite the oldest bytes. */
    method Fill(p: Bytes, ghost w: Bytes)
      requires Holds(w) && |p| < max && (p != [] ==> |buf| == max)
      modifies `buf, `start, `dropped
      ensures Holds(w + p)
    {
      var rest := p;
      ghost var done := w;
      while |rest| > 0
        invariant w + p == done + rest && |rest| < max
        invariant Holds(done) && (rest != [] ==> |buf| == max)
      {
        var c := if |buf| - start < |rest| then |buf| - start else |rest|;
        CopyChunk(rest[..c], done);
        Regroup(done, rest, c);
        done, rest := done + rest[..c], rest[c..];
      }
    }

    /** One copy into the ring, up to its end at most. */
    method CopyChunk(q: Bytes, ghost w: Bytes)
      requires Holds(w) && |buf| == max && 0 < |q| <= |buf| - start
      modifies `buf, `start, `dropped
      ensures Holds(w + q) && |buf| == max
    {
      dropped := true;
      ghost var a, m, z := buf[..start], buf[start..start + |q|], buf[start + |q|..];
      assert buf == a + m + z;
      Overwrite(a, m, z, q);
      Slide(max, w, q);
      buf := buf[..start] + q + buf[start + |q|..];
      start := Wrapped(start + |q|);
    }

    method Wrapped(x: nat) returns (r: nat)
      requires 0 < x <= max
      ensures r == if x == max then 0 else x
    {
      r := x % max;
    }

    /** The retained tail, marked exactly when something was lost. */
    method Result() returns (out: Bytes)
      requires Valid()
      ensures out == (if |written| > max then TRUNCATED else []) + Tail(max, written)
    {
      out := [];
      if dropped {
        out := out + TRUNCATED;
      }
      out := out + buf[start..];
      out := out + buf[..start];
    }
  }

  method FeedOne(s: SimpleTail, r: RingTail, p: Bytes)
    requires s.Valid() && r.Valid()
    modifies s, r
    ensures s.Valid() && r.Valid() && s.written == old(s.written) + p && r.written == old(r.written) + p
  {
    var _ := s.Write(p);
    var _ := r.Write(p);
  }

  /** Write the same bytes to both. */
  method Feed(s: SimpleTail, r: RingTail, writes: seq<Bytes>)
    requires s.Valid() && r.Valid() && s.written == [] && r.written == []
    modifies s, r
    ensures s.Valid() && r.Valid() && s.written == Concat(writes) && r.written == Concat(writes)
  {
    for i := 0 to |writes|
      invariant s.Valid() && r.Valid() && s.written == Concat(writes[..i]) && r.written == Concat(writes[..i])
    {
      ConcatMore(writes, i);
      FeedOne(s, r, writes[i]);
    }
    assert writes[..|writes|] == writes;
  }

  /** The ring refines the simple buffer: fed the same writes, both retain the
      last max bytes of everything, and the ring adds its marker exactly when
      more than max bytes were written. */
  method Replay(max: nat, writes: seq<Bytes>) returns (simple: Bytes, ring: Bytes)
    ensures simple == CutEachTime(max, writes) == Tail(max, Concat(writes))
    ensures ring == (if |Concat(writes)| > max then TRUNCATED else []) + simple
  {
    var s := new SimpleTail(max);
    var r := new RingTail(max);
    Feed(s, r, writes);
    CutEachTimeIsTail(max, writes);
    simple := s.buf;
    ring := r.Result();
  }
}

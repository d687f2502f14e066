/** A push that runs while a prune deletes: the prune read its marks and its
    cutoff before the push's ref was there. */
module PushDuringPrune {
  import opened Objects
  import opened PruneLimits

  /** The store's objects; those the prune spares, because they are packed or not
      older than the cutoff, as anything written now is; what the push found or
      wrote; and whether its ref is set. */
  datatype State = State(objects: set<Hash>, spared: set<Hash>, seen: set<Hash>, ref: bool)

  /** Steps of the push, and the prune's deletions. */
  datatype Action = Find(h: Hash) | Write(h: Hash) | SetRef | Delete(h: Hash)

  /** What the two work with: the push's source and commit, and the prune's marks. */
  datatype Job = Job(content: Content, src: set<Hash>, commit: Hash, marked: set<Hash>)

  ghost predicate MayStep(j: Job, s: State, a: Action) {
    match a
    case Find(h) => h in s.objects
    case Write(h) => h in j.src && forall c :: Child(j.content, h, c) ==> c in s.seen
    case SetRef => j.commit in s.seen && j.commit in s.objects
    case Delete(h) => h in s.objects && h !in j.marked && h !in s.spared
  }

  function Apply(s: State, a: Action): State {
    match a
    case Find(h) => s.(seen := s.seen + {h})
    case Write(h) => s.(objects := s.objects + {h}, spared := s.spared + {h}, seen := s.seen + {h})
    case SetRef => s.(ref := true)
    case Delete(h) => s.(objects := s.objects - {h})
  }

  /** acts can happen in this order and lead from s to t. */
  ghost predicate Runs(j: Job, s: State, acts: seq<Action>, t: State)
    decreases |acts|
  {
    if acts == [] then s == t else MayStep(j, s, acts[0]) && Runs(j, Apply(s, acts[0]), acts[1..], t)
  }

  lemma {:induction false} RunsJoin(j: Job, s: State, a: seq<Action>, t: State, b: seq<Action>, u: State)
    requires Runs(j, s, a, t) && Runs(j, t, b, u)
    ensures Runs(j, s, a + b, u)
    decreases |a|
  {
    if a == [] {
      assert a + b == b;
    } else {
      assert (a + b)[1..] == a[1..] + b;
      RunsJoin(j, Apply(s, a[0]), a[1..], t, b, u);
    }
  }

  lemma RunsOne(j: Job, s: State, a: Action)
    requires MayStep(j, s, a)
    ensures Runs(j, s, [a], Apply(s, a))
  {
    assert [a][1..] == [];
  }

  /** A push begins on a closed store. */
  ghost predicate Begins(j: Job, s: State) {
    Closed(j.content, s.objects) && s.seen == {} && !s.ref
  }

  /** What the store held and the commit reaches is marked or spared. */
  ghost predicate HeldIsSafe(j: Job, s: State) {
    forall x :: x in s.objects && Reaches(j.content, j.commit, x) ==> x in j.marked || x in s.spared
  }

  // ---------- when every held object is safe ----------

  /** The push wrote x, with its children seen before. */
  ghost predicate Written(j: Job, s: State, x: Hash) {
    x in s.objects && x in s.spared && x in s.seen && forall c :: Child(j.content, x, c) ==> c in s.seen
  }

  ghost predicate Inv(j: Job, s0: State, s: State) {
    && (forall x :: x in s.objects || x in s.seen ==> x in s0.objects || Written(j, s, x))
    && (forall x :: x in s0.objects && Reaches(j.content, j.commit, x) ==> x in s.objects && (x in j.marked || x in s.spared))
    && (s.ref ==> j.commit in s.seen)
  }

  lemma StepKeeps(j: Job, s0: State, s: State, a: Action)
    requires Inv(j, s0, s) && MayStep(j, s, a)
    ensures Inv(j, s0, Apply(s, a))
  {
    var t := Apply(s, a);
    forall x | x in t.objects || x in t.seen ensures x in s0.objects || Written(j, t, x) {
      if x in s.objects || x in s.seen {
        assert x in s0.objects || Written(j, s, x);
      }
    }
  }

  lemma {:induction false} RunKeeps(j: Job, s0: State, s: State, acts: seq<Action>, t: State)
    requires Inv(j, s0, s) && Runs(j, s, acts, t)
    ensures Inv(j, s0, t)
    decreases |acts|
  {
    if acts != [] {
      StepKeeps(j, s0, s, acts[0]);
      RunKeeps(j, s0, Apply(s, acts[0]), acts[1..], t);
    }
  }

  lemma {:induction false} SeenAlong(j: Job, s0: State, s: State, path: seq<Hash>, n: nat)
    requires Begins(j, s0) && Inv(j, s0, s) && IsPath(j.content, path) && path[0] in s.seen && n < |path|
    ensures path[n] in s0.objects || path[n] in s.seen
  {
    if n > 0 {
      SeenAlong(j, s0, s, path, n - 1);
      assert Child(j.content, path[n - 1], path[n]);
      if path[n - 1] !in s0.objects {
        assert Written(j, s, path[n - 1]);
      }
    }
  }

  lemma SafeMeansComplete(j: Job, s0: State, acts: seq<Action>, t: State)
    requires Begins(j, s0) && HeldIsSafe(j, s0) && Runs(j, s0, acts, t) && t.ref
    ensures Complete(j.content, t.objects, j.commit)
  {
    RunKeeps(j, s0, s0, acts, t);
    forall x | Reaches(j.content, j.commit, x) ensures x in t.objects {
      var path :| Joins(j.content, path, j.commit, x);
      SeenAlong(j, s0, t, path, |path| - 1);
    }
  }

  // ---------- when some held object is not ----------

  /** t is s after a stretch of the push alone: it deleted nothing, and wrote only
      what was not there. */
  ghost predicate Pushed(s: State, t: State) {
    && s.objects <= t.objects && s.seen <= t.seen && t.ref == s.ref
    && s.spared <= t.spared && (t.spared - s.spared) !! s.objects
  }

  /** The push can get to h. */
  lemma CanPush(j: Job, rank: Hash -> nat, s: State, h: Hash) returns (acts: seq<Action>, t: State)
    requires Acyclic(j.content, rank) && Complete(j.content, j.src + s.objects, h)
    ensures Runs(j, s, acts, t) && Pushed(s, t) && h in t.seen && h in t.objects
    decreases rank(h), 1
  {
    if h in s.objects {
      acts, t := [Find(h)], Apply(s, Find(h));
      RunsOne(j, s, Find(h));
    } else {
      ReachesSelf(j.content, h);
      assert h in j.src;
      var mid;
      acts, mid := CanPushChildren(j, rank, s, h, |Children(j.content(h))|);
      t := Apply(mid, Write(h));
      RunsOne(j, mid, Write(h));
      RunsJoin(j, s, acts, mid, [Write(h)], t);
      acts := acts + [Write(h)];
    }
  }

  lemma CanPushChildren(j: Job, rank: Hash -> nat, s: State, h: Hash, n: nat) returns (acts: seq<Action>, t: State)
    requires Acyclic(j.content, rank) && Complete(j.content, j.src + s.objects, h) && n <= |Children(j.content(h))|
    ensures Runs(j, s, acts, t) && Pushed(s, t)
    ensures forall i :: 0 <= i < n ==> Children(j.content(h))[i] in t.seen
    decreases rank(h), 0, n
  {
    if n == 0 {
      acts, t := [], s;
    } else {
      var c := Children(j.content(h))[n - 1];
      assert Child(j.content, h, c);
      var first, mid := CanPushChildren(j, rank, s, h, n - 1);
      forall x | Reaches(j.content, c, x) ensures x in j.src + mid.objects {
        ReachesThroughChild(j.content, h, c, x);
      }
      var more;
      more, t := CanPush(j, rank, mid, c);
      RunsJoin(j, s, first, mid, more, t);
      acts := first + more;
    }
  }

  lemma UnsafeCanBreak(j: Job, rank: Hash -> nat, s0: State, x: Hash) returns (acts: seq<Action>, t: State)
    requires Acyclic(j.content, rank) && Begins(j, s0) && Complete(j.content, j.src + s0.objects, j.commit)
    requires x in s0.objects && Reaches(j.content, j.commit, x) && x !in j.marked && x !in s0.spared
    ensures Runs(j, s0, acts, t) && t.ref && x !in t.objects
  {
    var push, done := CanPush(j, rank, s0, j.commit);
    var withRef, gone := Apply(done, SetRef), Apply(Apply(done, SetRef), Delete(x));
    RunsOne(j, done, SetRef);
    RunsJoin(j, s0, push, done, [SetRef], withRef);
    RunsOne(j, withRef, Delete(x));
    RunsJoin(j, s0, push + [SetRef], withRef, [Delete(x)], gone);
    acts, t := push + [SetRef] + [Delete(x)], gone;
  }

  /** This interleaving, if it sets the ref, leaves it with its whole history. */
  ghost predicate Survives(j: Job, s0: State, acts: seq<Action>, t: State) {
    Runs(j, s0, acts, t) && t.ref ==> Complete(j.content, t.objects, j.commit)
  }

  /** However a push and a prune's deletions interleave, the ref the push sets has
      its whole history exactly when whatever the store held of that history is
      marked or spared. What the push writes itself is always safe. */
  lemma PushSurvivesIff(j: Job, rank: Hash -> nat, s0: State)
    requires Acyclic(j.content, rank) && Begins(j, s0) && Complete(j.content, j.src + s0.objects, j.commit)
    ensures (forall acts, t :: Survives(j, s0, acts, t)) <==> HeldIsSafe(j, s0)
  {
    if HeldIsSafe(j, s0) {
      forall acts, t ensures Survives(j, s0, acts, t) {
        if Runs(j, s0, acts, t) && t.ref {
          SafeMeansComplete(j, s0, acts, t);
        }
      }
    } else {
      var x :| x in s0.objects && Reaches(j.content, j.commit, x) && x !in j.marked && x !in s0.spared;
      var acts, t := UnsafeCanBreak(j, rank, s0, x);
      assert !Survives(j, s0, acts, t);
    }
  }

  /** The grace does not protect what a candidate shares with old garbage: its
      tree was there, old and unreferenced, so the push does not write it again
      and the prune deletes it. */
  lemma GraceDoesNotProtectSharedObjects(j: Job, s0: State) returns (acts: seq<Action>, t: State)
    requires j == Job(OneCommit, {1, 2}, 2, {}) && s0 == State({1}, {}, {}, false)
    ensures Begins(j, s0) && Runs(j, s0, acts, t) && t.ref && !Complete(OneCommit, t.objects, 2)
  {
    assert Child(OneCommit, 2, 1);
    assert Joins(OneCommit, [2, 1], 2, 1);
    assert Reaches(OneCommit, 2, 1);
    forall x | Reaches(OneCommit, 2, x) ensures x in j.src + s0.objects {
      var path :| Joins(OneCommit, path, 2, x);
      OneCommitAlong(path, |path| - 1);
    }
    acts, t := UnsafeCanBreak(j, h => h, s0, 1);
  }

  lemma {:induction false} OneCommitAlong(path: seq<Hash>, n: nat)
    requires IsPath(OneCommit, path) && path[0] == 2 && n < |path|
    ensures path[n] == 2 || path[n] == 1
  {
    if n > 0 {
      OneCommitAlong(path, n - 1);
      assert Child(OneCommit, path[n - 1], path[n]);
    }
  }
}

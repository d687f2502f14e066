/** Where pruning stops being safe: a submodule entry that names a commit of the
    store, and a grace that spares a parent but not its child. */
module PruneLimits {
  import opened Options
  import opened Objects
  import opened Prune

  // ---------- which stores are safe to prune, whatever their refs ----------

  /** A submodule entry names a commit. */
  ghost predicate SubmodulesNameCommits(content: Content) {
    forall t, s :: Names(content, t, s) ==> content(s).Commit?
  }

  ghost predicate HasEntry(content: Content, u: Hash, c: Hash) {
    content(u).Tree? && exists e :: e in content(u).entries && e.hash == c
  }

  /** c is t or an entry, of whatever kind, somewhere in tree t. */
  ghost predicate Touches(content: Content, t: Hash, c: Hash) {
    c == t || exists u :: Reaches(content, t, u) && HasEntry(content, u, c)
  }

  /** A tree that names a stored commit as a submodule has the commit's own
      tree and parents among its entries too. */
  ghost predicate HidesNothing(content: Content, objects: set<Hash>) {
    forall t, s, c :: t in objects && s in objects && Names(content, t, s) && Child(content, s, c) ==> Touches(content, t, c)
  }

  /** In whatever order the refs come, everything they reach is marked. */
  ghost predicate MarksAllLive(content: Content, objects: set<Hash>, refs: T.RefMap) {
    forall marked, x :: MarksOf(content, objects, refs, marked) && Live(content, refs, x) ==> x in marked
  }

  ghost predicate RefsHeld(objects: set<Hash>, refs: T.RefMap) {
    forall n :: n in refs ==> refs[n] in objects
  }

  /** A marked tree was walked: only blobs and commits are ever leaves. */
  lemma TreeWasWalked(content: Content, objects: set<Hash>, refs: T.RefMap, marked: set<Hash>, v: Hash)
    requires WellTyped(content) && SubmodulesNameCommits(content) && Explained(content, objects, refs, {}, marked)
    requires v in marked && content(v).Tree?
    ensures ItemsIn(content, v, marked)
  {
    if LeafIn(content, objects, refs, marked, v) {
      var t := LeafIsNamed(content, objects, refs, marked, v);
      assert false;
    }
  }

  lemma {:induction false} TreesWalkedAlong(content: Content, objects: set<Hash>, refs: T.RefMap, marked: set<Hash>, path: seq<Hash>, n: nat)
    requires WellTyped(content) && SubmodulesNameCommits(content) && Explained(content, objects, refs, {}, marked)
    requires IsPath(content, path) && content(path[0]).Tree? && path[0] in marked && n < |path|
    ensures path[n] in marked && (content(path[n]).Tree? || content(path[n]).Blob?)
  {
    if n > 0 {
      TreesWalkedAlong(content, objects, refs, marked, path, n - 1);
      assert Child(content, path[n - 1], path[n]) && TypedAt(content, path[n - 1]);
      TreeWasWalked(content, objects, refs, marked, path[n - 1]);
      WalkedChild(content, path[n - 1], path[n], marked);
    }
  }

  lemma TouchedIsMarked(content: Content, objects: set<Hash>, refs: T.RefMap, marked: set<Hash>, t: Hash, c: Hash)
    requires WellTyped(content) && SubmodulesNameCommits(content) && Explained(content, objects, refs, {}, marked)
    requires content(t).Tree? && t in marked && Touches(content, t, c)
    ensures c in marked
  {
    if c != t {
      var u :| Reaches(content, t, u) && HasEntry(content, u, c);
      var path :| Joins(content, path, t, u);
      TreesWalkedAlong(content, objects, refs, marked, path, |path| - 1);
      TreeWasWalked(content, objects, refs, marked, u);
      var e :| e in content(u).entries && e.hash == c;
      EntryIsItem(content, u, e);
    }
  }

  lemma MarkedChild(content: Content, objects: set<Hash>, refs: T.RefMap, marked: set<Hash>, x: Hash, c: Hash)
    requires WellTyped(content) && SubmodulesNameCommits(content) && Explained(content, objects, refs, {}, marked)
    requires HidesNothing(content, objects) && x in marked && x in objects && Child(content, x, c)
    ensures c in marked
  {
    if LeafIn(content, objects, refs, marked, x) {
      var t := LeafIsNamed(content, objects, refs, marked, x);
      TouchedIsMarked(content, objects, refs, marked, t, c);
    } else {
      WalkedChild(content, x, c, marked);
    }
  }

  lemma {:induction false} AllMarkedAlong(content: Content, objects: set<Hash>, refs: T.RefMap, marked: set<Hash>, path: seq<Hash>, n: nat)
    requires WellTyped(content) && SubmodulesNameCommits(content) && Explained(content, objects, refs, {}, marked)
    requires HidesNothing(content, objects) && Closed(content, objects)
    requires IsPath(content, path) && path[0] in marked && path[0] in objects && n < |path|
    ensures path[n] in marked
  {
    if n > 0 {
      AllMarkedAlong(content, objects, refs, marked, path, n - 1);
      ClosedAlong(content, objects, path, n - 1);
      assert Child(content, path[n - 1], path[n]);
      MarkedChild(content, objects, refs, marked, path[n - 1], path[n]);
    }
  }

  lemma HidingNothingSuffices(content: Content, objects: set<Hash>, refs: T.RefMap)
    requires WellTyped(content) && SubmodulesNameCommits(content) && Closed(content, objects)
    requires HidesNothing(content, objects) && RefsHeld(objects, refs)
    ensures MarksAllLive(content, objects, refs)
  {
    forall marked, x | MarksOf(content, objects, refs, marked) && Live(content, refs, x) ensures x in marked {
      MarksFacts(content, objects, refs, marked);
      var n :| n in refs && Reaches(content, refs[n], x);
      var path :| Joins(content, path, refs[n], x);
      AllMarkedAlong(content, objects, refs, marked, path, |path| - 1);
    }
  }

  /** Items found while walking tree t: trees below it to walk, its entries to mark. */
  ghost predicate Below(content: Content, t: Hash, x: Item) {
    Touches(content, t, x.hash) && (x.Node? ==> Reaches(content, t, x.hash) && content(x.hash).Tree?)
  }

  lemma ItemsBelow(content: Content, t: Hash, h: Hash)
    requires WellTyped(content) && Reaches(content, t, h) && content(h).Tree?
    ensures forall i :: 0 <= i < |Items(content(h))| ==> Below(content, t, Items(content(h))[i])
  {
    var items := Items(content(h));
    assert TypedAt(content, h);
    forall i | 0 <= i < |items| ensures Below(content, t, items[i]) {
      var e := content(h).entries[i];
      assert e in content(h).entries && HasEntry(content, h, e.hash);
      if e.mode == Dir {
        assert e.hash in Followed(content(h).entries);
        ReachesThenChild(content, t, h, e.hash);
      }
    }
  }

  /** A walk of tree t marks nothing but t and what it touches. */
  lemma {:induction false} WalkStaysBelow(content: Content, objects: set<Hash>, t: Hash, items: seq<Item>, marked: set<Hash>)
    requires WellTyped(content) && (forall x :: x in marked ==> Touches(content, t, x))
    requires forall i :: 0 <= i < |items| ==> Below(content, t, items[i])
    ensures Walk(content, objects, items, marked).Some? ==>
      forall x :: x in Walk(content, objects, items, marked).value ==> Touches(content, t, x)
    decreases objects - marked, |items|
  {
    if items != [] {
      var h, rest := items[0].hash, items[1..];
      assert Below(content, t, items[0]);
      if items[0].Leaf? {
        WalkStaysBelow(content, objects, t, rest, marked + {h});
      } else if h in marked {
        WalkStaysBelow(content, objects, t, rest, marked);
      } else if h in objects {
        ItemsBelow(content, t, h);
        WalkStaysBelow(content, objects, t, Items(content(h)) + rest, marked + {h});
      }
    }
  }

  /** A ref to the tree and one to the commit it names, in that order. */
  function TreeThenCommit(t: Hash, s: Hash): T.RefMap {
    map["a" := t, "b" := s]
  }

  lemma TreeFirstHidesCommit(content: Content, objects: set<Hash>, t: Hash, s: Hash) returns (marked: set<Hash>)
    requires WellTyped(content) && SubmodulesNameCommits(content) && Closed(content, objects)
    requires t in objects && s in objects && Names(content, t, s)
    ensures MarksOf(content, objects, TreeThenCommit(t, s), marked)
    ensures forall x :: x in marked ==> Touches(content, t, x)
  {
    var refs, order := TreeThenCommit(t, s), ["a", "b"];
    ReachesSelf(content, t);
    assert refs["a"] == t && Live(content, refs, t);
    var first := Walk(content, objects, [Node(t)], {});
    if first.None? {
      WalkFailsOnLack(content, objects, refs, [Node(t)], {});
      var x :| Live(content, refs, x) && x !in objects;
      LiveIsHeld(content, T.Snapshot(objects, refs), x);
    }
    marked := first.value;
    WalkStaysBelow(content, objects, t, [Node(t)], {});
    WalkExplains(content, objects, refs, [Node(t)], {});
    assert [Node(t)][0].hash in marked;
    TreeWasWalked(content, objects, refs, marked, t);
    var e :| e in content(t).entries && e.mode == Submodule && e.hash == s;
    EntryIsItem(content, t, e);
    WalkOfMarked(content, objects, [Node(s)], marked);
    WalkAppend(content, objects, [Node(t)], [Node(s)], {});
    assert RefItems(refs, order) == [Node(t)] + [Node(s)];
    assert order[0] == "a" && order[1] == "b";
    assert WalksTo(content, objects, refs, order, marked);
  }

  lemma {:induction false} WalkOfMarked(content: Content, objects: set<Hash>, items: seq<Item>, marked: set<Hash>)
    requires forall x :: x in items ==> x.hash in marked
    ensures Walk(content, objects, items, marked) == Some(marked)
    decreases |items|
  {
    if items != [] {
      assert items[0].hash in marked && marked + {items[0].hash} == marked;
      WalkOfMarked(content, objects, items[1..], marked);
    }
  }

  lemma HidingSomethingLoses(content: Content, objects: set<Hash>, t: Hash, s: Hash, c: Hash)
    requires WellTyped(content) && SubmodulesNameCommits(content) && Closed(content, objects)
    requires t in objects && s in objects && Names(content, t, s) && Child(content, s, c) && !Touches(content, t, c)
    ensures RefsHeld(objects, TreeThenCommit(t, s)) && !MarksAllLive(content, objects, TreeThenCommit(t, s))
  {
    var refs := TreeThenCommit(t, s);
    var marked := TreeFirstHidesCommit(content, objects, t, s);
    ReachesSelf(content, s);
    assert refs["b"] == s && Live(content, refs, s);
    LiveChild(content, refs, s, c);
  }

  /** A closed store is safe to prune whatever its refs are exactly when no tree
      in it hides a stored commit's tree or parents behind a submodule entry. That
      the condition is needed rests on a ref to a bare tree, which any ref may be;
      for refs to commits it is enough, and more than enough. */
  lemma SafeWhateverTheRefsIff(content: Content, objects: set<Hash>)
    requires WellTyped(content) && SubmodulesNameCommits(content) && Closed(content, objects)
    ensures (forall refs :: RefsHeld(objects, refs) ==> MarksAllLive(content, objects, refs)) <==> HidesNothing(content, objects)
  {
    if HidesNothing(content, objects) {
      forall refs | RefsHeld(objects, refs) ensures MarksAllLive(content, objects, refs) {
        HidingNothingSuffices(content, objects, refs);
      }
    } else {
      var t, s, c :| t in objects && s in objects && Names(content, t, s) && Child(content, s, c) && !Touches(content, t, c);
      HidingSomethingLoses(content, objects, t, s, c);
    }
  }

  // ---------- a submodule entry that names a commit of this store ----------

  /** Commit 4 records its own parent, commit 2, as a submodule. */
  function SelfNaming(h: Hash): Object {
    match h
    case 1 => Tree([])
    case 2 => Commit(1, [])
    case 3 => Tree([Entry(Submodule, 2)])
    case 4 => Commit(3, [2])
    case _ => Blob
  }

  lemma SelfNamingWalk(rest: seq<Item>)
    requires forall x :: x in rest ==> x == Node(4)
    ensures Walk(SelfNaming, {1, 2, 3, 4}, [Node(4)] + rest, {}) == Some({2, 3, 4})
  {
    var objects := {1, 2, 3, 4};
    var all := [Node(4)] + rest;
    assert all[1..] == rest && Items(SelfNaming(4)) == [Node(3), Node(2)] && {} + {4} == {4};
    var two := [Node(3), Node(2)] + rest;
    assert Walk(SelfNaming, objects, all, {}) == Walk(SelfNaming, objects, two, {4});
    assert two[1..] == [Node(2)] + rest && Items(SelfNaming(3)) == [Leaf(2)];
    var three := [Leaf(2)] + ([Node(2)] + rest);
    assert Walk(SelfNaming, objects, two, {4}) == Walk(SelfNaming, objects, three, {4} + {3});
    assert three[1..] == [Node(2)] + rest && {4} + {3} + {2} == {2, 3, 4};
    WalkOfMarked(SelfNaming, objects, [Node(2)] + rest, {2, 3, 4});
  }

  lemma UnmarkedGoes(before: set<Hash>, after: set<Hash>, loose: map<Hash, int>, cutoff: int, marked: set<Hash>, h: Hash)
    requires LeavesMarked(before, after, loose, cutoff, marked)
    requires h in before && h in loose && loose[h] < cutoff && h !in marked
    ensures h !in after
  {
  }

  lemma SelfNamingMarks(refs: T.RefMap, marked: set<Hash>)
    requires refs == map["main" := 4] && MarksOf(SelfNaming, {1, 2, 3, 4}, refs, marked)
    ensures marked == {2, 3, 4}
  {
    var order :| (forall n :: n in refs ==> n in order) && WalksTo(SelfNaming, {1, 2, 3, 4}, refs, order, marked);
    var items := RefItems(refs, order);
    assert "main" in order;
    assert items == [Node(4)] + items[1..];
    SelfNamingWalk(items[1..]);
  }

  lemma SelfNamingIsAGraph(refs: T.RefMap)
    requires refs == map["main" := 4]
    ensures Acyclic(SelfNaming, h => h) && WellTyped(SelfNaming) && Live(SelfNaming, refs, 1)
  {
    assert Followed([Entry(Submodule, 2)]) == [];
    assert forall h :: TypedAt(SelfNaming, h);
    assert Joins(SelfNaming, [4, 2, 1], refs["main"], 1);
  }

  /** The walk marks commit 2 as an entry of tree 3 and then does not walk it as
      a parent, so its tree is lost although the ref reaches it. */
  lemma SubmoduleCanHideLiveObjects(before: T.Snapshot, after: set<Hash>, loose: map<Hash, int>, cutoff: int)
    requires before == T.Snapshot({1, 2, 3, 4}, map["main" := 4]) && KeepsMarked(SelfNaming, before, after, loose, cutoff)
    requires 1 in loose && loose[1] < cutoff
    ensures Acyclic(SelfNaming, h => h) && WellTyped(SelfNaming)
    ensures Live(SelfNaming, before.refs, 1) && 1 !in after
  {
    SelfNamingIsAGraph(before.refs);
    var marked :| MarksOf(SelfNaming, before.objects, before.refs, marked) && LeavesMarked(before.objects, after, loose, cutoff, marked);
    SelfNamingMarks(before.refs, marked);
    UnmarkedGoes(before.objects, after, loose, cutoff, marked, 1);
  }

  // ---------- a young parent of an old child ----------

  /** Commit 2 with the empty tree 1. */
  function OneCommit(h: Hash): Object {
    match h
    case 1 => Tree([])
    case 2 => Commit(1, [])
    case _ => Blob
  }

  lemma OneCommitIsAGraph()
    ensures Acyclic(OneCommit, h => h) && WellTyped(OneCommit) && Closed(OneCommit, {1, 2})
    ensures Child(OneCommit, 2, 1) && !Closed(OneCommit, {2}) && !Complete(OneCommit, {2}, 2)
  {
    assert forall h :: TypedAt(OneCommit, h);
    assert Child(OneCommit, 2, 1);
    assert Joins(OneCommit, [2, 1], 2, 1);
    assert Reaches(OneCommit, 2, 1);
  }

  /** With no refs, a commit younger than the cutoff survives its older tree. */
  lemma GraceCanBreakClosure(before: T.Snapshot, after: T.Snapshot, loose: map<Hash, int>, cutoff: int)
    requires before == T.Snapshot({1, 2}, map[]) && Pruning(OneCommit, before, after, loose, cutoff)
    requires 1 in loose && loose[1] < cutoff && 2 in loose && loose[2] >= cutoff
    ensures T.Sound(OneCommit, before) && after.objects == {2} && !Closed(OneCommit, after.objects)
  {
    OneCommitIsAGraph();
    forall x ensures !Live(OneCommit, before.refs, x) {
    }
    forall h ensures h in after.objects <==> h == 2 {
      PruneLeavesKept(OneCommit, before, after, loose, cutoff, h);
    }
  }

  /** What follows: the copier stops at commit 2 and sets a ref to it, although
      its tree is gone and the source has it. */
  method PruneThenPush(repo: T.Repo, loose: map<Hash, int>, now: int, grace: nat) returns (r: T.Result)
    requires repo.calm && repo.Now() == T.Snapshot({1, 2}, map[])
    requires 1 in loose && loose[1] < now - grace && 2 in loose && loose[2] >= now - grace
    modifies repo
    ensures r == T.Ok && "new" in repo.refs && repo.refs["new"] == 2 && !Complete(OneCommit, repo.objects, 2)
  {
    ghost var before := repo.Now();
    OneCommitIsAGraph();
    var p := PruneUnreachable(OneCommit, h => h, repo, loose, now, grace);
    assert p != WalkFailed;
    GraceCanBreakClosure(before, repo.Now(), loose, now - grace);
    r := T.PushCommit(OneCommit, h => h, {1, 2}, repo, 2, "new");
  }
}

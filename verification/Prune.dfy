/** Deleting loose objects that no ref reaches. */
module Prune {
  import opened Options
  import opened Objects
  import T = Transfer

  /** Some ref reaches x. */
  ghost predicate Live(content: Content, refs: T.RefMap, x: Hash) {
    exists n :: n in refs && Reaches(content, refs[n], x)
  }

  /** A submodule entry of tree t names x. */
  ghost predicate Names(content: Content, t: Hash, x: Hash) {
    content(t).Tree? && exists e :: e in content(t).entries && e.mode == Submodule && e.hash == x
  }

  /** A submodule entry of a tree that a ref reaches names x. */
  ghost predicate NamedBySubmodule(content: Content, refs: T.RefMap, x: Hash) {
    exists t :: Live(content, refs, t) && Names(content, t, x)
  }

  /** Nothing is marked without a reason. */
  ghost predicate Justified(content: Content, refs: T.RefMap, marked: set<Hash>) {
    forall x :: x in marked ==> Live(content, refs, x) || NamedBySubmodule(content, refs, x)
  }

  lemma LiveChild(content: Content, refs: T.RefMap, h: Hash, c: Hash)
    requires Live(content, refs, h) && Child(content, h, c)
    ensures Live(content, refs, c)
  {
    var n :| n in refs && Reaches(content, refs[n], h);
    ReachesThenChild(content, refs[n], h, c);
  }

  lemma LiveEntry(content: Content, refs: T.RefMap, h: Hash, e: Entry)
    requires Live(content, refs, h) && content(h).Tree? && e in content(h).entries && e.mode != Submodule
    ensures Child(content, h, e.hash) && Live(content, refs, e.hash)
  {
    assert e.hash in Followed(content(h).entries);
    assert Child(content, h, e.hash);
    LiveChild(content, refs, h, e.hash);
  }

  // ---------- the walk ----------

  /** What the walk meets: an object to walk, or one only to mark. */
  datatype Item = Node(hash: Hash) | Leaf(hash: Hash)

  function EntryItem(e: Entry): Item {
    if e.mode == Dir then Node(e.hash) else Leaf(e.hash)
  }

  function Items(o: Object): seq<Item> {
    match o
    case Blob => []
    case Tree(entries) => seq(|entries|, i requires 0 <= i < |entries| => EntryItem(entries[i]))
    case Commit(tree, parents) => [Node(tree)] + seq(|parents|, i requires 0 <= i < |parents| => Node(parents[i]))
    case Tag(target) => [Node(target)]
  }

  /** The walk over a list of items, depth first: None when an object that must
      be read is missing. */
  function Walk(content: Content, objects: set<Hash>, items: seq<Item>, marked: set<Hash>): Option<set<Hash>>
    decreases objects - marked, |items|
  {
    if items == [] then Some(marked)
    else
      var h := items[0].hash;
      if items[0].Leaf? then Walk(content, objects, items[1..], marked + {h})
      else if h in marked then Walk(content, objects, items[1..], marked)
      else if h !in objects then None
      else Walk(content, objects, Items(content(h)) + items[1..], marked + {h})
  }

  lemma {:induction false} WalkAppend(content: Content, objects: set<Hash>, a: seq<Item>, b: seq<Item>, marked: set<Hash>)
    ensures Walk(content, objects, a + b, marked) ==
      match Walk(content, objects, a, marked) case None => None case Some(m) => Walk(content, objects, b, m)
    decreases objects - marked, |a|
  {
    if a == [] {
      assert a + b == b;
    } else {
      assert (a + b)[1..] == a[1..] + b;
      var h := a[0].hash;
      if a[0].Leaf? {
        WalkAppend(content, objects, a[1..], b, marked + {h});
      } else if h in marked {
        WalkAppend(content, objects, a[1..], b, marked);
      } else if h in objects {
        assert Items(content(h)) + (a[1..] + b) == (Items(content(h)) + a[1..]) + b;
        WalkAppend(content, objects, Items(content(h)) + a[1..], b, marked + {h});
      }
    }
  }

  // ---------- what a walk marks ----------

  /** Everything x leads the walk to is marked. */
  ghost predicate ItemsIn(content: Content, x: Hash, marked: set<Hash>) {
    forall i :: 0 <= i < |Items(content(x))| ==> Items(content(x))[i].hash in marked
  }

  /** x is an entry of the live stored tree t that the walk only marks. */
  ghost predicate LeafOf(content: Content, objects: set<Hash>, refs: T.RefMap, t: Hash, x: Hash) {
    && t in objects && Live(content, refs, t) && content(t).Tree?
    && exists e :: e in content(t).entries && e.mode != Dir && e.hash == x
  }

  ghost predicate LeafIn(content: Content, objects: set<Hash>, refs: T.RefMap, marked: set<Hash>, x: Hash) {
    exists t :: t in marked && LeafOf(content, objects, refs, t, x)
  }

  /** What was marked since from was walked, or is a leaf of a marked tree. */
  ghost predicate Explained(content: Content, objects: set<Hash>, refs: T.RefMap, from: set<Hash>, marked: set<Hash>) {
    from <= marked && forall x :: x in marked && x !in from ==> ItemsIn(content, x, marked) || LeafIn(content, objects, refs, marked, x)
  }

  /** Objects to walk are live, and leaves belong to a marked tree. */
  ghost predicate Rooted(content: Content, objects: set<Hash>, refs: T.RefMap, marked: set<Hash>, x: Item) {
    if x.Node? then Live(content, refs, x.hash) else LeafIn(content, objects, refs, marked, x.hash)
  }

  ghost predicate AllRooted(content: Content, objects: set<Hash>, refs: T.RefMap, marked: set<Hash>, items: seq<Item>) {
    forall i :: 0 <= i < |items| ==> Rooted(content, objects, refs, marked, items[i])
  }

  lemma RootedMore(content: Content, objects: set<Hash>, refs: T.RefMap, marked: set<Hash>, more: set<Hash>, items: seq<Item>)
    requires AllRooted(content, objects, refs, marked, items) && marked <= more
    ensures AllRooted(content, objects, refs, more, items)
  {
    forall i | 0 <= i < |items| ensures Rooted(content, objects, refs, more, items[i]) {
      assert Rooted(content, objects, refs, marked, items[i]);
    }
  }

  lemma ItemsRooted(content: Content, objects: set<Hash>, refs: T.RefMap, marked: set<Hash>, h: Hash)
    requires h in objects && h in marked && Live(content, refs, h)
    ensures AllRooted(content, objects, refs, marked, Items(content(h)))
  {
    var items := Items(content(h));
    forall i | 0 <= i < |items| ensures Rooted(content, objects, refs, marked, items[i]) {
      if content(h).Tree? {
        var e := content(h).entries[i];
        assert e in content(h).entries;
        if e.mode == Dir {
          LiveEntry(content, refs, h, e);
        } else {
          assert LeafOf(content, objects, refs, h, e.hash);
        }
      } else {
        assert Child(content, h, items[i].hash);
        LiveChild(content, refs, h, items[i].hash);
      }
    }
  }

  lemma BothRooted(content: Content, objects: set<Hash>, refs: T.RefMap, marked: set<Hash>, a: seq<Item>, b: seq<Item>)
    requires AllRooted(content, objects, refs, marked, a) && AllRooted(content, objects, refs, marked, b)
    ensures AllRooted(content, objects, refs, marked, a + b)
  {
  }

  lemma WalkedNode(content: Content, objects: set<Hash>, refs: T.RefMap, h: Hash, rest: seq<Item>, marked: set<Hash>, m: set<Hash>)
    requires Explained(content, objects, refs, marked + {h}, m)
    requires forall i :: 0 <= i < |Items(content(h)) + rest| ==> (Items(content(h)) + rest)[i].hash in m
    ensures Explained(content, objects, refs, marked, m) && forall i :: 0 <= i < |rest| ==> rest[i].hash in m
  {
    var items := Items(content(h));
    forall i | 0 <= i < |items| ensures items[i].hash in m {
      assert (items + rest)[i] == items[i];
    }
    assert ItemsIn(content, h, m);
    forall i | 0 <= i < |rest| ensures rest[i].hash in m {
      assert (items + rest)[|items| + i] == rest[i];
    }
  }

  lemma MarkedLeaf(content: Content, objects: set<Hash>, refs: T.RefMap, h: Hash, marked: set<Hash>, m: set<Hash>)
    requires Explained(content, objects, refs, marked + {h}, m) && LeafIn(content, objects, refs, marked, h)
    ensures Explained(content, objects, refs, marked, m)
  {
    var t :| t in marked && LeafOf(content, objects, refs, t, h);
    assert t in m;
  }

  /** A finished walk marked all its items, and can explain every mark. */
  lemma {:induction false} WalkExplains(content: Content, objects: set<Hash>, refs: T.RefMap, items: seq<Item>, marked: set<Hash>)
    requires AllRooted(content, objects, refs, marked, items)
    ensures Walk(content, objects, items, marked).Some? ==>
      var m := Walk(content, objects, items, marked).value;
      Explained(content, objects, refs, marked, m) && forall i :: 0 <= i < |items| ==> items[i].hash in m
    decreases objects - marked, |items|
  {
    if items != [] && Walk(content, objects, items, marked).Some? {
      var m := Walk(content, objects, items, marked).value;
      var h, rest := items[0].hash, items[1..];
      assert Rooted(content, objects, refs, marked, items[0]);
      assert AllRooted(content, objects, refs, marked, rest);
      RootedMore(content, objects, refs, marked, marked + {h}, rest);
      if items[0].Leaf? {
        WalkExplains(content, objects, refs, rest, marked + {h});
        MarkedLeaf(content, objects, refs, h, marked, m);
      } else if h in marked {
        WalkExplains(content, objects, refs, rest, marked);
      } else {
        ItemsRooted(content, objects, refs, marked + {h}, h);
        BothRooted(content, objects, refs, marked + {h}, Items(content(h)), rest);
        WalkExplains(content, objects, refs, Items(content(h)) + rest, marked + {h});
        WalkedNode(content, objects, refs, h, rest, marked, m);
      }
    }
  }

  lemma ChildIsItem(content: Content, h: Hash, c: Hash)
    requires Child(content, h, c)
    ensures exists i :: 0 <= i < |Items(content(h))| && Items(content(h))[i].hash == c
  {
    match content(h)
    case Tree(entries) =>
      var e :| e in entries && e.mode != Submodule && e.hash == c;
      EntryIsItem(content, h, e);
    case Commit(tree, parents) =>
      if c == tree {
        assert Items(content(h))[0].hash == c;
      } else {
        var i :| 0 <= i < |parents| && parents[i] == c;
        assert Items(content(h))[i + 1].hash == c;
      }
    case Tag(target) => assert Items(content(h))[0].hash == c;
    case Blob =>
  }

  lemma EntryIsItem(content: Content, h: Hash, e: Entry)
    requires content(h).Tree? && e in content(h).entries
    ensures exists i :: 0 <= i < |Items(content(h))| && Items(content(h))[i].hash == e.hash
  {
    var entries := content(h).entries;
    var i :| 0 <= i < |entries| && entries[i] == e;
    assert Items(content(h))[i].hash == e.hash;
  }

  lemma WalkedChild(content: Content, x: Hash, c: Hash, marked: set<Hash>)
    requires ItemsIn(content, x, marked) && Child(content, x, c)
    ensures c in marked
  {
    ChildIsItem(content, x, c);
  }

  /** A leaf that is not a blob is named by a submodule entry of a marked tree. */
  lemma LeafIsNamed(content: Content, objects: set<Hash>, refs: T.RefMap, marked: set<Hash>, x: Hash) returns (t: Hash)
    requires WellTyped(content) && LeafIn(content, objects, refs, marked, x) && !content(x).Blob?
    ensures t in marked && t in objects && Live(content, refs, t) && Names(content, t, x)
  {
    t :| t in marked && LeafOf(content, objects, refs, t, x);
    assert TypedAt(content, t);
  }

  /** The children of what is marked and not named by a submodule are marked. */
  lemma MarksSpread(content: Content, objects: set<Hash>, refs: T.RefMap, marked: set<Hash>, x: Hash, c: Hash)
    requires WellTyped(content) && Explained(content, objects, refs, {}, marked)
    requires x in marked && !NamedBySubmodule(content, refs, x) && Child(content, x, c)
    ensures c in marked
  {
    if LeafIn(content, objects, refs, marked, x) {
      var t := LeafIsNamed(content, objects, refs, marked, x);
      assert false;
    }
    WalkedChild(content, x, c, marked);
  }

  ghost predicate LiveItem(content: Content, refs: T.RefMap, x: Item) {
    Live(content, refs, x.hash) || (x.Leaf? && NamedBySubmodule(content, refs, x.hash))
  }

  lemma ItemsLive(content: Content, refs: T.RefMap, h: Hash)
    requires Live(content, refs, h)
    ensures forall i :: 0 <= i < |Items(content(h))| ==> LiveItem(content, refs, Items(content(h))[i])
  {
    var items := Items(content(h));
    forall i | 0 <= i < |items| ensures LiveItem(content, refs, items[i]) {
      if content(h).Tree? {
        var e := content(h).entries[i];
        assert e in content(h).entries;
        if e.mode != Submodule {
          LiveEntry(content, refs, h, e);
        } else {
          assert Names(content, h, e.hash);
        }
      } else {
        assert Child(content, h, items[i].hash);
        LiveChild(content, refs, h, items[i].hash);
      }
    }
  }

  /** A walk marks nothing without a reason. */
  lemma {:induction false} WalkJustified(content: Content, objects: set<Hash>, refs: T.RefMap, items: seq<Item>, marked: set<Hash>)
    requires Justified(content, refs, marked)
    requires forall i :: 0 <= i < |items| ==> LiveItem(content, refs, items[i])
    ensures Walk(content, objects, items, marked).Some? ==> Justified(content, refs, Walk(content, objects, items, marked).value)
    decreases objects - marked, |items|
  {
    if items != [] {
      var h, rest := items[0].hash, items[1..];
      assert LiveItem(content, refs, items[0]);
      if items[0].Leaf? {
        WalkJustified(content, objects, refs, rest, marked + {h});
      } else if h in marked {
        WalkJustified(content, objects, refs, rest, marked);
      } else if h in objects {
        ItemsLive(content, refs, h);
        WalkJustified(content, objects, refs, Items(content(h)) + rest, marked + {h});
      }
    }
  }

  /** Something a ref reaches is not in objects. */
  ghost predicate LacksLive(content: Content, objects: set<Hash>, refs: T.RefMap) {
    exists x :: Live(content, refs, x) && x !in objects
  }

  /** A walk over live items fails only on a live object that is not there. */
  lemma {:induction false} WalkFailsOnLack(content: Content, objects: set<Hash>, refs: T.RefMap, items: seq<Item>, marked: set<Hash>)
    requires forall i :: 0 <= i < |items| ==> LiveItem(content, refs, items[i])
    requires Walk(content, objects, items, marked).None?
    ensures LacksLive(content, objects, refs)
    decreases objects - marked, |items|
  {
    var h, rest := items[0].hash, items[1..];
    assert LiveItem(content, refs, items[0]);
    if items[0].Leaf? {
      WalkFailsOnLack(content, objects, refs, rest, marked + {h});
    } else if h in marked {
      WalkFailsOnLack(content, objects, refs, rest, marked);
    } else if h in objects {
      ItemsLive(content, refs, h);
      WalkFailsOnLack(content, objects, refs, Items(content(h)) + rest, marked + {h});
    }
  }

  /** The recursive marking of one object and what it leads to. */
  method MarkReachable(content: Content, ghost rank: Hash -> nat, objects: set<Hash>, h: Hash, from: set<Hash>)
    returns (ok: bool, marked: set<Hash>)
    requires Acyclic(content, rank) && WellTyped(content)
    ensures Walk(content, objects, [Node(h)], from) == if ok then Some(marked) else None
    decreases rank(h), 1, 0
  {
    marked := from;
    if h in marked {
      return true, marked;
    }
    marked := marked + {h};
    if h !in objects {
      return false, marked;
    }
    var items := Items(content(h));
    assert items + [Node(h)][1..] == items;
    forall i | 0 <= i < |items| && items[i].Node? ensures rank(items[i].hash) < rank(h) {
      NodeIsChild(content, h, i);
    }
    ok, marked := MarkItems(content, rank, rank(h), objects, items, marked);
  }

  lemma NodeIsChild(content: Content, h: Hash, i: nat)
    requires i < |Items(content(h))| && Items(content(h))[i].Node?
    ensures Child(content, h, Items(content(h))[i].hash)
  {
    if content(h).Tree? {
      var e := content(h).entries[i];
      assert e in content(h).entries && e.mode == Dir;
      assert e.hash in Followed(content(h).entries);
    }
  }

  lemma LeafFirst(content: Content, objects: set<Hash>, h: Hash, rest: seq<Item>, marked: set<Hash>)
    ensures Walk(content, objects, [Leaf(h)] + rest, marked) == Walk(content, objects, rest, marked + {h})
  {
    assert ([Leaf(h)] + rest)[1..] == rest;
  }

  function ThenWalk(content: Content, objects: set<Hash>, first: Option<set<Hash>>, items: seq<Item>): Option<set<Hash>> {
    if first.None? then None else Walk(content, objects, items, first.value)
  }

  /** A walk from item i on, by what becomes of that item. */
  lemma WalkFromNth(content: Content, objects: set<Hash>, items: seq<Item>, i: nat, marked: set<Hash>)
    requires i < |items|
    ensures items[i].Leaf? ==> Walk(content, objects, items[i..], marked) == Walk(content, objects, items[i + 1..], marked + {items[i].hash})
    ensures items[i].Node? ==>
      Walk(content, objects, items[i..], marked) == ThenWalk(content, objects, Walk(content, objects, [items[i]], marked), items[i + 1..])
  {
    assert items[i..] == [items[i]] + items[i + 1..];
    if items[i].Leaf? {
      LeafFirst(content, objects, items[i].hash, items[i + 1..], marked);
    } else {
      WalkAppend(content, objects, [items[i]], items[i + 1..], marked);
    }
  }

  /** The loops over a commit's tree and parents, or a tree's entries. */
  method MarkItems(content: Content, ghost rank: Hash -> nat, ghost bound: nat, objects: set<Hash>, items: seq<Item>, from: set<Hash>)
    returns (ok: bool, marked: set<Hash>)
    requires Acyclic(content, rank) && WellTyped(content)
    requires forall i :: 0 <= i < |items| && items[i].Node? ==> rank(items[i].hash) < bound
    ensures Walk(content, objects, items, from) == if ok then Some(marked) else None
    decreases bound, 0, |items|
  {
    marked := from;
    for i := 0 to |items|
      invariant Walk(content, objects, items[i..], marked) == Walk(content, objects, items, from)
    {
      WalkFromNth(content, objects, items, i, marked);
      if items[i].Node? {
        ok, marked := MarkReachable(content, rank, objects, items[i].hash, marked);
        if !ok {
          return;
        }
      } else {
        marked := marked + {items[i].hash};
      }
    }
    ok := true;
  }

  // ---------- what the refs keep ----------

  ghost predicate PlainPath(content: Content, refs: T.RefMap, path: seq<Hash>, a: Hash, x: Hash) {
    Joins(content, path, a, x) && forall i :: 0 <= i < |path| - 1 ==> !NamedBySubmodule(content, refs, path[i])
  }

  /** Some ref reaches x without passing through a commit that a submodule
      entry of a live tree names. */
  ghost predicate PlainlyLive(content: Content, refs: T.RefMap, x: Hash) {
    exists n, path :: n in refs && PlainPath(content, refs, path, refs[n], x)
  }

  /** No ref reaches a commit that a submodule entry of a live tree names. */
  ghost predicate SubmodulesAreForeign(content: Content, refs: T.RefMap) {
    forall x :: NamedBySubmodule(content, refs, x) ==> !Live(content, refs, x)
  }

  lemma LiveAlong(content: Content, refs: T.RefMap, path: seq<Hash>, n: string, i: nat)
    requires n in refs && IsPath(content, path) && path[0] == refs[n] && i < |path|
    ensures Live(content, refs, path[i])
  {
    PrefixReaches(content, path, i);
  }

  /** With foreign submodules, live and plainly live are the same. */
  lemma ForeignMeansPlain(content: Content, refs: T.RefMap, x: Hash)
    requires SubmodulesAreForeign(content, refs) && Live(content, refs, x)
    ensures PlainlyLive(content, refs, x)
  {
    var n :| n in refs && Reaches(content, refs[n], x);
    var path :| Joins(content, path, refs[n], x);
    forall i | 0 <= i < |path| - 1 ensures !NamedBySubmodule(content, refs, path[i]) {
      LiveAlong(content, refs, path, n, i);
    }
    assert PlainPath(content, refs, path, refs[n], x);
  }

  lemma {:induction false} MarkedAlong(content: Content, objects: set<Hash>, refs: T.RefMap, marked: set<Hash>, path: seq<Hash>, a: Hash, x: Hash, i: nat)
    requires WellTyped(content) && Explained(content, objects, refs, {}, marked)
    requires PlainPath(content, refs, path, a, x) && a in marked && i < |path|
    ensures path[i] in marked
  {
    if i > 0 {
      MarkedAlong(content, objects, refs, marked, path, a, x, i - 1);
      assert Child(content, path[i - 1], path[i]);
      MarksSpread(content, objects, refs, marked, path[i - 1], path[i]);
    }
  }

  /** The refs in some order, as items to walk. */
  function RefItems(refs: T.RefMap, order: seq<string>): seq<Item>
    requires forall n :: n in order ==> n in refs
  {
    seq(|order|, i requires 0 <= i < |order| => Node(refs[order[i]]))
  }

  /** The walk over all refs, in an order the store picks, ends with marked. */
  ghost predicate WalksTo(content: Content, objects: set<Hash>, refs: T.RefMap, order: seq<string>, marked: set<Hash>) {
    && (forall n :: n in order ==> n in refs)
    && Walk(content, objects, RefItems(refs, order), {}) == Some(marked)
  }

  ghost predicate MarksOf(content: Content, objects: set<Hash>, refs: T.RefMap, marked: set<Hash>) {
    exists order :: (forall n :: n in refs ==> n in order) && WalksTo(content, objects, refs, order, marked)
  }

  /** Marks of any order of the refs hold every ref's object, can be explained, and have a reason. */
  lemma MarksFacts(content: Content, objects: set<Hash>, refs: T.RefMap, marked: set<Hash>)
    requires MarksOf(content, objects, refs, marked)
    ensures Explained(content, objects, refs, {}, marked) && Justified(content, refs, marked)
    ensures forall n :: n in refs ==> refs[n] in marked
  {
    var order :| (forall n :: n in refs ==> n in order) && WalksTo(content, objects, refs, order, marked);
    var items := RefItems(refs, order);
    forall i | 0 <= i < |items| ensures Live(content, refs, items[i].hash) {
      assert order[i] in refs;
      ReachesSelf(content, refs[order[i]]);
    }
    WalkJustified(content, objects, refs, items, {});
    WalkExplains(content, objects, refs, items, {});
    forall n | n in refs ensures refs[n] in marked {
      var i :| 0 <= i < |order| && order[i] == n;
      assert items[i].hash == refs[n];
    }
  }

  /** Every mark has a reason, and whatever is plainly live is marked. */
  lemma MarksAreSound(content: Content, objects: set<Hash>, refs: T.RefMap, marked: set<Hash>)
    requires WellTyped(content) && MarksOf(content, objects, refs, marked)
    ensures Justified(content, refs, marked)
    ensures forall x :: PlainlyLive(content, refs, x) ==> x in marked
  {
    MarksFacts(content, objects, refs, marked);
    forall x | PlainlyLive(content, refs, x) ensures x in marked {
      var n, path :| n in refs && PlainPath(content, refs, path, refs[n], x);
      MarkedAlong(content, objects, refs, marked, path, refs[n], x, |path| - 1);
    }
  }

  /** With foreign submodules, what a live tree's submodule entries name is marked too. */
  lemma NamedIsMarked(content: Content, objects: set<Hash>, refs: T.RefMap, marked: set<Hash>, x: Hash)
    requires WellTyped(content) && MarksOf(content, objects, refs, marked)
    requires SubmodulesAreForeign(content, refs) && NamedBySubmodule(content, refs, x)
    ensures x in marked
  {
    MarksFacts(content, objects, refs, marked);
    var t :| Live(content, refs, t) && Names(content, t, x);
    MarksAreSound(content, objects, refs, marked);
    ForeignMeansPlain(content, refs, t);
    if LeafIn(content, objects, refs, marked, t) {
      var u := LeafIsNamed(content, objects, refs, marked, t);
      assert NamedBySubmodule(content, refs, t);
    } else {
      var e :| e in content(t).entries && e.mode == Submodule && e.hash == x;
      EntryIsItem(content, t, e);
    }
  }

  lemma WalksOn(content: Content, objects: set<Hash>, refs: T.RefMap, order: seq<string>, marked: set<Hash>, n: string, m: set<Hash>)
    requires WalksTo(content, objects, refs, order, marked) && n in refs
    requires Walk(content, objects, [Node(refs[n])], marked) == Some(m)
    ensures WalksTo(content, objects, refs, order + [n], m)
  {
    WalkAppend(content, objects, RefItems(refs, order), [Node(refs[n])], {});
    assert RefItems(refs, order + [n]) == RefItems(refs, order) + [Node(refs[n])];
  }

  /** Mark from every ref. */
  method MarkRefs(content: Content, ghost rank: Hash -> nat, objects: set<Hash>, refs: T.RefMap) returns (ok: bool, marked: set<Hash>)
    requires Acyclic(content, rank) && WellTyped(content)
    ensures ok ==> MarksOf(content, objects, refs, marked)
    ensures !ok ==> LacksLive(content, objects, refs)
  {
    marked := {};
    var todo := refs.Keys;
    ghost var order: seq<string> := [];
    while todo != {}
      invariant todo <= refs.Keys && forall n :: n in refs ==> n in order || n in todo
      invariant WalksTo(content, objects, refs, order, marked)
      decreases |todo|
    {
      var n :| n in todo;
      todo := todo - {n};
      var before := marked;
      ok, marked := MarkReachable(content, rank, objects, refs[n], before);
      if !ok {
        ReachesSelf(content, refs[n]);
        WalkFailsOnLack(content, objects, refs, [Node(refs[n])], before);
        return;
      }
      WalksOn(content, objects, refs, order, before, n, marked);
      order := order + [n];
    }
    ok := true;
  }

  // ---------- the prune ----------

  datatype Pruned = Done | WalkFailed | DeleteFailed

  /** Every state since the prune began only lost objects outside marked. */
  ghost predicate OnlyLost(before: set<Hash>, marked: set<Hash>, trace: seq<T.Snapshot>) {
    forall i :: 0 <= i < |trace| ==> before * marked <= trace[i].objects <= before
  }

  /** Delete the unmarked loose objects older than cutoff; loose gives the time
      of each loose object, and packed objects have none. */
  method Sweep(repo: T.Repo, marked: set<Hash>, loose: map<Hash, int>, cutoff: int) returns (ok: bool)
    modifies repo
    ensures repo.refs == old(repo.refs)
    ensures old(repo.trace) <= repo.trace && OnlyLost(old(repo.objects), marked, repo.trace[|old(repo.trace)|..])
    ensures old(repo.objects) * marked <= repo.objects <= old(repo.objects)
    ensures forall h :: h in old(repo.objects) && h !in repo.objects ==> h in loose && loose[h] < cutoff
    ensures ok ==> forall h :: h in repo.objects && h in loose && loose[h] < cutoff ==> h in marked
    ensures repo.calm ==> ok
  {
    var todo := loose.Keys;
    while todo != {}
      invariant todo <= loose.Keys && repo.refs == old(repo.refs)
      invariant old(repo.trace) <= repo.trace && OnlyLost(old(repo.objects), marked, repo.trace[|old(repo.trace)|..])
      invariant old(repo.objects) * marked <= repo.objects <= old(repo.objects)
      invariant forall h :: h in old(repo.objects) && h !in repo.objects ==> h in loose && loose[h] < cutoff
      invariant forall h :: h in repo.objects && h in loose && h !in todo && loose[h] < cutoff ==> h in marked
      decreases |todo|
    {
      var h :| h in todo;
      todo := todo - {h};
      if h in marked || !(loose[h] < cutoff) {
        continue;
      }
      ghost var before := repo.trace;
      ok := repo.Delete(h);
      if !ok {
        return;
      }
      assert repo.trace[|old(repo.trace)|..] == before[|old(repo.trace)|..] + [repo.Now()];
    }
    ok := true;
  }

  ghost predicate KeepsPlainlyLive(content: Content, before: T.Snapshot, after: T.Snapshot) {
    after.objects <= before.objects
    && forall x :: x in before.objects && PlainlyLive(content, before.refs, x) ==> x in after.objects
  }

  /** Of the loose objects old enough, exactly the marked ones are left. */
  ghost predicate LeavesMarked(before: set<Hash>, after: set<Hash>, loose: map<Hash, int>, cutoff: int, marked: set<Hash>) {
    forall h :: h in before && h in loose && loose[h] < cutoff ==> (h in after <==> h in marked)
  }

  /** Exactly what some walk over the refs marked is left, and each mark has a reason. */
  ghost predicate KeepsMarked(content: Content, before: T.Snapshot, after: set<Hash>, loose: map<Hash, int>, cutoff: int) {
    exists marked :: MarksOf(content, before.objects, before.refs, marked) && Justified(content, before.refs, marked)
      && LeavesMarked(before.objects, after, loose, cutoff, marked)
  }

  /** Packed, or too young to go. */
  predicate Spared(loose: map<Hash, int>, cutoff: int, h: Hash) {
    h !in loose || loose[h] >= cutoff
  }

  /** What a finished prune did. */
  ghost predicate Pruning(content: Content, before: T.Snapshot, after: T.Snapshot, loose: map<Hash, int>, cutoff: int) {
    && after.refs == before.refs && KeepsPlainlyLive(content, before, after)
    && KeepsMarked(content, before, after.objects, loose, cutoff)
    && forall h :: h in before.objects && Spared(loose, cutoff, h) ==> h in after.objects
  }

  method PruneUnreachable(content: Content, ghost rank: Hash -> nat, repo: T.Repo, loose: map<Hash, int>, now: int, grace: nat) returns (r: Pruned)
    requires Acyclic(content, rank) && WellTyped(content)
    modifies repo
    ensures repo.refs == old(repo.refs) && old(repo.trace) <= repo.trace
    ensures r == WalkFailed ==> repo.objects == old(repo.objects) && repo.trace == old(repo.trace)
    ensures r == WalkFailed ==> LacksLive(content, old(repo.objects), repo.refs)
    ensures r == DeleteFailed ==> !repo.calm
    ensures KeepsPlainlyLive(content, old(repo.Now()), repo.Now())
    ensures forall i :: |old(repo.trace)| <= i < |repo.trace| ==> KeepsPlainlyLive(content, old(repo.Now()), repo.trace[i])
    ensures forall h :: h in old(repo.objects) && h !in repo.objects ==> !Spared(loose, now - grace, h)
    ensures r == Done ==> Pruning(content, old(repo.Now()), repo.Now(), loose, now - grace)
  {
    var ok, marked := MarkRefs(content, rank, repo.objects, repo.refs);
    if !ok {
      return WalkFailed;
    }
    MarksAreSound(content, repo.objects, repo.refs, marked);
    ghost var trace := repo.trace;
    ok := Sweep(repo, marked, loose, now - grace);
    forall i | |trace| <= i < |repo.trace| ensures KeepsPlainlyLive(content, old(repo.Now()), repo.trace[i]) {
      assert repo.trace[i] == repo.trace[|trace|..][i - |trace|];
    }
    r := if ok then Done else DeleteFailed;
  }

  /** Nothing a ref reaches is lost, whatever the grace and wherever it stops,
      as long as no ref reaches a commit that a live submodule entry names. */
  lemma RefsStayComplete(content: Content, before: T.Snapshot, after: T.Snapshot, n: string)
    requires KeepsPlainlyLive(content, before, after) && SubmodulesAreForeign(content, before.refs)
    requires n in before.refs && Complete(content, before.objects, before.refs[n])
    ensures Complete(content, after.objects, before.refs[n])
  {
    forall x | Reaches(content, before.refs[n], x) ensures x in after.objects {
      assert Live(content, before.refs, x);
      ForeignMeansPlain(content, before.refs, x);
    }
  }

  /** A live commit that the walk met first as a submodule entry, with a child it never marked. */
  ghost predicate Hidden(content: Content, refs: T.RefMap, marked: set<Hash>, x: Hash, c: Hash) {
    x in marked && Live(content, refs, x) && NamedBySubmodule(content, refs, x) && Child(content, x, c) && c !in marked
  }

  lemma {:induction false} FirstUnmarked(content: Content, objects: set<Hash>, refs: T.RefMap, marked: set<Hash>, path: seq<Hash>, n: string, i: nat)
    returns (x: Hash, c: Hash)
    requires WellTyped(content) && Explained(content, objects, refs, {}, marked)
    requires n in refs && IsPath(content, path) && path[0] == refs[n] && refs[n] in marked && i < |path| && path[i] !in marked
    ensures Hidden(content, refs, marked, x, c)
  {
    if path[i - 1] in marked {
      x, c := path[i - 1], path[i];
      assert Child(content, path[i - 1], path[i]);
      LiveAlong(content, refs, path, n, i - 1);
      if !NamedBySubmodule(content, refs, x) {
        MarksSpread(content, objects, refs, marked, x, c);
      }
    } else {
      x, c := FirstUnmarked(content, objects, refs, marked, path, n, i - 1);
    }
  }

  /** For given refs in whatever order: the walk misses something live exactly
      when it hid a live commit's child behind a submodule entry. */
  lemma MissesLiveIff(content: Content, objects: set<Hash>, refs: T.RefMap, marked: set<Hash>)
    requires WellTyped(content) && MarksOf(content, objects, refs, marked)
    ensures (exists y :: Live(content, refs, y) && y !in marked) <==> exists x, c :: Hidden(content, refs, marked, x, c)
  {
    MarksFacts(content, objects, refs, marked);
    if y :| Live(content, refs, y) && y !in marked {
      var n :| n in refs && Reaches(content, refs[n], y);
      var path :| Joins(content, path, refs[n], y);
      var x, c := FirstUnmarked(content, objects, refs, marked, path, n, |path| - 1);
    }
    if x, c :| Hidden(content, refs, marked, x, c) {
      LiveChild(content, refs, x, c);
    }
  }

  /** A finished prune leaves a complete ref complete exactly when all of its
      history is spared or marked by the walk the prune made. */
  lemma RefCompleteIff(content: Content, before: T.Snapshot, after: set<Hash>, loose: map<Hash, int>, cutoff: int, marked: set<Hash>, n: string)
    requires n in before.refs && Complete(content, before.objects, before.refs[n])
    requires LeavesMarked(before.objects, after, loose, cutoff, marked) && after <= before.objects
    requires forall h :: h in before.objects && Spared(loose, cutoff, h) ==> h in after
    ensures Complete(content, after, before.refs[n]) <==>
      forall x :: Reaches(content, before.refs[n], x) ==> Spared(loose, cutoff, x) || x in marked
  {
    if Complete(content, after, before.refs[n]) {
      forall x | Reaches(content, before.refs[n], x) ensures Spared(loose, cutoff, x) || x in marked {
        assert x in before.objects && x in after;
      }
    } else {
      var x :| Reaches(content, before.refs[n], x) && x !in after;
      assert x in before.objects;
    }
  }

  lemma LiveIsHeld(content: Content, s: T.Snapshot, x: Hash)
    requires T.Sound(content, s) && Live(content, s.refs, x)
    ensures x in s.objects
  {
    var n :| n in s.refs && Reaches(content, s.refs[n], x);
    ClosedIsComplete(content, s.objects, s.refs[n]);
  }

  /** What a prune keeps, as a caller can tell beforehand. */
  ghost predicate Kept(content: Content, before: T.Snapshot, loose: map<Hash, int>, cutoff: int, h: Hash) {
    h in before.objects && (Spared(loose, cutoff, h) || Live(content, before.refs, h) || NamedBySubmodule(content, before.refs, h))
  }

  /** With foreign submodules a prune leaves exactly what is spared, live or named. */
  lemma PruneLeavesKept(content: Content, before: T.Snapshot, after: T.Snapshot, loose: map<Hash, int>, cutoff: int, h: Hash)
    requires WellTyped(content) && SubmodulesAreForeign(content, before.refs)
    requires Pruning(content, before, after, loose, cutoff)
    ensures h in after.objects <==> Kept(content, before, loose, cutoff, h)
  {
    var marked :| MarksOf(content, before.objects, before.refs, marked) && Justified(content, before.refs, marked)
      && LeavesMarked(before.objects, after.objects, loose, cutoff, marked);
    MarksAreSound(content, before.objects, before.refs, marked);
    if Live(content, before.refs, h) {
      ForeignMeansPlain(content, before.refs, h);
    }
    if NamedBySubmodule(content, before.refs, h) {
      NamedIsMarked(content, before.objects, before.refs, marked, h);
    }
  }

  /** A prune leaves the store closed exactly when no object that is only
      spared or named has a child that goes. */
  lemma ClosedAfterPruneIff(content: Content, before: T.Snapshot, after: T.Snapshot, loose: map<Hash, int>, cutoff: int)
    requires WellTyped(content) && T.Sound(content, before) && SubmodulesAreForeign(content, before.refs)
    requires Pruning(content, before, after, loose, cutoff)
    ensures Closed(content, after.objects) <==>
      forall h, c :: h in before.objects && Child(content, h, c) && (Spared(loose, cutoff, h) || NamedBySubmodule(content, before.refs, h)) ==>
        Kept(content, before, loose, cutoff, c)
  {
    forall h ensures h in after.objects <==> Kept(content, before, loose, cutoff, h) {
      PruneLeavesKept(content, before, after, loose, cutoff, h);
    }
    forall h, c | Live(content, before.refs, h) && Child(content, h, c) ensures Kept(content, before, loose, cutoff, c) {
      LiveChild(content, before.refs, h, c);
      LiveIsHeld(content, before, c);
    }
  }

  /** With no grace to spare, no packs, and no stored submodule commit, what is
      left of a sound store is exactly what the refs reach, and it is closed. */
  lemma ZeroGraceLeavesExactlyTheLive(content: Content, before: T.Snapshot, after: T.Snapshot, loose: map<Hash, int>, cutoff: int)
    requires WellTyped(content) && T.Sound(content, before) && Pruning(content, before, after, loose, cutoff)
    requires forall x :: NamedBySubmodule(content, before.refs, x) ==> x !in before.objects
    requires forall h :: h in before.objects ==> !Spared(loose, cutoff, h)
    ensures forall x :: x in after.objects <==> Live(content, before.refs, x)
    ensures Closed(content, after.objects)
  {
    forall y | NamedBySubmodule(content, before.refs, y) ensures !Live(content, before.refs, y) {
      if Live(content, before.refs, y) {
        LiveIsHeld(content, before, y);
      }
    }
    forall x ensures x in after.objects <==> Live(content, before.refs, x) {
      PruneLeavesKept(content, before, after, loose, cutoff, x);
      if Live(content, before.refs, x) {
        LiveIsHeld(content, before, x);
      }
    }
    ClosedAfterPruneIff(content, before, after, loose, cutoff);
  }
}

/** The object graph of a repository. Objects are content addressed: the object
    an ID names is the same in every store, so one function gives the content
    and a store is the set of IDs it holds. Content addressing also makes the
    graph acyclic, which the rank expresses. */
module Objects {
  type Hash = nat

  datatype Mode = Dir | File | Submodule
  datatype Entry = Entry(mode: Mode, hash: Hash)

  datatype Object =
    | Blob
    | Tree(entries: seq<Entry>)
    | Commit(tree: Hash, parents: seq<Hash>)
    | Tag(target: Hash)

  type Content = Hash -> Object

  /** The entries a copy follows: submodule entries name commits of other repositories. */
  function Followed(entries: seq<Entry>): (hs: seq<Hash>)
    ensures forall h :: h in hs <==> exists e :: e in entries && e.mode != Submodule && e.hash == h
  {
    if entries == [] then []
    else
      var rest := Followed(entries[1..]);
      assert entries == [entries[0]] + entries[1..];
      if entries[0].mode == Submodule then rest else [entries[0].hash] + rest
  }

  function Children(o: Object): seq<Hash> {
    match o
    case Blob => []
    case Tree(entries) => Followed(entries)
    case Commit(tree, parents) => parents + [tree]
    case Tag(target) => [target]
  }

  ghost predicate Child(content: Content, h: Hash, c: Hash) {
    c in Children(content(h))
  }

  /** A commit needs its tree and parents, a tag its target, and a tree what its
      entries name, except in other repositories. */
  lemma ChildMeans(content: Content, h: Hash, c: Hash)
    ensures Child(content, h, c) <==>
      match content(h)
      case Blob => false
      case Tree(entries) => exists e :: e in entries && e.mode != Submodule && e.hash == c
      case Commit(tree, parents) => c == tree || c in parents
      case Tag(target) => c == target
  {
  }

  ghost predicate Acyclic(content: Content, rank: Hash -> nat) {
    forall h, c :: Child(content, h, c) ==> rank(c) < rank(h)
  }

  /** The modes and fields of h name objects of their own kind. */
  ghost predicate TypedAt(content: Content, h: Hash) {
    match content(h)
    case Tree(entries) => forall e :: e in entries ==>
      (e.mode == Dir ==> content(e.hash).Tree?) && (e.mode == File ==> content(e.hash).Blob?)
    case Commit(tree, parents) => content(tree).Tree? && forall p :: p in parents ==> content(p).Commit?
    case _ => true
  }

  ghost predicate WellTyped(content: Content) {
    forall h :: TypedAt(content, h)
  }

  ghost predicate Closed(content: Content, held: set<Hash>) {
    forall h, c :: h in held && Child(content, h, c) ==> c in held
  }

  ghost predicate IsPath(content: Content, path: seq<Hash>) {
    |path| > 0 && forall i, j :: 0 <= i && j == i + 1 < |path| ==> Child(content, path[i], path[j])
  }

  ghost predicate Joins(content: Content, path: seq<Hash>, a: Hash, b: Hash) {
    IsPath(content, path) && path[0] == a && path[|path| - 1] == b
  }

  /** b is a or something a leads to. */
  ghost predicate Reaches(content: Content, a: Hash, b: Hash) {
    exists path :: Joins(content, path, a, b)
  }

  /** Everything h reaches is in objects. */
  ghost predicate Complete(content: Content, objects: set<Hash>, h: Hash) {
    forall x :: Reaches(content, h, x) ==> x in objects
  }

  lemma ReachesSelf(content: Content, h: Hash)
    ensures Reaches(content, h, h)
  {
    assert Joins(content, [h], h, h);
  }

  lemma JoinsChild(content: Content, path: seq<Hash>, a: Hash, b: Hash, c: Hash)
    requires Joins(content, path, a, b) && Child(content, b, c)
    ensures Joins(content, path + [c], a, c)
  {
    assert forall i :: 0 <= i < |path| ==> (path + [c])[i] == path[i];
  }

  lemma ReachesThenChild(content: Content, a: Hash, b: Hash, c: Hash)
    requires Reaches(content, a, b) && Child(content, b, c)
    ensures Reaches(content, a, c)
  {
    var path :| Joins(content, path, a, b);
    JoinsChild(content, path, a, b, c);
  }

  lemma ReachesThroughChild(content: Content, h: Hash, c: Hash, x: Hash)
    requires Child(content, h, c) && Reaches(content, c, x)
    ensures Reaches(content, h, x)
  {
    var path :| Joins(content, path, c, x);
    var longer := [h] + path;
    assert forall i :: 0 < i < |longer| ==> longer[i] == path[i - 1];
    assert Joins(content, longer, h, x);
  }

  lemma PrefixReaches(content: Content, path: seq<Hash>, n: nat)
    requires IsPath(content, path) && n < |path|
    ensures Reaches(content, path[0], path[n])
  {
    var part := path[..n + 1];
    assert forall i :: 0 <= i <= n ==> part[i] == path[i];
    assert Joins(content, part, path[0], path[n]);
  }

  lemma {:induction false} ClosedAlong(content: Content, held: set<Hash>, path: seq<Hash>, n: nat)
    requires Closed(content, held) && IsPath(content, path) && path[0] in held && n < |path|
    ensures path[n] in held
  {
    if n > 0 {
      ClosedAlong(content, held, path, n - 1);
      assert Child(content, path[n - 1], path[n]);
    }
  }

  /** A closed store that holds h holds everything h reaches. */
  lemma ClosedIsComplete(content: Content, held: set<Hash>, h: Hash)
    requires Closed(content, held) && h in held
    ensures Complete(content, held, h)
  {
    forall x | Reaches(content, h, x) ensures x in held {
      var path :| Joins(content, path, h, x);
      ClosedAlong(content, held, path, |path| - 1);
    }
  }

  /** h leads to x without passing through have. */
  ghost predicate ReachesOutside(content: Content, have: set<Hash>, h: Hash, x: Hash) {
    exists path :: Joins(content, path, h, x) && forall i :: 0 <= i < |path| ==> path[i] !in have
  }

  lemma OutsideSelf(content: Content, have: set<Hash>, h: Hash)
    requires h !in have
    ensures ReachesOutside(content, have, h, h)
  {
    assert Joins(content, [h], h, h);
  }

  lemma OutsideThroughChild(content: Content, have: set<Hash>, h: Hash, c: Hash, x: Hash)
    requires h !in have && Child(content, h, c) && ReachesOutside(content, have, c, x)
    ensures ReachesOutside(content, have, h, x)
  {
    var path :| Joins(content, path, c, x) && forall i :: 0 <= i < |path| ==> path[i] !in have;
    var longer := [h] + path;
    assert forall i :: 0 < i < |longer| ==> longer[i] == path[i - 1];
    assert Joins(content, longer, h, x);
  }

  lemma OutsideIsReached(content: Content, have: set<Hash>, h: Hash, x: Hash)
    requires ReachesOutside(content, have, h, x)
    ensures Reaches(content, h, x)
  {
  }

  /** What avoids more avoids less. */
  lemma OutsideFewer(content: Content, have: set<Hash>, more: set<Hash>, h: Hash, x: Hash)
    requires have <= more && ReachesOutside(content, more, h, x)
    ensures ReachesOutside(content, have, h, x)
  {
    var path :| Joins(content, path, h, x) && forall i :: 0 <= i < |path| ==> path[i] !in more;
    assert forall i :: 0 <= i < |path| ==> path[i] !in have;
  }
}

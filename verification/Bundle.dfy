/** Bundles: choosing the objects a bundle carries, and unpacking it elsewhere. */
module Bundle {
  import opened Options
  import opened Objects
  import T = Transfer

  // ---------- ancestry ----------

  /** A line of history inside repo: each commit's successor is a parent that repo holds. */
  ghost predicate History(content: Content, repo: set<Hash>, path: seq<Hash>) {
    |path| > 0 && forall i, j :: 0 <= i && j == i + 1 < |path| ==> HeldParent(content, repo, path[i], path[j])
  }

  ghost predicate HeldParent(content: Content, repo: set<Hash>, c: Hash, p: Hash) {
    content(c).Commit? && p in content(c).parents && p in repo && content(p).Commit?
  }

  ghost predicate HasAncestor(content: Content, repo: set<Hash>, c: Hash, target: Hash) {
    exists path :: History(content, repo, path) && path[0] == c && path[|path| - 1] == target
  }

  /** The search has left seen closed under held parents since from, without meeting target. */
  ghost predicate Explored(content: Content, repo: set<Hash>, target: Hash, from: set<Hash>, seen: set<Hash>) {
    && from <= seen
    && (target in seen ==> target in from)
    && (forall c, p :: c in seen && c !in from && HeldParent(content, repo, c, p) ==> p in seen)
  }

  lemma {:induction false} NotOnExploredPath(content: Content, repo: set<Hash>, target: Hash, seen: set<Hash>, path: seq<Hash>, n: nat)
    requires Explored(content, repo, target, {}, seen) && History(content, repo, path) && path[0] in seen && n < |path|
    ensures path[n] in seen && path[n] != target
  {
    if n > 0 {
      NotOnExploredPath(content, repo, target, seen, path, n - 1);
      assert HeldParent(content, repo, path[n - 1], path[n]);
    }
  }

  lemma AncestorThroughParent(content: Content, repo: set<Hash>, c: Hash, p: Hash, target: Hash)
    requires HeldParent(content, repo, c, p) && HasAncestor(content, repo, p, target)
    ensures HasAncestor(content, repo, c, target)
  {
    var path :| History(content, repo, path) && path[0] == p && path[|path| - 1] == target;
    var longer := [c] + path;
    assert forall i :: 0 < i < |longer| ==> longer[i] == path[i - 1];
    assert History(content, repo, longer);
  }

  /** The depth-first visit behind ReachableFrom. */
  method Visit(content: Content, ghost rank: Hash -> nat, repo: set<Hash>, c: Hash, target: Hash, seen: set<Hash>)
    returns (found: bool, seen': set<Hash>)
    requires Acyclic(content, rank)
    ensures found ==> HasAncestor(content, repo, c, target)
    ensures !found ==> c in seen' && Explored(content, repo, target, seen, seen')
    decreases rank(c)
  {
    seen' := seen;
    if c == target {
      assert History(content, repo, [c]);
      return true, seen';
    }
    if c in seen {
      return false, seen';
    }
    seen' := seen' + {c};
    if content(c).Commit? {
      var parents := content(c).parents;
      for i := 0 to |parents|
        invariant Explored(content, repo, target, seen + {c}, seen')
        invariant forall j :: 0 <= j < i && HeldParent(content, repo, c, parents[j]) ==> parents[j] in seen'
      {
        if parents[i] in repo && content(parents[i]).Commit? {
          assert Child(content, c, parents[i]);
          found, seen' := Visit(content, rank, repo, parents[i], target, seen');
          if found {
            AncestorThroughParent(content, repo, c, parents[i], target);
            return true, seen';
          }
        }
      }
    }
    found := false;
  }

  /** Whether target is c or one of its ancestors, as far as repo's history goes. */
  method ReachableFrom(content: Content, ghost rank: Hash -> nat, repo: set<Hash>, c: Hash, target: Hash) returns (found: bool)
    requires Acyclic(content, rank)
    ensures found <==> HasAncestor(content, repo, c, target)
  {
    var seen;
    found, seen := Visit(content, rank, repo, c, target, {});
    if !found && HasAncestor(content, repo, c, target) {
      ghost var path :| History(content, repo, path) && path[0] == c && path[|path| - 1] == target;
      NotOnExploredPath(content, repo, target, seen, path, |path| - 1);
    }
  }

  // ---------- selection ----------

  ghost predicate Distinct(s: seq<Hash>) {
    forall i, j :: 0 <= i < j < |s| ==> s[i] != s[j]
  }

  /** Everything in grown but not in from has its children in closure. */
  ghost predicate Walked(content: Content, from: set<Hash>, grown: set<Hash>, closure: set<Hash>) {
    from <= grown && forall x, c :: x in grown - from && Child(content, x, c) ==> c in closure
  }

  /** Everything in grown but not in from is reached from h. */
  ghost predicate Under(content: Content, h: Hash, from: set<Hash>, grown: set<Hash>) {
    forall x :: x in grown - from ==> Reaches(content, h, x)
  }

  lemma UnderChild(content: Content, h: Hash, c: Hash, s0: set<Hash>, s1: set<Hash>, s2: set<Hash>)
    requires Child(content, h, c) && Under(content, h, s0, s1) && Under(content, c, s1, s2)
    ensures Under(content, h, s0, s2)
  {
    forall x | x in s2 - s0 ensures Reaches(content, h, x) {
      if x in s2 - s1 {
        ReachesThroughChild(content, h, c, x);
      }
    }
  }

  /** Everything in grown but not in from is reached from h outside have. */
  ghost predicate Outside(content: Content, have: set<Hash>, h: Hash, from: set<Hash>, grown: set<Hash>) {
    forall x :: x in grown - from ==> ReachesOutside(content, have, h, x)
  }

  /** Something h reaches outside have is not in repo. */
  ghost predicate Lacks(content: Content, repo: set<Hash>, have: set<Hash>, h: Hash) {
    exists x :: ReachesOutside(content, have, h, x) && x !in repo
  }

  /** A tree that h reaches is not in repo. */
  ghost predicate LacksTree(content: Content, repo: set<Hash>, h: Hash) {
    exists x :: Reaches(content, h, x) && content(x).Tree? && x !in repo
  }

  lemma OutsideChild(content: Content, have: set<Hash>, h: Hash, c: Hash, s0: set<Hash>, s1: set<Hash>, s2: set<Hash>)
    requires h !in have && Child(content, h, c) && Outside(content, have, h, s0, s1) && Outside(content, have, c, s1, s2)
    ensures Outside(content, have, h, s0, s2)
  {
    forall x | x in s2 - s0 ensures ReachesOutside(content, have, h, x) {
      if x in s2 - s1 {
        OutsideThroughChild(content, have, h, c, x);
      }
    }
  }

  lemma LacksThroughChild(content: Content, repo: set<Hash>, have: set<Hash>, h: Hash, c: Hash)
    requires h !in have && Child(content, h, c) && Lacks(content, repo, have, c)
    ensures Lacks(content, repo, have, h)
  {
    var x :| ReachesOutside(content, have, c, x) && x !in repo;
    OutsideThroughChild(content, have, h, c, x);
  }

  lemma LacksTreeThroughChild(content: Content, repo: set<Hash>, h: Hash, c: Hash)
    requires Child(content, h, c) && LacksTree(content, repo, c)
    ensures LacksTree(content, repo, h)
  {
    var x :| Reaches(content, c, x) && content(x).Tree? && x !in repo;
    ReachesThroughChild(content, h, c, x);
  }

  lemma EntryIsChild(content: Content, h: Hash, e: Entry)
    requires WellTyped(content) && content(h).Tree? && e in content(h).entries && e.mode != Submodule
    ensures Child(content, h, e.hash) && Reaches(content, h, e.hash)
    ensures e.mode == File ==> content(e.hash).Blob?
    ensures e.mode == Dir ==> content(e.hash).Tree?
  {
    assert TypedAt(content, h);
    ReachesSelf(content, e.hash);
    ReachesThroughChild(content, h, e.hash, e.hash);
  }

  lemma WalkedJoin(content: Content, s0: set<Hash>, s1: set<Hash>, c1: set<Hash>, s2: set<Hash>, c2: set<Hash>)
    requires Walked(content, s0, s1, c1) && Walked(content, s1, s2, c2) && c1 <= c2
    ensures Walked(content, s0, s2, c2)
  {
    forall x, c | x in s2 - s0 && Child(content, x, c) ensures c in c2 {
      if x in s1 {
        assert x in s1 - s0;
      } else {
        assert x in s2 - s1;
      }
    }
  }

  lemma WalkedWithBlob(content: Content, from: set<Hash>, grown: set<Hash>, closure: set<Hash>, b: Hash)
    requires Walked(content, from, grown, closure) && content(b).Blob?
    ensures Walked(content, from, grown + {b}, closure + {b})
  {
  }

  /** Once all its entries are recorded, the tree itself counts as walked. */
  lemma TreeWalked(content: Content, from: set<Hash>, h: Hash, grown: set<Hash>, closure: set<Hash>)
    requires Walked(content, from + {h}, grown, closure) && content(h).Tree?
    requires forall j :: 0 <= j < |content(h).entries| && content(h).entries[j].mode != Submodule ==> content(h).entries[j].hash in closure
    ensures Walked(content, from, grown, closure)
  {
    forall x, c | x in grown - from && Child(content, x, c) ensures c in closure {
      if x != h {
        assert x in grown - (from + {h});
      }
    }
  }

  /** The trees in grown but not in from are in repo. */
  ghost predicate TreesIn(content: Content, repo: set<Hash>, from: set<Hash>, grown: set<Hash>) {
    forall x :: x in grown - from && content(x).Tree? ==> x in repo
  }

  /** The first n entries of tree h are among closure. */
  ghost predicate EntriesIn(content: Content, h: Hash, n: nat, closure: set<Hash>) {
    content(h).Tree? && n <= |content(h).entries|
    && forall j :: 0 <= j < n && content(h).entries[j].mode != Submodule ==> content(h).entries[j].hash in closure
  }

  /** The walk of base's tree is n entries into tree h. */
  ghost predicate HadSoFar(content: Content, repo: set<Hash>, h: Hash, from: set<Hash>, have: set<Hash>, n: nat) {
    && from + {h} <= have && EntriesIn(content, h, n, have)
    && Under(content, h, from, have) && TreesIn(content, repo, from, have) && Walked(content, from + {h}, have, have)
  }

  lemma HadDir(content: Content, repo: set<Hash>, h: Hash, from: set<Hash>, mid: set<Hash>, have: set<Hash>, n: nat)
    requires HadSoFar(content, repo, h, from, mid, n) && n < |content(h).entries|
    requires var c := content(h).entries[n].hash; Child(content, h, c) && c in have && Under(content, c, mid, have)
    requires Walked(content, mid, have, have) && TreesIn(content, repo, mid, have)
    ensures HadSoFar(content, repo, h, from, have, n + 1)
  {
    UnderChild(content, h, content(h).entries[n].hash, from, mid, have);
    WalkedJoin(content, from + {h}, mid, mid, have, have);
  }

  lemma HadFile(content: Content, repo: set<Hash>, h: Hash, from: set<Hash>, have: set<Hash>, n: nat)
    requires HadSoFar(content, repo, h, from, have, n) && n < |content(h).entries|
    requires var c := content(h).entries[n].hash; content(c).Blob? && Reaches(content, h, c)
    ensures HadSoFar(content, repo, h, from, have + {content(h).entries[n].hash}, n + 1)
  {
    WalkedWithBlob(content, from + {h}, have, have, content(h).entries[n].hash);
  }

  /** The selection is n entries into tree h. */
  ghost predicate PickedSoFar(content: Content, have: set<Hash>, h: Hash, from: set<Hash>, seen: set<Hash>, n: nat) {
    && h !in have && from + {h} <= seen && EntriesIn(content, h, n, seen + have)
    && Outside(content, have, h, from, seen) && Walked(content, from + {h}, seen, seen + have)
  }

  lemma PickedDir(content: Content, have: set<Hash>, h: Hash, from: set<Hash>, mid: set<Hash>, seen: set<Hash>, n: nat)
    requires PickedSoFar(content, have, h, from, mid, n) && n < |content(h).entries|
    requires var c := content(h).entries[n].hash; Child(content, h, c) && c in seen + have && Outside(content, have, c, mid, seen)
    requires Walked(content, mid, seen, seen + have)
    ensures PickedSoFar(content, have, h, from, seen, n + 1)
  {
    OutsideChild(content, have, h, content(h).entries[n].hash, from, mid, seen);
    WalkedJoin(content, from + {h}, mid, mid + have, seen, seen + have);
  }

  lemma PickedFile(content: Content, have: set<Hash>, h: Hash, from: set<Hash>, mid: set<Hash>, seen: set<Hash>, n: nat)
    requires PickedSoFar(content, have, h, from, mid, n) && n < |content(h).entries|
    requires var c := content(h).entries[n].hash; Child(content, h, c) && content(c).Blob?
    requires var c := content(h).entries[n].hash; seen == if c in have then mid else mid + {c}
    ensures PickedSoFar(content, have, h, from, seen, n + 1)
  {
    var c := content(h).entries[n].hash;
    if c !in have {
      OutsideSelf(content, have, c);
      OutsideThroughChild(content, have, h, c, c);
      WalkedWithBlob(content, from + {h}, mid, mid + have, c);
      assert mid + have + {c} == seen + have;
    }
  }

  /** The selection has done commit c's tree and its first n parents. */
  ghost predicate FollowedSoFar(content: Content, have: set<Hash>, c: Hash, from: set<Hash>, seen: set<Hash>, n: nat) {
    && c !in have && from + {c} <= seen && content(c).Commit? && n <= |content(c).parents|
    && content(c).tree in seen + have && (forall j :: 0 <= j < n ==> content(c).parents[j] in seen + have)
    && Outside(content, have, c, from, seen) && Walked(content, from + {c}, seen, seen + have)
  }

  lemma FollowedParent(content: Content, have: set<Hash>, c: Hash, from: set<Hash>, mid: set<Hash>, seen: set<Hash>, n: nat)
    requires FollowedSoFar(content, have, c, from, mid, n) && n < |content(c).parents|
    requires content(c).parents[n] in seen + have && Outside(content, have, content(c).parents[n], mid, seen)
    requires Walked(content, mid, seen, seen + have)
    ensures FollowedSoFar(content, have, c, from, seen, n + 1)
  {
    assert Child(content, c, content(c).parents[n]);
    OutsideChild(content, have, c, content(c).parents[n], from, mid, seen);
    WalkedJoin(content, from + {c}, mid, mid + have, seen, seen + have);
  }

  lemma CommitWalked(content: Content, have: set<Hash>, c: Hash, from: set<Hash>, seen: set<Hash>)
    requires content(c).Commit? && FollowedSoFar(content, have, c, from, seen, |content(c).parents|)
    ensures Walked(content, from, seen, seen + have)
  {
    forall x, y | x in seen - from && Child(content, x, y) ensures y in seen + have {
      if x != c {
        assert x in seen - (from + {c});
      }
    }
  }

  class BundleSelection {
    var have: set<Hash>
    var seen: set<Hash>
    var objects: seq<Hash>

    ghost predicate Valid()
      reads this
    {
      Distinct(objects) && (forall h :: h in objects <==> h in seen) && seen !! have
    }

    constructor ()
      ensures Valid() && have == {} && seen == {}
    {
      have, seen, objects := {}, {}, [];
    }

    method Add(h: Hash) returns (added: bool)
      requires Valid()
      modifies `seen, `objects
      ensures Valid()
      ensures added <==> h !in have && h !in old(seen)
      ensures seen == if added then old(seen) + {h} else old(seen)
    {
      if h in have || h in seen {
        return false;
      }
      seen := seen + {h};
      objects := objects + [h];
      added := true;
    }

    /** Record base's tree and its contents as already there. */
    method HaveTree(content: Content, ghost rank: Hash -> nat, repo: set<Hash>, h: Hash) returns (ok: bool)
      requires Valid() && Acyclic(content, rank) && WellTyped(content) && seen == {}
      modifies `have
      ensures Valid()
      ensures old(have) <= have && Under(content, h, old(have), have)
      ensures ok ==> h in have && Walked(content, old(have), have, have)
      ensures ok ==> TreesIn(content, repo, old(have), have)
      ensures !ok && content(h).Tree? ==> LacksTree(content, repo, h)
      decreases rank(h)
    {
      ReachesSelf(content, h);
      if h in have {
        return true;
      }
      have := have + {h};
      if h !in repo || !content(h).Tree? {
        return false;
      }
      var entries := content(h).entries;
      for i := 0 to |entries|
        invariant Valid() && HadSoFar(content, repo, h, old(have), have, i)
      {
        var e := entries[i];
        ghost var mid := have;
        if e.mode == Dir {
          EntryIsChild(content, h, e);
          ok := HaveTree(content, rank, repo, e.hash);
          if !ok {
            UnderChild(content, h, e.hash, old(have), mid, have);
            LacksTreeThroughChild(content, repo, h, e.hash);
            return;
          }
          HadDir(content, repo, h, old(have), mid, have, i);
        } else if e.mode == File {
          EntryIsChild(content, h, e);
          have := have + {e.hash};
          HadFile(content, repo, h, old(have), mid, i);
        }
      }
      TreeWalked(content, old(have), h, have, have);
      ok := true;
    }

    /** Select the tree and its contents, skipping what is already there or selected. */
    method AddTree(content: Content, ghost rank: Hash -> nat, repo: set<Hash>, h: Hash) returns (ok: bool)
      requires Valid() && Acyclic(content, rank) && WellTyped(content)
      modifies `seen, `objects
      ensures Valid()
      ensures old(seen) <= seen && Outside(content, have, h, old(seen), seen)
      ensures ok ==> h in seen + have && Walked(content, old(seen), seen, seen + have)
      ensures !ok && content(h).Tree? ==> Lacks(content, repo, have, h)
      decreases rank(h)
    {
      var added := Add(h);
      if !added {
        return true;
      }
      OutsideSelf(content, have, h);
      if h !in repo || !content(h).Tree? {
        return false;
      }
      var entries := content(h).entries;
      for i := 0 to |entries|
        invariant Valid() && PickedSoFar(content, have, h, old(seen), seen, i)
      {
        var e := entries[i];
        ghost var mid := seen;
        if e.mode == Dir {
          EntryIsChild(content, h, e);
          ok := AddTree(content, rank, repo, e.hash);
          if !ok {
            OutsideChild(content, have, h, e.hash, old(seen), mid, seen);
            LacksThroughChild(content, repo, have, h, e.hash);
            return;
          }
          PickedDir(content, have, h, old(seen), mid, seen, i);
        } else if e.mode == File {
          EntryIsChild(content, h, e);
          added := Add(e.hash);
          PickedFile(content, have, h, old(seen), mid, seen, i);
        }
      }
      TreeWalked(content, old(seen), h, seen, seen + have);
      ok := true;
    }

    /** Select the commit, its tree and its history. */
    method AddCommit(content: Content, ghost rank: Hash -> nat, repo: set<Hash>, c: Hash) returns (ok: bool)
      requires Valid() && Acyclic(content, rank) && WellTyped(content) && content(c).Commit?
      requires forall x :: x in have && content(x).Commit? ==> x in repo
      modifies `seen, `objects
      ensures Valid()
      ensures old(seen) <= seen && Outside(content, have, c, old(seen), seen)
      ensures ok ==> c in seen + have && Walked(content, old(seen), seen, seen + have)
      ensures !ok ==> Lacks(content, repo, have, c)
      decreases rank(c)
    {
      var added := Add(c);
      if !added {
        return true;
      }
      OutsideSelf(content, have, c);
      assert Child(content, c, content(c).tree) && TypedAt(content, c);
      ghost var mid := seen;
      ok := AddTree(content, rank, repo, content(c).tree);
      OutsideChild(content, have, c, content(c).tree, old(seen), mid, seen);
      if !ok {
        LacksThroughChild(content, repo, have, c, content(c).tree);
        return;
      }
      var parents := content(c).parents;
      for i := 0 to |parents|
        invariant Valid() && FollowedSoFar(content, have, c, old(seen), seen, i)
      {
        assert Child(content, c, parents[i]) && TypedAt(content, c);
        if parents[i] !in repo {
          OutsideSelf(content, have, parents[i]);
          LacksThroughChild(content, repo, have, c, parents[i]);
          return false;
        }
        mid := seen;
        ok := AddCommit(content, rank, repo, parents[i]);
        if !ok {
          OutsideChild(content, have, c, parents[i], old(seen), mid, seen);
          LacksThroughChild(content, repo, have, c, parents[i]);
          return;
        }
        FollowedParent(content, have, c, old(seen), mid, seen, i);
      }
      CommitWalked(content, have, c, old(seen), seen);
      ok := true;
    }
  }

  // ---------- creating a bundle ----------

  datatype Bundled = NothingToBundle | BundleFailed | Bundle(prerequisite: Option<Hash>, tip: Hash, pack: seq<Hash>)

  /** What it packs, together with everything the prerequisite reaches, covers
      everything the tip reaches. */
  ghost predicate Carries(content: Content, b: Bundled)
    requires b.Bundle?
  {
    forall x :: Reaches(content, b.tip, x) ==>
      x in b.pack || (b.prerequisite.Some? && Reaches(content, b.prerequisite.value, x))
  }

  /** What is left out of a pack is reached from the base. */
  ghost predicate FromBase(content: Content, base: Option<Hash>, have: set<Hash>) {
    forall x :: x in have ==> base.Some? && Reaches(content, base.value, x)
  }

  lemma WalkedChild(content: Content, from: set<Hash>, grown: set<Hash>, closure: set<Hash>, x: Hash, c: Hash)
    requires Walked(content, from, grown, closure) && x in grown && x !in from && Child(content, x, c)
    ensures c in closure
  {
    assert x in grown - from;
  }

  lemma ChildOfTree(content: Content, h: Hash, c: Hash)
    requires WellTyped(content) && (content(h).Tree? || content(h).Blob?) && Child(content, h, c)
    ensures content(c).Tree? || content(c).Blob?
  {
    assert TypedAt(content, h);
  }

  ghost predicate Carried(content: Content, base: Option<Hash>, seen: set<Hash>, x: Hash) {
    x in seen || (base.Some? && Reaches(content, base.value, x))
  }

  lemma CarriedChild(content: Content, base: Option<Hash>, have: set<Hash>, seen: set<Hash>, x: Hash, c: Hash)
    requires FromBase(content, base, have) && Walked(content, {}, seen, seen + have)
    requires Carried(content, base, seen, x) && Child(content, x, c)
    ensures Carried(content, base, seen, c)
  {
    if x in seen {
      WalkedChild(content, {}, seen, seen + have, x, c);
    } else {
      ReachesThenChild(content, base.value, x, c);
    }
  }

  lemma {:induction false} CarriedAlong(content: Content, base: Option<Hash>, have: set<Hash>, seen: set<Hash>, path: seq<Hash>, n: nat)
    requires FromBase(content, base, have) && Walked(content, {}, seen, seen + have)
    requires IsPath(content, path) && Carried(content, base, seen, path[0]) && n < |path|
    ensures Carried(content, base, seen, path[n])
  {
    if n > 0 {
      CarriedAlong(content, base, have, seen, path, n - 1);
      assert Child(content, path[n - 1], path[n]);
      CarriedChild(content, base, have, seen, path[n - 1], path[n]);
    }
  }

  lemma SelectionCarries(content: Content, base: Option<Hash>, have: set<Hash>, seen: set<Hash>, tip: Hash, x: Hash)
    requires FromBase(content, base, have) && Walked(content, {}, seen, seen + have) && tip in seen + have
    requires Reaches(content, tip, x)
    ensures x in seen || (base.Some? && Reaches(content, base.value, x))
  {
    var path :| Joins(content, path, tip, x);
    CarriedAlong(content, base, have, seen, path, |path| - 1);
  }

  lemma {:induction false} TreePathHad(content: Content, base: Hash, have: set<Hash>, path: seq<Hash>, n: nat)
    requires WellTyped(content) && content(base).Commit? && Walked(content, {base}, have, have)
    requires IsPath(content, path) && content(path[0]).Tree? && path[0] in have && n < |path|
    ensures path[n] in have && (content(path[n]).Tree? || content(path[n]).Blob?)
  {
    if n > 0 {
      TreePathHad(content, base, have, path, n - 1);
      assert Child(content, path[n - 1], path[n]);
      WalkedChild(content, {base}, have, have, path[n - 1], path[n]);
      ChildOfTree(content, path[n - 1], path[n]);
    }
  }

  /** base's commit and everything in its tree were recorded as already there. */
  lemma TreeOfBaseHad(content: Content, base: Hash, have: set<Hash>, x: Hash)
    requires WellTyped(content) && content(base).Commit? && content(base).tree in have && Walked(content, {base}, have, have)
    requires Reaches(content, content(base).tree, x)
    ensures x in have
  {
    assert TypedAt(content, base);
    var path :| Joins(content, path, content(base).tree, x);
    TreePathHad(content, base, have, path, |path| - 1);
  }

  /** x is the base commit or in its tree. */
  ghost predicate AtBase(content: Content, base: Option<Hash>, x: Hash) {
    base.Some? && content(base.value).Commit? && (x == base.value || Reaches(content, content(base.value).tree, x))
  }

  ghost predicate AvoidsBase(content: Content, base: Option<Hash>, path: seq<Hash>) {
    forall i :: 0 <= i < |path| ==> !AtBase(content, base, path[i])
  }

  /** The tip leads to x without touching the base commit or its tree. */
  ghost predicate Beyond(content: Content, base: Option<Hash>, tip: Hash, x: Hash) {
    exists path :: Joins(content, path, tip, x) && AvoidsBase(content, base, path)
  }

  ghost predicate IsBase(content: Content, base: Option<Hash>, have: set<Hash>) {
    forall x :: x in have <==> AtBase(content, base, x)
  }

  lemma OutsideIsBeyond(content: Content, base: Option<Hash>, have: set<Hash>, tip: Hash, x: Hash)
    requires IsBase(content, base, have)
    ensures ReachesOutside(content, have, tip, x) <==> Beyond(content, base, tip, x)
  {
    if ReachesOutside(content, have, tip, x) {
      var path :| Joins(content, path, tip, x) && forall i :: 0 <= i < |path| ==> path[i] !in have;
      assert AvoidsBase(content, base, path);
    }
    if Beyond(content, base, tip, x) {
      var path :| Joins(content, path, tip, x) && AvoidsBase(content, base, path);
      assert forall i :: 0 <= i < |path| ==> path[i] !in have;
    }
  }

  lemma {:induction false} SelectedAlong(content: Content, have: set<Hash>, seen: set<Hash>, path: seq<Hash>, n: nat)
    requires Walked(content, {}, seen, seen + have) && IsPath(content, path) && path[0] in seen + have && n < |path|
    requires forall i :: 0 <= i < |path| ==> path[i] !in have
    ensures path[n] in seen
  {
    if n > 0 {
      SelectedAlong(content, have, seen, path, n - 1);
      assert Child(content, path[n - 1], path[n]);
      WalkedChild(content, {}, seen, seen + have, path[n - 1], path[n]);
    }
  }

  /** The selection is exactly what lies beyond the base. */
  lemma SelectionIsBeyond(content: Content, base: Option<Hash>, have: set<Hash>, seen: set<Hash>, tip: Hash, x: Hash)
    requires IsBase(content, base, have) && Walked(content, {}, seen, seen + have) && tip in seen + have
    requires Outside(content, have, tip, {}, seen)
    ensures x in seen <==> Beyond(content, base, tip, x)
  {
    OutsideIsBeyond(content, base, have, tip, x);
    if x in seen {
      assert x in seen - {};
    } else if ReachesOutside(content, have, tip, x) {
      var path :| Joins(content, path, tip, x) && forall i :: 0 <= i < |path| ==> path[i] !in have;
      SelectedAlong(content, have, seen, path, |path| - 1);
    }
  }

  lemma AtBaseIsReached(content: Content, base: Option<Hash>, have: set<Hash>)
    requires IsBase(content, base, have)
    ensures FromBase(content, base, have)
  {
    forall x | x in have ensures base.Some? && Reaches(content, base.value, x) {
      AtBaseReached(content, base.value, x);
    }
  }

  lemma {:induction false} TreePathIsTrees(content: Content, path: seq<Hash>, n: nat)
    requires WellTyped(content) && IsPath(content, path) && content(path[0]).Tree? && n < |path|
    ensures content(path[n]).Tree? || content(path[n]).Blob?
  {
    if n > 0 {
      TreePathIsTrees(content, path, n - 1);
      assert Child(content, path[n - 1], path[n]);
      ChildOfTree(content, path[n - 1], path[n]);
    }
  }

  /** The only commit at the base is the base. */
  lemma CommitAtBase(content: Content, base: Option<Hash>, x: Hash)
    requires WellTyped(content) && AtBase(content, base, x) && content(x).Commit?
    ensures x == base.value
  {
    if x != base.value {
      var tree := content(base.value).tree;
      var path :| Joins(content, path, tree, x);
      assert TypedAt(content, base.value);
      TreePathIsTrees(content, path, |path| - 1);
    }
  }

  /** Record the base commit and its tree. The tree's own trees are read, its files are not. */
  method HaveBase(content: Content, ghost rank: Hash -> nat, repo: set<Hash>, base: Hash, sel: BundleSelection) returns (ok: bool)
    requires Acyclic(content, rank) && WellTyped(content) && content(base).Commit?
    requires sel.Valid() && sel.have == {} && sel.seen == {}
    modifies sel`have
    ensures sel.Valid()
    ensures ok ==> IsBase(content, Some(base), sel.have)
    ensures ok <==> !LacksTree(content, repo, content(base).tree)
  {
    sel.have := {base};
    var tree := content(base).tree;
    assert TypedAt(content, base);
    ok := sel.HaveTree(content, rank, repo, tree);
    if ok {
      forall x | Reaches(content, tree, x) ensures x in sel.have && (content(x).Tree? ==> x in repo) {
        TreeOfBaseHad(content, base, sel.have, x);
      }
      forall x | x in sel.have && x != base ensures Reaches(content, tree, x) {
        assert x in sel.have - {base};
      }
    }
  }

  /** The commits named are there. */
  ghost predicate Resolves(content: Content, repo: set<Hash>, tip: Hash, base: Option<Hash>) {
    && tip in repo && content(tip).Commit?
    && (base.Some? ==> base.value in repo && content(base.value).Commit?)
  }

  /** Every tree of the base and everything beyond the base is in repo. */
  ghost predicate HoldsEnough(content: Content, repo: set<Hash>, tip: Hash, base: Option<Hash>) {
    && (base.Some? && content(base.value).Commit? ==> !LacksTree(content, repo, content(base.value).tree))
    && forall x :: Beyond(content, base, tip, x) ==> x in repo
  }

  method CreateBundle(content: Content, ghost rank: Hash -> nat, repo: set<Hash>, tip: Hash, base: Option<Hash>) returns (b: Bundled)
    requires Acyclic(content, rank) && WellTyped(content)
    ensures b.NothingToBundle? <==>
      Resolves(content, repo, tip, base) && base.Some? && HasAncestor(content, repo, base.value, tip)
    ensures b.Bundle? <==>
      && Resolves(content, repo, tip, base) && !(base.Some? && HasAncestor(content, repo, base.value, tip))
      && HoldsEnough(content, repo, tip, base)
    ensures b.Bundle? ==> b.tip == tip && b.prerequisite == base && Carries(content, b)
    ensures b.Bundle? ==> Distinct(b.pack) && forall x :: x in b.pack <==> Beyond(content, base, tip, x)
  {
    if tip !in repo || !content(tip).Commit? || (base.Some? && (base.value !in repo || !content(base.value).Commit?)) {
      return BundleFailed;
    }
    var sel := new BundleSelection();
    if base.Some? {
      var reached := ReachableFrom(content, rank, repo, base.value, tip);
      if reached {
        return NothingToBundle;
      }
      var ok := HaveBase(content, rank, repo, base.value, sel);
      if !ok {
        return BundleFailed;
      }
    }
    forall x | x in sel.have && content(x).Commit? ensures x in repo {
      CommitAtBase(content, base, x);
    }
    var ok := sel.AddCommit(content, rank, repo, tip);
    if !ok {
      LacksIsBeyond(content, repo, base, sel.have, tip);
      return BundleFailed;
    }
    SelectionSpec(content, base, sel.have, sel.seen, tip);
    if !(forall i :: 0 <= i < |sel.objects| ==> sel.objects[i] in repo) {
      return BundleFailed;
    }
    b := Bundle(base, tip, sel.objects);
  }

  lemma LacksIsBeyond(content: Content, repo: set<Hash>, base: Option<Hash>, have: set<Hash>, tip: Hash)
    requires IsBase(content, base, have) && Lacks(content, repo, have, tip)
    ensures !HoldsEnough(content, repo, tip, base)
  {
    var x :| ReachesOutside(content, have, tip, x) && x !in repo;
    OutsideIsBeyond(content, base, have, tip, x);
  }

  lemma SelectionSpec(content: Content, base: Option<Hash>, have: set<Hash>, seen: set<Hash>, tip: Hash)
    requires IsBase(content, base, have) && Walked(content, {}, seen, seen + have) && tip in seen + have
    requires Outside(content, have, tip, {}, seen)
    ensures forall x :: x in seen <==> Beyond(content, base, tip, x)
    ensures forall x :: Reaches(content, tip, x) ==> x in seen || (base.Some? && Reaches(content, base.value, x))
  {
    AtBaseIsReached(content, base, have);
    forall x ensures x in seen <==> Beyond(content, base, tip, x) {
      SelectionIsBeyond(content, base, have, seen, tip, x);
    }
    forall x | Reaches(content, tip, x) ensures x in seen || (base.Some? && Reaches(content, base.value, x)) {
      SelectionCarries(content, base, have, seen, tip, x);
    }
  }

  // ---------- which of base's history a bundle omits ----------

  /** The tip's own side of history, what base does not reach, leads into
      base's history only at base and its tree. */
  ghost predicate EntersAtBase(content: Content, base: Hash, tip: Hash) {
    && !Reaches(content, base, tip)
    && forall x, c :: Reaches(content, tip, x) && !Reaches(content, base, x) && Child(content, x, c) && Reaches(content, base, c) ==>
         AtBase(content, Some(base), c)
  }

  ghost predicate OmitsHistory(content: Content, base: Hash, tip: Hash) {
    forall x :: Beyond(content, Some(base), tip, x) ==> !Reaches(content, base, x)
  }

  lemma BeyondChild(content: Content, base: Option<Hash>, tip: Hash, x: Hash, c: Hash)
    requires Beyond(content, base, tip, x) && Child(content, x, c) && !AtBase(content, base, c)
    ensures Beyond(content, base, tip, c)
  {
    var path :| Joins(content, path, tip, x) && AvoidsBase(content, base, path);
    JoinsChild(content, path, tip, x, c);
    AvoidsMore(content, base, path, c);
  }

  lemma AvoidsMore(content: Content, base: Option<Hash>, path: seq<Hash>, c: Hash)
    requires AvoidsBase(content, base, path) && !AtBase(content, base, c)
    ensures AvoidsBase(content, base, path + [c])
  {
  }

  /** A path from the tip that avoids base stays out of base's history. */
  lemma {:induction false} NotBaseHistoryAlong(content: Content, base: Hash, tip: Hash, path: seq<Hash>, n: nat)
    requires EntersAtBase(content, base, tip) && IsPath(content, path) && path[0] == tip && n < |path|
    requires AvoidsBase(content, Some(base), path)
    ensures !Reaches(content, base, path[n])
  {
    if n > 0 {
      NotBaseHistoryAlong(content, base, tip, path, n - 1);
      PrefixReaches(content, path, n - 1);
      assert Child(content, path[n - 1], path[n]);
    }
  }

  lemma {:induction false} ReachesAlong(content: Content, base: Hash, path: seq<Hash>, i: nat, j: nat)
    requires IsPath(content, path) && i <= j < |path| && Reaches(content, base, path[i])
    ensures Reaches(content, base, path[j])
  {
    if i < j {
      ReachesAlong(content, base, path, i, j - 1);
      assert Child(content, path[j - 1], path[j]);
      ReachesThenChild(content, base, path[j - 1], path[j]);
    }
  }

  lemma AtBaseReached(content: Content, base: Hash, x: Hash)
    requires AtBase(content, Some(base), x)
    ensures Reaches(content, base, x)
  {
    if x == base {
      ReachesSelf(content, x);
    } else {
      ReachesThroughChild(content, base, content(base).tree, x);
    }
  }

  /** What the tip reaches and base does not lies beyond base. */
  lemma OwnSideIsBeyond(content: Content, base: Hash, tip: Hash, x: Hash)
    requires Reaches(content, tip, x) && !Reaches(content, base, x)
    ensures Beyond(content, Some(base), tip, x)
  {
    var path :| Joins(content, path, tip, x);
    forall i | 0 <= i < |path| ensures !AtBase(content, Some(base), path[i]) {
      if AtBase(content, Some(base), path[i]) {
        AtBaseReached(content, base, path[i]);
        ReachesAlong(content, base, path, i, |path| - 1);
      }
    }
    assert AvoidsBase(content, Some(base), path);
  }

  /** A bundle omits all of base's history exactly when the tip's side of
      history enters it at base. */
  lemma OmitsHistoryIff(content: Content, base: Hash, tip: Hash)
    requires content(base).Commit? && !AtBase(content, Some(base), tip)
    ensures OmitsHistory(content, base, tip) <==> EntersAtBase(content, base, tip)
  {
    if EntersAtBase(content, base, tip) {
      forall x | Beyond(content, Some(base), tip, x) ensures !Reaches(content, base, x) {
        var path :| Joins(content, path, tip, x) && AvoidsBase(content, Some(base), path);
        NotBaseHistoryAlong(content, base, tip, path, |path| - 1);
      }
    }
    if OmitsHistory(content, base, tip) {
      assert Joins(content, [tip], tip, tip);
      assert AvoidsBase(content, Some(base), [tip]);
      forall x, c | Reaches(content, tip, x) && !Reaches(content, base, x) && Child(content, x, c) && Reaches(content, base, c)
        ensures AtBase(content, Some(base), c)
      {
        if !AtBase(content, Some(base), c) {
          OwnSideIsBeyond(content, base, tip, x);
          BeyondChild(content, Some(base), tip, x, c);
        }
      }
    }
  }

  /** Commit 4 merges base 3 with base's own parent 2. */
  function MergeOfAncestor(h: Hash): Object {
    match h
    case 2 => Commit(1, [])
    case 3 => Commit(1, [2])
    case 4 => Commit(1, [3, 2])
    case _ => Tree([])
  }

  /** So a bundle of 4 on base 3 carries commit 2, which base already has. */
  lemma BundleMayRepeatHistory()
    ensures Beyond(MergeOfAncestor, Some(3), 4, 2) && Reaches(MergeOfAncestor, 3, 2)
    ensures !OmitsHistory(MergeOfAncestor, 3, 4)
  {
    assert Joins(MergeOfAncestor, [3, 2], 3, 2);
    assert Joins(MergeOfAncestor, [4, 2], 4, 2);
    forall x | Reaches(MergeOfAncestor, 1, x) ensures x == 1 {
      var path :| Joins(MergeOfAncestor, path, 1, x);
      assert |path| > 1 ==> Child(MergeOfAncestor, path[0], path[1]);
    }
  }

  // ---------- fetching a bundle ----------

  /** A ref's object is the commit, or an annotated tag of it: what the name resolves to. */
  predicate Peels(content: Content, held: set<Hash>, h: Hash, c: Hash) {
    && h in held && c in held && content(c).Commit?
    && (if content(h).Tag? then content(h).target == c else h == c)
  }

  lemma PeelReaches(content: Content, held: set<Hash>, h: Hash, c: Hash)
    requires Peels(content, held, h, c)
    ensures Reaches(content, h, c)
  {
    ReachesSelf(content, c);
    if content(h).Tag? {
      assert Child(content, h, c);
      ReachesThroughChild(content, h, c, c);
    }
  }

  /** The commit a name resolves to, if any. */
  function Resolved(content: Content, held: set<Hash>, h: Hash): (c: Option<Hash>)
    ensures c.Some? ==> Peels(content, held, h, c.value)
    ensures c.None? ==> forall d :: !Peels(content, held, h, d)
  {
    if h !in held then None
    else
      var d := if content(h).Tag? then content(h).target else h;
      if d in held && content(d).Commit? then Some(d) else None
  }

  /** p is a commit the store holds, in the history of a ref under within. */
  ghost predicate InRefs(content: Content, s: T.Snapshot, within: string -> bool, p: Hash) {
    && p in s.objects && content(p).Commit?
    && exists n, c :: n in s.refs && within(n) && Peels(content, s.objects, s.refs[n], c) && HasAncestor(content, s.objects, c, p)
  }

  /** A ref to a commit, or to an annotated tag of it, makes that commit's held history count. */
  lemma RefHoldsHistory(content: Content, s: T.Snapshot, within: string -> bool, n: string, c: Hash, p: Hash)
    requires n in s.refs && within(n) && s.refs[n] in s.objects
    requires c in s.objects && content(c).Commit?
    requires s.refs[n] == c || (content(s.refs[n]).Tag? && content(s.refs[n]).target == c)
    requires p in s.objects && content(p).Commit? && HasAncestor(content, s.objects, c, p)
    ensures InRefs(content, s, within, p)
  {
    assert Peels(content, s.objects, s.refs[n], c);
  }

  method ReachableFromRefs(content: Content, ghost rank: Hash -> nat, repo: T.Repo, within: string -> bool, p: Hash) returns (found: bool)
    requires Acyclic(content, rank)
    ensures found <==> InRefs(content, repo.Now(), within, p)
  {
    if p !in repo.objects || !content(p).Commit? {
      return false;
    }
    var todo := set n | n in repo.refs && within(n);
    while todo != {}
      invariant forall n :: n in todo ==> n in repo.refs && within(n)
      invariant forall n, c :: n in repo.refs && within(n) && n !in todo && Peels(content, repo.objects, repo.refs[n], c) ==>
        !HasAncestor(content, repo.objects, c, p)
      decreases |todo|
    {
      var n :| n in todo;
      todo := todo - {n};
      var tip := Resolved(content, repo.objects, repo.refs[n]);
      if tip.Some? {
        found := ReachableFrom(content, rank, repo.objects, tip.value, p);
        if found {
          return;
        }
      }
    }
    found := false;
  }

  /** What a bundle file says: its header's prerequisites and refs, and what it packs. */
  datatype BundleFile = BundleFile(prerequisites: seq<Hash>, refs: seq<T.SourceRef>, pack: seq<Hash>)

  function Packed(file: BundleFile): set<Hash> {
    set h | h in file.pack
  }

  /** Everything its refs reach is packed or reached from a prerequisite. */
  ghost predicate CarriesAll(content: Content, file: BundleFile) {
    forall i, x :: 0 <= i < |file.refs| && Reaches(content, file.refs[i].hash, x) ==> x in file.pack || FromPrerequisite(content, file, x)
  }

  ghost predicate FromPrerequisite(content: Content, file: BundleFile, x: Hash) {
    exists j :: 0 <= j < |file.prerequisites| && Reaches(content, file.prerequisites[j], x)
  }

  ghost predicate AllInRefs(content: Content, s: T.Snapshot, within: string -> bool, ps: seq<Hash>) {
    forall j :: 0 <= j < |ps| ==> InRefs(content, s, within, ps[j])
  }

  ghost predicate RefsComplete(content: Content, s: T.Snapshot) {
    forall n :: n in s.refs ==> Complete(content, s.objects, s.refs[n])
  }

  lemma SoundRefsComplete(content: Content, s: T.Snapshot)
    requires T.Sound(content, s)
    ensures RefsComplete(content, s)
  {
    forall n | n in s.refs ensures Complete(content, s.objects, s.refs[n]) {
      ClosedIsComplete(content, s.objects, s.refs[n]);
    }
  }

  lemma {:induction false} HistoryReaches(content: Content, repo: set<Hash>, path: seq<Hash>)
    requires History(content, repo, path)
    ensures Reaches(content, path[0], path[|path| - 1])
  {
    if |path| == 1 {
      ReachesSelf(content, path[0]);
    } else {
      assert HeldParent(content, repo, path[0], path[1]);
      assert forall i :: 0 <= i < |path| - 1 ==> path[1..][i] == path[i + 1];
      HistoryReaches(content, repo, path[1..]);
      ReachesThroughChild(content, path[0], path[1], path[|path| - 1]);
    }
  }

  lemma {:induction false} ReachesJoined(content: Content, a: Hash, path: seq<Hash>, n: nat)
    requires IsPath(content, path) && n < |path| && Reaches(content, a, path[0])
    ensures Reaches(content, a, path[n])
  {
    if n > 0 {
      ReachesJoined(content, a, path, n - 1);
      assert Child(content, path[n - 1], path[n]);
      ReachesThenChild(content, a, path[n - 1], path[n]);
    }
  }

  /** With complete refs, what a prerequisite reaches is there. */
  lemma PrerequisiteComplete(content: Content, s: T.Snapshot, within: string -> bool, p: Hash, x: Hash)
    requires RefsComplete(content, s) && InRefs(content, s, within, p) && Reaches(content, p, x)
    ensures x in s.objects
  {
    var n, c :| n in s.refs && within(n) && Peels(content, s.objects, s.refs[n], c) && HasAncestor(content, s.objects, c, p);
    PeelReaches(content, s.objects, s.refs[n], c);
    var history :| History(content, s.objects, history) && history[0] == c && history[|history| - 1] == p;
    HistoryReaches(content, s.objects, history);
    var path :| Joins(content, path, c, p);
    ReachesJoined(content, s.refs[n], path, |path| - 1);
    var more :| Joins(content, more, p, x);
    ReachesJoined(content, s.refs[n], more, |more| - 1);
  }

  /** With complete refs, a file that carries what it should supplies every copy. */
  lemma CarriedIsSupplied(content: Content, file: BundleFile, s: T.Snapshot, within: string -> bool, wanted: T.RefMap)
    requires CarriesAll(content, file) && RefsComplete(content, s) && AllInRefs(content, s, within, file.prerequisites)
    requires forall n :: n in wanted ==> exists i :: 0 <= i < |file.refs| && file.refs[i].hash == wanted[n]
    ensures T.Supplies(content, Packed(file), s.objects, wanted)
  {
    forall x | T.WantedOutside(content, s.objects, wanted, x) ensures x in file.pack {
      var n :| n in wanted && ReachesOutside(content, s.objects, wanted[n], x);
      var i :| 0 <= i < |file.refs| && file.refs[i].hash == wanted[n];
      OutsideIsReached(content, s.objects, wanted[n], x);
      T.OutsideNotHeld(content, s.objects, wanted[n], x);
      if FromPrerequisite(content, file, x) {
        var j :| 0 <= j < |file.prerequisites| && Reaches(content, file.prerequisites[j], x);
        PrerequisiteComplete(content, s, within, file.prerequisites[j], x);
      }
    }
  }

  method HasPrerequisites(content: Content, ghost rank: Hash -> nat, dst: T.Repo, within: string -> bool, ps: seq<Hash>) returns (ok: bool)
    requires Acyclic(content, rank)
    ensures ok <==> AllInRefs(content, dst.Now(), within, ps)
  {
    for j := 0 to |ps|
      invariant forall k :: 0 <= k < j ==> InRefs(content, dst.Now(), within, ps[k])
    {
      var found := ReachableFromRefs(content, rank, dst, within, ps[j]);
      if !found {
        return false;
      }
    }
    ok := true;
  }

  /** Unpack a bundle and fetch its refs, into any store. A refusal or a missing
      object leaves every ref as it was. */
  method FetchBundle(content: Content, ghost rank: Hash -> nat, dst: T.Repo, file: BundleFile,
                     within: string -> bool, prune: bool, specs: seq<T.RefSpec>) returns (r: T.Result)
    requires Acyclic(content, rank)
    modifies dst
    ensures r.NoPrerequisite? <==> !AllInRefs(content, old(dst.Now()), within, file.prerequisites)
    ensures r.NoPrerequisite? ==> dst.Now() == old(dst.Now())
    ensures r.NoPrerequisite? || r.Missing? || r.Cancelled? || r in {T.BadRefSpec, T.NoMatch} ==> dst.refs == old(dst.refs)
    ensures T.FetchRun(content, old(dst.Now()), old(dst.trace), dst.trace)
    ensures T.Fetched(content, Packed(file), T.Wanted(specs, file.refs), old(dst.Now()), dst.Now(), r)
    ensures r.Missing? ==> T.StoppedShort(content, Packed(file), T.Wanted(specs, file.refs), r.hash, dst.objects)
    ensures r == T.Ok ==> dst.refs == T.FetchedRefs(specs, T.Wanted(specs, file.refs), prune, old(dst.refs))
    ensures dst.calm && !r.NoPrerequisite? ==> (r == T.Ok || r.Missing? <==> T.SpecsMatch(specs, file.refs))
  {
    var ok := HasPrerequisites(content, rank, dst, within, file.prerequisites);
    if !ok {
      T.NothingFetched(content, Packed(file), T.Wanted(specs, file.refs), dst.Now(), dst.trace, T.NoPrerequisite);
      return T.NoPrerequisite;
    }
    r := T.FetchFrom(content, rank, file.refs, Packed(file), dst, prune, specs);
  }

  /** Into a store whose refs are complete, as a prune leaves it, a bundle that
      carries what it should never runs into a missing object. */
  lemma CarriedNeverLacks(content: Content, file: BundleFile, within: string -> bool, specs: seq<T.RefSpec>,
                          before: T.Snapshot, after: T.Snapshot, r: T.Result)
    requires RefsComplete(content, before) && AllInRefs(content, before, within, file.prerequisites) && CarriesAll(content, file)
    requires T.Fetched(content, Packed(file), T.Wanted(specs, file.refs), before, after, r)
    ensures !r.Missing?
  {
    var wanted := T.Wanted(specs, file.refs);
    forall n | n in wanted ensures exists i :: 0 <= i < |file.refs| && file.refs[i].hash == wanted[n] {
      T.WantedValues(specs, file.refs, n);
    }
    CarriedIsSupplied(content, file, before, within, wanted);
    T.FetchOutcome(content, Packed(file), wanted, before, after, r);
  }

  /** The file CreateBundle writes. */
  function FileOf(b: Bundled, ref: string): BundleFile
    requires b.Bundle?
  {
    BundleFile(if b.prerequisite.Some? then [b.prerequisite.value] else [], [T.SourceRef(ref, b.tip)], b.pack)
  }

  lemma FileCarriesAll(content: Content, b: Bundled, ref: string)
    requires b.Bundle? && Carries(content, b)
    ensures CarriesAll(content, FileOf(b, ref))
  {
    var file := FileOf(b, ref);
    forall i, x | 0 <= i < |file.refs| && Reaches(content, file.refs[i].hash, x) ensures x in file.pack || FromPrerequisite(content, file, x) {
      if x !in file.pack {
        assert Reaches(content, file.prerequisites[0], x);
      }
    }
  }

  /** What becomes of a bundle that a sound store with its base fetches. */
  lemma RoundTripOutcome(content: Content, b: Bundled, ref: string, within: string -> bool, specs: seq<T.RefSpec>,
                         before: T.Snapshot, after: T.Snapshot, r: T.Result)
    requires b.Bundle? && Carries(content, b) && T.Sound(content, before)
    requires AllInRefs(content, before, within, FileOf(b, ref).prerequisites)
    requires T.Fetched(content, Packed(FileOf(b, ref)), T.Wanted(specs, [T.SourceRef(ref, b.tip)]), before, after, r)
    ensures T.Sound(content, after) && !r.Missing?
    ensures r == T.Ok && T.Wanted(specs, [T.SourceRef(ref, b.tip)]) != map[] ==> Complete(content, after.objects, b.tip)
  {
    var file, wanted := FileOf(b, ref), T.Wanted(specs, [T.SourceRef(ref, b.tip)]);
    FileCarriesAll(content, b, ref);
    SoundRefsComplete(content, before);
    CarriedNeverLacks(content, file, within, specs, before, after, r);
    T.SoundFetchOutcome(content, Packed(file), wanted, before, after, r);
    if n :| n in wanted {
      T.WantedValues(specs, [T.SourceRef(ref, b.tip)], n);
    }
  }

  /** Round trip: what one repository bundles, any sound repository that has the
      base in its refs can fetch whole. */
  method RoundTrip(content: Content, ghost rank: Hash -> nat, repo: set<Hash>, tip: Hash, base: Option<Hash>,
                   dst: T.Repo, ref: string, within: string -> bool, prune: bool, specs: seq<T.RefSpec>)
    returns (b: Bundled, r: T.Result)
    requires Acyclic(content, rank) && WellTyped(content) && T.Sound(content, dst.Now())
    requires base.Some? ==> InRefs(content, dst.Now(), within, base.value)
    modifies dst
    ensures T.Sound(content, dst.Now())
    ensures b.Bundle? ==> !r.Missing? && !r.NoPrerequisite?
    ensures b.Bundle? && dst.calm ==> (r == T.Ok <==> T.SpecsMatch(specs, [T.SourceRef(ref, tip)]))
    ensures b.Bundle? && r == T.Ok && T.Wanted(specs, [T.SourceRef(ref, tip)]) != map[] ==> Complete(content, dst.objects, tip)
  {
    r := T.Ok;
    b := CreateBundle(content, rank, repo, tip, base);
    if b.Bundle? {
      ghost var before := dst.Now();
      r := FetchBundle(content, rank, dst, FileOf(b, ref), within, prune, specs);
      RoundTripOutcome(content, b, ref, within, specs, before, dst.Now(), r);
    }
  }

  // ---------- a fetch that stops half way ----------

  /** Commit 3 merges commit 2 with commit 9; all three have the empty tree 1. */
  function TwoParents(h: Hash): Object {
    match h
    case 2 => Commit(1, [])
    case 9 => Commit(1, [])
    case 3 => Commit(1, [2, 9])
    case _ => Tree([])
  }

  function RankOfTwoParents(h: Hash): nat {
    if h == 3 then 2 else if h == 2 || h == 9 then 1 else 0
  }

  lemma TwoParentsReaches(a: Hash, x: Hash)
    requires Reaches(TwoParents, a, x)
    ensures x == a || x == 1 || (a == 3 && (x == 2 || x == 9))
  {
    var path :| Joins(TwoParents, path, a, x);
    TwoParentsAlong(path, |path| - 1);
  }

  lemma {:induction false} TwoParentsAlong(path: seq<Hash>, n: nat)
    requires IsPath(TwoParents, path) && n < |path|
    ensures path[n] == path[0] || path[n] == 1 || (path[0] == 3 && (path[n] == 2 || path[n] == 9))
  {
    if n > 0 {
      TwoParentsAlong(path, n - 1);
      assert Child(TwoParents, path[n - 1], path[n]);
    }
  }

  function EveryRef(): T.RefSpec {
    T.RefSpec(true, false, (n: string) => true, (n: string) => n, (n: string) => false)
  }

  lemma EveryRefWanted(wanted: T.RefMap)
    requires wanted == T.Wanted([EveryRef()], [T.SourceRef("r", 3)])
    ensures wanted == map["r" := 3] && T.SpecsMatch([EveryRef()], [T.SourceRef("r", 3)])
  {
    var refs := [T.SourceRef("r", 3)];
    assert [EveryRef()][..0] == [] && refs[..0] == [];
    assert T.WantedBy(EveryRef(), [], map[]) == map[];
    assert T.WantedBy(EveryRef(), refs, map[]) == map["r" := 3];
    assert EveryRef().selects(refs[0].name);
    assert T.Selected(EveryRef(), refs);
  }

  /** A bundle of commit 3 without its second parent is refused, and yet its
      first parent stays in the store: nothing is stored only of the refs. */
  method RefusedFetchStoresObjects(dst: T.Repo, file: BundleFile) returns (r: T.Result)
    requires dst.calm && dst.Now() == T.Snapshot({}, map[]) && file == BundleFile([], [T.SourceRef("r", 3)], [3, 2, 1])
    modifies dst
    ensures r == T.Missing(9) && dst.refs == map[] && 2 in dst.objects
  {
    var specs := [EveryRef()];
    ghost var wanted, before := T.Wanted(specs, file.refs), dst.Now();
    EveryRefWanted(wanted);
    r := FetchBundle(TwoParents, RankOfTwoParents, dst, file, (n: string) => true, false, specs);
    NinthIsMissing(Packed(file), wanted);
    T.FetchOutcome(TwoParents, Packed(file), wanted, before, dst.Now(), r);
    StoppedAtSecondParent(Packed(file), wanted, r.hash, dst.objects);
  }

  lemma NinthIsMissing(src: set<Hash>, wanted: T.RefMap)
    requires wanted == map["r" := 3] && 9 !in src
    ensures !T.Supplies(TwoParents, src, {}, wanted)
  {
    assert Joins(TwoParents, [3, 9], 3, 9);
    assert ReachesOutside(TwoParents, {}, wanted["r"], 9);
    assert T.WantedOutside(TwoParents, {}, wanted, 9);
  }

  lemma StoppedAtSecondParent(src: set<Hash>, wanted: T.RefMap, missing: Hash, objects: set<Hash>)
    requires wanted == map["r" := 3] && src == {1, 2, 3} && T.StoppedShort(TwoParents, src, wanted, missing, objects)
    requires missing !in src && T.WantedOutside(TwoParents, {}, wanted, missing)
    ensures missing == 9 && 2 in objects
  {
    var n :| n in wanted && ReachesOutside(TwoParents, {}, wanted[n], missing);
    OutsideIsReached(TwoParents, {}, 3, missing);
    TwoParentsReaches(3, missing);
    assert T.StoppedAt(TwoParents, 3, missing, objects);
    assert Children(TwoParents(3)) == [2, 9, 1];
    var i :| 0 <= i < 3 && Reaches(TwoParents, [2, 9, 1][i], missing) && forall j :: 0 <= j < i ==> [2, 9, 1][j] in objects;
    TwoParentsReaches([2, 9, 1][i], missing);
    assert [2, 9, 1][0] in objects;
  }
}

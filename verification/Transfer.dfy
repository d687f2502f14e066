/** Copying objects between repositories and fetching refs. */
module Transfer {
  import opened Faults
  import opened Objects

  type RefMap = map<string, Hash>

  /** What a repository holds at one moment. */
  datatype Snapshot = Snapshot(objects: set<Hash>, refs: RefMap)

  /** The store is closed, so every ref has its whole history. */
  ghost predicate Sound(content: Content, s: Snapshot) {
    Closed(content, s.objects) && forall n :: n in s.refs ==> s.refs[n] in s.objects
  }

  ghost predicate AllSound(content: Content, trace: seq<Snapshot>) {
    forall i :: 0 <= i < |trace| ==> Sound(content, trace[i])
  }

  datatype Result =
    | Ok
    | Cancelled
    | Missing(hash: Hash)
    | WriteFailed
    | BadRefSpec
    | NoMatch
    | RefMoved
    | NoPrerequisite

  /** A repository. trace records what it held after every single write; calm
      says that no write fails and no request is cancelled. */
  class Repo {
    const calm: bool
    var objects: set<Hash>
    var refs: RefMap
    ghost var trace: seq<Snapshot>

    ghost function Now(): Snapshot
      reads this
    {
      Snapshot(objects, refs)
    }

    constructor (calm: bool)
      ensures objects == {} && refs == map[] && trace == [] && this.calm == calm
    {
      this.calm := calm;
      objects, refs, trace := {}, map[], [];
    }

    method Put(h: Hash)
      modifies this
      ensures refs == old(refs) && objects == old(objects) + {h}
      ensures trace == old(trace) + [Now()]
    {
      objects := objects + {h};
      trace := trace + [Snapshot(objects, refs)];
    }

    /** Store the ref, unless its object is missing or the write fails. */
    method SetRef(name: string, h: Hash) returns (ok: bool)
      modifies this
      ensures objects == old(objects)
      ensures ok ==> h in objects && refs == old(refs)[name := h] && trace == old(trace) + [Now()]
      ensures !ok ==> refs == old(refs) && trace == old(trace)
      ensures calm && h in objects ==> ok
    {
      ok := false;
      if h in objects {
        var failed := Disturbed(calm);
        if !failed {
          ok, refs := true, refs[name := h];
          trace := trace + [Snapshot(objects, refs)];
        }
      }
    }

    method Delete(h: Hash) returns (ok: bool)
      modifies this
      ensures refs == old(refs)
      ensures ok ==> objects == old(objects) - {h} && trace == old(trace) + [Now()]
      ensures !ok ==> objects == old(objects) && trace == old(trace)
      ensures calm ==> ok
    {
      var failed := Disturbed(calm);
      ok := false;
      if !failed {
        ok, objects := true, objects - {h};
        trace := trace + [Snapshot(objects, refs)];
      }
    }

    method RemoveRef(name: string) returns (ok: bool)
      modifies this
      ensures objects == old(objects)
      ensures ok ==> refs == old(refs) - {name} && trace == old(trace) + [Now()]
      ensures !ok ==> refs == old(refs) && trace == old(trace)
      ensures calm ==> ok
    {
      var failed := Disturbed(calm);
      ok := false;
      if !failed {
        ok, refs := true, refs - {name};
        trace := trace + [Snapshot(objects, refs)];
      }
    }
  }

  /** Objects that are not in before have their children in objects. */
  ghost predicate NewComeWithChildren(content: Content, before: set<Hash>, objects: set<Hash>) {
    forall x, c :: x in objects && x !in before && Child(content, x, c) ==> c in objects
  }

  /** A state on the way: nothing lost, and children before their parents. */
  ghost predicate Between(content: Content, before: Snapshot, s: Snapshot) {
    s.refs == before.refs && before.objects <= s.objects && NewComeWithChildren(content, before.objects, s.objects)
  }

  /** What copying toward h may leave behind: objects of src that h reaches without
      passing through what the store held are added, each after its children. */
  ghost predicate Copied(content: Content, src: set<Hash>, h: Hash, before: Snapshot, after: Snapshot, steps: seq<Snapshot>) {
    && Between(content, before, after)
    && (forall x :: x in after.objects - before.objects ==> x in src && ReachesOutside(content, before.objects, h, x))
    && (forall i :: 0 <= i < |steps| ==> Between(content, before, steps[i]))
  }

  /** A closed store stays closed all the way. */
  lemma StaysClosed(content: Content, before: Snapshot, s: Snapshot)
    requires Between(content, before, s) && Closed(content, before.objects)
    ensures Closed(content, s.objects)
  {
    forall x, c | x in s.objects && Child(content, x, c) ensures c in s.objects {
      if x in before.objects {
        assert c in before.objects;
      }
    }
  }

  lemma BetweenJoin(content: Content, s0: Snapshot, s1: Snapshot, s2: Snapshot)
    requires Between(content, s0, s1) && Between(content, s1, s2)
    ensures Between(content, s0, s2)
  {
    forall x, c | x in s2.objects && x !in s0.objects && Child(content, x, c) ensures c in s2.objects {
      if x in s1.objects {
        assert c in s1.objects;
      }
    }
  }

  /** The copy of h stopped in one child, which leads to missing; the children
      before it are stored already. */
  ghost predicate StoppedAt(content: Content, h: Hash, missing: Hash, objects: set<Hash>) {
    exists i :: 0 <= i < |Children(content(h))| && Reaches(content, Children(content(h))[i], missing)
      && forall j :: 0 <= j < i ==> Children(content(h))[j] in objects
  }

  /** How a copy toward h, into a store that held before, may end. */
  ghost predicate CopyResult(content: Content, src: set<Hash>, h: Hash, before: set<Hash>, objects: set<Hash>, calm: bool, r: Result) {
    && (r.Missing? ==> ReachesOutside(content, before, h, r.hash) && r.hash !in src && r.hash !in objects)
    && (r.Missing? && h in src ==> StoppedAt(content, h, r.hash, objects))
    && (r in {Ok, Cancelled, WriteFailed} || r.Missing?)
    && (calm ==> r == Ok || r.Missing?)
  }

  /** The recursive copy. Children are written before their parents; steps are
      the states in between. */
  method Copy(content: Content, ghost rank: Hash -> nat, src: set<Hash>, dst: Repo, h: Hash)
    returns (r: Result, ghost steps: seq<Snapshot>)
    requires Acyclic(content, rank)
    modifies dst
    ensures dst.trace == old(dst.trace) + steps && Copied(content, src, h, old(dst.Now()), dst.Now(), steps)
    ensures r == Ok ==> h in dst.objects
    ensures CopyResult(content, src, h, old(dst.objects), dst.objects, dst.calm, r)
    ensures h in old(dst.objects) ==> dst.Now() == old(dst.Now()) && !r.Missing?
    decreases rank(h), 2
  {
    steps := [];
    var disturbed := Disturbed(dst.calm);
    if disturbed {
      return Cancelled, steps;
    }
    if h in dst.objects {
      return Ok, steps;
    }
    OutsideSelf(content, dst.objects, h);
    if h !in src {
      return Missing(h), steps;
    }
    r, steps := CopyChildren(content, rank, src, dst, h);
    if r != Ok {
      return;
    }
    disturbed := Disturbed(dst.calm);
    if disturbed {
      return WriteFailed, steps;
    }
    PutKeeps(content, src, h, old(dst.Now()), dst.Now(), steps);
    dst.Put(h);
    steps := steps + [dst.Now()];
    r := Ok;
  }

  /** The loop over an object's children. */
  method CopyChildren(content: Content, ghost rank: Hash -> nat, src: set<Hash>, dst: Repo, h: Hash)
    returns (r: Result, ghost steps: seq<Snapshot>)
    requires Acyclic(content, rank) && h !in dst.objects
    modifies dst
    ensures dst.trace == old(dst.trace) + steps && Copied(content, src, h, old(dst.Now()), dst.Now(), steps)
    ensures r == Ok ==> forall c :: Child(content, h, c) ==> c in dst.objects
    ensures CopyResult(content, src, h, old(dst.objects), dst.objects, dst.calm, r)
    decreases rank(h), 1
  {
    var children := Children(content(h));
    steps := [];
    for i := 0 to |children|
      invariant dst.trace == old(dst.trace) + steps && Copied(content, src, h, old(dst.Now()), dst.Now(), steps)
      invariant forall j :: 0 <= j < i ==> children[j] in dst.objects
    {
      r, steps := CopyChild(content, rank, src, dst, h, i, old(dst.Now()), steps);
      if r != Ok {
        return;
      }
    }
    r := Ok;
  }

  /** Copy child i of h, after steps from before and with the earlier children stored. */
  method CopyChild(content: Content, ghost rank: Hash -> nat, src: set<Hash>, dst: Repo, h: Hash, i: nat,
                   ghost before: Snapshot, ghost steps: seq<Snapshot>)
    returns (r: Result, ghost steps': seq<Snapshot>)
    requires Acyclic(content, rank) && h !in before.objects && Copied(content, src, h, before, dst.Now(), steps)
    requires i < |Children(content(h))| && forall j :: 0 <= j < i ==> Children(content(h))[j] in dst.objects
    modifies dst
    ensures steps <= steps' && dst.trace == old(dst.trace) + steps'[|steps|..]
    ensures Copied(content, src, h, before, dst.Now(), steps') && old(dst.objects) <= dst.objects
    ensures r == Ok ==> Children(content(h))[i] in dst.objects
    ensures CopyResult(content, src, h, before.objects, dst.objects, dst.calm, r)
    decreases rank(h), 0
  {
    var c := Children(content(h))[i];
    assert Child(content, h, c);
    ghost var mid := dst.Now();
    ghost var more;
    r, more := Copy(content, rank, src, dst, c);
    StepsJoin(content, src, h, c, before, mid, dst.Now(), steps, more);
    steps' := steps + more;
    if r.Missing? {
      OutsideIsReached(content, mid.objects, c, r.hash);
      OutsideFewer(content, before.objects, mid.objects, c, r.hash);
      OutsideThroughChild(content, before.objects, h, c, r.hash);
      assert StoppedAt(content, h, r.hash, dst.objects);
    }
  }

  lemma PutKeeps(content: Content, src: set<Hash>, h: Hash, s0: Snapshot, s1: Snapshot, steps: seq<Snapshot>)
    requires Copied(content, src, h, s0, s1, steps) && h in src && h !in s0.objects && forall c :: Child(content, h, c) ==> c in s1.objects
    ensures var s2 := s1.(objects := s1.objects + {h}); Copied(content, src, h, s0, s2, steps + [s2])
  {
    OutsideSelf(content, s0.objects, h);
    var s2 := s1.(objects := s1.objects + {h});
    assert Between(content, s0, s2);
  }

  lemma StepsJoin(content: Content, src: set<Hash>, h: Hash, c: Hash,
                  s0: Snapshot, s1: Snapshot, s2: Snapshot, first: seq<Snapshot>, rest: seq<Snapshot>)
    requires Child(content, h, c) && h !in s0.objects
    requires Copied(content, src, h, s0, s1, first) && Copied(content, src, c, s1, s2, rest)
    ensures Copied(content, src, h, s0, s2, first + rest)
  {
    BetweenJoin(content, s0, s1, s2);
    forall x | x in s2.objects - s0.objects ensures x in src && ReachesOutside(content, s0.objects, h, x) {
      if x in s2.objects - s1.objects {
        OutsideFewer(content, s0.objects, s1.objects, c, x);
        OutsideThroughChild(content, s0.objects, h, c, x);
      }
    }
    forall i | 0 <= i < |first + rest| ensures Between(content, s0, (first + rest)[i]) {
      if i >= |first| {
        BetweenJoin(content, s0, s1, rest[i - |first|]);
      }
    }
  }

  /** The copy stops at what the destination already holds because that is
      complete; so it finds an object missing exactly when neither side has it. */
  lemma CopyOutcome(content: Content, src: set<Hash>, h: Hash, before: Snapshot, after: Snapshot, steps: seq<Snapshot>, r: Result)
    requires Closed(content, before.objects) && Copied(content, src, h, before, after, steps)
    requires r == Ok ==> h in after.objects
    requires r.Missing? ==> Reaches(content, h, r.hash) && r.hash !in src && r.hash !in after.objects
    ensures r == Ok ==> Complete(content, after.objects, h) && Complete(content, src + before.objects, h)
    ensures r.Missing? ==> !Complete(content, src + before.objects, h)
  {
    StaysClosed(content, before, after);
    if r == Ok {
      ClosedIsComplete(content, after.objects, h);
    }
  }

  lemma {:induction false} AddedAlong(content: Content, before: set<Hash>, objects: set<Hash>, path: seq<Hash>, n: nat)
    requires NewComeWithChildren(content, before, objects) && IsPath(content, path) && path[0] in objects && n < |path|
    requires forall i :: 0 <= i < |path| ==> path[i] !in before
    ensures path[n] in objects
  {
    if n > 0 {
      AddedAlong(content, before, objects, path, n - 1);
      assert Child(content, path[n - 1], path[n]);
    }
  }

  /** What comes with its children brings everything it reaches outside the old store. */
  lemma OutsideIsAdded(content: Content, before: set<Hash>, objects: set<Hash>, h: Hash, x: Hash)
    requires NewComeWithChildren(content, before, objects) && h in objects && ReachesOutside(content, before, h, x)
    ensures x in objects
  {
    var path :| Joins(content, path, h, x) && forall i :: 0 <= i < |path| ==> path[i] !in before;
    AddedAlong(content, before, objects, path, |path| - 1);
  }

  /** Whatever h reaches and the store lacks is reached without passing through
      what the store holds. */
  ghost predicate NothingBehind(content: Content, held: set<Hash>, h: Hash) {
    forall x :: Reaches(content, h, x) && x !in held ==> ReachesOutside(content, held, h, x)
  }

  /** Into any store, a finished copy adds exactly what the root reaches without
      passing through what the store held; so the root is complete afterwards
      exactly when nothing it needs lies behind what was there. */
  lemma CopyAddsExactly(content: Content, src: set<Hash>, h: Hash, before: Snapshot, after: Snapshot, steps: seq<Snapshot>)
    requires Copied(content, src, h, before, after, steps) && h in after.objects
    ensures forall x :: x in after.objects <==> x in before.objects || ReachesOutside(content, before.objects, h, x)
    ensures Complete(content, after.objects, h) <==> NothingBehind(content, before.objects, h)
  {
    forall x | ReachesOutside(content, before.objects, h, x) ensures x in after.objects {
      OutsideIsAdded(content, before.objects, after.objects, h, x);
    }
    forall x | x in after.objects ensures x in before.objects || ReachesOutside(content, before.objects, h, x) {
      if x !in before.objects {
        assert x in after.objects - before.objects;
      }
    }
  }

  lemma {:induction false} HeldAlong(content: Content, held: set<Hash>, path: seq<Hash>, i: nat, j: nat)
    requires Closed(content, held) && IsPath(content, path) && i <= j < |path| && path[i] in held
    ensures path[j] in held
  {
    if i < j {
      HeldAlong(content, held, path, i, j - 1);
      assert Child(content, path[j - 1], path[j]);
    }
  }

  /** Nothing lies behind a closed store. */
  lemma ClosedHidesNothing(content: Content, held: set<Hash>, h: Hash)
    requires Closed(content, held)
    ensures NothingBehind(content, held, h)
  {
    forall x | Reaches(content, h, x) && x !in held ensures ReachesOutside(content, held, h, x) {
      var path :| Joins(content, path, h, x);
      forall i | 0 <= i < |path| ensures path[i] !in held {
        if path[i] in held {
          HeldAlong(content, held, path, i, |path| - 1);
        }
      }
    }
  }

  /** A copy into a sound store passes through sound states only. */
  lemma CopyStaysSound(content: Content, src: set<Hash>, h: Hash, before: Snapshot, after: Snapshot, steps: seq<Snapshot>)
    requires Sound(content, before) && Copied(content, src, h, before, after, steps)
    ensures Sound(content, after) && AllSound(content, steps)
  {
    StaysClosed(content, before, after);
    forall i | 0 <= i < |steps| ensures Sound(content, steps[i]) {
      StaysClosed(content, before, steps[i]);
    }
  }

  // ---------- fetch ----------

  /** A refspec: which source refs it selects, the name it stores each under,
      and which destination names its right-hand side covers. */
  datatype RefSpec = RefSpec(valid: bool, wildcard: bool, selects: string -> bool, stores: string -> string, covers: string -> bool)

  datatype SourceRef = SourceRef(name: string, hash: Hash)

  /** Later refspecs and later refs win. */
  function WantedBy(spec: RefSpec, refs: seq<SourceRef>, wanted: RefMap): RefMap {
    if refs == [] then wanted
    else
      var n := |refs| - 1;
      var rest := WantedBy(spec, refs[..n], wanted);
      if spec.selects(refs[n].name) then rest[spec.stores(refs[n].name) := refs[n].hash] else rest
  }

  function Wanted(specs: seq<RefSpec>, refs: seq<SourceRef>): RefMap {
    if specs == [] then map[] else WantedBy(specs[|specs| - 1], refs, Wanted(specs[..|specs| - 1], refs))
  }

  ghost predicate Selected(spec: RefSpec, refs: seq<SourceRef>) {
    exists i :: 0 <= i < |refs| && spec.selects(refs[i].name)
  }

  /** specs[i] selects refs[j] and stores it under name. */
  ghost predicate StoredAs(specs: seq<RefSpec>, refs: seq<SourceRef>, name: string, i: int, j: int) {
    && 0 <= i < |specs| && 0 <= j < |refs|
    && specs[i].selects(refs[j].name) && specs[i].stores(refs[j].name) == name
  }

  /** No later refspec, and no later ref of the same refspec, is stored under name too. */
  ghost predicate LastStored(specs: seq<RefSpec>, refs: seq<SourceRef>, name: string, i: int, j: int) {
    StoredAs(specs, refs, name, i, j) && forall a, b :: StoredAs(specs, refs, name, a, b) ==> a < i || (a == i && b <= j)
  }

  /** The names some ref is stored under, each with the hash of the last one. */
  ghost predicate SaysWhatIsStored(specs: seq<RefSpec>, refs: seq<SourceRef>, wanted: RefMap) {
    forall name :: (name in wanted <==> exists i, j :: StoredAs(specs, refs, name, i, j)) && NamesLast(specs, refs, wanted, name)
  }

  ghost predicate NamesLast(specs: seq<RefSpec>, refs: seq<SourceRef>, wanted: RefMap, name: string) {
    name in wanted ==> exists i, j :: LastStored(specs, refs, name, i, j) && wanted[name] == refs[j].hash
  }

  lemma WantedIsWhatIsStored(specs: seq<RefSpec>, refs: seq<SourceRef>)
    ensures SaysWhatIsStored(specs, refs, Wanted(specs, refs))
  {
    forall name
      ensures name in Wanted(specs, refs) <==> exists i, j :: StoredAs(specs, refs, name, i, j)
      ensures NamesLast(specs, refs, Wanted(specs, refs), name)
    {
      var i, j := LastOfSpecs(specs, refs, name);
    }
  }

  /** The last refspec and ref stored under name; i is -1 when there is none. */
  lemma {:induction false} LastOfSpecs(specs: seq<RefSpec>, refs: seq<SourceRef>, name: string) returns (i: int, j: int)
    ensures i < 0 ==> name !in Wanted(specs, refs) && forall a, b :: !StoredAs(specs, refs, name, a, b)
    ensures i >= 0 ==> LastStored(specs, refs, name, i, j) && name in Wanted(specs, refs) && Wanted(specs, refs)[name] == refs[j].hash
  {
    i, j := -1, -1;
    if specs != [] {
      var n := |specs| - 1;
      j := LastOfSpec(specs[n], refs, Wanted(specs[..n], refs), name);
      if j >= 0 {
        i := n;
      } else {
        i, j := LastOfSpecs(specs[..n], refs, name);
        forall a, b | StoredAs(specs, refs, name, a, b) ensures StoredAs(specs[..n], refs, name, a, b) {
        }
        assert i >= 0 ==> StoredAs(specs, refs, name, i, j);
      }
    }
  }

  lemma {:induction false} LastOfSpec(spec: RefSpec, refs: seq<SourceRef>, wanted: RefMap, name: string) returns (j: int)
    ensures -1 <= j < |refs|
    ensures forall b :: j < b < |refs| ==> !(spec.selects(refs[b].name) && spec.stores(refs[b].name) == name)
    ensures j >= 0 ==>
      && spec.selects(refs[j].name) && spec.stores(refs[j].name) == name
      && name in WantedBy(spec, refs, wanted) && WantedBy(spec, refs, wanted)[name] == refs[j].hash
    ensures j < 0 ==>
      && (name in WantedBy(spec, refs, wanted) <==> name in wanted)
      && (name in wanted ==> WantedBy(spec, refs, wanted)[name] == wanted[name])
  {
    j := -1;
    if refs != [] {
      var n := |refs| - 1;
      if spec.selects(refs[n].name) && spec.stores(refs[n].name) == name {
        j := n;
      } else {
        j := LastOfSpec(spec, refs[..n], wanted, name);
      }
    }
  }

  /** Every wanted ref has the value of some source ref. */
  lemma WantedValues(specs: seq<RefSpec>, refs: seq<SourceRef>, name: string)
    requires name in Wanted(specs, refs)
    ensures exists i :: 0 <= i < |refs| && refs[i].hash == Wanted(specs, refs)[name]
  {
    var i, j := LastOfSpecs(specs, refs, name);
  }

  /** The loop that matches refspecs against the source's refs. */
  method SelectRefs(specs: seq<RefSpec>, refs: seq<SourceRef>) returns (wanted: RefMap, r: Result)
    ensures r == Ok ==> wanted == Wanted(specs, refs)
    ensures r == Ok <==> SpecsMatch(specs, refs)
    ensures r in {Ok, BadRefSpec, NoMatch}
  {
    wanted := map[];
    for i := 0 to |specs|
      invariant wanted == Wanted(specs[..i], refs)
      invariant forall j :: 0 <= j < i ==> specs[j].valid && (specs[j].wildcard || Selected(specs[j], refs))
    {
      if !specs[i].valid {
        return wanted, BadRefSpec;
      }
      var matched := false;
      for j := 0 to |refs|
        invariant wanted == WantedBy(specs[i], refs[..j], Wanted(specs[..i], refs))
        invariant matched <==> exists k :: 0 <= k < j && specs[i].selects(refs[k].name)
      {
        assert refs[..j + 1][..j] == refs[..j];
        if specs[i].selects(refs[j].name) {
          wanted := wanted[specs[i].stores(refs[j].name) := refs[j].hash];
          matched := true;
        }
      }
      assert refs[..|refs|] == refs && specs[..i + 1][..i] == specs[..i];
      if !matched && !specs[i].wildcard {
        return wanted, NoMatch;
      }
    }
    assert specs[..|specs|] == specs;
    r := Ok;
  }

  predicate Covered(specs: seq<RefSpec>, name: string) {
    exists i :: 0 <= i < |specs| && specs[i].covers(name)
  }

  /** The refs a finished fetch leaves. */
  function FetchedRefs(specs: seq<RefSpec>, wanted: RefMap, prune: bool, refs: RefMap): RefMap {
    map n | n in refs.Keys + wanted.Keys && (n in wanted || !prune || !Covered(specs, n))
      :: if n in wanted then wanted[n] else refs[n]
  }

  /** The same said of one name at a time: it holds the hash of the last source ref
      stored under it; if none is, it is as before, unless it is pruned. */
  ghost predicate FetchLeaves(specs: seq<RefSpec>, refs: seq<SourceRef>, prune: bool, before: RefMap, after: RefMap) {
    forall name ::
      (forall i, j :: LastStored(specs, refs, name, i, j) ==> name in after && after[name] == refs[j].hash)
      && ((forall i, j :: !StoredAs(specs, refs, name, i, j)) ==> LeftAlone(specs, prune, before, after, name))
  }

  /** A name the source has nothing for stays, except that pruning removes it when a
      refspec's right-hand side covers it. */
  ghost predicate LeftAlone(specs: seq<RefSpec>, prune: bool, before: RefMap, after: RefMap, name: string) {
    && (name in after <==> name in before && !(prune && exists i :: 0 <= i < |specs| && specs[i].covers(name)))
    && (name in after ==> after[name] == before[name])
  }

  lemma FetchedIsLeft(specs: seq<RefSpec>, refs: seq<SourceRef>, prune: bool, before: RefMap)
    ensures FetchLeaves(specs, refs, prune, before, FetchedRefs(specs, Wanted(specs, refs), prune, before))
  {
    var after := FetchedRefs(specs, Wanted(specs, refs), prune, before);
    forall name
      ensures forall i, j :: LastStored(specs, refs, name, i, j) ==> name in after && after[name] == refs[j].hash
      ensures (forall i, j :: !StoredAs(specs, refs, name, i, j)) ==> LeftAlone(specs, prune, before, after, name)
    {
      var i, j := LastOfSpecs(specs, refs, name);
      if i >= 0 {
        forall a, b | LastStored(specs, refs, name, a, b) ensures a == i && b == j {
          assert StoredAs(specs, refs, name, i, j) && StoredAs(specs, refs, name, a, b);
        }
      }
    }
  }

  /** States reached from before by writing objects and refs, sound throughout. */
  ghost predicate SoundRun(content: Content, before: seq<Snapshot>, after: seq<Snapshot>) {
    before <= after && AllSound(content, after[|before|..])
  }

  /** A state a fetch passes through: new objects came with their children, and a
      ref that changed points at an object that is there. */
  ghost predicate Fetching(content: Content, start: Snapshot, s: Snapshot) {
    && start.objects <= s.objects && NewComeWithChildren(content, start.objects, s.objects)
    && forall n :: n in s.refs ==> s.refs[n] in s.objects || (n in start.refs && s.refs[n] == start.refs[n])
  }

  ghost predicate FetchRun(content: Content, start: Snapshot, before: seq<Snapshot>, after: seq<Snapshot>) {
    before <= after && forall i :: |before| <= i < |after| ==> Fetching(content, start, after[i])
  }

  lemma FetchingSound(content: Content, start: Snapshot, s: Snapshot)
    requires Sound(content, start) && Fetching(content, start, s)
    ensures Sound(content, s)
  {
    forall x, c | x in s.objects && Child(content, x, c) ensures c in s.objects {
      if x in start.objects {
        assert c in start.objects;
      }
    }
  }

  /** From a sound store every state is sound. */
  lemma FetchRunSound(content: Content, start: Snapshot, before: seq<Snapshot>, after: seq<Snapshot>)
    requires Sound(content, start) && FetchRun(content, start, before, after)
    ensures SoundRun(content, before, after)
  {
    forall i | 0 <= i < |after[|before|..]| ensures Sound(content, after[|before|..][i]) {
      FetchingSound(content, start, after[|before| + i]);
    }
  }

  lemma FetchRunMore(content: Content, start: Snapshot, a: seq<Snapshot>, b: seq<Snapshot>, s: Snapshot)
    requires FetchRun(content, start, a, b) && Fetching(content, start, s)
    ensures FetchRun(content, start, a, b + [s])
  {
    forall i | |a| <= i < |b + [s]| ensures Fetching(content, start, (b + [s])[i]) {
      if i < |b| {
        assert Fetching(content, start, b[i]);
      }
    }
  }

  lemma FetchRunsJoin(content: Content, start: Snapshot, a: seq<Snapshot>, b: seq<Snapshot>, c: seq<Snapshot>)
    requires FetchRun(content, start, a, b) && FetchRun(content, start, b, c)
    ensures FetchRun(content, start, a, c)
  {
    forall i | |a| <= i < |c| ensures Fetching(content, start, c[i]) {
      if i < |b| {
        assert Fetching(content, start, b[i]);
      }
    }
  }

  /** Copying further keeps a state one that a fetch passes through. */
  lemma FetchingCopied(content: Content, start: Snapshot, mid: Snapshot, s: Snapshot)
    requires Fetching(content, start, mid) && Between(content, mid, s)
    ensures Fetching(content, start, s)
  {
    forall x, c | x in s.objects && x !in start.objects && Child(content, x, c) ensures c in s.objects {
      if x in mid.objects {
        assert c in mid.objects;
      }
    }
  }

  /** x is reached from something wanted without passing through held. */
  ghost predicate WantedOutside(content: Content, held: set<Hash>, wanted: RefMap, x: Hash) {
    exists n :: n in wanted && ReachesOutside(content, held, wanted[n], x)
  }

  /** The copy of something wanted, from wherever it stands, stopped at missing. */
  ghost predicate StoppedShort(content: Content, src: set<Hash>, wanted: RefMap, missing: Hash, objects: set<Hash>) {
    exists n :: n in wanted && (wanted[n] in src ==> StoppedAt(content, wanted[n], missing, objects))
  }

  ghost predicate CopiedWanted(content: Content, src: set<Hash>, wanted: RefMap, before: set<Hash>, objects: set<Hash>) {
    before <= objects && forall x :: x in objects - before ==> x in src && WantedOutside(content, before, wanted, x)
  }

  lemma CopiedOneWanted(content: Content, src: set<Hash>, wanted: RefMap, n: string, before: set<Hash>, mid: Snapshot, after: Snapshot, steps: seq<Snapshot>)
    requires n in wanted && CopiedWanted(content, src, wanted, before, mid.objects) && Copied(content, src, wanted[n], mid, after, steps)
    ensures CopiedWanted(content, src, wanted, before, after.objects)
  {
    forall x | x in after.objects - before ensures x in src && WantedOutside(content, before, wanted, x) {
      if x in after.objects - mid.objects {
        OutsideFewer(content, before, mid.objects, wanted[n], x);
      }
    }
  }

  lemma CopyStepsFetch(content: Content, start: Snapshot, a: seq<Snapshot>, b: seq<Snapshot>, mid: Snapshot, steps: seq<Snapshot>)
    requires FetchRun(content, start, a, b) && Fetching(content, start, mid)
    requires forall i :: 0 <= i < |steps| ==> Between(content, mid, steps[i])
    ensures FetchRun(content, start, a, b + steps)
  {
    forall i | |a| <= i < |b + steps| ensures Fetching(content, start, (b + steps)[i]) {
      if i < |b| {
        assert Fetching(content, start, b[i]);
      } else {
        FetchingCopied(content, start, mid, steps[i - |b|]);
      }
    }
  }

  /** Copy every wanted object before any ref is touched. */
  method CopyWanted(content: Content, ghost rank: Hash -> nat, src: set<Hash>, dst: Repo, wanted: RefMap) returns (r: Result)
    requires Acyclic(content, rank)
    modifies dst
    ensures FetchRun(content, old(dst.Now()), old(dst.trace), dst.trace) && Fetching(content, old(dst.Now()), dst.Now())
    ensures dst.refs == old(dst.refs) && CopiedWanted(content, src, wanted, old(dst.objects), dst.objects)
    ensures r == Ok ==> forall n :: n in wanted ==> wanted[n] in dst.objects
    ensures r.Missing? ==> WantedOutside(content, old(dst.objects), wanted, r.hash) && r.hash !in src
    ensures r.Missing? ==> StoppedShort(content, src, wanted, r.hash, dst.objects)
    ensures r in {Ok, Cancelled, WriteFailed} || r.Missing?
    ensures dst.calm ==> r == Ok || r.Missing?
  {
    ghost var start := dst.Now();
    var todo := wanted.Keys;
    while todo != {}
      invariant FetchRun(content, start, old(dst.trace), dst.trace) && Fetching(content, start, dst.Now())
      invariant dst.refs == start.refs && CopiedWanted(content, src, wanted, start.objects, dst.objects)
      invariant todo <= wanted.Keys
      invariant forall n :: n in wanted && n !in todo ==> wanted[n] in dst.objects
      decreases |todo|
    {
      var name :| name in todo;
      todo := todo - {name};
      ghost var mid, before := dst.Now(), dst.trace;
      ghost var steps;
      r, steps := Copy(content, rank, src, dst, wanted[name]);
      CopyStepsFetch(content, start, old(dst.trace), before, mid, steps);
      FetchingCopied(content, start, mid, dst.Now());
      CopiedOneWanted(content, src, wanted, name, start.objects, mid, dst.Now(), steps);
      if r != Ok {
        if r.Missing? {
          OutsideFewer(content, start.objects, mid.objects, wanted[name], r.hash);
        }
        return;
      }
    }
    r := Ok;
  }

  lemma OneMore(refs: RefMap, wanted: RefMap, todo: set<string>, name: string)
    requires name in todo && name in wanted
    ensures refs + (wanted - (todo - {name})) == (refs + (wanted - todo))[name := wanted[name]]
  {
  }

  /** Set the wanted refs, in any order. */
  method SetWanted(content: Content, dst: Repo, wanted: RefMap, ghost start: Snapshot) returns (ok: bool)
    requires Fetching(content, start, dst.Now()) && forall n :: n in wanted ==> wanted[n] in dst.objects
    modifies dst
    ensures FetchRun(content, start, old(dst.trace), dst.trace) && Fetching(content, start, dst.Now())
    ensures dst.objects == old(dst.objects)
    ensures ok ==> dst.refs == old(dst.refs) + wanted
    ensures dst.calm ==> ok
  {
    var todo := wanted.Keys;
    while todo != {}
      invariant FetchRun(content, start, old(dst.trace), dst.trace) && Fetching(content, start, dst.Now())
      invariant dst.objects == old(dst.objects)
      invariant todo <= wanted.Keys
      invariant dst.refs == old(dst.refs) + (wanted - todo)
      decreases |todo|
    {
      var name :| name in todo;
      OneMore(old(dst.refs), wanted, todo, name);
      todo := todo - {name};
      ghost var before := dst.trace;
      ok := dst.SetRef(name, wanted[name]);
      if !ok {
        return;
      }
      FetchRunMore(content, start, old(dst.trace), before, dst.Now());
    }
    assert wanted - todo == wanted;
    ok := true;
  }

  /** Remove the refs a refspec covers and the source no longer has. */
  method RemoveStale(content: Content, dst: Repo, stale: set<string>, ghost start: Snapshot) returns (ok: bool)
    requires Fetching(content, start, dst.Now())
    modifies dst
    ensures FetchRun(content, start, old(dst.trace), dst.trace) && Fetching(content, start, dst.Now())
    ensures dst.objects == old(dst.objects)
    ensures ok ==> dst.refs == old(dst.refs) - stale
    ensures dst.calm ==> ok
  {
    var todo := stale;
    while todo != {}
      invariant FetchRun(content, start, old(dst.trace), dst.trace) && Fetching(content, start, dst.Now())
      invariant dst.objects == old(dst.objects) && todo <= stale
      invariant dst.refs == old(dst.refs) - (stale - todo)
      decreases |todo|
    {
      var name :| name in todo;
      todo := todo - {name};
      ghost var before := dst.trace;
      ok := dst.RemoveRef(name);
      if !ok {
        return;
      }
      FetchRunMore(content, start, old(dst.trace), before, dst.Now());
    }
    assert stale - todo == stale;
    ok := true;
  }

  ghost predicate SpecsMatch(specs: seq<RefSpec>, refs: seq<SourceRef>) {
    forall i :: 0 <= i < |specs| ==> specs[i].valid && (specs[i].wildcard || Selected(specs[i], refs))
  }

  ghost predicate AllComplete(content: Content, wanted: RefMap, objects: set<Hash>) {
    forall n :: n in wanted ==> Complete(content, objects, wanted[n])
  }

  /** The source has everything a copy will ask it for. */
  ghost predicate Supplies(content: Content, src: set<Hash>, held: set<Hash>, wanted: RefMap) {
    forall x :: WantedOutside(content, held, wanted, x) ==> x in src
  }

  /** What h reaches and held lacks is reached from something wanted without
      passing through held. */
  ghost predicate NothingBehindAll(content: Content, held: set<Hash>, wanted: RefMap, h: Hash) {
    forall x :: Reaches(content, h, x) && x !in held ==> WantedOutside(content, held, wanted, x)
  }

  /** For a closed store, the source supplies what is asked exactly when
      everything wanted is complete between the two. */
  lemma SuppliesIsComplete(content: Content, src: set<Hash>, held: set<Hash>, wanted: RefMap)
    requires Closed(content, held)
    ensures Supplies(content, src, held, wanted) <==> AllComplete(content, wanted, src + held)
  {
    if Supplies(content, src, held, wanted) {
      forall n, x | n in wanted && Reaches(content, wanted[n], x) ensures x in src + held {
        ClosedHidesNothing(content, held, wanted[n]);
        if x !in held {
          assert WantedOutside(content, held, wanted, x);
        }
      }
    }
    if AllComplete(content, wanted, src + held) {
      forall x | WantedOutside(content, held, wanted, x) ensures x in src {
        var n :| n in wanted && ReachesOutside(content, held, wanted[n], x);
        OutsideIsReached(content, held, wanted[n], x);
        OutsideNotHeld(content, held, wanted[n], x);
      }
    }
  }

  lemma OutsideNotHeld(content: Content, held: set<Hash>, h: Hash, x: Hash)
    requires ReachesOutside(content, held, h, x)
    ensures x !in held
  {
  }

  /** What a finished copy of everything wanted leaves, in any store. */
  lemma WantedExactly(content: Content, src: set<Hash>, wanted: RefMap, before: Snapshot, after: Snapshot)
    requires Fetching(content, before, after) && CopiedWanted(content, src, wanted, before.objects, after.objects)
    requires forall n :: n in wanted ==> wanted[n] in after.objects
    ensures forall x :: x in after.objects <==> x in before.objects || WantedOutside(content, before.objects, wanted, x)
    ensures forall n :: n in wanted ==>
      (Complete(content, after.objects, wanted[n]) <==> NothingBehindAll(content, before.objects, wanted, wanted[n]))
    ensures Supplies(content, src, before.objects, wanted)
  {
    forall x | WantedOutside(content, before.objects, wanted, x) ensures x in after.objects && x in src {
      var n :| n in wanted && ReachesOutside(content, before.objects, wanted[n], x);
      OutsideIsAdded(content, before.objects, after.objects, wanted[n], x);
      OutsideNotHeld(content, before.objects, wanted[n], x);
      assert x in after.objects - before.objects;
    }
    forall x | x in after.objects ensures x in before.objects || WantedOutside(content, before.objects, wanted, x) {
      if x !in before.objects {
        assert x in after.objects - before.objects;
      }
    }
  }

  /** What a fetch into any store amounts to. */
  ghost predicate Fetched(content: Content, src: set<Hash>, wanted: RefMap, before: Snapshot, after: Snapshot, r: Result) {
    && Fetching(content, before, after) && CopiedWanted(content, src, wanted, before.objects, after.objects)
    && (r == Ok ==> forall n :: n in wanted ==> wanted[n] in after.objects)
    && (r.Missing? ==> WantedOutside(content, before.objects, wanted, r.hash) && r.hash !in src)
  }

  lemma NothingFetched(content: Content, src: set<Hash>, wanted: RefMap, s: Snapshot, trace: seq<Snapshot>, r: Result)
    requires r != Ok && !r.Missing?
    ensures Fetched(content, src, wanted, s, s, r) && FetchRun(content, s, trace, trace)
  {
  }

  /** The fetch, into any store. From a sound one, no ref points at an object
      whose history is incomplete at any moment, whatever return it takes. */
  method FetchFrom(content: Content, ghost rank: Hash -> nat, srcRefs: seq<SourceRef>, src: set<Hash>, dst: Repo, prune: bool, specs: seq<RefSpec>)
    returns (r: Result)
    requires Acyclic(content, rank)
    modifies dst
    ensures FetchRun(content, old(dst.Now()), old(dst.trace), dst.trace)
    ensures Fetched(content, src, Wanted(specs, srcRefs), old(dst.Now()), dst.Now(), r)
    ensures r == Ok ==> dst.refs == FetchedRefs(specs, Wanted(specs, srcRefs), prune, old(dst.refs))
    ensures r == Ok ==> FetchLeaves(specs, srcRefs, prune, old(dst.refs), dst.refs)
    ensures r in {BadRefSpec, NoMatch} <==> !SpecsMatch(specs, srcRefs)
    ensures r in {BadRefSpec, NoMatch} ==> dst.Now() == old(dst.Now())
    ensures !r.NoPrerequisite? && !r.RefMoved?
    ensures r.Cancelled? || r.Missing? ==> dst.refs == old(dst.refs)
    ensures r.Missing? ==> StoppedShort(content, src, Wanted(specs, srcRefs), r.hash, dst.objects)
    ensures dst.calm ==> r == Ok || r.Missing? || r in {BadRefSpec, NoMatch}
  {
    ghost var start := dst.Now();
    var wanted;
    wanted, r := SelectRefs(specs, srcRefs);
    if r != Ok {
      NothingFetched(content, src, Wanted(specs, srcRefs), start, dst.trace, r);
      return;
    }
    r := CopyWanted(content, rank, src, dst, wanted);
    if r != Ok {
      return;
    }
    ghost var copied := dst.trace;
    var ok := SetWanted(content, dst, wanted, start);
    FetchRunsJoin(content, start, old(dst.trace), copied, dst.trace);
    if !ok {
      return WriteFailed;
    }
    FetchedIsLeft(specs, srcRefs, prune, start.refs);
    if !prune {
      return Ok;
    }
    var stale := set n | n in dst.refs && n !in wanted && Covered(specs, n);
    ghost var refsSet := dst.trace;
    ok := RemoveStale(content, dst, stale, start);
    FetchRunsJoin(content, start, old(dst.trace), refsSet, dst.trace);
    r := if ok then Ok else WriteFailed;
  }

  /** A finished fetch stored exactly what is wanted and was not behind what the
      store held; a ref it set is complete exactly when nothing lies behind. It
      runs into a missing object exactly when the source does not supply one. */
  lemma FetchOutcome(content: Content, src: set<Hash>, wanted: RefMap, before: Snapshot, after: Snapshot, r: Result)
    requires Fetched(content, src, wanted, before, after, r)
    ensures r == Ok ==> forall x :: x in after.objects <==> x in before.objects || WantedOutside(content, before.objects, wanted, x)
    ensures r == Ok ==> forall n :: n in wanted ==>
      (Complete(content, after.objects, wanted[n]) <==> NothingBehindAll(content, before.objects, wanted, wanted[n]))
    ensures r == Ok ==> Supplies(content, src, before.objects, wanted)
    ensures r.Missing? ==> !Supplies(content, src, before.objects, wanted)
  {
    if r == Ok {
      WantedExactly(content, src, wanted, before, after);
    }
  }

  /** Into a sound store: everything the fetch set is complete, and it runs into
      a missing object exactly when something wanted is incomplete between the two. */
  lemma SoundFetchOutcome(content: Content, src: set<Hash>, wanted: RefMap, before: Snapshot, after: Snapshot, r: Result)
    requires Sound(content, before) && Fetched(content, src, wanted, before, after, r)
    ensures Sound(content, after)
    ensures r == Ok ==> AllComplete(content, wanted, after.objects) && AllComplete(content, wanted, src + before.objects)
    ensures r.Missing? ==> !AllComplete(content, wanted, src + before.objects)
  {
    FetchingSound(content, before, after);
    FetchOutcome(content, src, wanted, before, after, r);
    SuppliesIsComplete(content, src, before.objects, wanted);
    if r == Ok {
      forall n | n in wanted ensures Complete(content, after.objects, wanted[n]) {
        ClosedIsComplete(content, after.objects, wanted[n]);
      }
    }
  }

  ghost predicate SuppliesOne(content: Content, src: set<Hash>, held: set<Hash>, h: Hash) {
    forall x :: ReachesOutside(content, held, h, x) ==> x in src
  }

  lemma SuppliesOneIsComplete(content: Content, src: set<Hash>, held: set<Hash>, h: Hash)
    requires Closed(content, held)
    ensures SuppliesOne(content, src, held, h) <==> Complete(content, src + held, h)
  {
    var wanted: RefMap := map["" := h];
    SuppliesIsComplete(content, src, held, wanted);
    assert wanted[""] == h;
    if Supplies(content, src, held, wanted) {
      forall x | ReachesOutside(content, held, h, x) ensures x in src {
        assert WantedOutside(content, held, wanted, x);
      }
    }
  }

  /** Copy a commit's history, then create the ref if it is not there yet. Into any
      store: undisturbed, it succeeds exactly when the source has what the commit
      reaches outside the store, and the ref it set is complete exactly when
      nothing lies behind what the store held. */
  method PushCommit(content: Content, ghost rank: Hash -> nat, src: set<Hash>, dst: Repo, commit: Hash, ref: string) returns (r: Result)
    requires Acyclic(content, rank)
    modifies dst
    ensures old(Sound(content, dst.Now())) ==> SoundRun(content, old(dst.trace), dst.trace) && Sound(content, dst.Now())
    ensures r == Ok ==> ref in dst.refs && dst.refs[ref] == commit
    ensures r == Ok ==> forall x :: x in dst.objects <==> x in old(dst.objects) || ReachesOutside(content, old(dst.objects), commit, x)
    ensures r == Ok ==> (Complete(content, dst.objects, commit) <==> NothingBehind(content, old(dst.objects), commit))
    ensures ref in old(dst.refs) ==> dst.refs == old(dst.refs)
    ensures r == RefMoved ==> ref in dst.refs && dst.refs[ref] != commit
    ensures r == Ok && old(Sound(content, dst.Now())) ==> Complete(content, dst.objects, commit)
    ensures dst.calm ==> (r == Ok <==>
      SuppliesOne(content, src, old(dst.objects), commit) && (ref in old(dst.refs) ==> old(dst.refs)[ref] == commit))
    ensures dst.calm && old(Sound(content, dst.Now())) ==> (r == Ok <==>
      Complete(content, src + old(dst.objects), commit) && (ref in old(dst.refs) ==> old(dst.refs)[ref] == commit))
  {
    ghost var before, trace := dst.Now(), dst.trace;
    ghost var steps;
    r, steps := Copy(content, rank, src, dst, commit);
    if Sound(content, before) {
      CopyStaysSound(content, src, commit, before, dst.Now(), steps);
      assert dst.trace[|trace|..] == steps;
      SuppliesOneIsComplete(content, src, before.objects, commit);
      ClosedHidesNothing(content, before.objects, commit);
    }
    if r != Ok {
      return;
    }
    CopyAddsExactly(content, src, commit, before, dst.Now(), steps);
    forall x | ReachesOutside(content, before.objects, commit, x) ensures x in src {
      OutsideNotHeld(content, before.objects, commit, x);
      assert x in dst.objects - before.objects;
    }
    if ref in dst.refs {
      return if dst.refs[ref] == commit then Ok else RefMoved;
    }
    ghost var copied := dst.trace;
    var ok := dst.SetRef(ref, commit);
    if ok && Sound(content, before) {
      assert dst.trace[|trace|..] == copied[|trace|..] + [dst.Now()];
    }
    r := if ok then Ok else WriteFailed;
  }
}

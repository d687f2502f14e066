/** The guard's calls carried out on a ref store: every write of a run goes
    through UpdateRef or DeleteRefIf, and the store ends up as the runs say. */
module GuardOnRefs {
  import opened Refs
  import opened Guard
  import opened GuardRace

  /** A merge in flight is about a commit the repository holds. */
  ghost predicate Pushed(objects: set<Id>, c: Call) {
    match c
    case MergeHolding(commit, _) => commit == "" || commit in objects
    case MergeChecked(commit, _) => commit in objects
    case MergeUnstopped(commit, _, _, _) => commit in objects
    case MergeBased(commit, _, _, _, _) => commit in objects
    case _ => true
  }

  ghost predicate AllPushed(objects: set<Id>, s: State) {
    forall p :: p in s.calls ==> Pushed(objects, s.calls[p])
  }

  /** The steps that end in a ref write. */
  predicate Writes(l: Line, s: State, a: Action) {
    var c := CallOf(s, a.pid);
    (a.Advance? && (c.MergeBased? || c.ClearNewer?))
    || (a.WriteStop? && c.PullUnstopped? && a.blob != "" && Records(l, a.blob, c.commit, c.failure))
  }

  lemma OthersReadOnly(l: Line, s: State, a: Action)
    requires !Writes(l, s, a)
    ensures Apply(l, s, a).refs == s.refs
  {
  }

  lemma StepMovesItsCall(l: Line, s: State, pid: nat, c: Call, p: nat)
    requires p != pid
    ensures CallOf(Step(l, s, pid, c), p) == CallOf(s, p)
  {
  }

  /** An action moves its own call only. */
  lemma OnlyItsCall(l: Line, s: State, a: Action, p: nat)
    requires p != a.pid
    ensures CallOf(Apply(l, s, a), p) == CallOf(s, p)
  {
    if a.Advance? {
      StepMovesItsCall(l, s, a.pid, CallOf(s, a.pid), p);
    }
  }

  lemma NextPushed(l: Line, s: State, a: Action, objects: set<Id>)
    requires Pushed(objects, CallOf(s, a.pid))
    ensures Pushed(objects + (if a.StartMerge? then {a.commit} else {}), CallOf(Apply(l, s, a), a.pid))
  {
  }

  lemma PushedKept(l: Line, s: State, a: Action, objects: set<Id>)
    requires AllPushed(objects, s)
    ensures AllPushed(objects + (if a.StartMerge? then {a.commit} else {}), Apply(l, s, a))
  {
    var s' := Apply(l, s, a);
    var objects' := objects + (if a.StartMerge? then {a.commit} else {});
    forall p | p in s'.calls ensures Pushed(objects', s'.calls[p]) {
      if p == a.pid {
        NextPushed(l, s, a, objects);
      } else {
        OnlyItsCall(l, s, a, p);
        assert CallOf(s', p) == s'.calls[p];
      }
    }
  }

  method Act(l: Line, store: RefStore, s: State, a: Action) returns (s': State)
    requires store.IsValid() && store.refs == s.refs && AllPushed(store.objects, s)
    modifies store
    ensures s' == Apply(l, s, a)
    ensures store.IsValid() && store.refs == s'.refs && AllPushed(store.objects, s')
  {
    var c := CallOf(s, a.pid);
    PushedKept(l, s, a, store.objects);
    if a.Advance? && c.MergeBased? {
      var r := store.UpdateRef(MASTER, c.commit, c.base);
      s' := Return(s, a.pid);
      if r == Written {
        s' := s'.(refs := store.refs, log := s.log + [Landed(c.commit, c.env, c.base, c.seen, c.seenAt)]);
      }
    } else if a.Advance? && c.ClearNewer? {
      var r := store.DeleteRefIf(STOP, c.id);
      s' := Return(s, a.pid);
      if r == Written {
        s' := s'.(refs := store.refs, log := s.log + [Cleared(c.id, c.commit, c.env, c.sawAt, c.masterAt, c.recheckAt)]);
      }
    } else if Writes(l, s, a) {
      store.objects := store.objects + {a.blob};
      var r := store.UpdateRef(STOP, a.blob, "");
      s' := Return(s, a.pid);
      if r == Written {
        s' := s'.(refs := store.refs, log := s.log + [Pulled(a.blob, c.env, c.commit, c.masterAt)]);
      }
    } else {
      OthersReadOnly(l, s, a);
      if a.StartMerge? && a.commit != "" {
        store.objects := store.objects + {a.commit}; // the candidate was pushed
      }
      s' := Apply(l, s, a);
    }
  }

  lemma RunMore(l: Line, s: State, acts: seq<Action>, a: Action)
    ensures Run(l, s, acts + [a]) == Apply(l, Run(l, s, acts), a)
  {
    RunSplit(l, s, acts, [a]);
    assert Run(l, Run(l, s, acts), [a]) == Run(l, Apply(l, Run(l, s, acts), a), []);
  }

  /** Any run, played on a store: the store's refs are the ones the theorems about runs speak of. */
  method Play(l: Line, acts: seq<Action>) returns (store: RefStore, s: State)
    requires l.seed != ""
    ensures fresh(store) && store.IsValid() && s == After(l, acts) && store.refs == s.refs
  {
    store := new RefStore();
    store.objects := {l.seed};
    var _ := store.UpdateRef(MASTER, l.seed, "");
    s := Init(l);
    for i := 0 to |acts|
      invariant fresh(store) && store.IsValid() && store.refs == s.refs && AllPushed(store.objects, s)
      invariant s == Run(l, Init(l), acts[..i])
    {
      s := Act(l, store, s, acts[i]);
      RunMore(l, Init(l), acts[..i], acts[i]);
      assert acts[..i + 1] == acts[..i] + [acts[i]];
    }
    assert acts[..|acts|] == acts;
  }
}

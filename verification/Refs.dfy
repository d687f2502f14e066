/** The named references of a repository and the two conditional writes the
    line's protocols are built on. An object ID is a string; the empty string
    never names an object and stands for "no value". */
module Refs {
  type Id = string
  type RefMap = map<string, Id>

  datatype Outcome = Written | RefMoved | NoObject

  /** The value of ref, "" when it does not exist. */
  function Value(refs: RefMap, ref: string): (id: Id) {
    if ref in refs then refs[ref] else ""
  }

  /** No ref holds the empty value. */
  ghost predicate Valid(refs: RefMap) {
    forall r :: r in refs ==> refs[r] != ""
  }

  /** Move ref from oldValue to newValue, or leave everything as it is. */
  function Swap(refs: RefMap, objects: set<Id>, ref: string, newValue: Id, oldValue: Id): (RefMap, Outcome) {
    if Value(refs, ref) != oldValue then (refs, RefMoved)
    else if newValue !in objects then (refs, NoObject)
    else (refs[ref := newValue], Written)
  }

  /** Delete ref if it holds oldValue. */
  function Drop(refs: RefMap, ref: string, oldValue: Id): (RefMap, Outcome) {
    if ref !in refs || refs[ref] != oldValue then (refs, RefMoved) else (refs - {ref}, Written)
  }

  /** The ref storage of one repository; each method holds the write lock. */
  class RefStore {
    var refs: RefMap
    var objects: set<Id>

    ghost predicate IsValid()
      reads this
    {
      Valid(refs) && "" !in objects
    }

    constructor ()
      ensures IsValid() && refs == map[] && objects == {}
    {
      refs := map[];
      objects := {};
    }

    method UpdateRef(ref: string, newValue: Id, oldValue: Id) returns (r: Outcome)
      requires IsValid()
      modifies `refs
      ensures IsValid()
      ensures (refs, r) == Swap(old(refs), objects, ref, newValue, oldValue)
      ensures r == RefMoved <==> if oldValue == "" then ref in old(refs) else !(ref in old(refs) && old(refs)[ref] == oldValue)
      ensures r != RefMoved ==> (r == Written <==> newValue in objects)
      ensures refs == if r == Written then old(refs)[ref := newValue] else old(refs)
    {
      if ref !in refs {
        if oldValue != "" {
          return RefMoved;
        }
      } else if oldValue == "" || refs[ref] != oldValue {
        return RefMoved;
      }
      if newValue !in objects {
        return NoObject;
      }
      refs := refs[ref := newValue];
      r := Written;
    }

    method DeleteRefIf(ref: string, oldValue: Id) returns (r: Outcome)
      requires IsValid()
      modifies `refs
      ensures IsValid()
      ensures (refs, r) == Drop(old(refs), ref, oldValue)
      ensures r != NoObject && (r == Written <==> ref in old(refs) && old(refs)[ref] == oldValue)
      ensures r == Written ==> ref !in refs && refs.Keys + {ref} == old(refs).Keys
      ensures forall other :: other in refs ==> other in old(refs) && refs[other] == old(refs)[other]
      ensures r == RefMoved ==> refs == old(refs)
    {
      if ref !in refs || refs[ref] != oldValue {
        return RefMoved;
      }
      refs := refs - {ref};
      r := Written;
    }
  }
}

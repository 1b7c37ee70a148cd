/** The safety hold of a machine: free, held for one generation, or in conflict. */
module Holds {
  import opened Base

  /** Stored in place of a generation once two of them compete; not itself a valid id. */
  const CONFLICT: Id := "!conflicting-physical-generations!"

  lemma ConflictIsNoGeneration(id: Id)
    requires ValidId(id)
    ensures id != CONFLICT
  {
    assert CONFLICT[0] == '!';
  }

  function Merge(hold: Option<Id>, id: Id): (r: Option<Id>)
    ensures r.Some?
    ensures hold == Some(CONFLICT) ==> r == hold
  {
    if hold.None? || hold.value == id then Some(id) else Some(CONFLICT)
  }

  /** A valid live heartbeat of `id` settles a hold on `id` and exposes any other hold. */
  function Reconcile(hold: Option<Id>, id: Id): (r: Option<Id>)
    ensures r.None? || r.value == CONFLICT
  {
    if hold.None? || hold.value == id then None else Some(CONFLICT)
  }

  /** Free < one generation < conflict. */
  predicate Below(a: Option<Id>, b: Option<Id>) {
    a.None? || a == b || b == Some(CONFLICT)
  }

  /** The join of a hold with a set of generations, without any order of merging. */
  ghost function JoinAll(hold: Option<Id>, ids: set<Id>): (r: Option<Id>) {
    if ids == {} then hold
    else if exists v :: ids == {v} && Below(hold, Some(v)) then
      var v :| ids == {v} && Below(hold, Some(v));
      Some(v)
    else Some(CONFLICT)
  }

  /** Merge is the least upper bound of the flat lattice. */
  lemma MergeIsLeastUpperBound(hold: Option<Id>, id: Id, up: Option<Id>)
    ensures Below(hold, Merge(hold, id)) && Below(Some(id), Merge(hold, id))
    ensures Below(hold, up) && Below(Some(id), up) ==> Below(Merge(hold, id), up)
  {
  }

  lemma MergeOrderIrrelevant(hold: Option<Id>, a: Id, b: Id)
    ensures Merge(Merge(hold, a), b) == Merge(Merge(hold, b), a)
    ensures Merge(Merge(hold, a), a) == Merge(hold, a)
  {
  }

  /** One more merge is one more element of the set, whatever was merged before. */
  lemma JoinOneMore(hold: Option<Id>, ids: set<Id>, id: Id)
    ensures JoinAll(hold, ids + {id}) == Merge(JoinAll(hold, ids), id)
  {
    if ids == {} {
      assert ids + {id} == {id};
    } else if id in ids {
      assert ids + {id} == ids;
    } else {
      var w :| w in ids;
      assert w in ids + {id} && id in ids + {id};
    }
  }

  /** The join is the least hold above the old one and above every merged generation. */
  lemma JoinIsLeastUpperBound(hold: Option<Id>, ids: set<Id>, up: Option<Id>)
    ensures Below(hold, JoinAll(hold, ids))
    ensures forall v | v in ids :: Below(Some(v), JoinAll(hold, ids))
    ensures Below(hold, up) && (forall v | v in ids :: Below(Some(v), up)) ==> Below(JoinAll(hold, ids), up)
  {
    if ids != {} && Below(hold, up) && (forall v | v in ids :: Below(Some(v), up)) && up != Some(CONFLICT) {
      var v :| v in ids;
      assert up == Some(v);
      forall w | w in ids ensures w == v { assert Below(Some(w), up); }
      assert ids == {v};
    }
  }

  /** Joining again with something already joined changes nothing. */
  lemma JoinAbsorbs(hold: Option<Id>, ids: set<Id>, id: Id)
    requires id in ids
    ensures JoinAll(JoinAll(hold, ids), {id}) == JoinAll(hold, ids)
  {
    JoinIsLeastUpperBound(hold, ids, None);
    assert JoinAll(hold, ids).Some?;
    assert {} + {id} == {id};
    JoinOneMore(JoinAll(hold, ids), {}, id);
  }
}

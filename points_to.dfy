/**
  The points-to set of an analysis node: the allocation-site objects the node
  may point to. Both mutating operations report whether the set grew.
 */
module PointsToSet {

  /**
    A points-to set. The element type is a parameter so that the set can hold
    the allocation-site nodes that themselves own a points-to set.
   */
  class PointsTo<T(==)> {
    /** The elements of the set (`getSet` hands out exactly this field). */
    var elems: set<T>
    /** Names the node that owns this set; used only in proofs. */
    ghost const owner: nat

    /** A fresh set is empty. */
    constructor (ghost owner: nat)
      ensures elems == {} && this.owner == owner
    {
      elems := {};
      this.owner := owner;
    }

    /** Whether the set has no elements. */
    function Empty(): (r: bool)
      reads this
      ensures r <==> elems == {}
    {
      |elems| == 0
    }

    /** Adds `x`; reports true exactly when `x` was absent, so when the set grew. */
    method Insert(x: T) returns (changed: bool)
      modifies this
      ensures changed <==> x !in old(elems)
      ensures elems == old(elems) + {x}
      ensures changed <==> |elems| > |old(elems)|
    {
      if x in elems {
        return false;
      }
      elems := elems + {x};
      return true;
    }

    /**
      Inserts every element of `other`, one at a time, and reports whether any
      insertion grew the set. `other` may be this very set.
     */
    method UnionSets(other: PointsTo<T>) returns (changed: bool)
      modifies this
      ensures elems == old(elems) + old(other.elems)
      ensures other.elems == old(other.elems)
      ensures changed <==> !(old(other.elems) <= old(elems))
      ensures other == this ==> !changed && elems == old(elems)
    {
      changed := false;
      var todo := other.elems;
      ghost var done: set<T> := {};
      while todo != {}
        invariant done + todo == old(other.elems) && done !! todo
        invariant elems == old(elems) + done
        invariant other.elems == old(other.elems)
        invariant changed <==> !(done <= old(elems))
        decreases todo
      {
        var x :| x in todo;
        if other == this {
          assert x in elems;
        }
        var grew := Insert(x);
        changed := changed || grew;
        todo, done := todo - {x}, done + {x};
      }
    }
  }

  /** Inserting the same element twice grows the set at most once. */
  method InsertTwice<T(==)>(p: PointsTo<T>, x: T) returns (first: bool, second: bool)
    modifies p
    ensures p.elems == old(p.elems) + {x}
    ensures first <==> x !in old(p.elems)
    ensures !second
  {
    first := p.Insert(x);
    second := p.Insert(x);
  }

  /** A second union with the same, unchanged set reports no change. */
  method UnionSetsTwice<T(==)>(p: PointsTo<T>, q: PointsTo<T>) returns (first: bool, second: bool)
    modifies p
    ensures p.elems == old(p.elems) + old(q.elems)
    ensures first <==> !(old(q.elems) <= old(p.elems))
    ensures !second
  {
    first := p.UnionSets(q);
    second := p.UnionSets(q);
  }
}

/**
  Analysis nodes. A node stands for one IR value: either a value that may hold
  a pointer (a value node) or an allocation site (an object node). Every node
  owns exactly one points-to set; an object node's set stands for what the
  allocated memory may point to.
 */
module Variables {
  import opened IR
  import opened PointsToSet

  /** The kind tag that tells value nodes and object nodes apart. */
  datatype VarClass = Value | Object

  /**
    An analysis node. Its kind, its value and its points-to set are fixed when
    it is built; only the contents of the points-to set change afterwards.
    The constructors `AllocI` and `ValueI` build the two kinds of node.
   */
  class Variable {
    const kind: VarClass
    const v: ValueId
    const ptset: PointsTo<Variable>

    /** A node of kind `c` for value `v`, with a new, empty points-to set of its own. */
    constructor (v: ValueId, c: VarClass)
      ensures this.v == v && GetVarClass() == c
      ensures fresh(GetPointsToSet()) && GetPointsToSet().Empty()
      ensures ptset.owner == OwnerTag(v, c)
    {
      this.v := v;
      kind := c;
      ptset := new PointsTo(OwnerTag(v, c));
    }

    /** An object node for the allocation site `v`. */
    constructor AllocI(v: ValueId)
      ensures this.v == v && GetVarClass() == Object
      ensures ClassofAllocI(this) && !ClassofValueI(this)
      ensures fresh(GetPointsToSet()) && GetPointsToSet().Empty()
      ensures ptset.owner == OwnerTag(v, Object)
    {
      this.v := v;
      kind := Object;
      ptset := new PointsTo(OwnerTag(v, Object));
    }

    /** A value node for the value `v`. */
    constructor ValueI(v: ValueId)
      ensures this.v == v && GetVarClass() == Value
      ensures ClassofValueI(this) && !ClassofAllocI(this)
      ensures fresh(GetPointsToSet()) && GetPointsToSet().Empty()
      ensures ptset.owner == OwnerTag(v, Value)
    {
      this.v := v;
      kind := Value;
      ptset := new PointsTo(OwnerTag(v, Value));
    }

    /** The kind this node was built with. */
    function GetVarClass(): (c: VarClass)
      ensures c == kind
    {
      kind
    }

    /** The points-to set this node owns; the same set on every call. */
    function GetPointsToSet(): (r: PointsTo<Variable>)
      ensures r == ptset
    {
      ptset
    }
  }

  /** A number that tells the points-to sets of different nodes apart; proofs only. */
  function OwnerTag(v: ValueId, c: VarClass): nat
  {
    match c
    case Value => 2 * v
    case Object => 2 * v + 1
  }

  /** Whether `n` is an object node (an allocation site). */
  predicate ClassofAllocI(n: Variable)
    ensures ClassofAllocI(n) <==> n.GetVarClass() == Object
  {
    match n.GetVarClass()
    case Object => true
    case Value => false
  }

  /** Whether `n` is a value node. */
  predicate ClassofValueI(n: Variable)
    ensures ClassofValueI(n) <==> n.GetVarClass() == Value
  {
    match n.GetVarClass()
    case Value => true
    case Object => false
  }

  /** Every node is of exactly one of the two kinds. */
  lemma ClassofPartition(n: Variable)
    ensures ClassofAllocI(n) != ClassofValueI(n)
  {
  }
}

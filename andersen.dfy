/**
  The intraprocedural Andersen-style points-to analysis: the classification of
  allocation sites, the two node tables, the per-instruction rules and the
  worklist driver that runs them until no rule reports a change.
 */
module Andersen {
  import opened IR
  import opened PointsToSet
  import opened Variables

  /** A table lookup: `None` stands for the null pointer. */
  datatype Option<T> = None | Some(value: T)

  /**
    Whether `inst` is an allocation site: every alloca, and a direct call to a
    function named exactly "calloc" (so a call to "malloc" is not one).
   */
  function IsAllocI(inst: Inst): (r: bool)
    ensures r <==> inst.kind == Alloca || inst.kind == Call(Direct("calloc"))
  {
    match inst.kind
    case Alloca => true
    case Call(callee) =>
      (match callee
       case Indirect => false
       case Direct(name) => name == "calloc")
    case _ => false
  }

  /** The instructions of `f` that receive an object node. */
  function AllocKeys(f: Function): set<ValueId>
  {
    AllocIn(f, Instructions(f))
  }

  /** Every alloca of `f` receives an object node. */
  lemma AllocaHasObjectNode(f: Function)
    requires WellFormed(f)
    ensures AllocaKeys(f) <= AllocKeys(f)
  {
  }

  /**
    The users the driver appends after a change: each user that is an
    instruction and is not already queued goes to the back of `worklist`.
   */
  method EnqueueUsers(insts: map<ValueId, Inst>, worklist: seq<ValueId>, users: seq<ValueId>)
    returns (w: seq<ValueId>)
    requires NoDup(worklist)
    ensures NoDup(w)
    ensures |worklist| <= |w| && w[..|worklist|] == worklist
    ensures forall x :: x in w <==> x in worklist || (x in users && x in insts)
  {
    w := worklist;
    for j := 0 to |users|
      invariant NoDup(w)
      invariant |worklist| <= |w| && w[..|worklist|] == worklist
      invariant forall x :: x in w <==> x in worklist || (x in users[..j] && x in insts)
    {
      var u := users[j];
      if u in insts && u !in w {
        w := w + [u];
      }
      assert users[..j + 1] == users[..j] + [u];
    }
    assert users[..|users|] == users;
  }

  /**
    The pass object: the table of value nodes and the table of object nodes,
    both keyed by IR value.
   */
  class AndersenPointsToAnalysis {
    var varMap: map<ValueId, Variable>
    var objMap: map<ValueId, Variable>
    /** The points-to sets of the tables' nodes; used only in proofs. */
    ghost var Repr: set<PointsTo<Variable>>

    /**
      The tables' invariant: each node is of the table's kind and stands for its
      key, and its points-to set is marked as its own (so no two nodes share a
      set, as `Exclusive` shows) and is in `Repr`.
     */
    ghost predicate Valid()
      reads this
    {
      && (forall k :: k in varMap ==>
            && varMap[k].kind == Value && varMap[k].v == k
            && varMap[k].ptset.owner == OwnerTag(k, Value) && varMap[k].ptset in Repr)
      && (forall k :: k in objMap ==>
            && objMap[k].kind == Object && objMap[k].v == k
            && objMap[k].ptset.owner == OwnerTag(k, Object) && objMap[k].ptset in Repr)
    }

    /** No two nodes of the tables share a points-to set. */
    lemma Exclusive(a: ValueId, b: ValueId)
      requires Valid()
      ensures a in varMap && b in varMap && a != b ==> varMap[a].ptset != varMap[b].ptset
      ensures a in objMap && b in objMap && a != b ==> objMap[a].ptset != objMap[b].ptset
      ensures a in varMap && b in objMap ==> varMap[a].ptset != objMap[b].ptset
    {
    }

    /** A pass with both tables empty. */
    constructor ()
      ensures Valid() && varMap == map[] && objMap == map[] && Repr == {}
    {
      varMap := map[];
      objMap := map[];
      Repr := {};
    }

    /** The value node of `v`, or null when `v` has none; the table is not changed. */
    function FindValueI(v: ValueId): (r: Option<Variable>)
      reads this
      ensures r.None? <==> v !in varMap
      ensures r.Some? ==> v in varMap && r.value == varMap[v]
    {
      if v !in varMap then None else Some(varMap[v])
    }

    /** The object node of `v`, or null when `v` has none; the table is not changed. */
    function FindAllocI(v: ValueId): (r: Option<Variable>)
      reads this
      ensures r.None? <==> v !in objMap
      ensures r.Some? ==> v in objMap && r.value == objMap[v]
    {
      if v !in objMap then None else Some(objMap[v])
    }

    /**
      The alloca rule: the alloca's own object goes into the alloca's value set;
      the rule reports a change exactly when the object was not there yet.
     */
    method VisitAllocaInst(ai: ValueId) returns (changed: bool)
      requires ai in varMap && ai in objMap
      modifies varMap[ai].ptset
      ensures varMap[ai].GetPointsToSet().elems == old(varMap[ai].ptset.elems) + {objMap[ai]}
      ensures changed <==> objMap[ai] !in old(varMap[ai].ptset.elems)
    {
      var obj := FindAllocI(ai);
      var valI := FindValueI(ai);
      var valPT := valI.value.GetPointsToSet();
      changed := valPT.Insert(obj.value);
    }

    /** The cast rule reports no change. */
    method VisitCastInst(ci: ValueId) returns (changed: bool)
      ensures !changed
    {
      changed := false;
    }

    /** The load rule reports no change. */
    method VisitLoadInst(li: ValueId) returns (changed: bool)
      ensures !changed
    {
      changed := false;
    }

    /** The store rule reports no change. */
    method VisitStoreInst(si: ValueId) returns (changed: bool)
      ensures !changed
    {
      changed := false;
    }

    /** The phi rule reports no change. */
    method VisitPHINode(phi: ValueId) returns (changed: bool)
      ensures !changed
    {
      changed := false;
    }

    /** The select rule reports no change. */
    method VisitSelectInst(si: ValueId) returns (changed: bool)
      ensures !changed
    {
      changed := false;
    }

    /** The call rule reports no change, whatever the callee. */
    method VisitCallInst(ci: ValueId, callee: Callee) returns (changed: bool)
      ensures !changed
    {
      changed := false;
    }

    /** The rule for every other instruction reports no change. */
    method VisitInstruction(i: ValueId) returns (changed: bool)
      ensures !changed
    {
      changed := false;
    }

    /**
      Applies the rule for the kind of instruction `i`. Only the alloca rule can
      report a change, and it changes nothing but the alloca's value set.
     */
    method Visit(i: ValueId, inst: Inst) returns (changed: bool)
      requires inst.kind.Alloca? ==> i in varMap && i in objMap
      modifies if inst.kind.Alloca? then {varMap[i].ptset} else {}
      ensures changed ==> inst.kind.Alloca?
      ensures inst.kind.Alloca? ==>
        && varMap[i].ptset.elems == old(varMap[i].ptset.elems) + {objMap[i]}
        && (changed <==> objMap[i] !in old(varMap[i].ptset.elems))
    {
      match inst.kind
      case Alloca => changed := VisitAllocaInst(i);
      case Cast => changed := VisitCastInst(i);
      case Load => changed := VisitLoadInst(i);
      case Store => changed := VisitStoreInst(i);
      case Phi => changed := VisitPHINode(i);
      case Select => changed := VisitSelectInst(i);
      case Call(callee) => changed := VisitCallInst(i, callee);
      case Other => changed := VisitInstruction(i);
    }

    /**
      What the initialisation has done so far, starting from the tables `vm0`
      and `om0` and the sets `r0`: the keys `seenValue` and `seenAlloc` have
      received new nodes, whose sets are still empty and are none of `r0`, and
      every other entry is kept.
     */
    ghost predicate Registered(vm0: map<ValueId, Variable>, om0: map<ValueId, Variable>,
                               r0: set<PointsTo<Variable>>, seenValue: set<ValueId>, seenAlloc: set<ValueId>)
      reads this, Repr
    {
      && Valid()
      && UpdatedOn(vm0, varMap, seenValue)
      && UpdatedOn(om0, objMap, seenAlloc)
      && (forall k :: k in seenValue ==> varMap[k].ptset.elems == {} && varMap[k].ptset !in r0)
      && (forall k :: k in seenAlloc ==> objMap[k].ptset.elems == {} && objMap[k].ptset !in r0)
    }

    /** Registers a new value node for `v`, as `varMap[v] = new Value_I(v)` does. */
    method AddValueI(v: ValueId, ghost vm0: map<ValueId, Variable>, ghost om0: map<ValueId, Variable>,
                     ghost r0: set<PointsTo<Variable>>,
                     ghost seenValue: set<ValueId>, ghost seenAlloc: set<ValueId>)
      requires Registered(vm0, om0, r0, seenValue, seenAlloc)
      modifies this
      ensures Registered(vm0, om0, r0, seenValue + {v}, seenAlloc)
      ensures objMap == old(objMap) && varMap == old(varMap)[v := varMap[v]]
      ensures fresh(varMap[v].ptset) && Repr == old(Repr) + {varMap[v].ptset}
      ensures fresh(Repr - old(Repr))
    {
      var node := new Variable.ValueI(v);
      varMap := varMap[v := node];
      Repr := Repr + {node.ptset};
    }

    /** Registers a new object node for `v`, as `objMap[v] = new Alloc_I(v)` does. */
    method AddAllocI(v: ValueId, ghost vm0: map<ValueId, Variable>, ghost om0: map<ValueId, Variable>,
                     ghost r0: set<PointsTo<Variable>>,
                     ghost seenValue: set<ValueId>, ghost seenAlloc: set<ValueId>)
      requires Registered(vm0, om0, r0, seenValue, seenAlloc)
      modifies this
      ensures Registered(vm0, om0, r0, seenValue, seenAlloc + {v})
      ensures varMap == old(varMap) && objMap == old(objMap)[v := objMap[v]]
      ensures fresh(objMap[v].ptset) && Repr == old(Repr) + {objMap[v].ptset}
      ensures fresh(Repr - old(Repr))
    {
      var obj := new Variable.AllocI(v);
      objMap := objMap[v := obj];
      Repr := Repr + {obj.ptset};
    }

    /** The argument loop of the initialisation: a new value node for every argument. */
    method InitArguments(f: Function)
      requires Valid()
      modifies this
      ensures Registered(old(varMap), old(objMap), old(Repr), ArgKeys(f), {})
      ensures fresh(Repr - old(Repr))
    {
      ghost var seen: set<ValueId> := {};
      for j := 0 to |f.args|
        invariant Registered(old(varMap), old(objMap), old(Repr), seen, {})
        invariant fresh(Repr - old(Repr))
        invariant seen == set a | a in f.args[..j]
      {
        AddValueI(f.args[j], old(varMap), old(objMap), old(Repr), seen, {});
        seen := seen + {f.args[j]};
        assert f.args[..j + 1] == f.args[..j] + [f.args[j]];
      }
      assert f.args[..|f.args|] == f.args;
    }

    /**
      The registration of one instruction: an allocation site gets a new object
      node and a non-void instruction a new value node.
     */
    method InitInstruction(i: ValueId, inst: Inst,
                           ghost vm0: map<ValueId, Variable>, ghost om0: map<ValueId, Variable>,
                           ghost r0: set<PointsTo<Variable>>,
                           ghost seenValue: set<ValueId>, ghost seenAlloc: set<ValueId>)
      requires Registered(vm0, om0, r0, seenValue, seenAlloc)
      modifies this
      ensures Registered(vm0, om0, r0, seenValue + NewValueKey(i, inst), seenAlloc + NewAllocKey(i, inst))
      ensures fresh(Repr - old(Repr))
    {
      if IsAllocI(inst) {
        AddAllocI(i, vm0, om0, r0, seenValue, seenAlloc);
      } else {
        assert seenAlloc + NewAllocKey(i, inst) == seenAlloc;
      }
      if !inst.isVoid {
        AddValueI(i, vm0, om0, r0, seenValue, seenAlloc + NewAllocKey(i, inst));
      } else {
        assert seenValue + NewValueKey(i, inst) == seenValue;
      }
    }

    /**
      The initialisation of one basic block: each instruction is queued at the
      back, an allocation site gets a new object node and a non-void
      instruction a new value node.
     */
    method InitBlock(f: Function, block: seq<ValueId>, queued: seq<ValueId>,
                     ghost vm0: map<ValueId, Variable>, ghost om0: map<ValueId, Variable>,
                     ghost r0: set<PointsTo<Variable>>,
                     ghost seenValue: set<ValueId>, ghost seenAlloc: set<ValueId>)
      returns (worklist: seq<ValueId>)
      requires forall k :: 0 <= k < |block| ==> block[k] in f.insts
      requires Registered(vm0, om0, r0, seenValue, seenAlloc)
      modifies this
      ensures Registered(vm0, om0, r0, seenValue + NonVoidIn(f, block), seenAlloc + AllocIn(f, block))
      ensures fresh(Repr - old(Repr))
      ensures worklist == queued + block
    {
      worklist := queued;
      ghost var sv, sa := seenValue, seenAlloc;
      for n := 0 to |block|
        invariant Registered(vm0, om0, r0, sv, sa)
        invariant fresh(Repr - old(Repr))
        invariant worklist == queued + block[..n]
        invariant sv == seenValue + NonVoidIn(f, block[..n]) && sa == seenAlloc + AllocIn(f, block[..n])
      {
        var i := block[n];
        KeysStep(f, block, n);
        PushBackStep(queued, block, n);
        worklist := worklist + [i];
        InitInstruction(i, f.insts[i], vm0, om0, r0, sv, sa);
        UnionGrow(seenValue, NonVoidIn(f, block[..n]), NewValueKey(i, f.insts[i]), NonVoidIn(f, block[..n + 1]));
        UnionGrow(seenAlloc, AllocIn(f, block[..n]), NewAllocKey(i, f.insts[i]), AllocIn(f, block[..n + 1]));
        sv, sa := sv + NewValueKey(i, f.insts[i]), sa + NewAllocKey(i, f.insts[i]);
      }
      assert block[..|block|] == block;
    }

    /** The initialisation of block `b`, once the blocks before it are done. */
    method InitNextBlock(f: Function, b: nat, queued: seq<ValueId>,
                         ghost vm0: map<ValueId, Variable>, ghost om0: map<ValueId, Variable>,
                         ghost r0: set<PointsTo<Variable>>)
      returns (worklist: seq<ValueId>)
      requires WellFormed(f)
      requires b < |f.blocks| && queued == Flatten(f.blocks[..b])
      requires Registered(vm0, om0, r0, ArgKeys(f) + NonVoidIn(f, queued), AllocIn(f, queued))
      modifies this
      ensures Registered(vm0, om0, r0, ArgKeys(f) + NonVoidIn(f, worklist), AllocIn(f, worklist))
      ensures fresh(Repr - old(Repr))
      ensures worklist == Flatten(f.blocks[..b + 1])
    {
      InBlockIsInstruction(f, b);
      KeysAppend(f, queued, f.blocks[b]);
      FlattenStep(f.blocks, b);
      UnionGrow(ArgKeys(f), NonVoidIn(f, queued), NonVoidIn(f, f.blocks[b]), NonVoidIn(f, queued + f.blocks[b]));
      worklist := InitBlock(f, f.blocks[b], queued, vm0, om0, r0,
                            ArgKeys(f) + NonVoidIn(f, queued), AllocIn(f, queued));
    }

    /**
      The initialisation phase: a value node for every argument and every
      non-void instruction, an object node for every allocation site, each with
      a new, empty points-to set, and every instruction queued once in
      block-then-instruction order. Entries for other values are kept.
     */
    method Initialize(f: Function) returns (worklist: seq<ValueId>)
      requires Valid() && WellFormed(f)
      modifies this
      ensures Registered(old(varMap), old(objMap), old(Repr), ValueKeys(f), AllocKeys(f))
      ensures fresh(Repr - old(Repr))
      ensures forall k :: k in ValueKeys(f) ==> fresh(varMap[k].ptset)
      ensures forall k :: k in AllocKeys(f) ==> fresh(objMap[k].ptset)
      ensures worklist == Instructions(f)
    {
      InitArguments(f);
      worklist := [];
      EmptyKeys(f);
      for b := 0 to |f.blocks|
        invariant Registered(old(varMap), old(objMap), old(Repr), ArgKeys(f) + NonVoidIn(f, worklist), AllocIn(f, worklist))
        invariant fresh(Repr - old(Repr))
        invariant worklist == Flatten(f.blocks[..b])
      {
        worklist := InitNextBlock(f, b, worklist, old(varMap), old(objMap), old(Repr));
      }
      FlattenAll(f.blocks);
    }

    /**
      The state of the propagation phase on a function whose value nodes are
      `values`, whose object nodes are `objects` and whose allocas are
      `allocas`: every object node has an empty set, every alloca whose rule
      has run (those not `pending`) points to its own object, and every other
      value node has an empty set.
     */
    ghost predicate Propagated(values: set<ValueId>, objects: set<ValueId>, allocas: set<ValueId>,
                               pending: set<ValueId>)
      reads this, Repr
    {
      && Valid()
      && objects <= objMap.Keys
      && values <= varMap.Keys
      && allocas <= objects * values
      && (forall k :: k in objects ==> objMap[k].ptset.elems == {})
      && (forall k :: k in values ==>
            varMap[k].ptset.elems == if k in allocas && k !in pending then {objMap[k]} else {})
    }

    /**
      One round of the driver: pop the front instruction, apply its rule, and
      on a change queue its instruction users that are not queued yet. Only an
      alloca whose rule has not run yet reports a change.
     */
    method VisitFront(f: Function, worklist: seq<ValueId>, ghost pending: set<ValueId>)
      returns (changed: bool, rest: seq<ValueId>, ghost left: set<ValueId>)
      requires Propagated(ValueKeys(f), AllocKeys(f), AllocaKeys(f), pending) && pending <= AllocaKeys(f)
      requires worklist != [] && NoDup(worklist)
      requires forall k :: 0 <= k < |worklist| ==> worklist[k] in f.insts
      requires forall k :: k in pending ==> k in worklist
      modifies Repr
      ensures Propagated(ValueKeys(f), AllocKeys(f), AllocaKeys(f), left) && left <= pending
      ensures NoDup(rest) && |rest| <= |f.insts|
      ensures forall k :: 0 <= k < |rest| ==> rest[k] in f.insts
      ensures forall k :: k in left ==> k in rest
      ensures changed <==> worklist[0] in pending
      ensures left == pending - {worklist[0]}
      ensures changed ==> |left| == |pending| - 1
      ensures !changed ==> rest == worklist[1..] && |rest| == |worklist| - 1
      ensures changed ==> |worklist| - 1 <= |rest| && rest[..|worklist| - 1] == worklist[1..]
      ensures changed ==> forall x :: x in rest <==>
        x in worklist[1..] || (x in f.insts[worklist[0]].users && x in f.insts)
    {
      var i := worklist[0];
      rest := worklist[1..];
      assert NoDup(rest) by {
        forall p, q | 0 <= p < q < |rest| ensures rest[p] != rest[q] {
          assert rest[p] == worklist[p + 1];
        }
      }
      assert f.insts[i].kind.Alloca? <==> i in AllocaKeys(f);
      changed, left := VisitSettles(f, i, pending);
      if changed {
        rest := EnqueueUsers(f.insts, rest, f.insts[i].users);
      }
      NoDupBound(rest, f.insts.Keys);
    }

    /**
      Applying the rule of instruction `i` keeps the propagation state; it
      reports a change exactly when `i` is an alloca whose rule had not run.
     */
    method VisitSettles(f: Function, i: ValueId, ghost pending: set<ValueId>)
      returns (changed: bool, ghost left: set<ValueId>)
      requires Propagated(ValueKeys(f), AllocKeys(f), AllocaKeys(f), pending) && pending <= AllocaKeys(f)
      requires i in f.insts
      modifies Repr
      ensures Propagated(ValueKeys(f), AllocKeys(f), AllocaKeys(f), left)
      ensures changed <==> i in pending
      ensures left == pending - {i}
      ensures changed ==> |left| == |pending| - 1
    {
      if f.insts[i].kind.Alloca? {
        changed, left := SettleAlloca(f, i, pending);
      } else {
        changed := Visit(i, f.insts[i]);
        left := pending;
        assert i !in AllocaKeys(f);
        assert left == pending - {i};
      }
    }

    /** `VisitSettles` on an alloca: its value set becomes exactly its own object. */
    method SettleAlloca(f: Function, i: ValueId, ghost pending: set<ValueId>)
      returns (changed: bool, ghost left: set<ValueId>)
      requires Propagated(ValueKeys(f), AllocKeys(f), AllocaKeys(f), pending) && pending <= AllocaKeys(f)
      requires i in f.insts && f.insts[i].kind.Alloca?
      modifies Repr
      ensures Propagated(ValueKeys(f), AllocKeys(f), AllocaKeys(f), left)
      ensures changed <==> i in pending
      ensures left == pending - {i}
    {
      assert i in AllocaKeys(f);
      changed := Visit(i, f.insts[i]);
      left := pending - {i};
    }

    /**
      The pass on one function: initialise, then pop the front instruction,
      apply its rule, and on a change queue each instruction user not already
      queued, until the worklist is empty. At that point every alloca's value set
      is exactly its own object and every other new set is still empty. The
      pass reports that it did not change the function. The ghost `steps`
      counts the rule applications.
     */
    method RunOnFunction(f: Function) returns (modified: bool, ghost steps: nat)
      requires Valid() && WellFormed(f)
      modifies this, Repr
      ensures Valid()
      ensures !modified
      ensures UpdatedOn(old(varMap), varMap, ValueKeys(f))
      ensures UpdatedOn(old(objMap), objMap, AllocKeys(f))
      ensures fresh(Repr - old(Repr))
      ensures forall k :: k in ValueKeys(f) ==> fresh(varMap[k].ptset)
      ensures forall k :: k in AllocKeys(f) ==> fresh(objMap[k].ptset)
      ensures forall k :: k in AllocKeys(f) ==> objMap[k].ptset.elems == {}
      ensures forall k :: k in AllocaKeys(f) ==> k in objMap && varMap[k].ptset.elems == {objMap[k]}
      ensures forall k :: k in ValueKeys(f) && k !in AllocaKeys(f) ==> varMap[k].ptset.elems == {}
      ensures forall k, o :: k in ValueKeys(f) && o in varMap[k].ptset.elems ==> ClassofAllocI(o)
      ensures steps <= |f.insts| * (1 + |AllocaKeys(f)|)
    {
      var worklist := Initialize(f);
      StartPropagation(f, old(varMap), old(objMap), old(Repr));
      steps := Propagate(f, worklist);
      PropagationDone(f);
      modified := false;
    }

    /**
      The worklist loop of the pass, from the initial worklist until it is
      empty; every alloca's rule runs, and the ghost result counts the rounds.
     */
    method Propagate(f: Function, initial: seq<ValueId>) returns (ghost steps: nat)
      requires WellFormed(f) && initial == Instructions(f)
      requires Propagated(ValueKeys(f), AllocKeys(f), AllocaKeys(f), AllocaKeys(f))
      modifies Repr
      ensures Propagated(ValueKeys(f), AllocKeys(f), AllocaKeys(f), {})
      ensures steps <= |f.insts| * (1 + |AllocaKeys(f)|)
    {
      ghost var n := |f.insts|;
      ghost var allocas := AllocaKeys(f);
      ghost var pending := allocas;
      InstructionsAreInsts(f);
      NoDupBound(initial, f.insts.Keys);
      steps := 0;
      var worklist := initial;
      while worklist != []
        invariant Propagated(ValueKeys(f), AllocKeys(f), AllocaKeys(f), pending) && pending <= allocas
        invariant NoDup(worklist)
        invariant forall k :: 0 <= k < |worklist| ==> worklist[k] in f.insts
        invariant forall k :: k in pending ==> k in worklist
        invariant steps + |worklist| + |pending| * n <= n + |allocas| * n
        decreases |pending|, |worklist|
      {
        ghost var before, queued := pending, worklist;
        var changed;
        changed, worklist, pending := VisitFront(f, worklist, pending);
        StepBound(steps, |queued|, |worklist|, |before|, |pending|, n, |allocas|, changed);
        steps := steps + 1;
      }
      assert pending == {};
      FinalBound(steps, n, |allocas|);
    }

    /** After the initialisation no alloca's rule has run and every new set is empty. */
    lemma StartPropagation(f: Function, vm0: map<ValueId, Variable>, om0: map<ValueId, Variable>,
                          r0: set<PointsTo<Variable>>)
      requires WellFormed(f) && Registered(vm0, om0, r0, ValueKeys(f), AllocKeys(f))
      ensures Propagated(ValueKeys(f), AllocKeys(f), AllocaKeys(f), AllocaKeys(f))
    {
      AllocaHasValueNode(f);
      AllocaHasObjectNode(f);
    }

    /**
      Once every alloca's rule has run, each alloca points to exactly its own
      object and every other set of the function is empty.
     */
    lemma PropagationDone(f: Function)
      requires Propagated(ValueKeys(f), AllocKeys(f), AllocaKeys(f), {})
      ensures forall k :: k in AllocKeys(f) ==> objMap[k].ptset.elems == {}
      ensures forall k :: k in AllocaKeys(f) ==> k in objMap && varMap[k].ptset.elems == {objMap[k]}
      ensures forall k :: k in ValueKeys(f) && k !in AllocaKeys(f) ==> varMap[k].ptset.elems == {}
      ensures forall k, o :: k in ValueKeys(f) && o in varMap[k].ptset.elems ==> ClassofAllocI(o)
    {
    }
  }

  /**
    `m` is `m0` with an entry for every key of `S` added or replaced and every
    other entry kept.
   */
  ghost predicate UpdatedOn(m0: map<ValueId, Variable>, m: map<ValueId, Variable>, S: set<ValueId>)
  {
    && m.Keys == m0.Keys + S
    && forall k :: k in m0 && k !in S ==> m[k] == m0[k]
  }

  /** The allocation sites listed in `s`. */
  function AllocIn(f: Function, s: seq<ValueId>): set<ValueId>
  {
    set i | i in s && i in f.insts && IsAllocI(f.insts[i])
  }

  /** The keys contributed by a concatenation are those of its parts. */
  lemma KeysAppend(f: Function, s: seq<ValueId>, t: seq<ValueId>)
    ensures NonVoidIn(f, s + t) == NonVoidIn(f, s) + NonVoidIn(f, t)
    ensures AllocIn(f, s + t) == AllocIn(f, s) + AllocIn(f, t)
  {
  }

  /** The key a value node is registered under for instruction `i`, if any. */
  function NewValueKey(i: ValueId, inst: Inst): set<ValueId>
  {
    if inst.isVoid then {} else {i}
  }

  /** The key an object node is registered under for instruction `i`, if any. */
  function NewAllocKey(i: ValueId, inst: Inst): set<ValueId>
  {
    if IsAllocI(inst) then {i} else {}
  }

  /** One more instruction of a block adds at most that instruction to each key set. */
  lemma KeysStep(f: Function, block: seq<ValueId>, n: nat)
    requires n < |block| && block[n] in f.insts
    ensures NonVoidIn(f, block[..n + 1]) ==
      NonVoidIn(f, block[..n]) + NewValueKey(block[n], f.insts[block[n]])
    ensures AllocIn(f, block[..n + 1]) ==
      AllocIn(f, block[..n]) + NewAllocKey(block[n], f.insts[block[n]])
  {
    assert block[..n + 1] == block[..n] + [block[n]];
    KeysAppend(f, block[..n], [block[n]]);
  }

  /**
    The arithmetic of the driver's step bound: a round without a change
    shortens the worklist, and a round with a change settles one alloca and
    leaves at most `n` instructions queued.
   */
  lemma StepBound(steps: nat, w: nat, w': nat, p: nat, p': nat, n: nat, a: nat, changed: bool)
    requires steps + w + p * n <= n + a * n && w >= 1
    requires changed ==> p' == p - 1 && p >= 1 && w' <= n
    requires !changed ==> p' == p && w' == w - 1
    ensures steps + 1 + w' + p' * n <= n + a * n
  {
    if changed {
      assert p' * n == p * n - n;
    }
  }

  /** No keys come from an empty list of instructions. */
  lemma EmptyKeys(f: Function)
    ensures ArgKeys(f) + NonVoidIn(f, []) == ArgKeys(f) && AllocIn(f, []) == {}
  {
  }

  /** Queuing the next instruction of a block extends the queued prefix. */
  lemma PushBackStep(queued: seq<ValueId>, block: seq<ValueId>, n: nat)
    requires n < |block|
    ensures queued + block[..n + 1] == (queued + block[..n]) + [block[n]]
  {
    assert block[..n + 1] == block[..n] + [block[n]];
  }

  /** The bound the driver's invariant leaves once the worklist is empty. */
  lemma FinalBound(steps: nat, n: nat, a: nat)
    requires steps <= n + a * n
    ensures steps <= n * (1 + a)
  {
  }

  /** Growing the second part of a union grows the union. */
  lemma UnionGrow(a: set<ValueId>, q: set<ValueId>, added: set<ValueId>, w: set<ValueId>)
    requires w == q + added
    ensures (a + q) + added == a + w
  {
  }

  /** Every instruction listed in a block is described by the function. */
  lemma InBlockIsInstruction(f: Function, b: nat)
    requires WellFormed(f)
    requires b < |f.blocks|
    ensures forall n :: 0 <= n < |f.blocks[b]| ==> f.blocks[b][n] in f.insts
  {
    forall n | 0 <= n < |f.blocks[b]| {
      FlattenHasBlock(f.blocks, b, n);
    }
  }

  /** Flattening keeps every element of every block. */
  lemma {:induction false} FlattenHasBlock(bs: seq<seq<ValueId>>, b: nat, n: nat)
    requires b < |bs| && n < |bs[b]|
    ensures bs[b][n] in Flatten(bs)
  {
    var last := |bs| - 1;
    assert Flatten(bs) == Flatten(bs[..last]) + bs[last];
    if b < last {
      FlattenHasBlock(bs[..last], b, n);
    } else {
      assert bs[b][n] in bs[last];
    }
  }
}

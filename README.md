# Andersen points-to pass: a verified model

This project models the core of an intraprocedural, inclusion-based (Andersen-style)
points-to pass over LLVM IR. It has four parts:

- **The points-to set** (`PointsToSet.PointsTo`, points_to.dfy). It is a mutable set of
  allocation-site objects. `Insert` and `UnionSets` change it in place and report whether it
  grew.
- **Analysis nodes** (`Variables.Variable`, variable.dfy). Each node is a value node
  (`Value_I`) or an object node (`Alloc_I`). It carries its kind and the value it stands for,
  and owns exactly one points-to set, created empty with the node.
- **The IR the pass reads** (`IR`, ir.dfy). Values are integer ids. A function has argument
  ids, basic blocks of instruction ids, and a description of each instruction: its kind,
  whether its type is void, and its users.
- **The pass** (`Andersen`, andersen.dfy). It has these pieces:
  - the classification of allocation sites (`IsAllocI`);
  - the pass object with its two node tables `varMap` and `objMap`, and their lookups;
  - the per-instruction rules, and the dispatcher `Visit`;
  - `RunOnFunction`, the function-level driver. It builds the nodes and the worklist, then
    pops the front instruction, applies its rule, and on a change appends the instruction's
    users that are not already queued, until the worklist is empty.

The main result is `Andersen.AndersenPointsToAnalysis.RunOnFunction`. On every well-formed
function the pass terminates, after at most `N * (1 + A)` rule applications, where `N` is
the number of instructions and `A` the number of allocas (under the assumption about the
other rules stated below). Every argument, non-void
instruction and allocation site of the function has a new node with a new set, and entries
for values outside the function are kept. The pass reports that it did not change the
function.

Only the alloca rule can report a change: every other rule returns false. The other rules'
effects on the sets go through helpers that the pass's files call but never define, so this
model gives those rules no effect on any set. In that model, at the end:

- each alloca's value set holds exactly its own object;
- every other new set is empty;
- every element of a value set is an object node.

The step bound rests on this choice too. The alloca rule reports a change exactly when the
alloca's own object is missing from its set. The bound therefore also assumes that no other
rule removes an alloca's own object from its set once the alloca's rule has run. Without that
assumption, an alloca could be re-queued again and again. The code's `free` rule clears a set
(src/pointstopass/Andersen.cpp:220-233). The final sets depend on the choice as well (see
"## Left out").

`Propagate` carries the state of the worklist loop as a loop invariant (`Propagated`). It is
stated over the set of allocas whose rule has not run yet; that set and the length of the worklist
make up the termination measure.

Each node's points-to set is its own object, so changing one set cannot change another.
A ghost tag on each set (`owner`, computed by `OwnerTag`) and a ghost footprint `Repr` make
this explicit for the proofs (`Valid`, `Exclusive`).

Where the code departs from a textbook Andersen analysis:

- The tables `varMap` and `objMap` (src/pointstopass/Andersen.h:53-54) are members of the
  pass object and are never cleared. A second function therefore sees the first function's
  entries. `RunOnFunction` allows any existing tables: entries for the function's values are
  replaced by new nodes, and all other entries are kept.
- Only a direct call to a function named `calloc` is an allocation site
  (src/pointstopass/Andersen.cpp:13). A call to `malloc` is not.
- The cast, load, store, phi, select and call rules always report no change
  (src/pointstopass/Andersen.cpp:55, 80, 105, 144, 191, 236). Their results never cause a
  user to be re-queued, so no inclusion constraint is propagated through the worklist.

## Model

| member | source | states |
|---|---|---|
| PointsToSet.PointsTo.constructor | src/pointstopass/PointsTo.h:20 | a new set is empty |
| PointsToSet.PointsTo.Empty | src/pointstopass/PointsTo.h:43 | true exactly when the set has no elements |
| PointsToSet.PointsTo.Insert | src/pointstopass/PointsTo.h:25-31 | the new set is the old set plus `x`, so nothing is removed; the result is true iff `x` was absent, which is iff the set grew |
| PointsToSet.PointsTo.UnionSets | src/pointstopass/PointsTo.h:33-41 | the new set is old ∪ other; `other` is unchanged; the result is true iff some element of `other` was absent; a union with itself changes nothing and returns false |
| PointsToSet.InsertTwice | src/pointstopass/PointsTo.h:25-31 | inserting the same element twice grows the set at most once; the second call returns false |
| PointsToSet.UnionSetsTwice | src/pointstopass/PointsTo.h:33-41 | a second union with the same set returns false |
| Variables.Variable.constructor | src/pointstopass/Variable.h:28-31 | a node keeps its value and kind and owns a new, empty points-to set |
| Variables.Variable.AllocI | src/pointstopass/Variable.h:55-58 | an object node has kind Object and satisfies only the object class test; its set is new and empty |
| Variables.Variable.ValueI | src/pointstopass/Variable.h:75-78 | a value node has kind Value and satisfies only the value class test; its set is new and empty |
| Variables.ClassofAllocI | src/pointstopass/Variable.h:65-68 | true exactly for nodes of kind Object |
| Variables.ClassofValueI | src/pointstopass/Variable.h:80-83 | true exactly for nodes of kind Value |
| Variables.ClassofPartition | src/pointstopass/Variable.h:65-83 | every node satisfies exactly one of the two class tests |
| Andersen.IsAllocI | src/pointstopass/Andersen.cpp:5-17 | true exactly for an alloca or a direct call to a function named "calloc"; false for malloc, indirect calls and every other instruction |
| Variables.Variable.GetVarClass | src/pointstopass/Variable.h:38 | returns the node's kind; the kind is a constant field (Variable.h line 23) set by the constructors, so every call returns the kind the node was built with |
| Variables.Variable.GetPointsToSet | src/pointstopass/Variable.h:40 | returns the node's own set; the set is a constant field (Variable.h line 25), so every call returns the same set and changes made through it stay on the node (`VisitAllocaInst` inserts through it) |
| Andersen.AndersenPointsToAnalysis.constructor | src/pointstopass/Andersen.h:53-60 | a new pass has two empty tables and no sets yet, so it can run at once |
| Andersen.AndersenPointsToAnalysis.FindValueI | src/pointstopass/Andersen.h:74-77 | null exactly when `v` has no value node, otherwise the stored node; reads the table without changing it |
| Andersen.AndersenPointsToAnalysis.FindAllocI | src/pointstopass/Andersen.h:79-82 | null exactly when `v` has no object node, otherwise the stored node; reads the table without changing it |
| Andersen.AndersenPointsToAnalysis.Exclusive | src/pointstopass/Variable.h:28-31 | no two nodes of the tables share a points-to set |
| Andersen.AndersenPointsToAnalysis.VisitAllocaInst | src/pointstopass/Andersen.cpp:23-28 | the alloca's object is added to the alloca's value set and nothing else changes; the result is true iff the object was absent |
| Andersen.AndersenPointsToAnalysis.VisitCastInst | src/pointstopass/Andersen.cpp:38-56 | reports no change |
| Andersen.AndersenPointsToAnalysis.VisitLoadInst | src/pointstopass/Andersen.cpp:63-81 | reports no change |
| Andersen.AndersenPointsToAnalysis.VisitStoreInst | src/pointstopass/Andersen.cpp:88-106 | reports no change |
| Andersen.AndersenPointsToAnalysis.VisitPHINode | src/pointstopass/Andersen.cpp:113-145 | reports no change |
| Andersen.AndersenPointsToAnalysis.VisitSelectInst | src/pointstopass/Andersen.cpp:152-192 | reports no change |
| Andersen.AndersenPointsToAnalysis.VisitCallInst | src/pointstopass/Andersen.cpp:198-237 | reports no change, whatever the callee |
| Andersen.AndersenPointsToAnalysis.VisitInstruction | src/pointstopass/Andersen.cpp:243-246 | reports no change |
| Andersen.AndersenPointsToAnalysis.Visit | src/pointstopass/Andersen.cpp:284 | dispatches on the instruction kind; only an alloca can report a change, and it changes only its own value set |
| Andersen.EnqueueUsers | src/pointstopass/Andersen.cpp:286-297 | the old worklist is kept as a prefix; exactly the instruction users not yet queued are added; the result has no duplicates |
| Andersen.AndersenPointsToAnalysis.AddValueI | src/pointstopass/Andersen.cpp:270-274 | `v` gets a new value node with an empty set; every other entry is kept |
| Andersen.AndersenPointsToAnalysis.AddAllocI | src/pointstopass/Andersen.cpp:265-269 | `v` gets a new object node with an empty set; every other entry is kept |
| Andersen.AndersenPointsToAnalysis.InitArguments | src/pointstopass/Andersen.cpp:253-257 | every argument gets a new value node with an empty set that did not exist before; other entries are kept |
| Andersen.AndersenPointsToAnalysis.InitInstruction | src/pointstopass/Andersen.cpp:265-274 | an allocation site gets a new object node and a non-void instruction a new value node, both with empty sets that did not exist before |
| Andersen.AndersenPointsToAnalysis.InitBlock | src/pointstopass/Andersen.cpp:262-275 | a block's instructions are appended to the worklist in order and registered as `InitInstruction` says |
| Andersen.AndersenPointsToAnalysis.InitNextBlock | src/pointstopass/Andersen.cpp:260-275 | after one more block, the worklist is the blocks so far flattened, and their nodes are registered |
| Andersen.AndersenPointsToAnalysis.Initialize | src/pointstopass/Andersen.cpp:252-276 | every argument and non-void instruction has a value node, and every allocation site an object node, whose set is newly allocated and empty; other entries are kept; the worklist is every instruction in block-then-instruction order |
| IR.InstructionsOnce | src/pointstopass/Andersen.cpp:260-264 | the initial worklist holds each instruction of a well-formed function exactly once |
| IR.AllocaHasValueNode | src/pointstopass/Andersen.cpp:270-274 | every alloca receives a value node, since its type is not void |
| Andersen.AllocaHasObjectNode | src/pointstopass/Andersen.cpp:265-269 | every alloca receives an object node, so the alloca rule's lookups succeed |
| Andersen.AndersenPointsToAnalysis.StartPropagation | src/pointstopass/Andersen.cpp:252-279 | after initialisation no alloca rule has run and every new set is empty |
| Andersen.AndersenPointsToAnalysis.VisitFront | src/pointstopass/Andersen.cpp:281-297 | one round pops the front and reports a change iff it is an alloca whose rule had not run; without a change the new worklist is the old tail; with a change it is the old tail followed by exactly the instruction users of the popped instruction that were not queued; it stays free of duplicates |
| Andersen.AndersenPointsToAnalysis.VisitSettles | src/pointstopass/Andersen.cpp:284 | applying a rule keeps the propagation state and settles exactly the visited alloca |
| Andersen.AndersenPointsToAnalysis.SettleAlloca | src/pointstopass/Andersen.cpp:23-28 | after its rule, an alloca's value set is exactly its own object, and it reports a change iff its rule had not run |
| Andersen.AndersenPointsToAnalysis.Propagate | src/pointstopass/Andersen.cpp:279-298 | with the other rules leaving sets unchanged, the worklist loop terminates within `N * (1 + A)` rounds, with every alloca settled |
| IR.NoDupBound | src/pointstopass/Andersen.cpp:292-294 | a worklist without duplicates is no longer than the function has instructions |
| Andersen.AndersenPointsToAnalysis.PropagationDone | src/pointstopass/Andersen.cpp:279-298 | once every alloca is settled, each alloca points to exactly its own object, every other set is empty, and value sets hold only object nodes (with the other rules leaving sets unchanged) |
| Andersen.AndersenPointsToAnalysis.RunOnFunction | src/pointstopass/Andersen.cpp:248-317 | the function's nodes have newly allocated sets; other entries are kept; it reports no change to the function; with the other rules leaving sets unchanged, the pass terminates within `N * (1 + A)` rule applications, each alloca then points to exactly its own object, every other new set is empty, and value sets hold only object nodes |

## Left out

- Andersen.AndersenPointsToAnalysis.RunOnFunction: the final sets it states are those of a model in which the cast, load, store, phi, select and call rules leave every set unchanged. In the code these rules call helpers to change sets: a call to `malloc` or `calloc` adds an object to its result's set through `createObject`/`addPointsToSet` (src/pointstopass/Andersen.cpp:204-216), and `free` clears its argument's set (src/pointstopass/Andersen.cpp:220-233). The step bound depends on it as well, since it assumes no other rule removes an alloca's own object from the alloca's set; only the report of no change to the function holds regardless.
- Andersen.AndersenPointsToAnalysis.Propagate: its termination and step bound rest on the other rules never removing an alloca's own object from its set; a `free` that cleared an alloca that is among its own users could otherwise re-queue that alloca forever.
- Andersen.AndersenPointsToAnalysis.PropagationDone: the same qualification; its final sets assume the other rules leave every set unchanged.
- The set effects of the cast, load, store, phi, select and call rules are not modelled. They go through helpers that the pass's files call but never declare or define (`getOrCreatePointer`, `unionPointsToSet`, `copyPointsToSet`, `createObject`, `addPointsToSet`, `clearPointsToSet`). Only their visible result, false, is modelled. This includes the clearing of a set on `free`.
- Andersen.AndersenPointsToAnalysis.VisitAllocaInst: requires both lookups to succeed. The two failures would behave differently in the code. A failed `findValueI` would be dereferenced (src/pointstopass/Andersen.cpp:26). A failed `findAllocI` would pass null to `insert`, which would add it and return true (src/pointstopass/Andersen.cpp:25-27; src/pointstopass/PointsTo.h:25-30). Neither can happen after `Initialize`, which gives every alloca both nodes (`AllocaHasValueNode`, `AllocaHasObjectNode`).
- Andersen.EnqueueUsers: states which users are added and that the old worklist stays a prefix. It does not state the order in which the users are appended.
- Andersen.AndersenPointsToAnalysis.RunOnFunction: the frame (`modifies this, Repr`) lets the sets of nodes from earlier functions change. The model does not prove that they stay unchanged; in fact only the function's own allocas' sets are written.
- The `errs()` report of every node's set at the end of `runOnFunction`, `Variable::pointsToStr` and the `str()` overrides. These are output only; `Variable.cpp` is not part of this model.
- Pass registration, the `FunctionPass` base, `PTVisitor`'s back pointer and the destructors. The visitor's rules are methods of the pass class here, and memory is managed by Dafny.
- LLVM's IR classes, operand and type queries, `InstVisitor` dispatch and the `DenseMap`/`DenseSet` containers. Values are integer ids; the containers are Dafny maps and sets; dispatch is a match on the instruction kind.
- PointsToSet.PointsTo: the element type is `Variable`, so the type alone allows value nodes as elements, where the code's set holds only `Alloc_I` pointers (src/pointstopass/PointsTo.h:12). `RunOnFunction` and `PropagationDone` prove that the function's value sets hold only object nodes.
- `PointsToSet.PointsTo.owner`, `Variables.OwnerTag` and `Repr` are ghost bookkeeping for the proofs. The source has no counterpart.

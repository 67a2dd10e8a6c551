/**
  The part of the host IR that the points-to pass reads. Values (arguments and
  instructions) are identified by integers; an instruction carries its kind,
  whether its type is void, and the values that use it. The pass never changes
  any of this.
 */
module IR {

  /** The identity of an IR value: an argument or an instruction. */
  type ValueId = nat

  /** The callee of a call instruction; an indirect call has no called function. */
  datatype Callee = Direct(name: string) | Indirect

  /** The instruction kinds that the points-to visitor tells apart. */
  datatype InstKind =
    | Alloca
    | Cast
    | Load
    | Store
    | Phi
    | Select
    | Call(callee: Callee)
    | Other

  /** One instruction: its kind, whether its result type is void, and its users. */
  datatype Inst = Inst(kind: InstKind, isVoid: bool, users: seq<ValueId>)

  /**
    One function: its arguments, its basic blocks (each a list of instruction ids
    in program order) and what each instruction id stands for.
   */
  datatype Function = Function(args: seq<ValueId>, blocks: seq<seq<ValueId>>, insts: map<ValueId, Inst>)

  /** No value occurs twice in `s`. */
  predicate NoDup(s: seq<ValueId>)
  {
    forall i, j :: 0 <= i < j < |s| ==> s[i] != s[j]
  }

  /** The blocks' instructions, block after block. */
  function Flatten(bs: seq<seq<ValueId>>): seq<ValueId>
  {
    if bs == [] then [] else Flatten(bs[..|bs| - 1]) + bs[|bs| - 1]
  }

  /** Flattening one more block appends that block. */
  lemma FlattenStep(bs: seq<seq<ValueId>>, b: nat)
    requires b < |bs|
    ensures Flatten(bs[..b + 1]) == Flatten(bs[..b]) + bs[b]
  {
    assert bs[..b + 1][..b] == bs[..b];
  }

  /** Flattening every block gives the instructions in order. */
  lemma FlattenAll(bs: seq<seq<ValueId>>)
    ensures Flatten(bs[..|bs|]) == Flatten(bs)
  {
    assert bs[..|bs|] == bs;
  }

  /** The instructions of `f` in block-then-instruction order. */
  function Instructions(f: Function): seq<ValueId>
  {
    Flatten(f.blocks)
  }

  /**
    What the host IR guarantees: every value is listed once, the instructions
    listed in the blocks are exactly those `insts` describes, and an alloca has a
    (pointer, hence non-void) result.
   */
  ghost predicate WellFormed(f: Function)
  {
    && NoDup(f.args)
    && NoDup(Instructions(f))
    && (forall a :: a in f.args ==> a !in f.insts)
    && (forall i :: i in f.insts <==> i in Instructions(f))
    && (forall i :: i in f.insts && f.insts[i].kind.Alloca? ==> !f.insts[i].isVoid)
  }

  /** The instructions listed in `s` whose type is not void. */
  function NonVoidIn(f: Function, s: seq<ValueId>): set<ValueId>
  {
    set i | i in s && i in f.insts && !f.insts[i].isVoid
  }

  /** The arguments of `f`. */
  function ArgKeys(f: Function): set<ValueId>
  {
    set a | a in f.args
  }

  /** The values that receive a value node: every argument and every non-void instruction. */
  function ValueKeys(f: Function): set<ValueId>
  {
    ArgKeys(f) + NonVoidIn(f, Instructions(f))
  }

  /** The alloca instructions of `f`. */
  function AllocaKeys(f: Function): set<ValueId>
  {
    set i | i in f.insts && f.insts[i].kind.Alloca?
  }

  /** A sequence without repetitions over `S` is no longer than `S` has elements. */
  lemma {:induction false} NoDupBound(s: seq<ValueId>, S: set<ValueId>)
    requires NoDup(s)
    requires forall k :: 0 <= k < |s| ==> s[k] in S
    ensures |s| <= |S|
  {
    if s != [] {
      forall k | 0 <= k < |s[1..]| ensures s[1..][k] in S - {s[0]} {
        assert s[1..][k] == s[k + 1];
      }
      NoDupBound(s[1..], S - {s[0]});
    }
  }

  /** In a sequence without repetitions every value occurs once or not at all. */
  lemma {:induction false} NoDupOccursOnce(s: seq<ValueId>, x: ValueId)
    requires NoDup(s)
    ensures multiset(s)[x] == if x in s then 1 else 0
  {
    if s != [] {
      assert s == [s[0]] + s[1..];
      assert NoDup(s[1..]) by {
        forall i, j | 0 <= i < j < |s[1..]| ensures s[1..][i] != s[1..][j] {
          assert s[1..][i] == s[i + 1] && s[1..][j] == s[j + 1];
        }
      }
      NoDupOccursOnce(s[1..], x);
      if x == s[0] {
        assert x !in s[1..] by {
          forall k | 0 <= k < |s[1..]| ensures s[1..][k] != x {
            assert s[1..][k] == s[k + 1];
          }
        }
      }
      assert multiset(s) == multiset([s[0]]) + multiset(s[1..]);
    }
  }

  /** The initial worklist of a well-formed function holds each of its instructions exactly once. */
  lemma InstructionsOnce(f: Function, x: ValueId)
    requires WellFormed(f)
    ensures multiset(Instructions(f))[x] == if x in f.insts then 1 else 0
  {
    NoDupOccursOnce(Instructions(f), x);
  }

  /** The initial worklist of a well-formed function holds only its instructions. */
  lemma InstructionsAreInsts(f: Function)
    requires WellFormed(f)
    ensures forall k :: 0 <= k < |Instructions(f)| ==> Instructions(f)[k] in f.insts
  {
  }

  /** Every alloca of a well-formed function receives a value node. */
  lemma AllocaHasValueNode(f: Function)
    requires WellFormed(f)
    ensures AllocaKeys(f) <= ValueKeys(f)
  {
  }
}

/**
 * An abstract view of the LLVM IR the loop unroller reads and rewrites.
 *
 * A function is an arena of basic blocks addressed by their index. A block
 * keeps the kinds of its non-terminator instructions, whether its address
 * is taken, and its terminator, whose successors are block indices.
 */
module IR {

  type BlockId = nat

  /** The instruction kinds the model tells apart. */
  datatype InstKind =
    | Phi                      // a phi node
    | Alloca                   // a stack slot in the entry block
    | IndVarInc                // the increment `add i, 1` read by the exit test
    | AllocaPoint              // the marker the pass places after the entry block's allocas
    | Reload                   // the load that replaces a demoted phi
    | GuardURem(divisor: nat)  // `Upper urem divisor`, the guard of the remainder switch
    | Plain                    // any other instruction

  datatype Opcode = Add | OtherOpcode

  datatype Predicate = EQ | NE | OtherPredicate

  /** Second operand of the increment. */
  datatype StepOperand = StepConst(value: int) | StepNotConstant

  /** First operand of the compare: the increment. */
  datatype IncOperand = IncInst(opcode: Opcode, step: StepOperand) | IncNotInstruction

  /** Second operand of the compare: the trip bound `Upper`. */
  datatype BoundOperand =
    | BoundArgument            // a function argument
    | BoundInst(parent: BlockId) // an instruction, with the block that holds it
    | BoundOther               // a constant, a global, ...

  /** The condition of a conditional branch. */
  datatype Condition =
    | ICmp(pred: Predicate, inc: IncOperand, bound: BoundOperand, boundIsInteger: bool)
    | NotICmp

  datatype SwitchCase = SwitchCase(value: nat, target: BlockId)

  /** A switch dispatches on `Upper urem divisor`, the guard the pass builds. */
  datatype Terminator =
    | Br(target: BlockId)
    | CondBr(cond: Condition, succ0: BlockId, succ1: BlockId)
    | Switch(divisor: nat, defaultTarget: BlockId, cases: seq<SwitchCase>)
    | OtherTerminator

  datatype Block = Block(insts: seq<InstKind>, addressTaken: bool, term: Terminator)

  /** Number of counted increments in an instruction list. */
  function Incs(insts: seq<InstKind>): nat
  {
    if insts == [] then 0
    else (if insts[0] == IndVarInc then 1 else 0) + Incs(insts[1..])
  }

  /** `BranchInst::getSuccessor(idx)`. */
  function Successor(t: Terminator, idx: nat): (b: BlockId)
    requires t.CondBr? && idx <= 1
    ensures idx == 0 ==> b == t.succ0
    ensures idx == 1 ==> b == t.succ1
  {
    if idx == 0 then t.succ0 else t.succ1
  }

  /** `BranchInst::setSuccessor(idx, b)`. */
  function SetSuccessor(t: Terminator, idx: nat, b: BlockId): (r: Terminator)
    requires t.CondBr? && idx <= 1
    ensures r.CondBr? && r.cond == t.cond
    ensures Successor(r, idx) == b
    ensures Successor(r, 1 - idx) == Successor(t, 1 - idx)
  {
    if idx == 0 then t.(succ0 := b) else t.(succ1 := b)
  }

  /**
   * `CloneBasicBlock`: the clone holds the same instructions and the same
   * terminator; a new block has no address taken.
   */
  function CloneBlock(b: Block): (r: Block)
    ensures r.insts == b.insts && r.term == b.term && !r.addressTaken
  {
    Block(b.insts, false, b.term)
  }
}

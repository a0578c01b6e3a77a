/**
 * The decision half of `LoopUnrollAggressive::runOnLoop`: the pass's
 * configuration, the loop-size estimate, the threshold and unroll-count
 * policy, and the chain of eligibility checks that either rejects the loop
 * with a reason or accepts it with a plan for the rewrite.
 */
module UnrollDecision {
  import opened Wrappers
  import opened IR

  /** `unsigned` and `int` of the host compiler. */
  type u32 = x: int | 0 <= x <= 0xFFFF_FFFF
  type i32 = x: int | -0x8000_0000 <= x < 0x8000_0000

  /** `NoThreshold`: the threshold that disables the size gate (`UINT_MAX`). */
  const NoThreshold: u32 := 0xFFFF_FFFF

  /** `OptSizeUnrollThreshold`. */
  const OptSizeUnrollThreshold: u32 := 50

  /** The unroll count `runOnLoop` starts from, whatever the configuration says. */
  const DefaultCount: u32 := 4

  /**
   * The values of the pass's command-line options: whether the pass is
   * disabled, the threshold option and how often it was given, the count
   * option.
   */
  datatype Options = Options(disable: bool, threshold: u32, thresholdOccurrences: nat, count: u32)

  /** The fields the constructor sets, plus the disable flag `runOnLoop` reads. */
  datatype Config = Config(disabled: bool, currentThreshold: u32, currentCount: u32, userThreshold: bool)

  /** What `CodeMetrics` reports over the loop's blocks. */
  datatype Metrics = Metrics(numInsts: u32, numInlineCandidates: u32, notDuplicatable: bool)

  /** Why a loop is not unrolled: one reason per early return. */
  datatype Reason =
    | Disabled
    | NoPreheader
    | NotSingleBlock
    | NotConditionalBranch
    | HeaderAddressTaken
    | NotICmpBranch
    | NotDuplicatable
    | HasInlineCandidates
    | CannotUnrollPartially
    | IncrementNotAdd
    | PredicateNotNE
    | PredicateNotEQ
    | UpperNotInteger
    | UpperNotLoopInvariant
    | IncrementNotOne

  /** What the loop analysis reports about the loop. */
  datatype LoopView = LoopView(header: BlockId, preheader: Option<BlockId>, latch: Option<BlockId>)

  /** Everything the rewrite needs once a loop is accepted. */
  datatype Plan = Plan(
    preheader: BlockId,
    header: BlockId,
    exitBlock: BlockId,
    exitIndex: nat,
    latchIndex: nat,
    count: nat)

  datatype Decision = Reject(reason: Reason) | Accept(plan: Plan)

  /** The options' initial values: enabled, threshold 150 given zero times, count 0. */
  const DefaultOptions: Options := Options(false, 150, 0, 0)

  /** Two's-complement reinterpretation `unsigned(x)`. */
  function ToUnsigned(x: i32): (r: u32)
    ensures 0 <= x ==> r == x
    ensures x < 0 ==> r == x + 0x1_0000_0000
  {
    x % 0x1_0000_0000
  }

  /**
   * The constructor: an explicit threshold or count of -1 means "take the
   * option"; the threshold counts as user-specified when it is explicit or
   * the option was given on the command line. The third constructor
   * argument is unused by the source and is not modelled.
   */
  function MakeConfig(t: i32, c: i32, opts: Options): (cfg: Config)
    ensures cfg.disabled == opts.disable
    ensures t == -1 ==> cfg.currentThreshold == opts.threshold
    ensures 0 <= t ==> cfg.currentThreshold == t
    ensures t < -1 ==> cfg.currentThreshold == t + 0x1_0000_0000
    ensures c == -1 ==> cfg.currentCount == opts.count
    ensures 0 <= c ==> cfg.currentCount == c
    ensures c < -1 ==> cfg.currentCount == c + 0x1_0000_0000
    ensures cfg.userThreshold <==> (t != -1 || opts.thresholdOccurrences > 0)
  {
    Config(
      opts.disable,
      if t == -1 then opts.threshold else ToUnsigned(t),
      if c == -1 then opts.count else ToUnsigned(c),
      t != -1 || opts.thresholdOccurrences > 0)
  }

  /** The pass built with no arguments under the default options: threshold 150, not user-specified. */
  lemma DefaultConstruction()
    ensures MakeConfig(-1, -1, DefaultOptions) == Config(false, 150, 0, false)
    ensures EffectiveThreshold(MakeConfig(-1, -1, DefaultOptions), true) == OptSizeUnrollThreshold
  {
  }

  /** `ApproximateLoopSize`: the instruction count, never below one. */
  function ApproximateLoopSize(numInsts: u32): (size: u32)
    ensures size >= 1
    ensures numInsts >= 1 ==> size == numInsts
    ensures numInsts == 0 ==> size == 1
  {
    if numInsts == 0 then 1 else numInsts
  }

  /** The threshold in force for one loop. */
  function EffectiveThreshold(cfg: Config, optForSize: bool): (t: u32)
    ensures t == OptSizeUnrollThreshold <== !cfg.userThreshold && optForSize
    ensures cfg.userThreshold || !optForSize ==> t == cfg.currentThreshold
  {
    if !cfg.userThreshold && optForSize then OptSizeUnrollThreshold else cfg.currentThreshold
  }

  /**
   * The unroll count: 4 unless the size gate shrinks it to
   * `threshold / size`. The product `size * 4` is computed in 64 bits in
   * the source, so in this unbounded model it is the exact product (see
   * SizeProductFits64).
   */
  function UnrollCount(threshold: u32, m: Metrics): (r: Result<nat, Reason>)
    ensures threshold == NoThreshold ==> r == Ok(DefaultCount)
    ensures threshold != NoThreshold && m.notDuplicatable ==> r == Err(NotDuplicatable)
    ensures r.Err? ==> r.error in {NotDuplicatable, HasInlineCandidates, CannotUnrollPartially}
    ensures r.Ok? ==> r.value >= 2
    ensures r.Ok? && r.value != DefaultCount ==>
      var size := ApproximateLoopSize(m.numInsts);
      size * DefaultCount > threshold && r.value == threshold / size
  {
    if threshold == NoThreshold then Ok(DefaultCount)
    else if m.notDuplicatable then Err(NotDuplicatable)
    else if m.numInlineCandidates != 0 then Err(HasInlineCandidates)
    else
      var size := ApproximateLoopSize(m.numInsts);
      if size * DefaultCount > threshold then
        var count := threshold / size;
        if count < 2 then Err(CannotUnrollPartially) else Ok(count)
      else Ok(DefaultCount)
  }

  /** The 64-bit product of line 217 never wraps: a 32-bit size times 4 stays below 2^64. */
  lemma SizeProductFits64(size: u32)
    ensures size * DefaultCount < 0x1_0000_0000_0000_0000
  {
  }

  /** Floor division gives the largest multiple that fits. */
  lemma DivisionBounds(t: nat, s: nat)
    requires s >= 1
    ensures (t / s) * s <= t < (t / s + 1) * s
  {
    var q, r := t / s, t % s;
    assert t == q * s + r && 0 <= r < s;
    assert (q + 1) * s == q * s + s;
  }

  /** Multiplying by a positive size keeps the order of the factors. */
  lemma MulMonotone(a: nat, b: nat, s: nat)
    requires a <= b
    ensures a * s <= b * s
  {
    assert b * s == a * s + (b - a) * s;
  }

  /** `t / s` is below `k` when `t` is below `k * s`. */
  lemma QuotientBelow(t: nat, s: nat, k: nat)
    requires s >= 1 && t < k * s
    ensures t / s < k
  {
    DivisionBounds(t, s);
    if t / s >= k {
      MulMonotone(k, t / s, s);
      assert false;
    }
  }

  /** `t / s` reaches `k` when `t` reaches `k * s`. */
  lemma QuotientAtLeast(t: nat, s: nat, k: nat)
    requires s >= 1 && k * s <= t
    ensures k <= t / s
  {
    DivisionBounds(t, s);
    if t / s < k {
      MulMonotone(t / s + 1, k, s);
      assert false;
    }
  }

  /**
   * The count policy: without a threshold the factor is 4; otherwise a
   * non-duplicatable instruction or an inline candidate rejects, and an
   * accepted factor is the largest count up to 4 whose code size fits the
   * threshold, never below 2.
   */
  lemma UnrollCountPolicy(threshold: u32, m: Metrics)
    ensures threshold == NoThreshold ==> UnrollCount(threshold, m) == Ok(4)
    ensures threshold != NoThreshold && m.notDuplicatable ==>
              UnrollCount(threshold, m) == Err(NotDuplicatable)
    ensures threshold != NoThreshold && !m.notDuplicatable && m.numInlineCandidates != 0 ==>
              UnrollCount(threshold, m) == Err(HasInlineCandidates)
    ensures UnrollCount(threshold, m).Ok? ==> 2 <= UnrollCount(threshold, m).value <= 4
    ensures UnrollCount(threshold, m).Ok? && threshold != NoThreshold ==>
              var size, count := ApproximateLoopSize(m.numInsts), UnrollCount(threshold, m).value;
              size * count <= threshold && (count == 4 || size * (count + 1) > threshold)
    ensures threshold != NoThreshold && !m.notDuplicatable && m.numInlineCandidates == 0 ==>
              (UnrollCount(threshold, m).Err? <==> threshold < 2 * ApproximateLoopSize(m.numInsts))
  {
    if threshold != NoThreshold && !m.notDuplicatable && m.numInlineCandidates == 0 {
      var size := ApproximateLoopSize(m.numInsts);
      var count := threshold / size;
      DivisionBounds(threshold, size);
      if size * 4 > threshold {
        QuotientBelow(threshold, size, 4);
        if threshold < 2 * size {
          QuotientBelow(threshold, size, 2);
        } else {
          QuotientAtLeast(threshold, size, 2);
        }
      } else {
        MulMonotone(2, 4, size);
      }
    }
  }

  /** A body of 40 instructions against the threshold 150 is unrolled 3 times. */
  lemma ThresholdShrinkExample()
    ensures UnrollCount(150, Metrics(40, 0, false)) == Ok(3)
  {
  }

  /**
   * Canonical successor indices of the latch branch: the exit is successor
   * 0 unless successor 0 is the latch itself.
   */
  function Canonicalize(t: Terminator, latch: BlockId): (r: (BlockId, nat, nat))
    requires t.CondBr?
    ensures var (exitBlock, exitIndex, latchIndex) := r;
      exitIndex <= 1 && latchIndex == 1 - exitIndex &&
      exitBlock == Successor(t, exitIndex) &&
      (latchIndex == 0 <==> t.succ0 == latch) &&
      ((t.succ0 == latch) != (t.succ1 == latch) ==>
         Successor(t, latchIndex) == latch && exitBlock != latch)
  {
    if t.succ0 == latch then (t.succ1, 1, 0) else (t.succ0, 0, 1)
  }

  /**
   * The checks on `cond = icmp pred inc, upper`, in the source's order:
   * `inc` is an add, the predicate fits the layout, `upper` is an integer,
   * `upper` is loop invariant, and the step of the add is the constant 1.
   * `None` means every check passed.
   */
  function CheckCountedExit(cond: Condition, latchIndex: nat, members: set<BlockId>): (r: Option<Reason>)
    requires cond.ICmp? && latchIndex <= 1
    ensures r.None? <==> CountedExitTest(cond, latchIndex, members)
    ensures !(cond.inc.IncInst? && cond.inc.opcode == Add) ==> r == Some(IncrementNotAdd)
  {
    if !(cond.inc.IncInst? && cond.inc.opcode == Add) then Some(IncrementNotAdd)
    else if latchIndex == 0 && cond.pred != NE then Some(PredicateNotNE)
    else if latchIndex == 1 && cond.pred != EQ then Some(PredicateNotEQ)
    else if !cond.boundIsInteger then Some(UpperNotInteger)
    else if !(cond.bound.BoundArgument? || (cond.bound.BoundInst? && cond.bound.parent !in members)) then
      Some(UpperNotLoopInvariant)
    else if !(cond.inc.step.StepConst? && cond.inc.step.value == 1) then Some(IncrementNotOne)
    else None
  }

  /** The exit test a counted loop must have, for the canonical latch index. */
  ghost predicate CountedExitTest(cond: Condition, latchIndex: nat, members: set<BlockId>)
  {
    && cond.ICmp?
    && cond.inc == IncInst(Add, StepConst(1))
    && ((latchIndex == 0 && cond.pred == NE) || (latchIndex == 1 && cond.pred == EQ))
    && cond.boundIsInteger
    && (cond.bound.BoundArgument? || (cond.bound.BoundInst? && cond.bound.parent !in members))
  }

  /** Every reason CheckCountedExit gives names a check that failed. */
  lemma CheckCountedExitReasons(cond: Condition, latchIndex: nat, members: set<BlockId>)
    requires cond.ICmp? && latchIndex <= 1
    ensures var r := CheckCountedExit(cond, latchIndex, members);
      && (r == Some(PredicateNotNE) ==> latchIndex == 0 && cond.pred != NE)
      && (r == Some(PredicateNotEQ) ==> latchIndex == 1 && cond.pred != EQ)
      && (r == Some(UpperNotInteger) ==> !cond.boundIsInteger)
      && (r == Some(UpperNotLoopInvariant) ==>
            !(cond.bound.BoundArgument? || (cond.bound.BoundInst? && cond.bound.parent !in members)))
      && (r == Some(IncrementNotOne) ==> cond.inc.step != StepConst(1))
  {
  }

  /** The loop facts the host's loop analysis guarantees. */
  ghost predicate LoopFits(bs: seq<Block>, loop: LoopView)
  {
    && loop.header < |bs|
    && (loop.preheader.Some? ==> loop.preheader.value < |bs|)
  }

  /**
   * `runOnLoop` up to the rewrite: each early return becomes a rejection
   * with its reason, in the order of the source; `members` is the loop's
   * block set. The unroll count is decided before the exit test is
   * inspected, as in the source.
   */
  function Decide(cfg: Config, bs: seq<Block>, loop: LoopView, members: set<BlockId>,
                  m: Metrics, optForSize: bool): (d: Decision)
    requires LoopFits(bs, loop)
    ensures cfg.disabled ==> d == Reject(Disabled)
    ensures d.Accept? ==>
      && Some(d.plan.preheader) == loop.preheader
      && d.plan.header == loop.header
      && 2 <= d.plan.count <= 4
  {
    var header := loop.header;
    if cfg.disabled then Reject(Disabled)
    else if loop.preheader.None? then Reject(NoPreheader)
    else if loop.latch != Some(header) then Reject(NotSingleBlock)
    else
      var term := bs[header].term;
      if !term.CondBr? then Reject(NotConditionalBranch)
      else if bs[header].addressTaken then Reject(HeaderAddressTaken)
      else if !term.cond.ICmp? then Reject(NotICmpBranch)
      else
        var (exitBlock, exitIndex, latchIndex) := Canonicalize(term, header);
        var threshold := EffectiveThreshold(cfg, optForSize);
        match UnrollCount(threshold, m)
        case Err(r) => Reject(r)
        case Ok(count) =>
          UnrollCountPolicy(threshold, m);
          match CheckCountedExit(term.cond, latchIndex, members)
          case Some(r) => Reject(r)
          case None => Accept(Plan(loop.preheader.value, header, exitBlock, exitIndex, latchIndex, count))
  }

  /** The shape checks that come before the size gate. */
  ghost predicate ShapeOk(bs: seq<Block>, loop: LoopView)
    requires LoopFits(bs, loop)
  {
    && loop.preheader.Some?
    && loop.latch == Some(loop.header)
    && bs[loop.header].term.CondBr?
    && !bs[loop.header].addressTaken
    && bs[loop.header].term.cond.ICmp?
  }

  /**
   * Acceptance in both directions: a loop is accepted exactly when the
   * pass is enabled, the shape checks pass, the count policy yields a
   * factor and the exit test has the counted form; the plan then carries
   * the canonical exit, its indices and that factor.
   */
  lemma DecideAcceptIff(cfg: Config, bs: seq<Block>, loop: LoopView, members: set<BlockId>,
                        m: Metrics, optForSize: bool)
    requires LoopFits(bs, loop)
    ensures Decide(cfg, bs, loop, members, m, optForSize).Accept? <==>
      && !cfg.disabled
      && ShapeOk(bs, loop)
      && UnrollCount(EffectiveThreshold(cfg, optForSize), m).Ok?
      && CountedExitTest(bs[loop.header].term.cond,
                         Canonicalize(bs[loop.header].term, loop.header).2, members)
    ensures Decide(cfg, bs, loop, members, m, optForSize).Accept? ==>
      var p := Decide(cfg, bs, loop, members, m, optForSize).plan;
      var t := bs[loop.header].term;
      && (p.exitBlock, p.exitIndex, p.latchIndex) == Canonicalize(t, loop.header)
      && p.count == UnrollCount(EffectiveThreshold(cfg, optForSize), m).value
      && CountedExitTest(t.cond, p.latchIndex, members)
  {
    if !cfg.disabled && ShapeOk(bs, loop) {
      var t := bs[loop.header].term;
      assert CheckCountedExit(t.cond, Canonicalize(t, loop.header).2, members).None?
         <==> CountedExitTest(t.cond, Canonicalize(t, loop.header).2, members);
    }
  }

  /**
   * Every failing shape check rejects, whatever the metrics: a disabled
   * pass, a missing preheader, a body of more than one block, a latch that
   * does not end in a conditional branch, a header whose address is taken,
   * a condition that is not an integer compare.
   */
  lemma ShapeFailureRejects(cfg: Config, bs: seq<Block>, loop: LoopView, members: set<BlockId>,
                            m: Metrics, optForSize: bool)
    requires LoopFits(bs, loop)
    requires cfg.disabled || !ShapeOk(bs, loop)
    ensures Decide(cfg, bs, loop, members, m, optForSize).Reject?
  {
  }

  /** The stored count option is never read: configurations that differ only there decide alike. */
  lemma CurrentCountUnused(cfg: Config, count: u32, bs: seq<Block>, loop: LoopView,
                           members: set<BlockId>, m: Metrics, optForSize: bool)
    requires LoopFits(bs, loop)
    ensures Decide(cfg.(currentCount := count), bs, loop, members, m, optForSize)
         == Decide(cfg, bs, loop, members, m, optForSize)
  {
  }
}

/**
 * A model execution of the loop before and after unrolling, and the
 * iteration-count theorems.
 *
 * The state is the current block and the value `c` of the induction
 * variable; `u` is the run-time value of `Upper`. A block adds one to `c`
 * per counted increment it holds, then its terminator picks the next
 * block: a compare of the incremented value with `u` for a conditional
 * branch, `u urem divisor` for the guard switch. The induction variable
 * starts at zero, as after the canonicalisation the pass relies on. A run
 * has a fuel bound; it ends at the exit block with the final counter, or
 * with None when it halts or runs out of fuel.
 */
module UnrollSemantics {
  import opened Wrappers
  import opened IR
  import opened UnrollDecision
  import opened UnrollSpec

  datatype Flow = Goto(next: BlockId, counter: nat) | Halt

  /** The target of the first case whose value is `v`, else the default. */
  function CaseTarget(cases: seq<SwitchCase>, v: nat, dflt: BlockId): BlockId
  {
    if cases == [] then dflt
    else if cases[0].value == v then cases[0].target
    else CaseTarget(cases[1..], v, dflt)
  }

  /** One block: its increments, then its terminator. */
  function Step(b: Block, c: nat, u: nat): Flow
  {
    var c' := c + Incs(b.insts);
    match b.term
    case Br(t) => Goto(t, c')
    case CondBr(cond, s0, s1) =>
      if cond.ICmp? && cond.pred == EQ then Goto(if c' == u then s0 else s1, c')
      else if cond.ICmp? && cond.pred == NE then Goto(if c' != u then s0 else s1, c')
      else Halt
    case Switch(d, dflt, cases) =>
      if d == 0 then Halt else Goto(CaseTarget(cases, u % d, dflt), c')
    case OtherTerminator => Halt
  }

  /** Blocks run from `b` until `stop` is reached, for at most `fuel` blocks. */
  function Run(bs: seq<Block>, b: BlockId, c: nat, u: nat, stop: BlockId, fuel: nat): Option<nat>
    decreases fuel
  {
    if b == stop then Some(c)
    else if fuel == 0 || b >= |bs| then None
    else match Step(bs[b], c, u)
      case Halt => None
      case Goto(t, c') => Run(bs, t, c', u, stop, fuel - 1)
  }

  /**
   * The loop the pass accepts, seen as a counted loop: the preheader
   * branches to the header, the header holds the one counted increment and
   * its branch leaves for the exit block exactly when the incremented value
   * equals `u` (NE with the latch as successor 0, EQ with the latch as
   * successor 1).
   */
  ghost predicate CountedLoop(bs: seq<Block>, p: Plan)
  {
    && PlanFits(bs, p)
    && p.exitBlock < |bs| && p.exitBlock != p.header && p.exitBlock != p.preheader
    && bs[p.preheader].term == Br(p.header) && Incs(bs[p.preheader].insts) == 0
    && Incs(bs[p.header].insts) == 1
    && var t := bs[p.header].term;
       && t.cond.ICmp?
       && Successor(t, p.latchIndex) == p.header && Successor(t, p.exitIndex) == p.exitBlock
       && ((p.latchIndex == 0 && t.cond.pred == NE) || (p.latchIndex == 1 && t.cond.pred == EQ))
  }

  /**
   * A loop the pass accepts is a counted loop, given what the loop
   * analysis guarantees (the header's branch has the header as one
   * successor, the exit is neither header nor preheader, the preheader
   * branches to the header) and one counted increment in the header.
   */
  lemma AcceptedIsCountedLoop(cfg: Config, bs: seq<Block>, loop: LoopView, members: set<BlockId>,
                              m: Metrics, optForSize: bool)
    requires LoopFits(bs, loop)
    requires Decide(cfg, bs, loop, members, m, optForSize).Accept?
    requires var p := Decide(cfg, bs, loop, members, m, optForSize).plan;
      && bs[p.header].term.CondBr?
      && (bs[p.header].term.succ0 == p.header || bs[p.header].term.succ1 == p.header)
      && p.exitBlock < |bs| && p.exitBlock != p.header && p.exitBlock != p.preheader
      && p.preheader != p.header
      && bs[p.preheader].term == Br(p.header) && Incs(bs[p.preheader].insts) == 0
      && Incs(bs[p.header].insts) == 1
    ensures CountedLoop(bs, Decide(cfg, bs, loop, members, m, optForSize).plan)
  {
    DecideAcceptIff(cfg, bs, loop, members, m, optForSize);
  }

  /** Flattening keeps a counted loop counted. */
  lemma FlattenedCountedLoop(bs: seq<Block>, p: Plan)
    requires |bs| > 0 && CountedLoop(bs, p)
    ensures CountedLoop(Flattened(bs), p)
  {
    FlattenedKeepsIncs(bs, p.preheader);
    FlattenedKeepsIncs(bs, p.header);
  }

  /** The exit test of a counted loop, in any block that carries it: leave exactly at `u`. */
  lemma ExitTestStep(blk: Block, p: Plan, back: BlockId, c: nat, u: nat)
    requires blk.term.CondBr? && blk.term.cond.ICmp? && p.latchIndex <= 1 && p.exitIndex == 1 - p.latchIndex
    requires (p.latchIndex == 0 && blk.term.cond.pred == NE) || (p.latchIndex == 1 && blk.term.cond.pred == EQ)
    requires Successor(blk.term, p.latchIndex) == back && Successor(blk.term, p.exitIndex) == p.exitBlock
    ensures Step(blk, c, u) == Goto(if c + Incs(blk.insts) == u then p.exitBlock else back, c + Incs(blk.insts))
  {
  }

  // ----- the loop before the rewrite -----

  lemma {:induction false} OriginalFromHeader(bs: seq<Block>, p: Plan, c: nat, u: nat, fuel: nat)
    requires CountedLoop(bs, p) && c < u && fuel >= u - c
    ensures Run(bs, p.header, c, u, p.exitBlock, fuel) == Some(u)
    decreases u - c
  {
    ExitTestStep(bs[p.header], p, p.header, c, u);
    if c + 1 < u {
      OriginalFromHeader(bs, p, c + 1, u, fuel - 1);
    }
  }

  lemma {:induction false} OriginalDiverges(bs: seq<Block>, p: Plan, c: nat, u: nat, fuel: nat)
    requires CountedLoop(bs, p) && c >= u
    ensures Run(bs, p.header, c, u, p.exitBlock, fuel) == None
    decreases fuel
  {
    ExitTestStep(bs[p.header], p, p.header, c, u);
    if fuel > 0 {
      OriginalDiverges(bs, p, c + 1, u, fuel - 1);
    }
  }

  /**
   * The original loop runs its body exactly `u` times for a bound `u >= 1`
   * and never reaches the exit for `u == 0` (the counter only grows in the
   * model; the source's fixed-width counter would wrap instead).
   */
  lemma OriginalTripCount(bs: seq<Block>, p: Plan, u: nat, fuel: nat)
    requires CountedLoop(bs, p)
    ensures u >= 1 && fuel >= u + 1 ==> Run(bs, p.preheader, 0, u, p.exitBlock, fuel) == Some(u)
    ensures u == 0 ==> Run(bs, p.preheader, 0, u, p.exitBlock, fuel) == None
  {
    if fuel > 0 {
      if u >= 1 && fuel >= u + 1 {
        OriginalFromHeader(bs, p, 0, u, fuel - 1);
      }
      if u == 0 {
        OriginalDiverges(bs, p, 0, u, fuel - 1);
      }
    }
  }

  // ----- the loop after the rewrite -----

  /**
   * What every block of the rewritten region does in one step, except the
   * guard clone that enters the body (block n0 + 1), on which the source
   * and the corrected rewrite differ.
   */
  ghost predicate StepLayout(r: seq<Block>, n0: nat, p: Plan)
  {
    var f, h, x, last := p.count, p.header, p.exitBlock, n0 + 2 * p.count - 2;
    && f >= 2
    && |r| == n0 + 2 * f - 1
    && p.preheader < n0 && h < n0 && x < n0
    && p.preheader != h && x != h && x != p.preheader
    && (forall c: nat, u: nat :: Step(r[p.preheader], c, u) == Goto(if u % f == 0 then n0 else n0 + u % f, c))
    && (forall c: nat, u: nat :: Step(r[n0], c, u) == Goto(h, c))
    && (forall b, c: nat, u: nat :: n0 + 1 < b < n0 + f ==> Step(r[b], c, u) == Goto(b - 1, c + 1))
    && (forall c: nat, u: nat :: Step(r[h], c, u) == Goto(n0 + f, c + 1))
    && (forall b, c: nat, u: nat :: n0 + f <= b < last ==> Step(r[b], c, u) == Goto(b + 1, c + 1))
    && (forall c: nat, u: nat :: Step(r[last], c, u) == Goto(if c + 1 == u then x else h, c + 1))
  }

  lemma {:induction false} GuardCasesTarget(e: BlockId, m: nat, j: nat, v: nat, d: BlockId)
    requires j <= m
    ensures CaseTarget(GuardCases(e, m)[j..], v, d) == if j < v <= m then e + v else d
    decreases m - j
  {
    var cs := GuardCases(e, m)[j..];
    if j < m {
      assert cs[0] == SwitchCase(j + 1, e + 1 + j);
      assert cs[1..] == GuardCases(e, m)[j + 1..];
      GuardCasesTarget(e, m, j + 1, v, d);
    }
  }

  /** The guard switch picks case `u urem count`, or the body entry when that is 0. */
  lemma SwitchStep(bs: seq<Block>, p: Plan, c: nat, u: nat)
    requires CountedLoop(bs, p)
    ensures var n0, f := |bs|, p.count;
      Step(Unrolled(bs, p)[p.preheader], c, u) == Goto(if u % f == 0 then n0 else n0 + u % f, c)
  {
    UnrolledLayout(bs, p);
    var n0, f := |bs|, p.count;
    IncsAppend(bs[p.preheader].insts, [GuardURem(f)]);
    GuardCasesTarget(n0, f - 1, 0, u % f, n0);
    assert GuardCases(n0, f - 1)[0..] == GuardCases(n0, f - 1);
  }

  /** Each guard clone above the first counts one iteration and goes down to the clone before it. */
  lemma UnrolledChainSteps(bs: seq<Block>, p: Plan)
    requires CountedLoop(bs, p)
    ensures forall b, c: nat, u: nat :: |bs| + 1 < b < |bs| + p.count ==>
      Step(Unrolled(bs, p)[b], c, u) == Goto(b - 1, c + 1)
  {
    UnrolledLayout(bs, p);
  }

  /** Each body clone but the last counts one iteration and goes on to the next clone. */
  lemma UnrolledBodySteps(bs: seq<Block>, p: Plan)
    requires CountedLoop(bs, p)
    ensures forall b, c: nat, u: nat :: |bs| + p.count <= b < |bs| + 2 * p.count - 2 ==>
      Step(Unrolled(bs, p)[b], c, u) == Goto(b + 1, c + 1)
  {
    UnrolledLayout(bs, p);
  }

  /** The rewrite as the source does it has this layout; guard clone 1 branches straight to the body entry. */
  lemma UnrolledSteps(bs: seq<Block>, p: Plan)
    requires CountedLoop(bs, p)
    ensures StepLayout(Unrolled(bs, p), |bs|, p)
    ensures var g := |bs| + 1; forall c: nat, u: nat :: Step(Unrolled(bs, p)[g], c, u) == Goto(|bs|, c + 1)
  {
    UnrolledLayout(bs, p);
    UnrolledChainSteps(bs, p);
    UnrolledBodySteps(bs, p);
    var r, n0, f, h := Unrolled(bs, p), |bs|, p.count, p.header;
    var last := n0 + 2 * f - 2;
    forall c: nat, u: nat ensures Step(r[last], c, u) == Goto(if c + 1 == u then p.exitBlock else h, c + 1) {
      ExitTestStep(r[last], p, h, c, u);
    }
    forall c: nat, u: nat ensures Step(r[p.preheader], c, u) == Goto(if u % f == 0 then n0 else n0 + u % f, c) {
      SwitchStep(bs, p, c, u);
    }
  }

  /** The corrected rewrite: the same layout, and guard clone 1 tests for the exit before entering the body. */
  lemma FixedSteps(bs: seq<Block>, p: Plan)
    requires CountedLoop(bs, p)
    ensures StepLayout(UnrolledFixed(bs, p), |bs|, p)
    ensures var g := |bs| + 1;
      forall c: nat, u: nat :: Step(UnrolledFixed(bs, p)[g], c, u) == Goto(if c + 1 == u then p.exitBlock else |bs|, c + 1)
  {
    UnrolledLayout(bs, p);
    UnrolledSteps(bs, p);
    var r, n0 := UnrolledFixed(bs, p), |bs|;
    var u0, g := Unrolled(bs, p), |bs| + 1;
    assert forall b :: 0 <= b < |r| && b != g ==> r[b] == u0[b];
    forall c: nat, u: nat ensures Step(r[g], c, u) == Goto(if c + 1 == u then p.exitBlock else n0, c + 1) {
      ExitTestStep(r[g], p, n0, c, u);
    }
  }

  /** Down the guard chain from block `b` to guard clone 1, one block and one iteration at a time. */
  lemma {:induction false} GuardChainRun(r: seq<Block>, n0: nat, p: Plan, b: BlockId, c: nat, u: nat, fuel: nat)
    requires StepLayout(r, n0, p) && n0 + 1 <= b < n0 + p.count
    ensures Run(r, b, c, u, p.exitBlock, fuel)
         == if fuel < b - (n0 + 1) then None else Run(r, n0 + 1, c + (b - (n0 + 1)), u, p.exitBlock, fuel - (b - (n0 + 1)))
    decreases b
  {
    if b > n0 + 1 && fuel > 0 {
      GuardChainRun(r, n0, p, b - 1, c + 1, u, fuel - 1);
    }
  }

  /** Along the body chain from block `b` to the last clone. */
  lemma {:induction false} BodyChainRun(r: seq<Block>, n0: nat, p: Plan, b: BlockId, c: nat, u: nat, fuel: nat)
    requires StepLayout(r, n0, p) && n0 + p.count <= b <= n0 + 2 * p.count - 2
    ensures var last := n0 + 2 * p.count - 2;
      Run(r, b, c, u, p.exitBlock, fuel)
      == if fuel < last - b then None else Run(r, last, c + (last - b), u, p.exitBlock, fuel - (last - b))
    decreases n0 + 2 * p.count - 2 - b
  {
    if b < n0 + 2 * p.count - 2 && fuel > 0 {
      BodyChainRun(r, n0, p, b + 1, c + 1, u, fuel - 1);
    }
  }

  /** One pass of the unrolled body: `count` iterations, then the exit test. */
  lemma OnePass(r: seq<Block>, n0: nat, p: Plan, c: nat, u: nat, fuel: nat)
    requires StepLayout(r, n0, p)
    ensures Run(r, p.header, c, u, p.exitBlock, fuel)
         == if fuel < p.count then None
            else if c + p.count == u then Some(u)
            else Run(r, p.header, c + p.count, u, p.exitBlock, fuel - p.count)
  {
    var f, last := p.count, n0 + 2 * p.count - 2;
    if fuel > 0 {
      BodyChainRun(r, n0, p, n0 + f, c + 1, u, fuel - 1);
      if fuel - 1 >= f - 2 && fuel - 1 - (f - 2) > 0 {
        assert Step(r[last], c + f - 1, u) == Goto(if c + f == u then p.exitBlock else p.header, c + f);
      }
    }
  }

  /** `k` whole passes from the header reach the exit exactly at `u = c + k * count`. */
  lemma {:induction false} MainLoopExits(r: seq<Block>, n0: nat, p: Plan, c: nat, u: nat, k: nat, fuel: nat)
    requires StepLayout(r, n0, p)
    requires k >= 1 && u == c + k * p.count && fuel >= u - c
    ensures Run(r, p.header, c, u, p.exitBlock, fuel) == Some(u)
    decreases k
  {
    OnePass(r, n0, p, c, u, fuel);
    PassArithmetic(c, u, k, p.count);
    if k > 1 {
      MainLoopExits(r, n0, p, c + p.count, u, k - 1, fuel - p.count);
    }
  }

  /** After one pass of `f` iterations, `k - 1` passes remain. */
  lemma PassArithmetic(c: nat, u: nat, k: nat, f: nat)
    requires k >= 1 && f >= 1 && u == c + k * f
    ensures u - c >= f
    ensures k == 1 ==> c + f == u
    ensures k > 1 ==> c + f < u && u == (c + f) + (k - 1) * f
  {
    assert k * f == (k - 1) * f + f;
    if k > 1 {
      MulMonotone(1, k - 1, f);
    }
  }

  /** From the header with the counter already at or past `u`, the unrolled loop never exits. */
  lemma {:induction false} MainLoopDiverges(r: seq<Block>, n0: nat, p: Plan, c: nat, u: nat, fuel: nat)
    requires StepLayout(r, n0, p) && c >= u
    ensures Run(r, p.header, c, u, p.exitBlock, fuel) == None
    decreases fuel
  {
    OnePass(r, n0, p, c, u, fuel);
    if fuel >= p.count {
      MainLoopDiverges(r, n0, p, c + p.count, u, fuel - p.count);
    }
  }

  /** `u` is `u / f` whole multiples of `f` plus the remainder. */
  lemma RemainderSplit(u: nat, f: nat)
    requires f >= 1
    ensures u == u % f + (u / f) * f && u % f < f
    ensures u >= f ==> u / f >= 1
    ensures u < f ==> u % f == u
  {
    var q, v := u / f, u % f;
    assert u == q * f + v;
    if u < f {
      assert q == 0;
    }
  }

  /**
   * Iteration-count preservation for the source's rewrite: with bound
   * `u >= count` the guard runs `u urem count` clones, the body runs whole
   * passes of `count`, and the exit is reached after exactly `u`
   * iterations, as in the original loop.
   */
  lemma UnrolledTripCount(bs: seq<Block>, p: Plan, u: nat, fuel: nat)
    requires CountedLoop(bs, p) && u >= p.count && fuel >= u + 2
    ensures Run(Unrolled(bs, p), p.preheader, 0, u, p.exitBlock, fuel) == Some(u)
    ensures Run(bs, p.preheader, 0, u, p.exitBlock, fuel) == Some(u)
  {
    OriginalTripCount(bs, p, u, fuel);
    UnrolledSteps(bs, p);
    LongTripsExit(Unrolled(bs, p), |bs|, p, u, fuel);
  }

  /** From the switch of either layout: exactly `u` iterations for every bound `u >= count`. */
  lemma LongTripsExit(r: seq<Block>, n0: nat, p: Plan, u: nat, fuel: nat)
    requires StepLayout(r, n0, p)
    requires var g := n0 + 1; forall c: nat, u: nat :: c + 1 < u ==> Step(r[g], c, u) == Goto(n0, c + 1)
    requires u >= p.count && fuel >= u + 2
    ensures Run(r, p.preheader, 0, u, p.exitBlock, fuel) == Some(u)
  {
    var v, k := u % p.count, u / p.count;
    RemainderSplit(u, p.count);
    MulMonotone(1, k, p.count);
    assert Step(r[p.preheader], 0, u) == Goto(if v == 0 then n0 else n0 + v, 0);
    LongTripsFromSwitch(r, n0, p, u, v, k, fuel);
  }

  /** The guard runs `v` clones, then `k` whole passes reach the exit. */
  lemma LongTripsFromSwitch(r: seq<Block>, n0: nat, p: Plan, u: nat, v: nat, k: nat, fuel: nat)
    requires StepLayout(r, n0, p)
    requires var g := n0 + 1; forall c: nat, u: nat :: c + 1 < u ==> Step(r[g], c, u) == Goto(n0, c + 1)
    requires v < p.count && k >= 1 && u == v + k * p.count && v < u && fuel >= u + 2
    requires Step(r[p.preheader], 0, u) == Goto(if v == 0 then n0 else n0 + v, 0)
    ensures Run(r, p.preheader, 0, u, p.exitBlock, fuel) == Some(u)
  {
    var pre, x := p.preheader, p.exitBlock;
    if v == 0 {
      assert Run(r, pre, 0, u, x, fuel) == Run(r, n0, 0, u, x, fuel - 1);
      assert Step(r[n0], 0, u) == Goto(p.header, 0);
      MainLoopExits(r, n0, p, 0, u, k, fuel - 2);
    } else {
      assert Run(r, pre, 0, u, x, fuel) == Run(r, n0 + v, 0, u, x, fuel - 1);
      GuardChainRun(r, n0, p, n0 + v, 0, u, fuel - 1);
      var g := n0 + 1;
      assert Step(r[g], v - 1, u) == Goto(n0, v);
      assert Run(r, g, v - 1, u, x, fuel - v) == Run(r, n0, v, u, x, fuel - v - 1);
      assert Step(r[n0], v, u) == Goto(p.header, v);
      MainLoopExits(r, n0, p, v, u, k, fuel - 2 - v);
    }
  }

  /**
   * The source's rewrite misses every trip count below the unroll count:
   * for `1 <= u < count` the original loop exits after `u` iterations, but
   * the guard runs `u` clones without an exit test and the counter passes
   * `u` before the first test, so the unrolled loop never exits.
   */
  lemma UnrolledMissesShortTrips(bs: seq<Block>, p: Plan, u: nat, fuel: nat)
    requires CountedLoop(bs, p) && 1 <= u < p.count && fuel >= u + 1
    ensures Run(bs, p.preheader, 0, u, p.exitBlock, fuel) == Some(u)
    ensures forall fl: nat :: Run(Unrolled(bs, p), p.preheader, 0, u, p.exitBlock, fl) == None
  {
    OriginalTripCount(bs, p, u, fuel);
    UnrolledSteps(bs, p);
    forall fl: nat ensures Run(Unrolled(bs, p), p.preheader, 0, u, p.exitBlock, fl) == None {
      ShortTripsDiverge(Unrolled(bs, p), |bs|, p, u, fl);
    }
  }

  /** From the switch of the source's layout: no exit for a bound `1 <= u < count`. */
  lemma ShortTripsDiverge(r: seq<Block>, n0: nat, p: Plan, u: nat, fuel: nat)
    requires StepLayout(r, n0, p)
    requires var g := n0 + 1; forall c: nat, u: nat :: Step(r[g], c, u) == Goto(n0, c + 1)
    requires 1 <= u < p.count
    ensures Run(r, p.preheader, 0, u, p.exitBlock, fuel) == None
  {
    RemainderSplit(u, p.count);
    if fuel > 0 {
      GuardChainRun(r, n0, p, n0 + u, 0, u, fuel - 1);
      if fuel - 1 >= u - 1 && fuel - 1 - (u - 1) >= 2 {
        MainLoopDiverges(r, n0, p, u, u, fuel - 1 - (u - 1) - 2);
      }
    }
  }

  /**
   * The function `runOnLoop` leaves behind (flattened, then unrolled)
   * keeps the original loop's iteration count for every bound of at least
   * the unroll count, and never exits for a smaller positive bound.
   */
  lemma PassResultTripCount(bs: seq<Block>, p: Plan, u: nat, fuel: nat)
    requires |bs| > 0 && CountedLoop(bs, p)
    ensures u >= p.count && fuel >= u + 2 ==>
      Run(Unrolled(Flattened(bs), p), p.preheader, 0, u, p.exitBlock, fuel) == Some(u)
      == Run(bs, p.preheader, 0, u, p.exitBlock, fuel)
    ensures 1 <= u < p.count ==>
      forall fl: nat :: Run(Unrolled(Flattened(bs), p), p.preheader, 0, u, p.exitBlock, fl) == None
  {
    FlattenedCountedLoop(bs, p);
    OriginalTripCount(bs, p, u, fuel);
    if u >= p.count && fuel >= u + 2 {
      UnrolledTripCount(Flattened(bs), p, u, fuel);
    }
    if 1 <= u < p.count {
      UnrolledMissesShortTrips(Flattened(bs), p, u, u + 1);
    }
  }

  /** A concrete instance: factor 4 and trip count 10, with case 2 of the guard and two whole passes. */
  lemma TenTripsByFour(bs: seq<Block>, p: Plan)
    requires CountedLoop(bs, p) && p.count == 4
    ensures 10 % p.count == 2
    ensures Run(Unrolled(bs, p), p.preheader, 0, 10, p.exitBlock, 12) == Some(10)
  {
    UnrolledTripCount(bs, p, 10, 12);
  }

  /** A concrete instance: the trip count 2 against the factor 4. */
  lemma ShortTripExample(bs: seq<Block>, p: Plan)
    requires CountedLoop(bs, p) && p.count == 4
    ensures Run(bs, p.preheader, 0, 2, p.exitBlock, 3) == Some(2)
    ensures Run(Unrolled(bs, p), p.preheader, 0, 2, p.exitBlock, 1000) == None
  {
    UnrolledMissesShortTrips(bs, p, 2, 3);
  }

  /** From the switch of a corrected layout: no exit when the bound is 0. */
  lemma FixedZeroTrips(r: seq<Block>, n0: nat, p: Plan, fuel: nat)
    requires StepLayout(r, n0, p)
    ensures Run(r, p.preheader, 0, 0, p.exitBlock, fuel) == None
  {
    if fuel >= 2 {
      MainLoopDiverges(r, n0, p, 0, 0, fuel - 2);
    }
  }

  /** From the switch of a corrected layout: exactly `u` iterations for every bound `u >= 1`. */
  lemma FixedExits(r: seq<Block>, n0: nat, p: Plan, u: nat, fuel: nat)
    requires StepLayout(r, n0, p)
    requires var g := n0 + 1;
      forall c: nat, u: nat :: Step(r[g], c, u) == Goto(if c + 1 == u then p.exitBlock else n0, c + 1)
    requires u >= 1 && fuel >= u + 2
    ensures Run(r, p.preheader, 0, u, p.exitBlock, fuel) == Some(u)
  {
    if u >= p.count {
      LongTripsExit(r, n0, p, u, fuel);
    } else {
      RemainderSplit(u, p.count);
      GuardChainRun(r, n0, p, n0 + u, 0, u, fuel - 1);
      var g := n0 + 1;
      assert Step(r[g], u - 1, u) == Goto(p.exitBlock, u);
    }
  }

  /**
   * The corrected rewrite preserves the iteration count for every bound:
   * it agrees with the original loop, exactly `u` iterations for `u >= 1`
   * and no exit for `u == 0`.
   */
  lemma FixedTripCount(bs: seq<Block>, p: Plan, u: nat, fuel: nat)
    requires CountedLoop(bs, p)
    ensures u >= 1 && fuel >= u + 2 ==> Run(UnrolledFixed(bs, p), p.preheader, 0, u, p.exitBlock, fuel) == Some(u)
    ensures u == 0 ==> Run(UnrolledFixed(bs, p), p.preheader, 0, u, p.exitBlock, fuel) == None
    ensures fuel >= u + 2 ==> Run(UnrolledFixed(bs, p), p.preheader, 0, u, p.exitBlock, fuel)
                              == Run(bs, p.preheader, 0, u, p.exitBlock, fuel)
  {
    OriginalTripCount(bs, p, u, fuel);
    FixedSteps(bs, p);
    if u == 0 {
      FixedZeroTrips(UnrolledFixed(bs, p), |bs|, p, fuel);
    } else if fuel >= u + 2 {
      FixedExits(UnrolledFixed(bs, p), |bs|, p, u, fuel);
    }
  }

  /**
   * The function the corrected pipeline leaves behind runs exactly as the
   * original loop for every bound, given enough fuel for the two extra
   * blocks of the guard.
   */
  lemma CorrectedPassTripCount(bs: seq<Block>, p: Plan, u: nat, fuel: nat)
    requires |bs| > 0 && CountedLoop(bs, p) && fuel >= u + 2
    ensures Run(UnrolledFixed(Flattened(bs), p), p.preheader, 0, u, p.exitBlock, fuel)
         == Run(bs, p.preheader, 0, u, p.exitBlock, fuel)
  {
    FlattenedCountedLoop(bs, p);
    OriginalTripCount(bs, p, u, fuel);
    FixedTripCount(Flattened(bs), p, u, fuel);
  }
}

/**
 * What each stage of the rewrite in `runOnLoop` does to the function, as
 * functions of the state before it: placing the alloca insertion point,
 * demoting the phis, splitting the preheader, building the remainder guard
 * and replicating the body. The imperative pass in UnrollPass is proved to
 * compute exactly these.
 *
 * Block ids of the rewritten function, where `n0` is the number of blocks
 * before the split and `F` the unroll count:
 *   n0                   the body entry split off the preheader;
 *   n0 + i (1 <= i < F)  the guard clone reached by case i;
 *   n0 + F + k (k < F-1) the (k+1)-th body clone.
 */
module UnrollSpec {
  import opened IR
  import opened UnrollDecision

  /** The index of the first non-alloca instruction. */
  function LeadingAllocas(insts: seq<InstKind>): (k: nat)
    ensures k <= |insts|
    ensures forall i :: 0 <= i < k ==> insts[i] == Alloca
    ensures k < |insts| ==> insts[k] != Alloca
  {
    if insts == [] || insts[0] != Alloca then 0 else 1 + LeadingAllocas(insts[1..])
  }

  /** The entry block (block 0) gains the alloca insertion point after its leading allocas. */
  function WithAllocaPoint(bs: seq<Block>): (r: seq<Block>)
    requires |bs| > 0
    ensures |r| == |bs| && forall b :: 0 < b < |bs| ==> r[b] == bs[b]
    ensures r[0].term == bs[0].term && r[0].addressTaken == bs[0].addressTaken
    ensures var insts, k := bs[0].insts, LeadingAllocas(bs[0].insts);
      && |r[0].insts| == |insts| + 1
      && r[0].insts[..k] == insts[..k] && r[0].insts[k] == AllocaPoint && r[0].insts[k + 1..] == insts[k..]
  {
    var insts := bs[0].insts;
    var k := LeadingAllocas(insts);
    bs[0 := bs[0].(insts := insts[..k] + [AllocaPoint] + insts[k..])]
  }

  /** The position of one instruction: block id and index in the block. */
  datatype InstRef = InstRef(block: BlockId, index: nat)

  ghost predicate IsPhiAt(bs: seq<Block>, r: InstRef)
  {
    r.block < |bs| && r.index < |bs[r.block].insts| && bs[r.block].insts[r.index] == Phi
  }

  /** Program order of instruction positions. */
  predicate Before(a: InstRef, b: InstRef)
  {
    a.block < b.block || (a.block == b.block && a.index < b.index)
  }

  /** Demoting every phi of a block: each becomes the reload that replaces it. */
  function DemoteInsts(insts: seq<InstKind>): (r: seq<InstKind>)
    ensures |r| == |insts|
    ensures Phi !in r
    ensures forall i :: 0 <= i < |insts| && insts[i] != Phi ==> r[i] == insts[i]
  {
    seq(|insts|, i requires 0 <= i < |insts| => if insts[i] == Phi then Reload else insts[i])
  }

  function DemoteAll(bs: seq<Block>): (r: seq<Block>)
    ensures |r| == |bs|
    ensures forall b :: 0 <= b < |bs| ==>
      r[b].term == bs[b].term && r[b].addressTaken == bs[b].addressTaken && Phi !in r[b].insts
  {
    seq(|bs|, b requires 0 <= b < |bs| => bs[b].(insts := DemoteInsts(bs[b].insts)))
  }

  /** The function after the reg2mem step of the pass. */
  function Flattened(bs: seq<Block>): (r: seq<Block>)
    requires |bs| > 0
    ensures |r| == |bs|
    ensures forall b :: 0 <= b < |bs| ==>
      r[b].term == bs[b].term && r[b].addressTaken == bs[b].addressTaken && Phi !in r[b].insts
  {
    DemoteAll(WithAllocaPoint(bs))
  }

  lemma {:induction false} IncsAppend(a: seq<InstKind>, b: seq<InstKind>)
    ensures Incs(a + b) == Incs(a) + Incs(b)
  {
    if a != [] {
      assert (a + b)[0] == a[0] && (a + b)[1..] == a[1..] + b;
      IncsAppend(a[1..], b);
      calc {
        Incs(a + b);
        (if a[0] == IndVarInc then 1 else 0) + Incs(a[1..] + b);
        (if a[0] == IndVarInc then 1 else 0) + Incs(a[1..]) + Incs(b);
      }
    } else {
      assert a + b == b;
    }
  }

  lemma {:induction false} IncsDemote(insts: seq<InstKind>)
    ensures Incs(DemoteInsts(insts)) == Incs(insts)
  {
    if insts != [] {
      assert DemoteInsts(insts)[1..] == DemoteInsts(insts[1..]);
      IncsDemote(insts[1..]);
    }
  }

  /** Flattening neither adds nor removes a counted increment. */
  lemma FlattenedKeepsIncs(bs: seq<Block>, b: BlockId)
    requires |bs| > 0 && b < |bs|
    ensures Incs(Flattened(bs)[b].insts) == Incs(bs[b].insts)
  {
    var w := WithAllocaPoint(bs);
    IncsDemote(w[b].insts);
    if b == 0 {
      var insts := bs[0].insts;
      var k := LeadingAllocas(insts);
      IncsAppend(insts[..k] + [AllocaPoint], insts[k..]);
      IncsAppend(insts[..k], [AllocaPoint]);
      IncsAppend(insts[..k], insts[k..]);
      assert insts[..k] + insts[k..] == insts;
    }
  }

  /** `SplitBlock(P, P->getTerminator())`: P branches to a new last block that takes over P's terminator. */
  function Split(bs: seq<Block>, p: BlockId): (r: seq<Block>)
    requires p < |bs|
    ensures |r| == |bs| + 1
    ensures r[p] == bs[p].(term := Br(|bs|)) && r[|bs|] == Block([], false, bs[p].term)
    ensures forall b :: 0 <= b < |bs| && b != p ==> r[b] == bs[b]
  {
    bs[p := bs[p].(term := Br(|bs|))] + [Block([], false, bs[p].term)]
  }

  /** Cases `1 .. m` of the guard switch: case i goes to block `entry + i`. */
  function GuardCases(entry: BlockId, m: nat): (r: seq<SwitchCase>)
    ensures |r| == m
    ensures forall k :: 0 <= k < m ==> 1 <= r[k].value <= m && r[k].target == entry + r[k].value
    ensures forall i, j :: 0 <= i < j < m ==> r[i].value < r[j].value
  {
    seq(m, k requires 0 <= k < m => SwitchCase(k + 1, entry + 1 + k))
  }

  /** The guard clones: clone i (block `entry + i`) branches to `entry + i - 1`. */
  function GuardChain(insts: seq<InstKind>, entry: BlockId, m: nat): (r: seq<Block>)
    ensures |r| == m
    ensures forall k :: 0 <= k < m ==> r[k].insts == insts && !r[k].addressTaken && r[k].term == Br(entry + k)
  {
    seq(m, k requires 0 <= k < m => Block(insts, false, Br(entry + k)))
  }

  /**
   * The guard: the old preheader computes `Upper urem count` and switches
   * on it, default to the body entry (the last block), and the header is
   * cloned `count - 1` times into a chain ending in the body entry.
   */
  function Guarded(bs: seq<Block>, p: BlockId, h: BlockId, count: nat): (r: seq<Block>)
    requires p < |bs| && h < |bs| && count >= 1
    ensures |r| == |bs| + count - 1
    ensures r[p] == GuardSwitch(bs[p], count, |bs| - 1, count - 1)
    ensures forall b :: 0 <= b < |bs| && b != p ==> r[b] == bs[b]
    ensures forall b :: |bs| <= b < |r| ==> r[b].insts == bs[h].insts && !r[b].addressTaken && r[b].term == Br(b - 1)
  {
    var entry := |bs| - 1;
    bs[p := GuardSwitch(bs[p], count, entry, count - 1)] + GuardChain(bs[h].insts, entry, count - 1)
  }

  /** The old preheader with the `urem` appended and the switch with its first `m` cases as terminator. */
  function GuardSwitch(pre: Block, count: nat, entry: BlockId, m: nat): (r: Block)
    ensures |r.insts| == |pre.insts| + 1 && r.insts[..|pre.insts|] == pre.insts
    ensures r.insts[|pre.insts|] == GuardURem(count) && r.addressTaken == pre.addressTaken
    ensures r.term.Switch? && r.term.divisor == count && r.term.defaultTarget == entry && |r.term.cases| == m
  {
    Block(pre.insts + [GuardURem(count)], pre.addressTaken, Switch(count, entry, GuardCases(entry, m)))
  }

  /** The facts about a plan that the rewrite needs. */
  ghost predicate PlanFits(bs: seq<Block>, p: Plan)
  {
    && p.preheader < |bs| && p.header < |bs| && p.preheader != p.header
    && bs[p.header].term.CondBr?
    && p.latchIndex <= 1 && p.exitIndex == 1 - p.latchIndex
    && p.count >= 2
  }

  /** The last body clone's branch: latch successor to the header, exit successor to the exit block. */
  function Close(t: Terminator, p: Plan): (r: Terminator)
    requires t.CondBr? && p.latchIndex <= 1 && p.exitIndex == 1 - p.latchIndex
    ensures r.CondBr? && r.cond == t.cond
    ensures Successor(r, p.latchIndex) == p.header && Successor(r, p.exitIndex) == p.exitBlock
  {
    SetSuccessor(SetSuccessor(t, p.latchIndex, p.header), p.exitIndex, p.exitBlock)
  }

  /** `m` body clones starting at block `first`, each branching to the next, the last ending in `last`. */
  function BodyChain(insts: seq<InstKind>, first: BlockId, m: nat, last: Terminator): (r: seq<Block>)
    ensures |r| == m
    ensures forall k :: 0 <= k < m ==> r[k].insts == insts && !r[k].addressTaken
    ensures forall k :: 0 <= k < m - 1 ==> r[k].term == Br(first + k + 1)
    ensures m > 0 ==> r[m - 1].term == last
  {
    seq(m, k requires 0 <= k < m => Block(insts, false, if k + 1 < m then Br(first + k + 1) else last))
  }

  /** The body replication: Header -> clone 1 -> ... -> clone count-1, the last closed by Close. */
  function Bodied(bs: seq<Block>, p: Plan): (r: seq<Block>)
    requires p.header < |bs| && bs[p.header].term.CondBr?
    requires p.latchIndex <= 1 && p.exitIndex == 1 - p.latchIndex && p.count >= 2
    ensures |r| == |bs| + p.count - 1
    ensures r[p.header] == bs[p.header].(term := Br(|bs|))
    ensures forall b :: 0 <= b < |bs| && b != p.header ==> r[b] == bs[b]
    ensures forall b :: |bs| <= b < |r| ==> r[b].insts == bs[p.header].insts && !r[b].addressTaken
    ensures forall b :: |bs| <= b < |r| - 1 ==> r[b].term == Br(b + 1)
    ensures r[|r| - 1].term == Close(bs[p.header].term, p)
  {
    var h, first := p.header, |bs|;
    bs[h := bs[h].(term := Br(first))] + BodyChain(bs[h].insts, first, p.count - 1, Close(bs[h].term, p))
  }

  /** The function after split, guard and body replication, as the source builds it. */
  function Unrolled(bs: seq<Block>, p: Plan): (r: seq<Block>)
    requires PlanFits(bs, p)
    ensures |r| == |bs| + 2 * p.count - 1
    ensures forall b :: 0 <= b < |bs| && b != p.preheader && b != p.header ==> r[b] == bs[b]
  {
    var s := Split(bs, p.preheader);
    var g := Guarded(s, p.preheader, p.header, p.count);
    Bodied(g, p)
  }

  /**
   * The layout of the unrolled function: the switch with cases
   * `1 .. count-1` defaulting to the body entry, the guard chain in which
   * case i runs i header clones, the body entry, the header branching to
   * the first body clone, the body chain and its closed last clone; every
   * other block is unchanged.
   */
  lemma UnrolledLayout(bs: seq<Block>, p: Plan)
    requires PlanFits(bs, p)
    ensures var r, n0, f, h := Unrolled(bs, p), |bs|, p.count, p.header;
      && |r| == n0 + 2 * f - 1
      && (forall b :: 0 <= b < n0 && b != p.preheader && b != h ==> r[b] == bs[b])
      && r[p.preheader] == Block(bs[p.preheader].insts + [GuardURem(f)], bs[p.preheader].addressTaken,
                                 Switch(f, n0, GuardCases(n0, f - 1)))
      && r[n0] == Block([], false, bs[p.preheader].term)
      && (forall b :: n0 < b < n0 + f ==> r[b] == Block(bs[h].insts, false, Br(b - 1)))
      && r[h] == bs[h].(term := Br(n0 + f))
      && (forall b :: n0 + f <= b < n0 + 2 * f - 1 ==>
            r[b] == Block(bs[h].insts, false,
                          if b + 1 < n0 + 2 * f - 1 then Br(b + 1) else Close(bs[h].term, p)))
  {
    var n0, f, h, pre := |bs|, p.count, p.header, p.preheader;
    var s := Split(bs, pre);
    assert |s| == n0 + 1 && s[h] == bs[h] && s[n0] == Block([], false, bs[pre].term);
    var g := Guarded(s, pre, h, f);
    assert |g| == n0 + f && g[h] == bs[h] && g[n0] == s[n0];
    assert forall b :: n0 < b < n0 + f ==> g[b] == Block(bs[h].insts, false, Br(b - 1));
  }

  /** Clones the header's test into the guard clone that enters the body: latch to `entry`, exit to the exit block. */
  function GuardExit(t: Terminator, p: Plan, entry: BlockId): (r: Terminator)
    requires t.CondBr? && p.latchIndex <= 1 && p.exitIndex == 1 - p.latchIndex
    ensures r.CondBr? && r.cond == t.cond
    ensures Successor(r, p.latchIndex) == entry && Successor(r, p.exitIndex) == p.exitBlock
  {
    SetSuccessor(SetSuccessor(t, p.latchIndex, entry), p.exitIndex, p.exitBlock)
  }

  /**
   * The corrected rewrite: as Unrolled, except that guard clone 1, the one
   * that enters the body, keeps the header's exit test, so a trip count
   * below the unroll count leaves through the guard.
   */
  function UnrolledFixed(bs: seq<Block>, p: Plan): (r: seq<Block>)
    requires PlanFits(bs, p)
    ensures |r| == |Unrolled(bs, p)|
    ensures forall b :: 0 <= b < |r| && b != |bs| + 1 ==> r[b] == Unrolled(bs, p)[b]
    ensures r[|bs| + 1].term == GuardExit(bs[p.header].term, p, |bs|)
    ensures r[|bs| + 1].insts == bs[p.header].insts
  {
    var u, n0, h := Unrolled(bs, p), |bs|, p.header;
    UnrolledLayout(bs, p);
    u[n0 + 1 := Block(bs[h].insts, false, GuardExit(bs[h].term, p, n0))]
  }

  /** `addBasicBlockToLoop(b)` on level `from` of the nest: that loop and every loop around it gain `b`. */
  function AddToLoops(nest: seq<set<BlockId>>, from: nat, b: BlockId): (r: seq<set<BlockId>>)
    ensures |r| == |nest|
    ensures forall k, x :: 0 <= k < |nest| ==> (x in r[k] <==> x in nest[k] || (from <= k && x == b))
  {
    seq(|nest|, k requires 0 <= k < |nest| => if k >= from then nest[k] + {b} else nest[k])
  }

  /** `SplitBlock` adds the new block to every loop of the nest that holds the split block. */
  function SplitNest(nest: seq<set<BlockId>>, p: BlockId, e: BlockId): (r: seq<set<BlockId>>)
    ensures |r| == |nest|
    ensures forall k, x :: 0 <= k < |nest| ==> (x in r[k] <==> x in nest[k] || (x == e && p in nest[k]))
  {
    seq(|nest|, k requires 0 <= k < |nest| => if p in nest[k] then nest[k] + {e} else nest[k])
  }

  /** The block ids `lo .. hi-1`. */
  function IdRange(lo: nat, hi: nat): (r: set<BlockId>)
    ensures forall b :: b in r <==> lo <= b < hi
    decreases hi - lo
  {
    if lo >= hi then {} else {lo} + IdRange(lo + 1, hi)
  }

  /** Guard clone ids `n0+1 .. n0+m`. */
  function GuardIds(n0: nat, m: nat): (r: set<BlockId>)
    ensures forall x :: x in r <==> n0 < x <= n0 + m
  {
    IdRange(n0 + 1, n0 + m + 1)
  }

  /** Body clone ids `first .. first+m-1`. */
  function BodyIds(first: nat, m: nat): (r: set<BlockId>)
    ensures forall x :: x in r <==> first <= x < first + m
  {
    IdRange(first, first + m)
  }

  /**
   * Loop membership after the rewrite. Level 0 of the nest is the unrolled
   * loop, level k+1 the loop around level k. The split-off body entry joins
   * the loops that hold the preheader, guard clones join the enclosing
   * loops only, body clones join the loop and every loop around it.
   */
  function NestAfter(nest: seq<set<BlockId>>, p: Plan, n0: nat): (r: seq<set<BlockId>>)
    requires p.count >= 1
    ensures |r| == |nest|
    ensures forall k, x :: 0 <= k < |nest| ==>
      (x in r[k] <==> || x in nest[k]
                      || (x == n0 && p.preheader in nest[k])
                      || (1 <= k && n0 < x < n0 + p.count)
                      || n0 + p.count <= x < n0 + 2 * p.count - 1)
  {
    var r := seq(|nest|, k requires 0 <= k < |nest| =>
      nest[k]
      + (if p.preheader in nest[k] then {n0} else {})
      + (if k >= 1 then GuardIds(n0, p.count - 1) else {})
      + BodyIds(n0 + p.count, p.count - 1));
    assert forall k :: 0 <= k < |nest| ==>
      r[k] == nest[k]
              + (if p.preheader in nest[k] then {n0} else {})
              + (if k >= 1 then GuardIds(n0, p.count - 1) else {})
              + BodyIds(n0 + p.count, p.count - 1);
    r
  }

  /** The guard loop's membership updates: each clone joins the loops around the unrolled one. */
  function GuardNest(nest: seq<set<BlockId>>, entry: nat, m: nat): (r: seq<set<BlockId>>)
    ensures |r| == |nest|
    ensures forall k, x :: 0 <= k < |nest| ==> (x in r[k] <==> x in nest[k] || (1 <= k && entry < x <= entry + m))
  {
    var r := seq(|nest|, k requires 0 <= k < |nest| => if k >= 1 then nest[k] + GuardIds(entry, m) else nest[k]);
    assert forall k :: 0 <= k < |nest| ==> r[k] == if k >= 1 then nest[k] + GuardIds(entry, m) else nest[k];
    r
  }

  /** The body loop's membership updates: each clone joins the unrolled loop and every loop around it. */
  function BodyNest(nest: seq<set<BlockId>>, first: nat, m: nat): (r: seq<set<BlockId>>)
    ensures |r| == |nest|
    ensures forall k, x :: 0 <= k < |nest| ==> (x in r[k] <==> x in nest[k] || first <= x < first + m)
  {
    var r := seq(|nest|, k requires 0 <= k < |nest| => nest[k] + BodyIds(first, m));
    assert forall k :: 0 <= k < |nest| ==> r[k] == nest[k] + BodyIds(first, m);
    r
  }

  /** The membership after the rewrite is what the split, the guard loop and the body loop add in turn. */
  lemma NestStages(nest: seq<set<BlockId>>, p: Plan, n0: nat)
    requires p.count >= 1
    ensures NestAfter(nest, p, n0)
         == BodyNest(GuardNest(SplitNest(nest, p.preheader, n0), n0, p.count - 1), n0 + p.count, p.count - 1)
  {
    var a := NestAfter(nest, p, n0);
    var s := SplitNest(nest, p.preheader, n0);
    var g := GuardNest(s, n0, p.count - 1);
    var b := BodyNest(g, n0 + p.count, p.count - 1);
    forall k | 0 <= k < |nest|
      ensures a[k] == b[k]
    {
      assert s[k] == nest[k] + (if p.preheader in nest[k] then {n0} else {});
    }
  }

  /** Every block id the nest mentions exists. */
  ghost predicate NestWithin(nest: seq<set<BlockId>>, n: nat)
  {
    forall k, b :: 0 <= k < |nest| && b in nest[k] ==> b < n
  }

  /**
   * Nested-loop membership: every body clone belongs to the unrolled loop
   * and to each loop around it; a guard clone belongs to each enclosing
   * loop but never to the unrolled loop; the old blocks keep their
   * membership.
   */
  lemma CloneMembership(nest: seq<set<BlockId>>, p: Plan, n0: nat)
    requires p.count >= 2 && |nest| >= 1 && NestWithin(nest, n0)
    ensures var r := NestAfter(nest, p, n0);
      && (forall k, b :: 0 <= k < |nest| && n0 + p.count <= b < n0 + 2 * p.count - 1 ==> b in r[k])
      && (forall b :: n0 < b < n0 + p.count ==> b !in r[0])
      && (forall k, b :: 1 <= k < |nest| && n0 < b < n0 + p.count ==> b in r[k])
      && (forall k, b :: 0 <= k < |nest| && b < n0 ==> (b in r[k] <==> b in nest[k]))
      && (forall k :: 0 <= k < |nest| ==> (n0 in r[k] <==> p.preheader in nest[k]))
  {
    var r := NestAfter(nest, p, n0);
    forall b | n0 < b < n0 + p.count
      ensures b !in r[0]
    {
      assert b !in nest[0];
      assert b !in BodyIds(n0 + p.count, p.count - 1);
    }
    forall k, b | 1 <= k < |nest| && n0 < b < n0 + p.count
      ensures b in r[k]
    {
      assert b in GuardIds(n0, p.count - 1);
    }
    forall k, b | 0 <= k < |nest| && n0 + p.count <= b < n0 + 2 * p.count - 1
      ensures b in r[k]
    {
      assert b in BodyIds(n0 + p.count, p.count - 1);
    }
    forall k, b | 0 <= k < |nest| && b < n0
      ensures b in r[k] <==> b in nest[k]
    {
      assert b !in GuardIds(n0, p.count - 1);
      assert b !in BodyIds(n0 + p.count, p.count - 1);
    }
    forall k | 0 <= k < |nest|
      ensures n0 in r[k] <==> p.preheader in nest[k]
    {
      assert n0 !in nest[k];
      assert n0 !in GuardIds(n0, p.count - 1);
      assert n0 !in BodyIds(n0 + p.count, p.count - 1);
    }
  }
}

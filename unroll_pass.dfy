/**
 * The pass itself, as the source runs it: the function under rewrite is an
 * object whose block list and loop membership are updated in place, stage
 * by stage, and each stage is proved to compute the corresponding function
 * of UnrollSpec.
 */
module UnrollPass {
  import opened Wrappers
  import opened IR
  import opened UnrollDecision
  import opened UnrollSpec

  /** The scan past the entry block's allocas. */
  method FirstNonAlloca(insts: seq<InstKind>) returns (k: nat)
    ensures k <= |insts|
    ensures forall i :: 0 <= i < k ==> insts[i] == Alloca
    ensures k < |insts| ==> insts[k] != Alloca
    ensures k == LeadingAllocas(insts)
  {
    k := 0;
    while k < |insts| && insts[k] == Alloca
      invariant k <= |insts|
      invariant forall i :: 0 <= i < k ==> insts[i] == Alloca
    {
      k := k + 1;
    }
  }

  /**
   * The phi worklist: every phi of the function, each pushed to the front,
   * so the list holds exactly the phis, in reverse program order.
   */
  method CollectPhis(bs: seq<Block>) returns (wl: seq<InstRef>)
    ensures forall r :: r in wl <==> IsPhiAt(bs, r)
    ensures forall i, j :: 0 <= i < j < |wl| ==> Before(wl[j], wl[i])
  {
    wl := [];
    var b := 0;
    while b < |bs|
      invariant 0 <= b <= |bs|
      invariant forall r :: r in wl <==> IsPhiAt(bs, r) && r.block < b
      invariant forall i, j :: 0 <= i < j < |wl| ==> Before(wl[j], wl[i])
    {
      var insts := bs[b].insts;
      var i := 0;
      while i < |insts|
        invariant 0 <= i <= |insts|
        invariant forall r :: r in wl <==> IsPhiAt(bs, r) && (r.block < b || (r.block == b && r.index < i))
        invariant forall i, j :: 0 <= i < j < |wl| ==> Before(wl[j], wl[i])
      {
        if insts[i] == Phi {
          wl := [InstRef(b, i)] + wl;
        }
        i := i + 1;
      }
      b := b + 1;
    }
  }

  /**
   * The function being rewritten: its blocks, and the loop nest the rewrite
   * keeps up to date. `nest[0]` is the blocks of the loop being unrolled,
   * `nest[k+1]` those of the loop around `nest[k]`.
   */
  class IRState {
    var blocks: seq<Block>
    var nest: seq<set<BlockId>>

    constructor(bs: seq<Block>, ns: seq<set<BlockId>>)
      ensures blocks == bs && nest == ns
    {
      blocks := bs;
      nest := ns;
    }

    /** The null bitcast `alloca point`, placed after the entry block's allocas. */
    method InsertAllocaPoint()
      requires |blocks| > 0
      modifies this
      ensures blocks == WithAllocaPoint(old(blocks)) && nest == old(nest)
    {
      var insts := blocks[0].insts;
      var k := FirstNonAlloca(insts);
      blocks := blocks[0 := blocks[0].(insts := insts[..k] + [AllocaPoint] + insts[k..])];
    }

    /** Demotes each phi of the worklist in turn; the worklist is exactly the phis. */
    method DemotePhis(wl: seq<InstRef>)
      requires forall r :: r in wl <==> IsPhiAt(blocks, r)
      modifies this
      ensures blocks == DemoteAll(old(blocks)) && nest == old(nest)
    {
      ghost var bs := blocks;
      var j := 0;
      while j < |wl|
        invariant 0 <= j <= |wl|
        invariant |blocks| == |bs|
        invariant forall b :: 0 <= b < |bs| ==>
          && blocks[b].term == bs[b].term && blocks[b].addressTaken == bs[b].addressTaken
          && |blocks[b].insts| == |bs[b].insts|
        invariant forall b, i :: 0 <= b < |bs| && 0 <= i < |bs[b].insts| ==>
          blocks[b].insts[i] == if InstRef(b, i) in wl[..j] then Reload else bs[b].insts[i]
        invariant nest == old(nest)
      {
        var r := wl[j];
        assert r in wl;
        var blk := blocks[r.block];
        blocks := blocks[r.block := blk.(insts := blk.insts[r.index := Reload])];
        assert wl[..j + 1] == wl[..j] + [r];
        j := j + 1;
      }
      assert wl[..j] == wl;
      forall b | 0 <= b < |bs|
        ensures blocks[b] == DemoteAll(bs)[b]
      {
        assert blocks[b].insts == DemoteInsts(bs[b].insts);
      }
    }

    /** The reg2mem step: the alloca point, the phi worklist, the demotion of every phi. */
    method Reg2Mem()
      requires |blocks| > 0
      modifies this
      ensures blocks == Flattened(old(blocks)) && nest == old(nest)
    {
      InsertAllocaPoint();
      var wl := CollectPhis(blocks);
      DemotePhis(wl);
    }

    /** `SplitBlock` at the preheader's terminator; the new block joins every loop holding the preheader. */
    method SplitPreheader(p: BlockId)
      requires p < |blocks|
      modifies this
      ensures blocks == Split(old(blocks), p)
      ensures nest == SplitNest(old(nest), p, |old(blocks)|)
    {
      var e := |blocks|;
      var t := blocks[p].term;
      blocks := blocks + [Block([], false, t)];
      blocks := blocks[p := blocks[p].(term := Br(e))];
      nest := SplitNest(nest, p, e);
    }

    /**
     * The remainder guard: the preheader (`p`) switches on `Upper urem
     * count`, default to the body entry (the last block), and for each case
     * i a clone of the header is appended, its branch replaced by one to
     * the previous clone, and the case added.
     */
    method BuildGuard(p: BlockId, h: BlockId, count: nat)
      requires p < |blocks| && h < |blocks| && p != h && count >= 1
      modifies this
      ensures blocks == Guarded(old(blocks), p, h, count)
      ensures nest == GuardNest(old(nest), |old(blocks)| - 1, count - 1)
    {
      ghost var bs, ns := blocks, nest;
      var n, entry := |blocks|, |blocks| - 1;
      var pre, insts := blocks[p], blocks[h].insts;
      blocks := blocks[p := Block(pre.insts + [GuardURem(count)], pre.addressTaken, Switch(count, entry, []))];
      var next := entry;
      var i := 1;
      GuardStart(bs, ns, p, count, entry);
      while i < count
        invariant 1 <= i <= count
        invariant blocks == bs[p := GuardSwitch(pre, count, entry, i - 1)] + GuardChain(insts, entry, i - 1)
        invariant next == entry + i - 1
        invariant nest == GuardNest(ns, entry, i - 1)
      {
        var newBB := CloneBlock(blocks[h]);
        newBB := newBB.(term := Br(next));
        blocks := blocks + [newBB];
        next := |blocks| - 1;
        nest := AddToLoops(nest, 1, next);
        var sw := blocks[p].term;
        blocks := blocks[p := blocks[p].(term := sw.(cases := sw.cases + [SwitchCase(i, next)]))];
        GuardStep(bs, ns, p, pre, insts, count, entry, i - 1);
        i := i + 1;
      }
    }

    /**
     * The body replication: `count - 1` times the last block of the chain
     * (first the header) is cloned, appended, added to the loop, and made
     * to branch to its clone; the last clone's branch then leaves through
     * the exit successor and loops back to the header through the latch
     * successor.
     */
    method UnrollBody(p: Plan)
      requires p.header < |blocks| && blocks[p.header].term.CondBr?
      requires p.latchIndex <= 1 && p.exitIndex == 1 - p.latchIndex && p.count >= 2
      modifies this
      ensures blocks == Bodied(old(blocks), p)
      ensures nest == BodyNest(old(nest), |old(blocks)|, p.count - 1)
    {
      ghost var bs, ns := blocks, nest;
      var h, n := p.header, |blocks|;
      var hb := blocks[h];
      var prev := h;
      var i := 1;
      assert BodyIds(n, 0) == {};
      assert forall k :: 0 <= k < |nest| ==> nest[k] == BodyNest(ns, n, 0)[k];
      while i < p.count
        invariant 1 <= i <= p.count
        invariant |blocks| == n + i - 1
        invariant prev == if i == 1 then h else n + i - 2
        invariant i == 1 ==> blocks == bs
        invariant i > 1 ==> blocks == bs[h := hb.(term := Br(n))] + BodyChain(hb.insts, n, i - 1, hb.term)
        invariant nest == BodyNest(ns, n, i - 1)
      {
        var newBB := CloneBlock(blocks[prev]);
        blocks := blocks + [newBB];
        var id := |blocks| - 1;
        nest := AddToLoops(nest, 0, id);
        blocks := blocks[prev := blocks[prev].(term := Br(id))];
        assert blocks == bs[h := hb.(term := Br(n))] + BodyChain(hb.insts, n, i, hb.term);
        assert BodyIds(n, i) == BodyIds(n, i - 1) + {id};
        assert forall k :: 0 <= k < |nest| ==> nest[k] == BodyNest(ns, n, i)[k];
        prev := id;
        i := i + 1;
      }
      var t := blocks[prev].term;
      blocks := blocks[prev := blocks[prev].(term := SetSuccessor(SetSuccessor(t, p.latchIndex, h), p.exitIndex, p.exitBlock))];
      assert blocks == Bodied(bs, p);
    }

    /**
     * The rewrite of an accepted loop, stage by stage: reg2mem, the split of
     * the preheader, the remainder guard and the body replication.
     */
    method Rewrite(p: Plan)
      requires |blocks| > 0 && PlanFits(Flattened(blocks), p)
      modifies this
      ensures blocks == Unrolled(Flattened(old(blocks)), p)
      ensures nest == NestAfter(old(nest), p, |old(blocks)|)
    {
      ghost var ns := nest;
      Reg2Mem();
      ghost var flat := blocks;
      var n0 := |blocks|;
      SplitPreheader(p.preheader);
      ghost var split := blocks;
      BuildGuard(p.preheader, p.header, p.count);
      assert blocks == Guarded(split, p.preheader, p.header, p.count);
      UnrollBody(p);
      NestStages(ns, p, n0);
    }

    /**
     * The repair of the guard: guard clone 1, the clone that enters the
     * body, takes a copy of the exit test (found on the last body clone)
     * instead of its unconditional branch, latch successor to the body
     * entry `n0`, exit successor to the exit block.
     */
    method KeepGuardExit(p: Plan, n0: nat)
      requires p.count >= 2 && |blocks| == n0 + 2 * p.count - 1
      requires blocks[n0 + 2 * p.count - 2].term.CondBr?
      requires p.latchIndex <= 1 && p.exitIndex == 1 - p.latchIndex
      modifies this
      ensures blocks == old(blocks)[n0 + 1 := old(blocks)[n0 + 1].(term := GuardExit(old(blocks)[n0 + 2 * p.count - 2].term, p, n0))]
      ensures nest == old(nest)
    {
      var test := blocks[n0 + 2 * p.count - 2].term;
      blocks := blocks[n0 + 1 := blocks[n0 + 1].(term := GuardExit(test, p, n0))];
    }
  }

  /** Before the first guard clone: no case, no clone, no new member. */
  lemma GuardStart(bs: seq<Block>, ns: seq<set<BlockId>>, p: BlockId, count: nat, entry: BlockId)
    requires p < |bs|
    ensures var pre := bs[p];
      bs[p := Block(pre.insts + [GuardURem(count)], pre.addressTaken, Switch(count, entry, []))]
      == bs[p := GuardSwitch(pre, count, entry, 0)] + GuardChain(bs[p].insts, entry, 0)
    ensures ns == GuardNest(ns, entry, 0)
  {
    assert GuardCases(entry, 0) == [];
    assert GuardIds(entry, 0) == {};
    assert forall k :: 0 <= k < |ns| ==> ns[k] == GuardNest(ns, entry, 0)[k];
  }

  /** One more guard clone: the chain, the switch's cases and the enclosing loops each grow by one. */
  lemma GuardStep(bs: seq<Block>, ns: seq<set<BlockId>>, p: BlockId, pre: Block, insts: seq<InstKind>,
                  count: nat, entry: BlockId, j: nat)
    requires p < |bs| && entry + 1 == |bs|
    ensures var before := bs[p := GuardSwitch(pre, count, entry, j)] + GuardChain(insts, entry, j);
      var id := entry + j + 1;
      var grown := before + [Block(insts, false, Br(entry + j))];
      var sw := grown[p].term;
      && |before| == id
      && grown[p := grown[p].(term := sw.(cases := sw.cases + [SwitchCase(j + 1, id)]))]
         == bs[p := GuardSwitch(pre, count, entry, j + 1)] + GuardChain(insts, entry, j + 1)
      && AddToLoops(GuardNest(ns, entry, j), 1, id) == GuardNest(ns, entry, j + 1)
  {
    var id := entry + j + 1;
    assert GuardCases(entry, j) + [SwitchCase(j + 1, id)] == GuardCases(entry, j + 1);
    assert GuardChain(insts, entry, j) + [Block(insts, false, Br(entry + j))] == GuardChain(insts, entry, j + 1);
    assert GuardIds(entry, j + 1) == GuardIds(entry, j) + {id};
    assert forall k :: 0 <= k < |ns| ==> AddToLoops(GuardNest(ns, entry, j), 1, id)[k] == GuardNest(ns, entry, j + 1)[k];

  }

  /** The pass object: its configuration and the count of loops it has unrolled. */
  class LoopUnrollAggressive {
    const cfg: Config
    var numUnrolled: nat

    /** The constructor, with the threshold and count arguments and the option values. */
    constructor(t: i32, c: i32, opts: Options)
      ensures cfg == MakeConfig(t, c, opts) && numUnrolled == 0
    {
      cfg := MakeConfig(t, c, opts);
      numUnrolled := 0;
    }

    /**
     * `runOnLoop`: either the loop is rejected and nothing changes, or it
     * is accepted and the function is flattened, split, guarded and
     * unrolled by the plan's factor. The caller supplies what the loop
     * analysis guarantees: the loop's blocks are `nest[0]`, the header is
     * one of them and the preheader is not.
     */
    method RunOnLoop(ir: IRState, loop: LoopView, m: Metrics, optForSize: bool) returns (changed: bool)
      requires |ir.blocks| > 0 && LoopFits(ir.blocks, loop)
      requires |ir.nest| >= 1 && NestWithin(ir.nest, |ir.blocks|)
      requires loop.header in ir.nest[0]
      requires loop.preheader.Some? ==> loop.preheader.value !in ir.nest[0]
      modifies ir, this
      ensures var d := Decide(cfg, old(ir.blocks), loop, old(ir.nest[0]), m, optForSize);
        && (changed <==> d.Accept?)
        && (!changed ==> ir.blocks == old(ir.blocks) && ir.nest == old(ir.nest))
        && (changed ==> PlanFits(Flattened(old(ir.blocks)), d.plan)
                        && ir.blocks == Unrolled(Flattened(old(ir.blocks)), d.plan)
                        && ir.nest == NestAfter(old(ir.nest), d.plan, |old(ir.blocks)|))
      ensures numUnrolled == old(numUnrolled) + (if changed then 1 else 0)
    {
      var d := Decide(cfg, ir.blocks, loop, ir.nest[0], m, optForSize);
      if d.Reject? {
        return false;
      }
      var p := d.plan;
      AcceptedPlanFits(cfg, ir.blocks, loop, ir.nest[0], m, optForSize);
      ir.Rewrite(p);
      numUnrolled := numUnrolled + 1;
      changed := true;
    }

    /**
     * `runOnLoop` followed by the repair of the guard: the function ends
     * as the corrected rewrite of its flattened form.
     */
    method RunOnLoopCorrected(ir: IRState, loop: LoopView, m: Metrics, optForSize: bool) returns (changed: bool)
      requires |ir.blocks| > 0 && LoopFits(ir.blocks, loop)
      requires |ir.nest| >= 1 && NestWithin(ir.nest, |ir.blocks|)
      requires loop.header in ir.nest[0]
      requires loop.preheader.Some? ==> loop.preheader.value !in ir.nest[0]
      modifies ir, this
      ensures var d := Decide(cfg, old(ir.blocks), loop, old(ir.nest[0]), m, optForSize);
        && (changed <==> d.Accept?)
        && (!changed ==> ir.blocks == old(ir.blocks) && ir.nest == old(ir.nest))
        && (changed ==> PlanFits(Flattened(old(ir.blocks)), d.plan)
                        && ir.blocks == UnrolledFixed(Flattened(old(ir.blocks)), d.plan)
                        && ir.nest == NestAfter(old(ir.nest), d.plan, |old(ir.blocks)|))
      ensures numUnrolled == old(numUnrolled) + (if changed then 1 else 0)
    {
      var d := Decide(cfg, ir.blocks, loop, ir.nest[0], m, optForSize);
      var n0 := |ir.blocks|;
      ghost var flat := Flattened(ir.blocks);
      changed := RunOnLoop(ir, loop, m, optForSize);
      if changed {
        KeepGuardExitCorrects(flat, d.plan);
        ir.KeepGuardExit(d.plan, n0);
      }
    }
  }

  /** Repairing the source's rewrite in place gives the corrected rewrite. */
  lemma KeepGuardExitCorrects(bs: seq<Block>, p: Plan)
    requires PlanFits(bs, p)
    ensures var r, n0 := Unrolled(bs, p), |bs|;
      |r| == n0 + 2 * p.count - 1 && r[n0 + 2 * p.count - 2].term.CondBr?
      && r[n0 + 1 := r[n0 + 1].(term := GuardExit(r[n0 + 2 * p.count - 2].term, p, n0))] == UnrolledFixed(bs, p)
  {
    UnrolledLayout(bs, p);
    var r, n0, h := Unrolled(bs, p), |bs|, p.header;
    assert r[n0 + 2 * p.count - 2].term == Close(bs[h].term, p);
    assert GuardExit(Close(bs[h].term, p), p, n0) == GuardExit(bs[h].term, p, n0);
  }

  /**
   * An accepted plan fits the function it was made for, and still fits it
   * after flattening, when the preheader lies outside the loop and the
   * header inside it.
   */
  lemma AcceptedPlanFits(cfg: Config, bs: seq<Block>, loop: LoopView, members: set<BlockId>,
                         m: Metrics, optForSize: bool)
    requires |bs| > 0 && LoopFits(bs, loop)
    requires loop.header in members
    requires loop.preheader.Some? ==> loop.preheader.value !in members
    requires Decide(cfg, bs, loop, members, m, optForSize).Accept?
    ensures PlanFits(bs, Decide(cfg, bs, loop, members, m, optForSize).plan)
    ensures PlanFits(Flattened(bs), Decide(cfg, bs, loop, members, m, optForSize).plan)
  {
    DecideAcceptIff(cfg, bs, loop, members, m, optForSize);
    UnrollCountPolicy(EffectiveThreshold(cfg, optForSize), m);
  }
}

/** The congestion cost and the minimum price along a chain of verified blocks. */
module CostAndPrice {
  import opened Types
  import opened Chain

  /** Every block from `root` on to `id` names the cost and price its context asks for, and time
      does not run backwards. */
  ghost predicate Priced(g: Genesis, root: BlockID, id: BlockID)
    decreases id
  {
    && root.BlockHash? && id.BlockHash?
    && 0 <= id.blk.tmstmp < TWO63
    && (id == root || (
      && Priced(g, root, id.blk.prnt)
      && id.blk.prnt.blk.tmstmp <= id.blk.tmstmp
      && id.blk.cost == ExecutionContext(g, id.blk.tmstmp, id.blk.prnt).nextCost
      && id.blk.price == ExecutionContext(g, id.blk.tmstmp, id.blk.prnt).nextPrice))
  }

  /** How many blocks `id` is past `root`. */
  ghost function Depth(g: Genesis, root: BlockID, id: BlockID): nat
    requires Priced(g, root, id)
    decreases id
  {
    if id == root then 0 else 1 + Depth(g, root, id.blk.prnt)
  }

  /** `a` is on the chain from `root` to `id`, both included. */
  ghost predicate OnPath(g: Genesis, root: BlockID, id: BlockID, a: BlockID)
    requires Priced(g, root, id)
    decreases id
  {
    a == id || (id != root && OnPath(g, root, id.blk.prnt, a))
  }

  lemma {:induction false} PathIsPriced(g: Genesis, root: BlockID, id: BlockID, a: BlockID)
    requires Priced(g, root, id) && OnPath(g, root, id, a)
    ensures Priced(g, root, a)
    decreases id
  {
    if a != id {
      PathIsPriced(g, root, id.blk.prnt, a);
    }
  }

  /** How far the blocks after `a` up to `id` came faster than the target rate, in seconds. */
  ghost function Excess(g: Genesis, root: BlockID, id: BlockID, a: BlockID): int
    requires Priced(g, root, id) && OnPath(g, root, id, a)
  {
    PathIsPriced(g, root, id, a);
    (Depth(g, root, id) - Depth(g, root, a)) * g.targetBlockRate - (id.blk.tmstmp - a.blk.tmstmp)
  }

  lemma MulStep(n: int, r: int)
    ensures (n + 1) * r == n * r + r
  {
  }

  function Positive(x: int): int {
    if x > 0 then x else 0
  }

  lemma CostStep(g: Genesis, root: BlockID, id: BlockID)
    requires g.blockCostEnabled && Priced(g, root, id) && id != root && Priced(g, root, id.blk.prnt)
    requires Fits(id.blk.prnt.blk.cost + g.targetBlockRate)
    ensures id.blk.cost == Positive(id.blk.prnt.blk.cost + g.targetBlockRate - (id.blk.tmstmp - id.blk.prnt.blk.tmstmp))
  {
  }

  lemma ExcessStep(g: Genesis, root: BlockID, id: BlockID, a: BlockID)
    requires Priced(g, root, id) && id != root && OnPath(g, root, id.blk.prnt, a)
    ensures OnPath(g, root, id, a)
    ensures Excess(g, root, id, a)
      == Excess(g, root, id.blk.prnt, a) + g.targetBlockRate - (id.blk.tmstmp - id.blk.prnt.blk.tmstmp)
  {
    PathIsPriced(g, root, id.blk.prnt, a);
    MulStep(Depth(g, root, id.blk.prnt) - Depth(g, root, a), g.targetBlockRate);
  }

  lemma ExcessOfItself(g: Genesis, root: BlockID, id: BlockID)
    requires Priced(g, root, id)
    ensures OnPath(g, root, id, id) && Excess(g, root, id, id) == 0
  {
  }

  ghost predicate IsWorst(g: Genesis, root: BlockID, id: BlockID, a: BlockID)
    requires Priced(g, root, id)
  {
    OnPath(g, root, id, a) && id.blk.cost == Excess(g, root, id, a)
  }

  /** With block cost enabled and a free root, the cost of a block is the largest excess over any
      stretch of the chain that ends in it: every burst is charged in full, and nothing else. */
  lemma {:induction false} CostIsWorstBurst(g: Genesis, root: BlockID, id: BlockID)
    requires g.blockCostEnabled && Priced(g, root, id) && root.blk.cost == MIN_BLOCK_COST
    requires Fits(Depth(g, root, id) * g.targetBlockRate)
    ensures id.blk.cost <= Depth(g, root, id) * g.targetBlockRate
    ensures forall a :: OnPath(g, root, id, a) ==> id.blk.cost >= Excess(g, root, id, a)
    ensures exists a :: IsWorst(g, root, id, a)
    decreases id
  {
    hide Excess, ExecutionContext;
    ExcessOfItself(g, root, id);
    if id == root {
      assert IsWorst(g, root, id, id);
    } else {
      var p := id.blk.prnt;
      MulStep(Depth(g, root, p), g.targetBlockRate);
      CostIsWorstBurst(g, root, p);
      CostStep(g, root, id);
      forall a | OnPath(g, root, id, a)
        ensures id.blk.cost >= Excess(g, root, id, a)
      {
        if a != id {
          ExcessStep(g, root, id, a);
        }
      }
      var worst :| IsWorst(g, root, p, worst);
      ExcessStep(g, root, id, worst);
      assert IsWorst(g, root, id, worst) || IsWorst(g, root, id, id);
    }
  }

  /** The price never falls below the minimum and rises by at most one a block. */
  lemma {:induction false} PriceBounds(g: Genesis, root: BlockID, id: BlockID)
    requires Priced(g, root, id) && root.blk.price == g.minPrice
    requires Fits(g.minPrice + Depth(g, root, id))
    ensures g.minPrice <= id.blk.price <= g.minPrice + Depth(g, root, id)
    decreases id
  {
    if id != root {
      PriceBounds(g, root, id.blk.prnt);
    }
  }
}

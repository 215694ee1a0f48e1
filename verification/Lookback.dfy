/** Which blocks the lookback walk takes in, and the price they lead to (helpers.go, chain_vm.go, vm.go). */
module Lookback {
  import opened Types
  import opened Store
  import opened Chain
  import opened Replay
  import opened CostAndPrice
  import opened Fees

  // ---------- Which blocks ----------

  /** On the chain of `start`, from k up to `start` itself. */
  predicate Between(k: BlockID, x: BlockID, start: BlockID) {
    (x == start || Ancestor(x, start)) && (k == x || Ancestor(k, x))
  }

  /** The parent counts however old it is, any other block for the given number of seconds. */
  predicate Counts(seconds: int, cur: int, last: BlockID, x: BlockID) {
    x.BlockHash? && (x == last || cur - x.blk.tmstmp <= seconds)
  }

  /** Every block from `start` down to k counts, and none above k has height 0. */
  ghost predicate Reached(seconds: int, cur: int, last: BlockID, k: BlockID, start: BlockID) {
    && (k == start || Ancestor(k, start))
    && forall x :: Between(k, x, start) ==> Counts(seconds, cur, last, x) && (x != k ==> x.blk.hght != 0)
  }

  lemma {:induction false} WindowIsReached(g: Genesis, cur: int, last: BlockID, k: BlockID, start: BlockID)
    requires k in Window(g, cur, start, last)
    ensures Reached(g.lookbackWindow, cur, last, k, start)
    decreases start
  {
    if k == start {
      forall x | Between(k, x, start)
        ensures x == k
      {
        if x != start {
          AncestorSmaller(x, start);
          AncestorSmaller(k, x);
        }
      }
    } else {
      var p := start.blk.prnt;
      WindowIsReached(g, cur, last, k, p);
      WindowIsAncestral(g, cur, p, last, k);
      AncestorTransitive(k, p, start);
      forall x | Between(k, x, start) && x != start
        ensures Between(k, x, p)
      {
      }
    }
  }

  lemma {:induction false} ReachedIsWindow(g: Genesis, cur: int, last: BlockID, k: BlockID, start: BlockID)
    requires Reached(g.lookbackWindow, cur, last, k, start)
    ensures k in Window(g, cur, start, last)
    decreases start
  {
    assert Between(k, start, start);
    assert Counts(g.lookbackWindow, cur, last, start);
    if k != start {
      var p := start.blk.prnt;
      assert k == p || Ancestor(k, p);
      forall x | Between(k, x, p)
        ensures Between(k, x, start)
      {
        AncestorTransitive(x, p, start);
      }
      ReachedIsWindow(g, cur, last, k, p);
    }
  }

  /** A block ID is recent exactly if it is the parent, or an ancestor of it such that neither it nor any
      block between them is older than the window, and the walk has not ended before at height 0. */
  lemma RecentExact(g: Genesis, cur: int, last: BlockID, id: BlockID)
    requires last.BlockHash?
    ensures id in ExecutionContext(g, cur, last).recentBlockIDs <==> Reached(g.lookbackWindow, cur, last, id, last)
  {
    var w := Window(g, cur, last, last);
    assert id in IDsOf(w) <==> id in w;
    if id in w {
      WindowIsReached(g, cur, last, id, last);
    }
    if Reached(g.lookbackWindow, cur, last, id, last) {
      ReachedIsWindow(g, cur, last, id, last);
    }
  }

  lemma {:induction false} TxsOfBlocks(ids: seq<BlockID>, tid: TxID)
    ensures tid in TxIDsOf(ids) <==> exists id :: id in ids && id.BlockHash? && tid in TxIDsIn(id.blk.txs)
  {
    if |ids| > 0 {
      var rest, last := ids[..|ids| - 1], ids[|ids| - 1];
      TxsOfBlocks(rest, tid);
      assert ids == rest + [last];
    }
  }

  /** And a transaction ID is recent exactly if a recent block has the transaction. */
  lemma RecentTxsExact(g: Genesis, cur: int, last: BlockID, tid: TxID)
    requires last.BlockHash?
    ensures var c := ExecutionContext(g, cur, last);
      tid in c.recentTxIDs <==> exists id :: id in c.recentBlockIDs && id.BlockHash? && tid in TxIDsIn(id.blk.txs)
  {
    var w := Window(g, cur, last, last);
    TxsOfBlocks(w, tid);
    assert forall id :: id in IDsOf(w) <==> id in w;
    hide Window;
  }

  // ---------- The load of the window ----------

  function LoadOfBlock(g: Genesis, id: BlockID): nat {
    if id.BlockHash? then TotalLoad(g, id.blk.txs) else 0
  }

  function LoadOfBlocks(g: Genesis, ids: seq<BlockID>): nat {
    if |ids| == 0 then 0 else LoadOfBlocks(g, ids[..|ids| - 1]) + LoadOfBlock(g, ids[|ids| - 1])
  }

  lemma {:induction false} WrapsAlike(g: Genesis, txs: seq<Tx>)
    ensures LoadOf(g, txs) == W(TotalLoad(g, txs))
  {
    hide LoadUnits;
    if |txs| > 0 {
      WrapsAlike(g, txs[..|txs| - 1]);
      WrapSum(TotalLoad(g, txs[..|txs| - 1]), LoadUnits(g, txs[|txs| - 1].action));
    }
  }

  lemma WrapSum(a: nat, b: nat)
    ensures W(W(a) + b) == W(a + b) == W(W(a) + W(b))
  {
  }

  lemma {:induction false} UnitsAreLoad(g: Genesis, ids: seq<BlockID>)
    ensures UnitsOf(g, ids) == W(LoadOfBlocks(g, ids))
  {
    hide TotalLoad, LoadOf, W;
    if |ids| == 0 {
      assert W(0) == 0;
    } else {
      var rest, last := ids[..|ids| - 1], ids[|ids| - 1];
      UnitsAreLoad(g, rest);
      WrapSum(LoadOfBlocks(g, rest), LoadOfBlock(g, last));
      if last.BlockHash? {
        WrapsAlike(g, last.blk.txs);
      } else {
        WrapSum(LoadOfBlocks(g, rest), 0);
      }
    }
  }

  /** No block is counted twice. */
  lemma {:induction false} WindowCountsOnce(g: Genesis, cur: int, start: BlockID, last: BlockID, i: nat, k: nat)
    requires i < k < |Window(g, cur, start, last)|
    ensures Window(g, cur, start, last)[i] != Window(g, cur, start, last)[k]
    decreases start
  {
    var p := start.blk.prnt;
    var w := Window(g, cur, p, last);
    assert Window(g, cur, start, last) == [start] + w;
    if i == 0 {
      assert w[k - 1] in w;
      WindowIsAncestral(g, cur, p, last, w[k - 1]);
      AncestorTransitive(w[k - 1], p, start);
      AncestorSmaller(w[k - 1], start);
    } else {
      WindowCountsOnce(g, cur, p, last, i - 1, k - 1);
    }
  }

  /** What the recent blocks have executed. */
  function RecentLoad(g: Genesis, cur: int, last: BlockID): nat {
    LoadOfBlocks(g, Window(g, cur, last, last))
  }

  // ---------- The price ----------

  /** The load per second the network aims at, over the whole window. */
  function Target(g: Genesis): int {
    g.targetBlockSize / g.targetBlockRate * g.lookbackWindow
  }

  lemma TargetIsExact(g: Genesis)
    requires Fits(Target(g))
    ensures TargetRangeUnits(g) == Target(g)
  {
    assert W(g.targetBlockRate) == g.targetBlockRate && W(g.lookbackWindow) == g.lookbackWindow;
  }

  /** The price of a verified block is its parent's and one more if the recent blocks have executed more
      than the target of the window, the same if they have met it, and lower by one for every window begun
      since the parent otherwise, but not below the minimum. */
  lemma PriceOfBlock(g: Genesis, root: BlockID, id: BlockID)
    requires Priced(g, root, id) && id != root && id.blk.prnt.BlockHash?
    requires Fits(Target(g)) && Fits(RecentLoad(g, id.blk.tmstmp, id.blk.prnt))
    requires g.minPrice <= id.blk.prnt.blk.price && Fits(id.blk.prnt.blk.price + 1)
    ensures var p, price, load := id.blk.prnt.blk, id.blk.price, RecentLoad(g, id.blk.tmstmp, id.blk.prnt);
      var windows := (id.blk.tmstmp - p.tmstmp) / g.lookbackWindow + 1;
      && (load > Target(g) ==> price == p.price + 1)
      && (load == Target(g) ==> price == p.price)
      && (load < Target(g) ==> price == if p.price - windows > g.minPrice then p.price - windows else g.minPrice)
  {
    hide TotalLoad, LoadOf, W, NextPrice, NextCost, TargetRangeUnits, Target;
    var p := id.blk.prnt;
    var w := Window(g, id.blk.tmstmp, p, p);
    UnitsAreLoad(g, w);
    TargetIsExact(g);
    assert W(LoadOfBlocks(g, w)) == LoadOfBlocks(g, w);
    PriceFollowsLoad(g, p.blk, UnitsOf(g, w), id.blk.tmstmp);
  }

  /** Without a congestion cost every block costs what its parent does. */
  lemma CostWithout(g: Genesis, root: BlockID, id: BlockID)
    requires Priced(g, root, id) && id != root && id.blk.prnt.BlockHash? && !g.blockCostEnabled
    ensures id.blk.cost == id.blk.prnt.blk.cost
  {
  }
}

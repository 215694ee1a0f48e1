/** What the limits of a block limit: its load and its surplus, added up without wrapping around
    (block.go). */
module Limits {
  import opened Types
  import opened Keys
  import opened Store
  import opened Chain
  import opened Blocks

  // ---------- The load ----------

  lemma {:induction false} LoadIsTotal(g: Genesis, txs: seq<Tx>)
    requires Fits(TotalLoad(g, txs))
    ensures LoadOf(g, txs) == TotalLoad(g, txs)
  {
    hide LoadUnits;
    if |txs| > 0 {
      LoadIsTotal(g, txs[..|txs| - 1]);
    }
  }

  /** The check at every prefix limits the whole load, and nothing else. */
  lemma {:induction false} SizeExact(g: Genesis, txs: seq<Tx>)
    requires Fits(TotalLoad(g, txs))
    ensures SizeOk(g, txs) <==> TotalLoad(g, txs) <= g.maxBlockSize
  {
    hide LoadUnits;
    if |txs| > 0 {
      SizeExact(g, txs[..|txs| - 1]);
      LoadIsTotal(g, txs);
    }
  }

  /** If no single transaction can wrap the counter around, the counter is never fooled: whatever passes
      the check is within the limit, however many transactions there are. */
  lemma {:induction false} SizeNeverFooled(g: Genesis, txs: seq<Tx>)
    requires forall t :: t in txs ==> LoadUnits(g, t.action) + g.maxBlockSize < TWO64
    ensures SizeOk(g, txs) <==> TotalLoad(g, txs) <= g.maxBlockSize
  {
    hide LoadUnits;
    if |txs| > 0 {
      var rest, last := txs[..|txs| - 1], txs[|txs| - 1];
      assert last in txs && forall t :: t in rest ==> t in txs;
      SizeNeverFooled(g, rest);
      if SizeOk(g, rest) {
        LoadIsTotal(g, txs);
      }
    }
  }

  // ---------- The surplus ----------

  /** What the transactions pay above the block's price. */
  function SurplusSum(g: Genesis, b: Block, txs: seq<Tx>): int {
    if |txs| == 0 then 0
    else
      var last := txs[|txs| - 1];
      SurplusSum(g, b, txs[..|txs| - 1]) + Product(last.price - b.price, FeeUnits(g, last.action))
  }

  function Product(a: int, b: int): int {
    a * b
  }

  lemma ProductOfNats(a: nat, b: nat)
    ensures Product(a, b) >= 0
  {
  }

  predicate AllPay(b: Block, txs: seq<Tx>) {
    forall t :: t in txs ==> t.price >= b.price
  }

  lemma {:induction false} SurplusExact(g: Genesis, b: Block, txs: seq<Tx>)
    requires AllPay(b, txs) && Fits(SurplusSum(g, b, txs))
    ensures Surplus(g, b, txs) == SurplusSum(g, b, txs)
  {
    hide FeeUnits, Product;
    if |txs| > 0 {
      var rest, last := txs[..|txs| - 1], txs[|txs| - 1];
      assert last in txs && forall t :: t in rest ==> t in txs;
      SurplusNonNegative(g, b, rest);
      ProductOfNats(last.price - b.price, FeeUnits(g, last.action));
      SurplusExact(g, b, rest);
      SurplusOfOne(g, b, last);
    }
  }

  lemma {:induction false} SurplusNonNegative(g: Genesis, b: Block, txs: seq<Tx>)
    requires AllPay(b, txs)
    ensures SurplusSum(g, b, txs) >= 0
  {
    hide FeeUnits, Product;
    if |txs| > 0 {
      var rest, last := txs[..|txs| - 1], txs[|txs| - 1];
      assert last in txs && forall t :: t in rest ==> t in txs;
      SurplusNonNegative(g, b, rest);
      ProductOfNats(last.price - b.price, FeeUnits(g, last.action));
    }
  }

  lemma SurplusOfOne(g: Genesis, b: Block, tx: Tx)
    requires tx.price >= b.price && Fits(Product(tx.price - b.price, FeeUnits(g, tx.action)))
    ensures TxSurplus(g, b, tx) == Product(tx.price - b.price, FeeUnits(g, tx.action))
  {
    hide FeeUnits;
  }

  // ---------- The verdict on a block ----------

  lemma {:induction false} ExecutedPay(h: Hashes, g: Genesis, m: Db, b: Block, bid: BlockID, c: Context, txs: seq<Tx>)
    requires ExecTxs(h, g, m, b, bid, c, txs).Ok? && b.price == c.nextPrice
    ensures AllPay(b, txs)
  {
    hide ExecAction, ApplyReward, Fee, RewardAmount, ExecuteBase;
    if |txs| > 0 {
      ExecutedPay(h, g, m, b, bid, c, txs[..|txs| - 1]);
      forall t | t in txs
        ensures t.price >= b.price
      {
        assert t in txs[..|txs| - 1] || t == txs[|txs| - 1];
      }
    }
  }

  /** A block is accepted exactly if it is not empty, its load is within the limit, it is not before its
      parent, it names the cost and price that are due, its transactions succeed in turn, and what they
      pay above its price covers its price times its cost. */
  lemma BlockExact(h: Hashes, g: Genesis, m: Db, b: Block, boot: bool)
    requires b.prnt.BlockHash? && Fits(TotalLoad(g, b.txs)) && Fits(b.price * b.cost)
    requires AllPay(b, b.txs) ==> Fits(SurplusSum(g, b, b.txs))
    ensures var c := ExecutionContext(g, b.tmstmp, b.prnt);
      ExecBlock(h, g, m, b, boot).Ok? <==>
        && b.txs != [] && TotalLoad(g, b.txs) <= g.maxBlockSize
        && b.prnt.blk.tmstmp <= b.tmstmp && b.cost == c.nextCost && b.price == c.nextPrice
        && ExecTxs(h, g, Expire(m, W(b.tmstmp), boot), b, BlockHash(b), c, b.txs).Ok?
        && SurplusSum(g, b, b.txs) >= b.price * b.cost
  {
    hide ExecTxs, Surplus, SurplusSum, SizeOk, Recorded, Expire, ExecutionContext, TotalLoad;
    SizeExact(g, b.txs);
    var c := ExecutionContext(g, b.tmstmp, b.prnt);
    assert W(b.price * b.cost) == b.price * b.cost;
    if PreVerify(g, b).None? && ExecTxs(h, g, Expire(m, W(b.tmstmp), boot), b, BlockHash(b), c, b.txs).Ok? {
      ExecutedPay(h, g, Expire(m, W(b.tmstmp), boot), b, BlockHash(b), c, b.txs);
      SurplusExact(g, b, b.txs);
    }
  }

  /** And which error refuses it. */
  lemma BlockErrors(h: Hashes, g: Genesis, m: Db, b: Block, boot: bool)
    requires b.prnt.BlockHash? && Fits(TotalLoad(g, b.txs)) && Fits(b.price * b.cost)
    requires AllPay(b, b.txs) ==> Fits(SurplusSum(g, b, b.txs))
    ensures var c, r := ExecutionContext(g, b.tmstmp, b.prnt), ExecBlock(h, g, m, b, boot);
      var run := ExecTxs(h, g, Expire(m, W(b.tmstmp), boot), b, BlockHash(b), c, b.txs);
      && (b.txs == [] ==> r == Err(ErrNoTxs))
      && (TotalLoad(g, b.txs) > g.maxBlockSize ==> r == Err(ErrBlockTooBig))
      && (b.txs != [] && TotalLoad(g, b.txs) <= g.maxBlockSize ==>
        if b.tmstmp < b.prnt.blk.tmstmp then r == Err(ErrTimestampTooEarly)
        else if b.cost != c.nextCost then r == Err(ErrInvalidCost)
        else if b.price != c.nextPrice then r == Err(ErrInvalidPrice)
        else if run.Err? then r == run
        else SurplusSum(g, b, b.txs) < b.price * b.cost ==> r == Err(ErrInsufficientSurplus))
  {
    hide ExecTxs, Surplus, SurplusSum, SizeOk, Recorded, Expire, ExecutionContext;
    assert b.txs == [] ==> TotalLoad(g, b.txs) == 0;
    hide TotalLoad;
    BlockExact(h, g, m, b, boot);
    SizeExact(g, b.txs);
  }
}

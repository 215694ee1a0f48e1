/** When a block that was filled verifies (builder.go, block.go). The winners of the lottery are drawn
    with the block's ID, which is empty while the block is filled, so the run that verifies it may pay
    others than the run that filled it. */
module Built {
  import opened Types
  import opened Keys
  import S = Store
  import opened Spaces
  import opened Chain
  import B = Blocks
  import opened Limits
  import opened Conservation
  import opened Mempool
  import opened Builder
  import opened Verdicts
  import opened Winners

  /** The job was set up on this state, as BuildBlock does on a bootstrapped node. */
  ghost predicate SetUp(j: Job, state: Db) {
    && j.start == S.Expire(state, W(j.b.tmstmp), true)
    && j.b.prnt.BlockHash?
    && j.c == Chain.ExecutionContext(j.g, j.b.tmstmp, j.b.prnt) && j.b == NewBlock(j.b.prnt, j.b.tmstmp, j.c)
  }

  /** Running the transactions of the block under its real ID. */
  ghost function RealRun(j: Job, txs: seq<Tx>): Result<Db> {
    B.ExecTxs(j.h, j.g, j.start, j.b, BlockHash(j.b.(txs := txs)), j.c, txs)
  }

  /** The block is not empty, the clock was not behind its parent's time, and its surplus fees cover its
      cost. */
  ghost predicate Qualifies(j: Job, txs: seq<Tx>)
    requires j.b.prnt.BlockHash?
  {
    && txs != [] && j.b.prnt.blk.tmstmp <= j.b.tmstmp
    && B.Surplus(j.g, j.b.(txs := txs), txs) >= W(j.b.price * j.b.cost)
  }

  /** Of all that verification checks, only the real run and what qualifies a block can fail a filled one. */
  lemma RunDecides(j: Job, state: Db, all: set<TxID>, left: set<TxID>, txs: seq<Tx>)
    requires Filled(j, all, left, txs) && SetUp(j, state)
    ensures B.ExecBlock(j.h, j.g, state, j.b.(txs := txs), true).Ok? <==> RealRun(j, txs).Ok? && Qualifies(j, txs)
  {
    hide S.Expire, W, TotalLoad, B.ExecTxs, B.Surplus, B.SizeOk, B.Recorded, Distinct, Descending, Failed, TooLarge,
      IDs;
    var b' := j.b.(txs := txs);
    SizeExact(j.g, txs);
    SameHeader(j.h, j.g, j.start, j.b, b', BlockHash(b'), j.c, txs);
  }

  /** Without rewards, the block's ID does not matter. */
  lemma {:induction false} NoRewardsSameResult(j: Job, txs: seq<Tx>, bid: BlockID)
    requires forall t :: t in txs ==> S.RewardAmount(j.g, j.b, t) == 0
    ensures B.ExecTxs(j.h, j.g, j.start, j.b, bid, j.c, txs) == Exec(j, txs)
  {
    hide S.ExecCharge, S.RewardAmount, S.ApplyReward;
    if |txs| > 0 {
      NoRewardsSameResult(j, txs[..|txs| - 1], bid);
    }
  }

  /** A filled block in which no transaction can win a reward verifies exactly if it
      qualifies. */
  lemma UnrewardedVerifies(j: Job, state: Db, all: set<TxID>, left: set<TxID>, txs: seq<Tx>)
    requires Filled(j, all, left, txs) && SetUp(j, state)
    requires forall t :: t in txs ==> S.RewardAmount(j.g, j.b, t) == 0
    ensures B.ExecBlock(j.h, j.g, state, j.b.(txs := txs), true).Ok? <==> Qualifies(j, txs)
  {
    RunDecides(j, state, all, left, txs);
    NoRewardsSameResult(j, txs, BlockHash(j.b.(txs := txs)));
  }

  /** A filled block whose transactions would succeed if nobody won anything, and none of whose draws
      under its real ID is foul, verifies exactly if it qualifies: it does not matter who wins. */
  lemma BuiltVerifies(j: Job, state: Db, all: set<TxID>, left: set<TxID>, txs: seq<Tx>)
    requires Filled(j, all, left, txs) && SetUp(j, state)
    requires Unrewarded(j.h, j.g, j.start, j.b, j.c, txs).Ok?
    requires !FoulTxs(j.h, j.g, j.start, j.b, BlockHash(j.b.(txs := txs)), j.c, txs)
    requires Typed(j.start) && Fits(Supply(j.start)) && AllFit(j.g, j.b, txs)
    ensures B.ExecBlock(j.h, j.g, state, j.b.(txs := txs), true).Ok? <==> Qualifies(j, txs)
  {
    hide Filled, SetUp, Qualifies, B.ExecBlock, Supply, Typed, AllFit, Unrewarded, FoulTxs, Richer, B.ExecTxs;
    RunDecides(j, state, all, left, txs);
    PriceIsNext(j, state);
    WinnersDoNotMatter(j.h, j.g, j.start, j.b, BlockHash(j.b.(txs := txs)), j.c, txs);
  }

  lemma PriceIsNext(j: Job, state: Db)
    requires SetUp(j, state)
    ensures j.b.price == j.c.nextPrice
  {
    hide S.Expire, Chain.ExecutionContext;
  }

  /** And where a transaction lives on a reward that is not paid under the real ID, the block that was
      filled with it is refused. */
  lemma UnpaidFails(j: Job, state: Db, all: set<TxID>, left: set<TxID>, t1: Tx, t2: Tx)
    requires Filled(j, all, left, [t1, t2]) && SetUp(j, state)
    requires var bid := BlockHash(j.b.(txs := [t1, t2]));
      var r := S.ExecCharge(j.h, j.g, j.start, j.b, j.c, t1);
      && r.Ok? && S.ExecCharge(j.h, j.g, r.value, j.b, j.c, t2).Err?
      && var d := S.DrawFrom(j.h, r.value, j.h.lottery(bid, t1.ID()));
        d.Winner? ==> d.info.owner == t1.sender
    ensures RealRun(j, [t1, t2]).Err? && B.ExecBlock(j.h, j.g, state, j.b.(txs := [t1, t2]), true).Err?
  {
    RunDecides(j, state, all, left, [t1, t2]);
    RunsInTurn(j, t1, t2, BlockHash(j.b.(txs := [t1, t2])));
    hide Filled, SetUp, B.ExecBlock, B.ExecTxs, S.ExecCharge, S.DrawFrom;
  }

  lemma RunsInTurn(j: Job, t1: Tx, t2: Tx, bid: BlockID)
    ensures var r := S.ExecTx(j.h, j.g, j.start, j.b, bid, j.c, t1);
      B.ExecTxs(j.h, j.g, j.start, j.b, bid, j.c, [t1, t2])
        == if r.Ok? then S.ExecTx(j.h, j.g, r.value, j.b, bid, j.c, t2) else r
  {
    hide S.ExecTx, B.ExecTxs;
    RunsOneMore(j, [], t1, bid);
    RunsOneMore(j, [t1], t2, bid);
    assert [] + [t1] == [t1] && [t1] + [t2] == [t1, t2];
    RunsNone(j, bid);
  }

  lemma RunsNone(j: Job, bid: BlockID)
    ensures B.ExecTxs(j.h, j.g, j.start, j.b, bid, j.c, []) == Ok(j.start)
  {
  }

  lemma RunsOneMore(j: Job, txs: seq<Tx>, t: Tx, bid: BlockID)
    ensures var r := B.ExecTxs(j.h, j.g, j.start, j.b, bid, j.c, txs);
      B.ExecTxs(j.h, j.g, j.start, j.b, bid, j.c, txs + [t])
        == if r.Ok? then S.ExecTx(j.h, j.g, r.value, j.b, bid, j.c, t) else r
  {
    hide S.ExecTx;
    assert (txs + [t])[..|txs|] == txs && (txs + [t])[|txs|] == t;
  }
}

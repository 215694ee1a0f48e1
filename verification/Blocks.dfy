/** What verifying a block does to its parent's state (block.go), and the state every chain stands
    for: its blocks executed one at a time, from genesis, on a plain map. */
module Blocks {
  import opened Types
  import opened Keys
  import opened Store
  import opened Chain

  // ---------- SetLastAccepted ----------

  predicate HasValue(tx: Tx) {
    tx.action.Set? && |tx.action.value| > 0
  }

  /** The transaction as it is stored inside its block: a value gives way to the ID of the
      transaction that carried it. */
  function LinkedTx(h: Hashes, tx: Tx): Tx {
    if HasValue(tx)
    then tx.(action := Set(tx.action.space, tx.action.key, h.tx(tx.ID())))
    else tx
  }

  function LinkedTxs(h: Hashes, txs: seq<Tx>): (r: seq<Tx>)
    ensures |r| == |txs| && forall i :: 0 <= i < |txs| ==> r[i] == LinkedTx(h, txs[i])
  {
    if |txs| == 0 then [] else LinkedTxs(h, txs[..|txs| - 1]) + [LinkedTx(h, txs[|txs| - 1])]
  }

  /** The values moved out of the first transactions of a block. */
  function WithValues(m: Db, txs: seq<Tx>): Db {
    if |txs| == 0 then m
    else
      var m1, tx := WithValues(m, txs[..|txs| - 1]), txs[|txs| - 1];
      if HasValue(tx) then m1[TxValueKey(tx.ID()) := BytesVal(tx.action.value)] else m1
  }

  function Recorded(h: Hashes, m: Db, b: Block): Db {
    WithValues(m[LastAcceptedKey := IDVal(BlockHash(b))], b.txs)
    [BlockKey(BlockHash(b)) := BlockVal(b.(txs := LinkedTxs(h, b.txs)))]
  }

  // ---------- verify ----------

  predicate SizeOk(g: Genesis, txs: seq<Tx>) {
    |txs| == 0 || (SizeOk(g, txs[..|txs| - 1]) && LoadOf(g, txs) <= g.maxBlockSize)
  }

  ghost function ExecTxs(h: Hashes, g: Genesis, m: Db, b: Block, bid: BlockID, c: Context, txs: seq<Tx>): Result<Db> {
    if |txs| == 0 then Ok(m)
    else match ExecTxs(h, g, m, b, bid, c, txs[..|txs| - 1])
      case Err(e) => Err(e)
      case Ok(m1) => ExecTx(h, g, m1, b, bid, c, txs[|txs| - 1])
  }

  function TxSurplus(g: Genesis, b: Block, tx: Tx): uint64 {
    W(W(tx.price - b.price) * FeeUnits(g, tx.action))
  }

  function Surplus(g: Genesis, b: Block, txs: seq<Tx>): uint64 {
    if |txs| == 0 then 0 else W(Surplus(g, b, txs[..|txs| - 1]) + TxSurplus(g, b, txs[|txs| - 1]))
  }

  /** The checks of verify that do not need the state, in the order the code makes them. The check
      against the local clock is made by the method. */
  function PreVerify(g: Genesis, b: Block): Option<Error> {
    if |b.txs| == 0 then Some(ErrNoTxs)
    else if !SizeOk(g, b.txs) then Some(ErrBlockTooBig)
    else if b.prnt == EmptyBlockID then Some(ErrParentNotFound)
    else if b.tmstmp < b.prnt.blk.tmstmp then Some(ErrTimestampTooEarly)
    else
      var c := ExecutionContext(g, b.tmstmp, b.prnt);
      if b.cost != c.nextCost then Some(ErrInvalidCost)
      else if b.price != c.nextPrice then Some(ErrInvalidPrice)
      else None
  }

  /** verify and SetLastAccepted, from the parent's state `m`. */
  ghost function ExecBlock(h: Hashes, g: Genesis, m: Db, b: Block, bootstrapped: bool): Result<Db> {
    var pre := PreVerify(g, b);
    if pre.Some? then Err(pre.value)
    else
      var c := ExecutionContext(g, b.tmstmp, b.prnt);
      match ExecTxs(h, g, Expire(m, W(b.tmstmp), bootstrapped), b, BlockHash(b), c, b.txs)
      case Err(e) => Err(e)
      case Ok(m1) =>
        if Surplus(g, b, b.txs) < W(b.price * b.cost) then Err(ErrInsufficientSurplus)
        else Ok(Recorded(h, m1, b))
  }

  // ---------- The state a chain stands for ----------

  datatype Origin = Origin(id: BlockID, state: Db)

  /** Execute the chain that ends in `id`, block by block from genesis, on a plain map. Before bootstrapping
      ends no deletion is deferred. */
  ghost function Canon(h: Hashes, g: Genesis, o: Origin, boot: bool, id: BlockID): Result<Db>
    decreases id
  {
    if id == o.id then Ok(o.state)
    else if id == EmptyBlockID then Err(ErrParentNotFound)
    else match Canon(h, g, o, boot, id.blk.prnt)
      case Err(e) => Err(e)
      case Ok(m) => ExecBlock(h, g, m, id.blk, boot)
  }

  // ---------- No wrap-around in one transaction, in one block ----------

  predicate TxFits(g: Genesis, b: Block, tx: Tx) {
    && Fits(FeeUnits(g, tx.action) * tx.price)
    && Fits(FeeUnits(g, tx.action) * b.price * g.lotteryRewardMultiplier)
  }
}

/** The invariant of the store over whole blocks and whole chains. */
module BlockInvariants {
  import opened Types
  import opened Keys
  import opened Store
  import opened Chain
  import opened Spaces
  import opened Preservation
  import opened Blocks

  function ContextOf(b: Block, tx: Tx): TxContext {
    TxContext(W(b.tmstmp), tx.ID(), tx.sender)
  }

  /** Nothing wraps around while the transaction is executed in state m. */
  predicate TxGood(g: Genesis, m: Db, b: Block, tx: Tx) {
    TxFits(g, b, tx) && ActionFits(g, m, ContextOf(b, tx), tx.action)
  }

  /** Nothing wraps around while the transactions of a block are executed from m. */
  ghost predicate TxsGood(h: Hashes, g: Genesis, m: Db, b: Block, bid: BlockID, c: Context, txs: seq<Tx>) {
    |txs| == 0 || (
      var r := ExecTxs(h, g, m, b, bid, c, txs[..|txs| - 1]);
      TxsGood(h, g, m, b, bid, c, txs[..|txs| - 1]) && (r.Ok? ==> TxGood(g, r.value, b, txs[|txs| - 1])))
  }

  ghost predicate BlockGood(h: Hashes, g: Genesis, m: Db, b: Block, bootstrapped: bool) {
    && 1 <= b.tmstmp < TWO63
    && (b.prnt.BlockHash? ==>
      && 0 <= b.prnt.blk.tmstmp
      && TxsGood(h, g, Expire(m, W(b.tmstmp), bootstrapped), b, BlockHash(b),
           ExecutionContext(g, b.tmstmp, b.prnt), b.txs))
  }

  lemma FitsAfterFee(g: Genesis, m: Db, a: Address, add: bool, change: uint64, t: TxContext, action: Action)
    requires ActionFits(g, m, t, action) && ModifyBalance(m, a, add, change).Ok?
    ensures ActionFits(g, ModifyBalance(m, a, add, change).value, t, action)
  {
    var m' := ModifyBalance(m, a, add, change).value;
    assert forall s :: GetInfo(m', s) == GetInfo(m, s);
    assert forall r, x :: UnitsAt(g, m', r, x) == UnitsAt(g, m, r, x);
  }

  lemma ChargeKeepsInv(h: Hashes, g: Genesis, m: Db, b: Block, c: Context, tx: Tx)
    requires Inv(g, m, W(b.tmstmp)) && W(b.tmstmp) >= 1 && TxGood(g, m, b, tx)
    requires ExecCharge(h, g, m, b, c, tx).Ok?
    ensures Inv(g, ExecCharge(h, g, m, b, c, tx).value, W(b.tmstmp))
  {
    var t := ContextOf(b, tx);
    var m1 := ModifyBalance(m, tx.sender, false, Fee(g, tx)).value;
    BalanceKeepsInv(g, m, t.blockTime, tx.sender, false, Fee(g, tx));
    FitsAfterFee(g, m, tx.sender, false, Fee(g, tx), t, tx.action);
    ActionKeepsInv(h, g, m1, t, tx.action);
    NeutralKeepsInv(g, ExecAction(h, g, m1, t, tx.action).value, t.blockTime, TxKey(tx.ID()), NilVal);
  }

  lemma TxKeepsInv(h: Hashes, g: Genesis, m: Db, b: Block, bid: BlockID, c: Context, tx: Tx)
    requires Inv(g, m, W(b.tmstmp)) && W(b.tmstmp) >= 1 && TxGood(g, m, b, tx)
    requires ExecTx(h, g, m, b, bid, c, tx).Ok?
    ensures Inv(g, ExecTx(h, g, m, b, bid, c, tx).value, W(b.tmstmp))
  {
    ChargeKeepsInv(h, g, m, b, c, tx);
    var m1 := ExecCharge(h, g, m, b, c, tx).value;
    var draw := DrawFrom(h, m1, h.lottery(bid, tx.ID()));
    if ExecTx(h, g, m, b, bid, c, tx).value != m1 && draw.Winner? {
      BalanceKeepsInv(g, m1, W(b.tmstmp), draw.info.owner, true, RewardAmount(g, b, tx));
    }
  }

  lemma {:induction false} TxsKeepInv(h: Hashes, g: Genesis, m: Db, b: Block, bid: BlockID, c: Context, txs: seq<Tx>)
    requires Inv(g, m, W(b.tmstmp)) && W(b.tmstmp) >= 1
    requires TxsGood(h, g, m, b, bid, c, txs) && ExecTxs(h, g, m, b, bid, c, txs).Ok?
    ensures Inv(g, ExecTxs(h, g, m, b, bid, c, txs).value, W(b.tmstmp))
  {
    if |txs| > 0 {
      var n := |txs| - 1;
      TxsKeepInv(h, g, m, b, bid, c, txs[..n]);
      TxKeepsInv(h, g, ExecTxs(h, g, m, b, bid, c, txs[..n]).value, b, bid, c, txs[n]);
    }
  }

  lemma {:induction false} ValuesKeepInv(g: Genesis, m: Db, now: uint64, txs: seq<Tx>)
    requires Inv(g, m, now)
    ensures Inv(g, WithValues(m, txs), now)
  {
    if |txs| > 0 {
      var n := |txs| - 1;
      ValuesKeepInv(g, m, now, txs[..n]);
      if txs[n].action.Set? {
        NeutralKeepsInv(g, WithValues(m, txs[..n]), now, TxValueKey(txs[n].ID()), BytesVal(txs[n].action.value));
      }
    }
  }

  lemma RecordedKeepsInv(h: Hashes, g: Genesis, m: Db, now: uint64, b: Block)
    requires Inv(g, m, now)
    ensures Inv(g, Recorded(h, m, b), now)
  {
    var m1 := m[LastAcceptedKey := IDVal(BlockHash(b))];
    NeutralKeepsInv(g, m, now, LastAcceptedKey, IDVal(BlockHash(b)));
    ValuesKeepInv(g, m1, now, b.txs);
    NeutralKeepsInv(g, WithValues(m1, b.txs), now, BlockKey(BlockHash(b)), BlockVal(b.(txs := LinkedTxs(h, b.txs))));
  }

  /** A verified block carries the invariant from its parent's time to its own. The windows of
      successive blocks tile time: the parent left nothing that had run out at its time, and the
      block removes exactly what ran out since. */
  lemma BlockKeepsInv(h: Hashes, g: Genesis, m: Db, b: Block, bootstrapped: bool)
    requires b.prnt.BlockHash? && Inv(g, m, W(b.prnt.blk.tmstmp))
    requires BlockGood(h, g, m, b, bootstrapped) && ExecBlock(h, g, m, b, bootstrapped).Ok?
    ensures Inv(g, ExecBlock(h, g, m, b, bootstrapped).value, W(b.tmstmp))
  {
    var c := ExecutionContext(g, b.tmstmp, b.prnt);
    var m0 := Expire(m, W(b.tmstmp), bootstrapped);
    ExpireKeepsInv(g, m, W(b.prnt.blk.tmstmp), W(b.tmstmp), bootstrapped);
    TxsKeepInv(h, g, m0, b, BlockHash(b), c, b.txs);
    RecordedKeepsInv(h, g, ExecTxs(h, g, m0, b, BlockHash(b), c, b.txs).value, W(b.tmstmp), b);
  }

  // ---------- Chains ----------

  /** No block of the chain wraps around when executed from the canonical state of its parent. */
  ghost predicate ChainGood(h: Hashes, g: Genesis, o: Origin, boot: bool, id: BlockID)
    decreases id
  {
    id == o.id || (
      && id.BlockHash? && ChainGood(h, g, o, boot, id.blk.prnt)
      && (Canon(h, g, o, boot, id.blk.prnt).Ok? ==>
           BlockGood(h, g, Canon(h, g, o, boot, id.blk.prnt).value, id.blk, boot)))
  }

  ghost predicate OriginGood(g: Genesis, o: Origin) {
    o.id.BlockHash? && 0 <= o.id.blk.tmstmp < TWO63 && Inv(g, o.state, W(o.id.blk.tmstmp))
  }

  /** The state every valid chain stands for satisfies the invariant at the time of its tip: so no
      live space has run out, at any block of any chain. */
  lemma {:induction false} ChainKeepsInv(h: Hashes, g: Genesis, o: Origin, boot: bool, id: BlockID)
    requires OriginGood(g, o) && ChainGood(h, g, o, boot, id) && Canon(h, g, o, boot, id).Ok?
    ensures id.BlockHash? && 0 <= id.blk.tmstmp < TWO63
    ensures Inv(g, Canon(h, g, o, boot, id).value, W(id.blk.tmstmp))
    decreases id
  {
    if id != o.id {
      ChainKeepsInv(h, g, o, boot, id.blk.prnt);
      BlockKeepsInv(h, g, Canon(h, g, o, boot, id.blk.prnt).value, id.blk, boot);
    }
  }

  /** A genesis store holds balances only, and satisfies the invariant at any time. */
  lemma AllocationsSatisfyInv(g: Genesis, m: Db, now: uint64)
    requires forall k :: k in m ==> Neutral(k) && WellTyped(k, m[k])
    ensures Inv(g, m, now)
  {
  }
}

/** Where the money goes: fees are burnt, rewards are paid out of them, nothing else moves the
    total. */
module Conservation {
  import opened Types
  import opened Keys
  import opened Store
  import opened Sums
  import opened Spaces
  import opened Chain
  import opened Blocks

  ghost function Balances(m: Db): map<Key, nat> {
    map k | k in m && k.BalanceKey? && m[k].BalanceVal? :: m[k].bal
  }

  ghost function Supply(m: Db): nat {
    Sum(Balances(m))
  }

  lemma SameBalances(m: Db, m': Db)
    requires forall k: Key :: k.BalanceKey? ==> (k in m <==> k in m')
    requires forall k: Key :: k.BalanceKey? && k in m ==> m[k] == m'[k]
    ensures Supply(m) == Supply(m')
  {
    assert Balances(m) == Balances(m');
  }

  lemma ModifySupply(m: Db, a: Address, add: bool, change: uint64)
    requires Typed(m) && ModifyBalance(m, a, add, change).Ok?
    ensures var m' := ModifyBalance(m, a, add, change).value;
      Typed(m') && Supply(m') == if add then Supply(m) + change else Supply(m) - change
  {
    var n := if add then GetBalance(m, a) + change else GetBalance(m, a) - change;
    var k := BalanceKey(a);
    assert Balances(m[k := BalanceVal(n)]) == Balances(m)[k := n];
    SumUpdate(Balances(m), k, n);
  }

  /** The six transactions move the total not at all; a transfer only moves it around. */
  lemma ActionConserves(h: Hashes, g: Genesis, m: Db, t: TxContext, a: Action)
    requires Typed(m) && ExecAction(h, g, m, t, a).Ok?
    ensures var m' := ExecAction(h, g, m, t, a).value;
      Typed(m') && Supply(m') == Supply(m)
  {
    if a.Transfer? {
      ModifySupply(m, t.sender, false, a.units);
      ModifySupply(ModifyBalance(m, t.sender, false, a.units).value, a.to, true, a.units);
    } else {
      MovesNoBalance(h, g, m, t, a);
      SameBalances(m, ExecAction(h, g, m, t, a).value);
    }
  }

  lemma MovesNoBalance(h: Hashes, g: Genesis, m: Db, t: TxContext, a: Action)
    requires Typed(m) && ExecAction(h, g, m, t, a).Ok? && !a.Transfer?
    ensures var m' := ExecAction(h, g, m, t, a).value;
      && Typed(m')
      && (forall k: Key :: k.BalanceKey? ==> (k in m <==> k in m'))
      && (forall k: Key :: k.BalanceKey? && k in m ==> m[k] == m'[k])
  {
    hide W, CheckContents, TimeRemaining, Reunit;
  }

  /** What the lottery pays out for a transaction whose charge left the store at m1. */
  ghost function Paid(h: Hashes, g: Genesis, m1: Db, b: Block, bid: BlockID, tx: Tx): nat {
    var draw := DrawFrom(h, m1, h.lottery(bid, tx.ID()));
    if b.prnt == EmptyBlockID || !draw.Winner? || draw.info.owner == tx.sender then 0
    else RewardAmount(g, b, tx)
  }

  lemma ChargeSupply(h: Hashes, g: Genesis, m: Db, b: Block, c: Context, tx: Tx)
    requires Typed(m) && ExecCharge(h, g, m, b, c, tx).Ok?
    ensures var m' := ExecCharge(h, g, m, b, c, tx).value;
      Typed(m') && Supply(m') == Supply(m) - Fee(g, tx)
  {
    var m0 := ModifyBalance(m, tx.sender, false, Fee(g, tx)).value;
    var t := TxContext(W(b.tmstmp), tx.ID(), tx.sender);
    ModifySupply(m, tx.sender, false, Fee(g, tx));
    ActionConserves(h, g, m0, t, tx.action);
    SameBalances(ExecAction(h, g, m0, t, tx.action).value, ExecCharge(h, g, m, b, c, tx).value);
  }

  lemma TxSupply(h: Hashes, g: Genesis, m: Db, b: Block, bid: BlockID, c: Context, tx: Tx)
    requires Typed(m) && ExecTx(h, g, m, b, bid, c, tx).Ok?
    ensures ExecCharge(h, g, m, b, c, tx).Ok?
    ensures var m' := ExecTx(h, g, m, b, bid, c, tx).value;
      Typed(m') && Supply(m') == Supply(m) - Fee(g, tx) + Paid(h, g, ExecCharge(h, g, m, b, c, tx).value, b, bid, tx)
  {
    ChargeSupply(h, g, m, b, c, tx);
    var m1 := ExecCharge(h, g, m, b, c, tx).value;
    var draw := DrawFrom(h, m1, h.lottery(bid, tx.ID()));
    if draw.Winner? && draw.info.owner != tx.sender && RewardAmount(g, b, tx) > 0 && b.prnt != EmptyBlockID {
      ModifySupply(m1, draw.info.owner, true, RewardAmount(g, b, tx));
    }
  }

  lemma MulLe(a: int, b: int, c: int)
    requires a <= b && 0 <= c
    ensures c * a <= c * b
  {
  }

  lemma ShareLe(x: int, share: int)
    requires 0 <= x && 0 <= share <= 100
    ensures 0 <= x * share / 100 <= x
  {
    MulLe(share, 100, x);
    MulLe(0, share, x);
  }

  lemma FeeSplits(units: nat, price: nat, floor: nat)
    requires floor <= price
    ensures units * price == units * floor + (price - floor) * units
    ensures 0 <= units * floor && 0 <= (price - floor) * units
  {
    MulLe(0, floor, units);
    MulLe(0, price - floor, units);
  }

  lemma RewardBound(g: Genesis, b: Block, tx: Tx)
    requires TxFits(g, b, tx)
    ensures RewardAmount(g, b, tx) <= FeeUnits(g, tx.action) * b.price
  {
    var x := FeeUnits(g, tx.action) * b.price;
    FeeSplits(FeeUnits(g, tx.action), b.price, b.price);
    ShareLe(x, g.lotteryRewardMultiplier);
    WrapShrinks(x);
    MulLe(W(x), x, g.lotteryRewardMultiplier);
    WrapShrinks(W(x) * g.lotteryRewardMultiplier);
  }

  lemma SurplusBound(g: Genesis, b: Block, tx: Tx)
    requires TxFits(g, b, tx) && b.price <= tx.price
    ensures TxSurplus(g, b, tx) <= Fee(g, tx) - FeeUnits(g, tx.action) * b.price
  {
    FeeSplits(FeeUnits(g, tx.action), tx.price, b.price);
    WrapShrinks((tx.price - b.price) * FeeUnits(g, tx.action));
  }

  lemma WrapShrinks(x: nat)
    ensures W(x) <= x
  {
  }

  /** The price of a transaction never lies below its block's, so the subtraction is safe, and what
      it destroys is at least its surplus. */
  lemma TxDestroysSurplus(h: Hashes, g: Genesis, m: Db, b: Block, bid: BlockID, c: Context, tx: Tx)
    requires Typed(m) && ExecTx(h, g, m, b, bid, c, tx).Ok?
    requires TxFits(g, b, tx) && b.price == c.nextPrice
    ensures b.price <= tx.price
    ensures Supply(m) - Supply(ExecTx(h, g, m, b, bid, c, tx).value) >= TxSurplus(g, b, tx)
  {
    TxSupply(h, g, m, b, bid, c, tx);
    assert b.price <= tx.price;
    hide ExecTx, ExecCharge, RewardAmount, TxSurplus, Fee;
    RewardBound(g, b, tx);
    SurplusBound(g, b, tx);
  }

  ghost predicate AllFit(g: Genesis, b: Block, txs: seq<Tx>) {
    forall i :: 0 <= i < |txs| ==> TxFits(g, b, txs[i])
  }

  lemma LastFits(g: Genesis, b: Block, txs: seq<Tx>)
    requires AllFit(g, b, txs) && |txs| > 0
    ensures AllFit(g, b, txs[..|txs| - 1]) && TxFits(g, b, txs[|txs| - 1])
  {
    hide TxFits;
  }

  lemma {:induction false} TxsDestroySurplus(h: Hashes, g: Genesis, m: Db, b: Block, bid: BlockID, c: Context,
                                             txs: seq<Tx>)
    requires Typed(m) && ExecTxs(h, g, m, b, bid, c, txs).Ok?
    requires AllFit(g, b, txs) && b.price == c.nextPrice
    ensures var m' := ExecTxs(h, g, m, b, bid, c, txs).value;
      Typed(m') && Supply(m) - Supply(m') >= Surplus(g, b, txs)
    ensures forall i :: 0 <= i < |txs| ==> b.price <= txs[i].price
  {
    hide ExecTx, TxSurplus, Supply, W, Typed, TxFits, AllFit;
    if |txs| > 0 {
      var n := |txs| - 1;
      LastFits(g, b, txs);
      TxsDestroySurplus(h, g, m, b, bid, c, txs[..n]);
      var m1 := ExecTxs(h, g, m, b, bid, c, txs[..n]).value;
      TxSupply(h, g, m1, b, bid, c, txs[n]);
      TxDestroysSurplus(h, g, m1, b, bid, c, txs[n]);
      WrapShrinks(Surplus(g, b, txs[..n]) + TxSurplus(g, b, txs[n]));
    }
  }

  /** The sum over a block of what each transaction burns less what its lottery pays back. */
  ghost function NetBurn(h: Hashes, g: Genesis, m: Db, b: Block, bid: BlockID, c: Context, txs: seq<Tx>): int
    requires ExecTxs(h, g, m, b, bid, c, txs).Ok?
  {
    if |txs| == 0 then 0
    else
      var m1, tx := ExecTxs(h, g, m, b, bid, c, txs[..|txs| - 1]).value, txs[|txs| - 1];
      NetBurn(h, g, m, b, bid, c, txs[..|txs| - 1])
        + Fee(g, tx) - Paid(h, g, ExecCharge(h, g, m1, b, c, tx).value, b, bid, tx)
  }

  lemma {:induction false} TxsSupply(h: Hashes, g: Genesis, m: Db, b: Block, bid: BlockID, c: Context, txs: seq<Tx>)
    requires Typed(m) && ExecTxs(h, g, m, b, bid, c, txs).Ok?
    ensures var m' := ExecTxs(h, g, m, b, bid, c, txs).value;
      Typed(m') && Supply(m') == Supply(m) - NetBurn(h, g, m, b, bid, c, txs)
  {
    if |txs| > 0 {
      var n := |txs| - 1;
      TxsSupply(h, g, m, b, bid, c, txs[..n]);
      TxSupply(h, g, ExecTxs(h, g, m, b, bid, c, txs[..n]).value, b, bid, c, txs[n]);
    }
  }

  lemma {:induction false} ValuesKeepBalances(m: Db, txs: seq<Tx>)
    ensures forall k: Key :: k.BalanceKey? ==> (k in m <==> k in WithValues(m, txs))
    ensures forall k: Key :: k.BalanceKey? && k in m ==> m[k] == WithValues(m, txs)[k]
  {
    if |txs| > 0 {
      ValuesKeepBalances(m, txs[..|txs| - 1]);
    }
  }

  /** A verified block changes the total balance by exactly minus its fees plus the rewards it pays,
      and destroys at least its price times its cost. */
  lemma BlockBurns(h: Hashes, g: Genesis, m: Db, b: Block, bootstrapped: bool)
    requires Typed(m) && ExecBlock(h, g, m, b, bootstrapped).Ok?
    requires AllFit(g, b, b.txs) && Fits(b.price * b.cost)
    ensures var m0, c := Expire(m, W(b.tmstmp), bootstrapped), ExecutionContext(g, b.tmstmp, b.prnt);
      && ExecTxs(h, g, m0, b, BlockHash(b), c, b.txs).Ok?
      && Supply(ExecBlock(h, g, m, b, bootstrapped).value) == Supply(m) - NetBurn(h, g, m0, b, BlockHash(b), c, b.txs)
    ensures Supply(m) - Supply(ExecBlock(h, g, m, b, bootstrapped).value) >= b.price * b.cost
  {
    hide ExecTxs, NetBurn, Recorded;
    var m0, c := Expire(m, W(b.tmstmp), bootstrapped), ExecutionContext(g, b.tmstmp, b.prnt);
    var m1 := ExecTxs(h, g, m0, b, BlockHash(b), c, b.txs).value;
    SameBalances(m, m0);
    TxsSupply(h, g, m0, b, BlockHash(b), c, b.txs);
    TxsDestroySurplus(h, g, m0, b, BlockHash(b), c, b.txs);
    RecordedSupply(h, m1, b);
    assert W(b.price * b.cost) == b.price * b.cost;
  }

  lemma RecordedSupply(h: Hashes, m: Db, b: Block)
    ensures Supply(Recorded(h, m, b)) == Supply(m)
  {
    ValuesKeepBalances(m[LastAcceptedKey := IDVal(BlockHash(b))], b.txs);
    SameBalances(m, Recorded(h, m, b));
  }
}

/** What it matters who wins the lottery (tx.go, storage.go, builder.go): rewards only make balances
    larger, so a run in which others win, or more do, still succeeds where one that pays nobody does. */
module Winners {
  import opened Types
  import opened Keys
  import opened Sums
  import opened Store
  import opened Spaces
  import opened Blocks
  import opened Conservation
  import opened Verdicts

  /** The same store but for balances. */
  ghost predicate SameButBalances(m: Db, m': Db) {
    forall k: Key :: !k.BalanceKey? ==> (k in m <==> k in m') && (k in m ==> m'[k] == m[k])
  }

  /** The same store, with no balance smaller. */
  ghost predicate Richer(m: Db, m': Db) {
    SameButBalances(m, m') && forall a: Address :: GetBalance(m, a) <= GetBalance(m', a)
  }

  lemma SameReads(m: Db, m': Db)
    requires SameButBalances(m, m')
    ensures forall s :: GetInfo(m', s) == GetInfo(m, s) && (InfoKey(s) in m' <==> InfoKey(s) in m)
    ensures forall r, x :: GetMeta(m', r, x) == GetMeta(m, r, x)
  {
  }

  lemma SamePutSpaceInfo(m: Db, m': Db, s: Name, i: SpaceInfo, lastExpiry: uint64)
    requires SameButBalances(m, m')
    ensures SameButBalances(PutSpaceInfo(m, s, i, lastExpiry), PutSpaceInfo(m', s, i, lastExpiry))
  {
  }

  lemma SameUpdate(m: Db, m': Db, t: TxContext, s: Name, remaining: uint64, i: SpaceInfo)
    requires SameButBalances(m, m')
    ensures var r, r' := UpdateSpace(m, s, t, remaining, i), UpdateSpace(m', s, t, remaining, i);
      if r.Ok? then r'.Ok? && SameButBalances(r.value, r'.value) else r' == r
  {
    hide SameButBalances, PutSpaceInfo;
    if i.units != 0 {
      SamePutSpaceInfo(m, m', s,
        i.(updated := t.blockTime, expiry := W(t.blockTime + remaining / i.units)), i.expiry);
    }
  }

  /** All actions but transfers do the same whatever the balances. */
  lemma ActionIgnoresBalances(h: Hashes, g: Genesis, m: Db, m': Db, t: TxContext, a: Action)
    requires SameButBalances(m, m') && !a.Transfer?
    ensures var r, r' := ExecAction(h, g, m, t, a), ExecAction(h, g, m', t, a);
      if r.Ok? then r'.Ok? && SameButBalances(r.value, r'.value) else r' == r
  {
    hide SameButBalances, PutSpaceInfo, MoveSpaceInfo, UpdateSpace, TimeRemaining, Reunit, CheckContents, W, GetInfo,
      GetMeta;
    SameReads(m, m');
    match a
    case Claim(s) =>
      var i := SpaceInfo(t.sender, t.blockTime, t.blockTime, W(t.blockTime + g.claimReward / g.claimExpiryUnits),
        g.claimExpiryUnits, EmptyRaw);
      SamePutSpaceInfo(m, m', s, i, 0);
    case Lifeline(s, units) =>
      if GetInfo(m, s).Some? && GetInfo(m, s).value.units != 0 {
        var i := GetInfo(m, s).value;
        SamePutSpaceInfo(m, m', s, i.(expiry := W(i.expiry + W(g.claimReward * units) / i.units)), i.expiry);
      }
    case Set(s, x, value) =>
      if GetInfo(m, s).Some? && |value| <= g.maxValueSize {
        var i := GetInfo(m, s).value;
        var k, v := ValueKey(i.raw, x), MetaVal(SetMeta(m, t, i, x, |value|));
        SameWrite(m, m', k, v);
        SameUpdate(m[k := v], m'[k := v], t, s, TimeRemaining(i),
          i.(units := Reunit(g, i.units, GetMeta(m, i.raw, x), Some(|value|))));
      }
    case Delete(s, x) =>
      if GetInfo(m, s).Some? {
        var i := GetInfo(m, s).value;
        SameDrop(m, m', ValueKey(i.raw, x));
        SameUpdate(m - {ValueKey(i.raw, x)}, m' - {ValueKey(i.raw, x)}, t, s, TimeRemaining(i),
          i.(units := Reunit(g, i.units, GetMeta(m, i.raw, x), None)));
      }
    case Move(s, to) =>
      if GetInfo(m, s).Some? {
        SameMove(m, m', t.sender, s, GetInfo(m, s).value.(owner := to));
      }
  }

  lemma SameWrite(m: Db, m': Db, k: Key, v: Val)
    requires SameButBalances(m, m')
    ensures SameButBalances(m[k := v], m'[k := v])
  {
  }

  lemma SameDrop(m: Db, m': Db, k: Key)
    requires SameButBalances(m, m')
    ensures SameButBalances(m - {k}, m' - {k})
  {
  }

  lemma SameMove(m: Db, m': Db, oldOwner: Address, s: Name, i: SpaceInfo)
    requires SameButBalances(m, m')
    ensures SameButBalances(MoveSpaceInfo(m, oldOwner, s, i), MoveSpaceInfo(m', oldOwner, s, i))
  {
  }

  // ---------- Money ----------

  lemma BalanceWithinSupply(m: Db, a: Address)
    ensures GetBalance(m, a) <= Supply(m)
  {
    if BalanceKey(a) in m && m[BalanceKey(a)].BalanceVal? {
      SumAtLeast(Balances(m), BalanceKey(a));
    }
  }

  lemma BalancesMayDiffer(m: Db, m': Db, a: Address, n: uint64, n': uint64)
    requires SameButBalances(m, m')
    ensures SameButBalances(m[BalanceKey(a) := BalanceVal(n)], m'[BalanceKey(a) := BalanceVal(n')])
  {
  }

  lemma SetBalances(m: Db, m': Db, a: Address, n: uint64, n': uint64)
    requires Richer(m, m') && n <= n'
    ensures Richer(m[BalanceKey(a) := BalanceVal(n)], m'[BalanceKey(a) := BalanceVal(n')])
  {
    var r, r' := m[BalanceKey(a) := BalanceVal(n)], m'[BalanceKey(a) := BalanceVal(n')];
    BalancesMayDiffer(m, m', a, n, n');
    hide SameButBalances;
    forall x: Address
      ensures GetBalance(r, x) <= GetBalance(r', x)
    {
      assert GetBalance(m, x) <= GetBalance(m', x);
    }
  }

  lemma GiveRicher(m: Db, m': Db, a: Address, n': uint64)
    requires Richer(m, m') && GetBalance(m', a) <= n'
    ensures Richer(m, m'[BalanceKey(a) := BalanceVal(n')])
  {
    var r' := m'[BalanceKey(a) := BalanceVal(n')];
    assert SameButBalances(m, r');
    hide SameButBalances;
    forall x: Address
      ensures GetBalance(m, x) <= GetBalance(r', x)
    {
      assert GetBalance(m, x) <= GetBalance(m', x);
    }
  }

  lemma RicherSelf(m: Db)
    ensures Richer(m, m)
  {
  }

  /** What the poorer store can pay, the richer one can. */
  lemma RicherPays(m: Db, m': Db, a: Address, change: uint64)
    requires Richer(m, m') && ModifyBalance(m, a, false, change).Ok?
    ensures ModifyBalance(m', a, false, change).Ok?
    ensures Richer(ModifyBalance(m, a, false, change).value, ModifyBalance(m', a, false, change).value)
  {
    hide SameButBalances, GetBalance;
    assert GetBalance(m, a) <= GetBalance(m', a);
    SetBalances(m, m', a, GetBalance(m, a) - change, GetBalance(m', a) - change);
  }

  /** What both are given leaves the richer one richer, if it fits. */
  lemma RicherGets(m: Db, m': Db, a: Address, change: uint64)
    requires Richer(m, m') && Fits(GetBalance(m', a) + change)
    ensures ModifyBalance(m, a, true, change).Ok? && ModifyBalance(m', a, true, change).Ok?
    ensures Richer(ModifyBalance(m, a, true, change).value, ModifyBalance(m', a, true, change).value)
    ensures Richer(m, ModifyBalance(m', a, true, change).value)
  {
    hide SameButBalances, GetBalance;
    assert GetBalance(m, a) <= GetBalance(m', a);
    SetBalances(m, m', a, GetBalance(m, a) + change, GetBalance(m', a) + change);
    GiveRicher(m, m', a, GetBalance(m', a) + change);
  }

  lemma ActionRicher(h: Hashes, g: Genesis, m: Db, m': Db, t: TxContext, a: Action)
    requires Richer(m, m') && Typed(m) && Typed(m') && Fits(Supply(m')) && ExecAction(h, g, m, t, a).Ok?
    ensures ExecAction(h, g, m', t, a).Ok?
    ensures Richer(ExecAction(h, g, m, t, a).value, ExecAction(h, g, m', t, a).value)
  {
    hide Richer, ModifyBalance, Typed, Supply, ExecClaim, ExecLifeline, ExecSet, ExecDelete, ExecMove;
    if a.Transfer? {
      RicherPays(m, m', t.sender, a.units);
      var m1' := ModifyBalance(m', t.sender, false, a.units).value;
      ModifySupply(m', t.sender, false, a.units);
      BalanceWithinSupply(m1', a.to);
      RicherGets(ModifyBalance(m, t.sender, false, a.units).value, m1', a.to, a.units);
    } else {
      OtherActionRicher(h, g, m, m', t, a);
    }
  }

  lemma OtherActionRicher(h: Hashes, g: Genesis, m: Db, m': Db, t: TxContext, a: Action)
    requires Richer(m, m') && Typed(m) && Typed(m') && !a.Transfer? && ExecAction(h, g, m, t, a).Ok?
    ensures ExecAction(h, g, m', t, a).Ok?
    ensures Richer(ExecAction(h, g, m, t, a).value, ExecAction(h, g, m', t, a).value)
  {
    hide ExecAction, SameButBalances, Typed;
    ActionIgnoresBalances(h, g, m, m', t, a);
    MovesNoBalance(h, g, m, t, a);
    MovesNoBalance(h, g, m', t, a);
    var r, r' := ExecAction(h, g, m, t, a).value, ExecAction(h, g, m', t, a).value;
    forall x: Address
      ensures GetBalance(r, x) <= GetBalance(r', x)
    {
      assert GetBalance(m, x) <= GetBalance(m', x);
      assert GetBalance(r, x) == GetBalance(m, x) && GetBalance(r', x) == GetBalance(m', x);
    }
  }

  lemma ChargeRicher(h: Hashes, g: Genesis, m: Db, m': Db, b: Block, c: Context, tx: Tx)
    requires Richer(m, m') && Typed(m) && Typed(m') && Fits(Supply(m')) && ExecCharge(h, g, m, b, c, tx).Ok?
    ensures ExecCharge(h, g, m', b, c, tx).Ok?
    ensures Richer(ExecCharge(h, g, m, b, c, tx).value, ExecCharge(h, g, m', b, c, tx).value)
  {
    hide Richer, ExecAction, ModifyBalance, Fee, Typed, Supply, ExecuteBase;
    var t, fee := TxContext(W(b.tmstmp), tx.ID(), tx.sender), Fee(g, tx);
    RicherPays(m, m', tx.sender, fee);
    ModifySupply(m, tx.sender, false, fee);
    ModifySupply(m', tx.sender, false, fee);
    var m1, m1' := ModifyBalance(m, tx.sender, false, fee).value, ModifyBalance(m', tx.sender, false, fee).value;
    ActionRicher(h, g, m1, m1', t, tx.action);
    RicherWrite(ExecAction(h, g, m1, t, tx.action).value, ExecAction(h, g, m1', t, tx.action).value, TxKey(tx.ID()),
      NilVal);
  }

  lemma RicherWrite(m: Db, m': Db, k: Key, v: Val)
    requires Richer(m, m') && !k.BalanceKey?
    ensures Richer(m[k := v], m'[k := v])
  {
    SameWrite(m, m', k, v);
    hide SameButBalances;
    var r, r' := m[k := v], m'[k := v];
    forall a: Address
      ensures GetBalance(r, a) <= GetBalance(r', a)
    {
      assert GetBalance(m, a) <= GetBalance(m', a);
    }
  }

  /** A reward is no more than the fee it is paid out of. */
  lemma RewardWithinFee(g: Genesis, b: Block, tx: Tx)
    requires TxFits(g, b, tx) && b.price <= tx.price
    ensures RewardAmount(g, b, tx) <= Fee(g, tx)
  {
    hide FeeUnits, RewardAmount;
    RewardBound(g, b, tx);
    FeeSplits(FeeUnits(g, tx.action), tx.price, b.price);
  }

  /** With no foul draw, the transaction succeeds on the richer store whoever wins. */
  lemma TxRicher(h: Hashes, g: Genesis, m: Db, m': Db, b: Block, bid: BlockID, c: Context, tx: Tx)
    requires Richer(m, m') && Typed(m) && Typed(m') && Fits(Supply(m')) && ExecCharge(h, g, m, b, c, tx).Ok?
    requires TxFits(g, b, tx) && b.price == c.nextPrice && !FoulTx(h, g, m', b, bid, c, tx)
    ensures ExecTx(h, g, m', b, bid, c, tx).Ok?
    ensures var r' := ExecTx(h, g, m', b, bid, c, tx).value;
      Richer(ExecCharge(h, g, m, b, c, tx).value, r') && Typed(r') && Supply(r') <= Supply(m')
  {
    ChargeRicher(h, g, m, m', b, c, tx);
    ChargeSupply(h, g, m', b, c, tx);
    assert b.price <= tx.price;
    RewardWithinFee(g, b, tx);
    var m1' := ExecCharge(h, g, m', b, c, tx).value;
    var seed, reward := h.lottery(bid, tx.ID()), RewardAmount(g, b, tx);
    FoulDraw(h, m1', seed);
    var d := DrawFrom(h, m1', seed);
    hide ExecCharge, DrawFrom, RewardAmount, Foul, Richer, Supply, Typed, Fee, ModifyBalance;
    if d.Winner? && d.info.owner != tx.sender {
      BalanceWithinSupply(m1', d.info.owner);
      RicherGets(ExecCharge(h, g, m, b, c, tx).value, m1', d.info.owner, reward);
      ModifySupply(m1', d.info.owner, true, reward);
    }
  }

  /** The transactions executed in a run of the lottery that pays nobody. */
  ghost function Unrewarded(h: Hashes, g: Genesis, m: Db, b: Block, c: Context, txs: seq<Tx>): Result<Db> {
    if |txs| == 0 then Ok(m)
    else match Unrewarded(h, g, m, b, c, txs[..|txs| - 1])
      case Err(e) => Err(e)
      case Ok(m1) => ExecCharge(h, g, m1, b, c, txs[|txs| - 1])
  }

  /** If they succeed when nobody wins, they succeed whoever wins, unless a draw is foul. */
  lemma {:induction false} WinnersDoNotMatter(h: Hashes, g: Genesis, m: Db, b: Block, bid: BlockID, c: Context,
                                              txs: seq<Tx>)
    requires Typed(m) && Fits(Supply(m)) && AllFit(g, b, txs) && b.price == c.nextPrice
    requires Unrewarded(h, g, m, b, c, txs).Ok? && !FoulTxs(h, g, m, b, bid, c, txs)
    ensures ExecTxs(h, g, m, b, bid, c, txs).Ok? && Typed(Unrewarded(h, g, m, b, c, txs).value)
    ensures var m' := ExecTxs(h, g, m, b, bid, c, txs).value;
      Richer(Unrewarded(h, g, m, b, c, txs).value, m') && Typed(m') && Supply(m') <= Supply(m)
  {
    hide ExecTx, ExecCharge, FoulTx, Typed, Supply, TxFits, AllFit, Richer;
    if |txs| == 0 {
      RicherSelf(m);
    } else {
      var n := |txs| - 1;
      LastFits(g, b, txs);
      WinnersDoNotMatter(h, g, m, b, bid, c, txs[..n]);
      var u, r := Unrewarded(h, g, m, b, c, txs[..n]).value, ExecTxs(h, g, m, b, bid, c, txs[..n]).value;
      TxRicher(h, g, u, r, b, bid, c, txs[n]);
      ChargeSupply(h, g, u, b, c, txs[n]);
    }
  }
}

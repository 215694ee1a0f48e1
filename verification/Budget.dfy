/** The lifetime budget of a space: the time it has left when last updated, times its units. */
module Budget {
  import opened Types
  import opened Keys
  import opened Store
  import opened Spaces
  import opened Chain
  import opened Preservation
  import opened Blocks
  import opened BlockInvariants

  /** Lifeline units bought so far for each incarnation of a space. */
  type Ledger = map<RawID, nat>

  function Bought(l: Ledger, r: RawID): nat {
    if r in l then l[r] else 0
  }

  function Credit(m: Db, l: Ledger, a: Action): Ledger {
    if a.Lifeline? && GetInfo(m, a.space).Some? then
      var r := GetInfo(m, a.space).value.raw;
      l[r := Bought(l, r) + a.units]
    else l
  }

  /** Measured from the last update, as the code does, not from the current time. */
  function Remaining(i: SpaceInfo): int {
    (i.expiry - i.updated) * i.units
  }

  /** A claim's worth plus a claim's worth for each lifeline unit bought. */
  function Allowance(g: Genesis, l: Ledger, r: RawID): nat {
    Times(g.claimReward, 1 + Bought(l, r))
  }

  function Times(a: nat, b: nat): (r: nat) {
    MulNonNegative(a, b);
    a * b
  }

  lemma MulNonNegative(a: nat, b: nat)
    ensures 0 <= a * b
  {
  }

  ghost predicate WithinBudget(g: Genesis, m: Db, l: Ledger) {
    forall s :: InfoKey(s) in m && m[InfoKey(s)].InfoVal? ==>
      Remaining(m[InfoKey(s)].info) <= Allowance(g, l, m[InfoKey(s)].info.raw)
  }

  // ---------- Arithmetic of a division followed by a multiplication ----------

  lemma DivMul(a: nat, b: nat)
    requires b > 0
    ensures a - b < a / b * b <= a
    ensures 0 <= a / b <= a
  {
    QuotientSmaller(a, b);
  }

  lemma QuotientSmaller(a: nat, b: nat)
    requires b > 0
    ensures 0 <= a / b <= a
  {
    if a / b > a {
      MulAtLeast(a / b, b);
    }
  }

  lemma MulAtLeast(a: nat, b: nat)
    requires b > 0
    ensures a * b >= a
  {
    MulStep(a, b - 1);
  }

  lemma MulStep(a: nat, b: nat)
    ensures a * (b + 1) == a * b + a
    ensures 0 <= a * b
  {
  }

  lemma Distribute(a: int, b: int, c: int)
    ensures (a + b) * c == a * c + b * c
  {
  }

  // ---------- One transaction ----------

  /** Set and Delete carry the budget over to the new number of units: it never grows, and what is
      lost to truncation is less than the new units. */
  lemma UpdateCarriesBudget(t: TxContext, i: SpaceInfo, units: uint64)
    requires i.updated <= i.expiry && units > 0
    requires Fits(Remaining(i)) && Fits(t.blockTime + Remaining(i) / units)
    ensures var i' := i.(units := units, updated := t.blockTime, expiry := W(t.blockTime + TimeRemaining(i) / units));
      Remaining(i) - units < Remaining(i') <= Remaining(i)
  {
    MulNonNegative(i.expiry - i.updated, i.units);
    DivMul(Remaining(i), units);
  }

  /** When a value is replaced by one of the same units, the whole remaining lifetime starts over at
      the time of the transaction: the clock is reset at no cost in budget. */
  lemma SameUnitsRenew(t: TxContext, i: SpaceInfo)
    requires i.updated <= i.expiry && i.units > 0
    requires Fits(Remaining(i)) && Fits(t.blockTime + (i.expiry - i.updated))
    ensures W(t.blockTime + TimeRemaining(i) / i.units) == t.blockTime + (i.expiry - i.updated)
  {
    MulNonNegative(i.expiry - i.updated, i.units);
    DivExact(i.expiry - i.updated, i.units);
  }

  lemma DivExact(a: nat, b: nat)
    requires b > 0
    ensures a * b / b == a
  {
    var q := a * b / b;
    MulNonNegative(a, b);
    DivMul(a * b, b);
    MulMonotone(q + 1, a, b);
    MulMonotone(a + 1, q, b);
    Distribute(q, 1, b);
    Distribute(a, 1, b);
  }

  lemma MulMonotone(a: int, b: int, c: nat)
    ensures a <= b ==> a * c <= b * c
  {
  }

  /** A lifeline adds at most a claim's worth per unit bought. */
  lemma LifelineAddsBudget(g: Genesis, i: SpaceInfo, units: uint64)
    requires i.updated <= i.expiry && i.units > 0
    requires Fits(g.claimReward * units) && Fits(i.expiry + g.claimReward * units / i.units)
    ensures var i' := i.(expiry := W(i.expiry + W(g.claimReward * units) / i.units));
      Remaining(i) <= Remaining(i') <= Remaining(i) + Times(g.claimReward, units)
  {
    DivMul(g.claimReward * units, i.units);
    Distribute(i.expiry - i.updated, g.claimReward * units / i.units, i.units);
    MulNonNegative(g.claimReward * units / i.units, i.units);
  }

  lemma AllowanceGrows(g: Genesis, l: Ledger, r: RawID, units: nat)
    ensures Allowance(g, l[r := Bought(l, r) + units], r) == Allowance(g, l, r) + Times(g.claimReward, units)
    ensures Allowance(g, l, r) >= g.claimReward
  {
    var a, b := 1 + Bought(l, r), units;
    assert g.claimReward * (a + b) == g.claimReward * a + g.claimReward * b;
    MulStep(g.claimReward, Bought(l, r));
  }

  ghost predicate SpaceWithin(g: Genesis, m: Db, l: Ledger, s: Name) {
    && InfoKey(s) in m && m[InfoKey(s)].InfoVal?
    && Remaining(m[InfoKey(s)].info) <= Allowance(g, l, m[InfoKey(s)].info.raw)
  }

  lemma ClaimBudget(g: Genesis, m: Db, t: TxContext, s: Name, l: Ledger)
    requires ActionFits(g, m, t, Claim(s)) && ExecClaim(g, m, t, s).Ok?
    ensures SpaceWithin(g, ExecClaim(g, m, t, s).value, l, s)
  {
    DivMul(g.claimReward, g.claimExpiryUnits);
    AllowanceGrows(g, l, RawOf(s, t.blockTime), 0);
  }

  lemma LifelineBudget(g: Genesis, m: Db, t: TxContext, s: Name, units: uint64, l: Ledger)
    requires Inv(g, m, t.blockTime) && WithinBudget(g, m, l)
    requires ActionFits(g, m, t, Lifeline(s, units)) && ExecLifeline(g, m, s, units).Ok?
    ensures SpaceWithin(g, ExecLifeline(g, m, s, units).value, Credit(m, l, Lifeline(s, units)), s)
  {
    var i := m[InfoKey(s)].info;
    LifelineAddsBudget(g, i, units);
    AllowanceGrows(g, l, i.raw, units);
  }

  /** The last step of Set and Delete. */
  lemma UpdateBudget(g: Genesis, m: Db, m1: Db, t: TxContext, s: Name, units: uint64, l: Ledger)
    requires Inv(g, m, t.blockTime) && WithinBudget(g, m, l)
    requires InfoKey(s) in m && units > 0 && SpaceFits(t, m[InfoKey(s)].info, units)
    ensures var i := m[InfoKey(s)].info;
      SpaceWithin(g, UpdateSpace(m1, s, t, TimeRemaining(i), i.(units := units)).value, l, s)
  {
    UpdateCarriesBudget(t, m[InfoKey(s)].info, units);
  }

  lemma SetBudget(h: Hashes, g: Genesis, m: Db, t: TxContext, s: Name, x: Name, value: seq<byte>, l: Ledger)
    requires Inv(g, m, t.blockTime) && WithinBudget(g, m, l)
    requires ActionFits(g, m, t, Set(s, x, value)) && ExecSet(h, g, m, t, s, x, value).Ok?
    ensures SpaceWithin(g, ExecSet(h, g, m, t, s, x, value).value, l, s)
  {
    var i := m[InfoKey(s)].info;
    var v := GetMeta(m, i.raw, x);
    var meta := ValueMeta(|value|, t.txID, if v.Some? then v.value.created else t.blockTime, t.blockTime);
    var units := Reunit(g, i.units, v, Some(meta.size));
    NoDeadBranch(h, g, m, t, Set(s, x, value));
    assert g.claimExpiryUnits + UnitsAt(g, m, i.raw, x) <= i.units;
    assert units == i.units - UnitsAt(g, m, i.raw, x) + ExpiryUnits(g, |value|);
    UpdateBudget(g, m, m[ValueKey(i.raw, x) := MetaVal(meta)], t, s, units, l);
  }

  lemma DeleteBudget(h: Hashes, g: Genesis, m: Db, t: TxContext, s: Name, x: Name, l: Ledger)
    requires Inv(g, m, t.blockTime) && WithinBudget(g, m, l)
    requires ActionFits(g, m, t, Delete(s, x)) && ExecDelete(g, m, t, s, x).Ok?
    ensures SpaceWithin(g, ExecDelete(g, m, t, s, x).value, l, s)
  {
    var i := m[InfoKey(s)].info;
    var units := Reunit(g, i.units, GetMeta(m, i.raw, x), None);
    NoDeadBranch(h, g, m, t, Delete(s, x));
    assert g.claimExpiryUnits + UnitsAt(g, m, i.raw, x) <= i.units;
    assert units == i.units - UnitsAt(g, m, i.raw, x);
    UpdateBudget(g, m, m - {ValueKey(i.raw, x)}, t, s, units, l);
  }

  /** No transaction takes any space past its allowance. */
  lemma ActionKeepsBudget(h: Hashes, g: Genesis, m: Db, t: TxContext, a: Action, l: Ledger)
    requires Inv(g, m, t.blockTime) && ActionFits(g, m, t, a) && ExecAction(h, g, m, t, a).Ok?
    requires WithinBudget(g, m, l)
    ensures WithinBudget(g, ExecAction(h, g, m, t, a).value, Credit(m, l, a))
  {
    var m', l' := ExecAction(h, g, m, t, a).value, Credit(m, l, a);
    hide ActionFits, ExecClaim, ExecLifeline, ExecSet, ExecDelete, Allowance;
    match a {
      case Claim(s) => ClaimBudget(g, m, t, s, l);
      case Lifeline(s, units) => LifelineBudget(g, m, t, s, units, l);
      case Set(s, x, value) => SetBudget(h, g, m, t, s, x, value, l);
      case Delete(s, x) => DeleteBudget(h, g, m, t, s, x, l);
      case Move(s, owner) => assert SpaceWithin(g, m', l, s);
      case Transfer(_, _) =>
    }
    OthersKeepBudget(h, g, m, t, a, l);
  }

  /** A transaction rewrites the record of the space it names and no other. */
  lemma OneRecordChanges(h: Hashes, g: Genesis, m: Db, t: TxContext, a: Action)
    requires ExecAction(h, g, m, t, a).Ok?
    ensures var m' := ExecAction(h, g, m, t, a).value;
      forall s :: a.Transfer? || s != a.space ==>
        (InfoKey(s) in m' <==> InfoKey(s) in m) && (InfoKey(s) in m ==> m'[InfoKey(s)] == m[InfoKey(s)])
  {
  }

  lemma OthersKeepBudget(h: Hashes, g: Genesis, m: Db, t: TxContext, a: Action, l: Ledger)
    requires Inv(g, m, t.blockTime) && WithinBudget(g, m, l) && ExecAction(h, g, m, t, a).Ok?
    ensures var m' := ExecAction(h, g, m, t, a).value;
      forall s :: InfoKey(s) in m' && m'[InfoKey(s)].InfoVal? && (a.Transfer? || s != a.space) ==>
        SpaceWithin(g, m', Credit(m, l, a), s)
  {
    OneRecordChanges(h, g, m, t, a);
    hide ExecAction;
  }

  // ---------- Over whole chains ----------

  lemma SameRecords(g: Genesis, m: Db, m': Db, l: Ledger)
    requires WithinBudget(g, m, l)
    requires forall s :: InfoKey(s) in m' ==> InfoKey(s) in m && m'[InfoKey(s)] == m[InfoKey(s)]
    ensures WithinBudget(g, m', l)
  {
  }

  lemma FeeKeepsBudget(g: Genesis, m: Db, b: Block, tx: Tx, l: Ledger)
    requires Inv(g, m, W(b.tmstmp)) && TxGood(g, m, b, tx) && WithinBudget(g, m, l)
    requires ModifyBalance(m, tx.sender, false, Fee(g, tx)).Ok?
    ensures var m1 := ModifyBalance(m, tx.sender, false, Fee(g, tx)).value;
      && Inv(g, m1, W(b.tmstmp)) && ActionFits(g, m1, ContextOf(b, tx), tx.action) && WithinBudget(g, m1, l)
      && Credit(m1, l, tx.action) == Credit(m, l, tx.action)
  {
    var m1 := ModifyBalance(m, tx.sender, false, Fee(g, tx)).value;
    BalanceKeepsInv(g, m, W(b.tmstmp), tx.sender, false, Fee(g, tx));
    FitsAfterFee(g, m, tx.sender, false, Fee(g, tx), ContextOf(b, tx), tx.action);
    SameRecords(g, m, m1, l);
  }

  lemma ChargeKeepsBudget(h: Hashes, g: Genesis, m: Db, b: Block, c: Context, tx: Tx, l: Ledger)
    requires Inv(g, m, W(b.tmstmp)) && TxGood(g, m, b, tx) && WithinBudget(g, m, l)
    requires ExecCharge(h, g, m, b, c, tx).Ok?
    ensures WithinBudget(g, ExecCharge(h, g, m, b, c, tx).value, Credit(m, l, tx.action))
  {
    hide ExecAction, ActionFits, Credit, Fee, Inv, TxGood, ModifyBalance, ExecuteBase;
    FeeKeepsBudget(g, m, b, tx, l);
    var m1 := ModifyBalance(m, tx.sender, false, Fee(g, tx)).value;
    ActionKeepsBudget(h, g, m1, ContextOf(b, tx), tx.action, l);
    SameRecords(g, ExecAction(h, g, m1, ContextOf(b, tx), tx.action).value, ExecCharge(h, g, m, b, c, tx).value,
      Credit(m, l, tx.action));
  }

  lemma RewardKeepsRecords(h: Hashes, g: Genesis, m: Db, b: Block, bid: BlockID, c: Context, tx: Tx)
    requires ExecTx(h, g, m, b, bid, c, tx).Ok?
    ensures ExecCharge(h, g, m, b, c, tx).Ok?
    ensures var m1, m' := ExecCharge(h, g, m, b, c, tx).value, ExecTx(h, g, m, b, bid, c, tx).value;
      forall s :: InfoKey(s) in m' ==> InfoKey(s) in m1 && m'[InfoKey(s)] == m1[InfoKey(s)]
  {
    hide ExecCharge;
  }

  lemma TxKeepsBudget(h: Hashes, g: Genesis, m: Db, b: Block, bid: BlockID, c: Context, tx: Tx, l: Ledger)
    requires Inv(g, m, W(b.tmstmp)) && TxGood(g, m, b, tx) && WithinBudget(g, m, l)
    requires ExecTx(h, g, m, b, bid, c, tx).Ok?
    ensures WithinBudget(g, ExecTx(h, g, m, b, bid, c, tx).value, Credit(m, l, tx.action))
  {
    hide ExecCharge, ExecTx, Credit;
    RewardKeepsRecords(h, g, m, b, bid, c, tx);
    ChargeKeepsBudget(h, g, m, b, c, tx, l);
    SameRecords(g, ExecCharge(h, g, m, b, c, tx).value, ExecTx(h, g, m, b, bid, c, tx).value, Credit(m, l, tx.action));
  }

  ghost function LedgerAfter(h: Hashes, g: Genesis, m: Db, b: Block, bid: BlockID, c: Context, txs: seq<Tx>,
                             l: Ledger): Ledger {
    if |txs| == 0 then l
    else
      var l1, r := LedgerAfter(h, g, m, b, bid, c, txs[..|txs| - 1], l), ExecTxs(h, g, m, b, bid, c, txs[..|txs| - 1]);
      if r.Ok? then Credit(r.value, l1, txs[|txs| - 1].action) else l1
  }

  lemma {:induction false} TxsKeepBudget(h: Hashes, g: Genesis, m: Db, b: Block, bid: BlockID, c: Context,
                                         txs: seq<Tx>, l: Ledger)
    requires Inv(g, m, W(b.tmstmp)) && W(b.tmstmp) >= 1 && WithinBudget(g, m, l)
    requires TxsGood(h, g, m, b, bid, c, txs) && ExecTxs(h, g, m, b, bid, c, txs).Ok?
    ensures WithinBudget(g, ExecTxs(h, g, m, b, bid, c, txs).value, LedgerAfter(h, g, m, b, bid, c, txs, l))
  {
    hide ExecTx, TxGood;
    if |txs| > 0 {
      var n := |txs| - 1;
      TxsKeepBudget(h, g, m, b, bid, c, txs[..n], l);
      TxsKeepInv(h, g, m, b, bid, c, txs[..n]);
      TxKeepsBudget(h, g, ExecTxs(h, g, m, b, bid, c, txs[..n]).value, b, bid, c, txs[n],
        LedgerAfter(h, g, m, b, bid, c, txs[..n], l));
    }
  }

  /** The ledger after a block executed on state m of its parent. */
  ghost function BlockLedger(h: Hashes, g: Genesis, m: Db, b: Block, boot: bool, l: Ledger): Ledger
    requires b.prnt.BlockHash?
  {
    LedgerAfter(h, g, Expire(m, W(b.tmstmp), boot), b, BlockHash(b), ExecutionContext(g, b.tmstmp, b.prnt), b.txs, l)
  }

  /** The lifeline units bought on a chain, incarnation by incarnation. */
  ghost function ChainLedger(h: Hashes, g: Genesis, o: Origin, boot: bool, id: BlockID): Ledger
    decreases id
  {
    if id == o.id || id == EmptyBlockID || Canon(h, g, o, boot, id.blk.prnt).Err? || id.blk.prnt == EmptyBlockID
    then map[]
    else
      var m, l := Canon(h, g, o, boot, id.blk.prnt).value, ChainLedger(h, g, o, boot, id.blk.prnt);
      BlockLedger(h, g, m, id.blk, boot, l)
  }

  lemma {:induction false} RecordedKeepsRecords(h: Hashes, m: Db, b: Block)
    ensures var m' := Recorded(h, m, b);
      forall s :: InfoKey(s) in m' ==> InfoKey(s) in m && m'[InfoKey(s)] == m[InfoKey(s)]
  {
    ValuesKeepRecords(m[LastAcceptedKey := IDVal(BlockHash(b))], b.txs);
  }

  lemma {:induction false} ValuesKeepRecords(m: Db, txs: seq<Tx>)
    ensures forall s :: InfoKey(s) in WithValues(m, txs) ==>
      InfoKey(s) in m && WithValues(m, txs)[InfoKey(s)] == m[InfoKey(s)]
  {
    if |txs| > 0 {
      ValuesKeepRecords(m, txs[..|txs| - 1]);
    }
  }

  lemma BlockKeepsBudget(h: Hashes, g: Genesis, m: Db, b: Block, boot: bool, l: Ledger)
    requires b.prnt.BlockHash? && Inv(g, m, W(b.prnt.blk.tmstmp)) && WithinBudget(g, m, l)
    requires BlockGood(h, g, m, b, boot) && ExecBlock(h, g, m, b, boot).Ok?
    ensures WithinBudget(g, ExecBlock(h, g, m, b, boot).value, BlockLedger(h, g, m, b, boot, l))
  {
    var m0, c := Expire(m, W(b.tmstmp), boot), ExecutionContext(g, b.tmstmp, b.prnt);
    ExpireKeepsInv(g, m, W(b.prnt.blk.tmstmp), W(b.tmstmp), boot);
    SameRecords(g, m, m0, l);
    TxsKeepBudget(h, g, m0, b, BlockHash(b), c, b.txs, l);
    var m1 := ExecTxs(h, g, m0, b, BlockHash(b), c, b.txs).value;
    var l1 := LedgerAfter(h, g, m0, b, BlockHash(b), c, b.txs, l);
    RecordedKeepsRecords(h, m1, b);
    hide ExecTxs, LedgerAfter, Recorded;
    SameRecords(g, m1, Recorded(h, m1, b), l1);
  }

  /** On every chain executed on a plain map, every live space stays within one claim's worth of lifetime
      plus one for each lifeline unit bought for it since it was claimed. */
  lemma {:induction false} ChainKeepsBudget(h: Hashes, g: Genesis, o: Origin, boot: bool, id: BlockID)
    requires OriginGood(g, o) && WithinBudget(g, o.state, map[])
    requires ChainGood(h, g, o, boot, id) && Canon(h, g, o, boot, id).Ok?
    ensures WithinBudget(g, Canon(h, g, o, boot, id).value, ChainLedger(h, g, o, boot, id))
    decreases id
  {
    hide ExecBlock, LedgerAfter;
    if id != o.id {
      ChainKeepsBudget(h, g, o, boot, id.blk.prnt);
      ChainKeepsInv(h, g, o, boot, id.blk.prnt);
      var m, l := Canon(h, g, o, boot, id.blk.prnt).value, ChainLedger(h, g, o, boot, id.blk.prnt);
      BlockKeepsBudget(h, g, m, id.blk, boot, l);
    }
  }

  // ---------- The budget keeps the arithmetic in range ----------

  /** As long as the block time plus the allowance of the space fits in 64 bits, no time computed
      by a transaction on it wraps around. */
  lemma BudgetPreventsWrap(g: Genesis, m: Db, t: TxContext, s: Name, units: nat, l: Ledger)
    requires Inv(g, m, t.blockTime) && WithinBudget(g, m, l) && InfoKey(s) in m
    requires Fits(t.blockTime + Allowance(g, l, m[InfoKey(s)].info.raw) + Times(g.claimReward, units))
    ensures var i := m[InfoKey(s)].info;
      && Fits(Remaining(i))
      && Fits(g.claimReward * units) && Fits(i.expiry + g.claimReward * units / i.units)
      && forall u :: u > 0 ==> Fits(t.blockTime + Remaining(i) / u)
  {
    var i := m[InfoKey(s)].info;
    MulNonNegative(i.expiry - i.updated, i.units);
    MulAtLeast(i.expiry - i.updated, i.units);
    QuotientSmaller(g.claimReward * units, i.units);
    forall u | u > 0
      ensures Fits(t.blockTime + Remaining(i) / u)
    {
      QuotientSmaller(Remaining(i), u);
    }
  }
}

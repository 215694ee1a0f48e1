/** Transactions and blocks carried out on a layered database (claim_tx.go, lifeline_tx.go,
    set_tx.go, delete_tx.go, move_tx.go, transfer_tx.go, common_tx.go, tx.go, block.go). */
module Execution {
  import opened Types
  import opened Bytes
  import opened Keys
  import opened VersionDB
  import S = Store
  import opened Spaces
  import opened Preservation
  import opened Chain
  import B = Blocks
  import opened BlockInvariants
  import opened Limits
  import opened Storage

  type Error? = Option<Error>

  /** What running an operation on a database has to do with what it does to a store. */
  ghost predicate Carries(r: Result<Db>, err: Error?, after: Db) {
    match r
    case Ok(m) => err == None && after == m
    case Err(e) => err == Some(e)
  }

  // ---------- common_tx.go ----------

  method VerifySpace(db: Database, s: Name, t: S.TxContext) returns (r: Result<SpaceInfo>)
    ensures r == S.VerifySpace(db.View(), s, t)
  {
    var i := ReadInfo(db, s);
    if i.None? {
      return Err(ErrSpaceMissing);
    }
    if i.value.owner != t.sender {
      return Err(ErrUnauthorized);
    }
    if i.value.expiry < t.blockTime {
      return Err(ErrSpaceExpired);
    }
    return Ok(i.value);
  }

  method UpdateSpace(db: Database, s: Name, t: S.TxContext, timeRemaining: uint64, info: SpaceInfo)
    returns (err: Error?)
    modifies db
    ensures Carries(S.UpdateSpace(old(db.View()), s, t, timeRemaining, info), err, db.View())
    ensures NoValueTouched(old(db.mem), db.mem)
  {
    var i := info;
    if i.units == 0 {
      return Some(ErrDivideByZero);
    }
    var newTimeRemaining := timeRemaining / i.units;
    i := i.(updated := t.blockTime);
    var lastExpiry := i.expiry;
    i := i.(expiry := W(t.blockTime + newTimeRemaining));
    PutSpaceInfo(db, s, i, lastExpiry);
    return None;
  }

  // ---------- The six transactions ----------

  method ExecClaim(g: Genesis, db: Database, t: S.TxContext, s: Name) returns (err: Error?)
    modifies db
    ensures Carries(S.ExecClaim(g, old(db.View()), t, s), err, db.View())
    ensures NoValueTouched(old(db.mem), db.mem)
  {
    if !CheckContents(s) {
      return Some(ErrInvalidContents);
    }
    if |s| == 42 && LowerHex(t.sender) != s {
      return Some(ErrAddressMismatch);
    }
    if db.Has(InfoKey(s)) {
      return Some(ErrSpaceNotExpired);
    }
    var info := SpaceInfo(t.sender, t.blockTime, t.blockTime,
      W(t.blockTime + g.claimReward / g.claimExpiryUnits), g.claimExpiryUnits, EmptyRaw);
    PutSpaceInfo(db, s, info, 0);
    return None;
  }

  method ExecLifeline(g: Genesis, db: Database, s: Name, units: uint64) returns (err: Error?)
    modifies db
    ensures Carries(S.ExecLifeline(g, old(db.View()), s, units), err, db.View())
    ensures NoValueTouched(old(db.mem), db.mem)
  {
    if units == 0 {
      return Some(ErrNonActionable);
    }
    if !CheckContents(s) {
      return Some(ErrInvalidContents);
    }
    var has := ReadInfo(db, s);
    if has.None? {
      return Some(ErrSpaceMissing);
    }
    var i := has.value;
    if i.units == 0 {
      return Some(ErrDivideByZero);
    }
    var lastExpiry := i.expiry;
    i := i.(expiry := W(i.expiry + W(g.claimReward * units) / i.units));
    PutSpaceInfo(db, s, i, lastExpiry);
    return None;
  }

  method ExecSet(h: Hashes, g: Genesis, db: Database, t: S.TxContext, s: Name, key: Name, value: seq<byte>)
    returns (err: Error?)
    requires Tidy(db.View())
    modifies db
    ensures Carries(S.ExecSet(h, g, old(db.View()), t, s, key, value), err, db.View())
    ensures OnlyLiveTouched(old(db.View()), old(db.mem), db.mem)
  {
    hide S.UpdateSpace, CheckContents, S.TimeRemaining, S.ExpiryUnits, W;
    if !CheckContents(s) || !CheckContents(key) {
      return Some(ErrInvalidContents);
    }
    if |value| == 0 {
      return Some(ErrValueEmpty);
    }
    if |value| > g.maxValueSize {
      return Some(ErrValueTooBig);
    }
    var ok := VerifySpace(db, s, t);
    if ok.Err? {
      return Some(ok.error);
    }
    var i := ok.value;
    if |key| == 66 && key != h.valueHash(value) {
      return Some(ErrInvalidKey);
    }
    var size: uint64 := |value|;
    var meta := ValueMeta(size, t.txID, 0, t.blockTime);
    var v := ReadMeta(db, i.raw, key);
    var timeRemaining := S.TimeRemaining(i);
    if v.Some? {
      i := i.(units := W(i.units - S.ExpiryUnits(g, v.value.size)));
      meta := meta.(created := v.value.created);
    } else {
      meta := meta.(created := t.blockTime);
    }
    i := i.(units := W(i.units + S.ExpiryUnits(g, size)));
    assert S.Live(db.View(), i.raw);
    db.Write(ValueKey(i.raw, key), MetaVal(meta));
    err := UpdateSpace(db, s, t, timeRemaining, i);
  }

  method ExecDelete(g: Genesis, db: Database, t: S.TxContext, s: Name, key: Name) returns (err: Error?)
    requires Tidy(db.View())
    modifies db
    ensures Carries(S.ExecDelete(g, old(db.View()), t, s, key), err, db.View())
    ensures OnlyLiveTouched(old(db.View()), old(db.mem), db.mem)
  {
    hide S.UpdateSpace, CheckContents, S.TimeRemaining, S.ExpiryUnits, W;
    if !CheckContents(s) || !CheckContents(key) {
      return Some(ErrInvalidContents);
    }
    var ok := VerifySpace(db, s, t);
    if ok.Err? {
      return Some(ok.error);
    }
    var i := ok.value;
    var v := ReadMeta(db, i.raw, key);
    if v.None? {
      return Some(ErrKeyMissing);
    }
    var timeRemaining := S.TimeRemaining(i);
    i := i.(units := W(i.units - S.ExpiryUnits(g, v.value.size)));
    assert S.Live(db.View(), i.raw);
    db.Delete(ValueKey(i.raw, key));
    err := UpdateSpace(db, s, t, timeRemaining, i);
  }

  method ExecMove(db: Database, t: S.TxContext, s: Name, recipient: Address) returns (err: Error?)
    modifies db
    ensures Carries(S.ExecMove(old(db.View()), t, s, recipient), err, db.View())
    ensures NoValueTouched(old(db.mem), db.mem)
  {
    if !CheckContents(s) {
      return Some(ErrInvalidContents);
    }
    if recipient == ZERO_ADDRESS || recipient == t.sender {
      return Some(ErrNonActionable);
    }
    var ok := VerifySpace(db, s, t);
    if ok.Err? {
      return Some(ok.error);
    }
    MoveSpaceInfo(db, t.sender, s, ok.value.(owner := recipient));
    return None;
  }

  method ExecTransfer(db: Database, t: S.TxContext, recipient: Address, units: uint64) returns (err: Error?)
    modifies db
    ensures Carries(S.ExecTransfer(old(db.View()), t, recipient, units), err, db.View())
    ensures NoValueTouched(old(db.mem), db.mem)
  {
    if recipient == ZERO_ADDRESS || recipient == t.sender || units == 0 {
      return Some(ErrNonActionable);
    }
    err := ModifyBalance(db, t.sender, false, units);
    if err.None? {
      err := ModifyBalance(db, recipient, true, units);
    }
  }

  method ExecAction(h: Hashes, g: Genesis, db: Database, t: S.TxContext, a: Action) returns (err: Error?)
    requires Tidy(db.View())
    modifies db
    ensures Carries(S.ExecAction(h, g, old(db.View()), t, a), err, db.View())
    ensures OnlyLiveTouched(old(db.View()), old(db.mem), db.mem)
  {
    hide S.ExecClaim, S.ExecLifeline, S.ExecSet, S.ExecDelete, S.ExecMove, S.ExecTransfer, Inv;
    match a
    case Claim(s) => err := ExecClaim(g, db, t, s);
    case Lifeline(s, units) => err := ExecLifeline(g, db, s, units);
    case Set(s, key, value) => err := ExecSet(h, g, db, t, s, key, value);
    case Delete(s, key) => err := ExecDelete(g, db, t, s, key);
    case Move(s, recipient) => err := ExecMove(db, t, s, recipient);
    case Transfer(recipient, units) => err := ExecTransfer(db, t, recipient, units);
  }

  // ---------- Transaction.Execute ----------

  method ExecCharge(h: Hashes, g: Genesis, db: Database, b: Block, c: S.Context, tx: Tx) returns (err: Error?)
    requires Tidy(db.View())
    modifies db
    ensures Carries(S.ExecCharge(h, g, old(db.View()), b, c, tx), err, db.View())
    ensures OnlyLiveTouched(old(db.View()), old(db.mem), db.mem)
  {
    hide S.ExecAction, Tidy, S.ExecuteBase, S.Fee;
    var base := S.ExecuteBase(g, tx);
    if base.Some? {
      return base;
    }
    if tx.blockID !in c.recentBlockIDs {
      return Some(ErrInvalidBlockID);
    }
    if tx.ID() in c.recentTxIDs {
      return Some(ErrDuplicateTx);
    }
    ghost var m := db.View();
    err := ModifyBalance(db, tx.sender, false, S.Fee(g, tx));
    if err.Some? {
      return;
    }
    if tx.price < c.nextPrice {
      return Some(ErrInsufficientPrice);
    }
    BalanceKeepsTidy(m, tx.sender, false, S.Fee(g, tx));
    ghost var m1 := db.View();
    assert forall r :: S.Live(m1, r) == S.Live(m, r);
    err := ExecAction(h, g, db, S.TxContext(W(b.tmstmp), tx.ID(), tx.sender), tx.action);
    if err.Some? {
      return;
    }
    db.Write(TxKey(tx.ID()), NilVal);
  }

  lemma BalanceKeepsTidy(m: Db, a: Address, add: bool, change: uint64)
    requires Tidy(m) && S.ModifyBalance(m, a, add, change).Ok?
    ensures Tidy(S.ModifyBalance(m, a, add, change).value)
  {
  }

  lemma ActionKeepsTidy(h: Hashes, g: Genesis, m: Db, t: S.TxContext, a: Action)
    requires Tidy(m) && S.ExecAction(h, g, m, t, a).Ok?
    ensures Tidy(S.ExecAction(h, g, m, t, a).value)
  {
    hide S.TimeRemaining, S.Reunit, CheckContents, W;
  }

  lemma ChargeKeepsTidy(h: Hashes, g: Genesis, m: Db, b: Block, c: S.Context, tx: Tx)
    requires Tidy(m) && S.ExecCharge(h, g, m, b, c, tx).Ok?
    ensures Tidy(S.ExecCharge(h, g, m, b, c, tx).value)
  {
    hide S.ExecAction, S.Fee, S.ExecuteBase;
    BalanceKeepsTidy(m, tx.sender, false, S.Fee(g, tx));
    hide S.ModifyBalance;
    var m1 := S.ModifyBalance(m, tx.sender, false, S.Fee(g, tx)).value;
    ActionKeepsTidy(h, g, m1, S.TxContext(W(b.tmstmp), tx.ID(), tx.sender), tx.action);
  }

  lemma TxKeepsTidy(h: Hashes, g: Genesis, m: Db, b: Block, bid: BlockID, c: S.Context, tx: Tx)
    requires Tidy(m) && S.ExecTx(h, g, m, b, bid, c, tx).Ok?
    ensures Tidy(S.ExecTx(h, g, m, b, bid, c, tx).value)
  {
    ChargeKeepsTidy(h, g, m, b, c, tx);
    hide S.ExecCharge, S.DrawFrom, S.RewardAmount, Tidy, S.ModifyBalance;
    var m1 := S.ExecCharge(h, g, m, b, c, tx).value;
    var d := S.DrawFrom(h, m1, h.lottery(bid, tx.ID()));
    if S.ExecTx(h, g, m, b, bid, c, tx).value != m1 {
      BalanceKeepsTidy(m1, d.info.owner, true, S.RewardAmount(g, b, tx));
    }
  }

  method ExecTx(h: Hashes, g: Genesis, db: Database, b: Block, bid: BlockID, c: S.Context, tx: Tx) returns (err: Error?)
    requires Sound(h) && Tidy(db.View())
    modifies db
    ensures Carries(S.ExecTx(h, g, old(db.View()), b, bid, c, tx), err, db.View())
    ensures OnlyLiveTouched(old(db.View()), old(db.mem), db.mem)
  {
    hide S.ExecCharge, S.ApplyReward, Tidy, S.RewardAmount;
    ghost var m := db.View();
    err := ExecCharge(h, g, db, b, c, tx);
    if err.Some? {
      return;
    }
    if b.prnt == EmptyBlockID {
      return;
    }
    var reward := S.RewardAmount(g, b, tx);
    if reward == 0 {
      return;
    }
    ChargeKeepsTidy(h, g, m, b, c, tx);
    TidyIsTyped(db.View());
    err := ApplyReward(h, db, bid, tx.ID(), tx.sender, reward);
  }

  lemma TidyIsTyped(m: Db)
    requires Tidy(m)
    ensures Typed(m)
  {
  }

  // ---------- SetLastAccepted ----------

  method SetLastAccepted(h: Hashes, db: Database, b: Block)
    modifies db
    ensures db.View() == B.Recorded(h, old(db.View()), b)
    ensures NoValueTouched(old(db.mem), db.mem)
  {
    var bid := BlockHash(b);
    db.Write(LastAcceptedKey, IDVal(bid));
    ghost var m := db.View();
    var linked: seq<Tx> := [];
    var i := 0;
    while i < |b.txs|
      invariant 0 <= i <= |b.txs|
      invariant db.View() == B.WithValues(m, b.txs[..i]) && linked == B.LinkedTxs(h, b.txs[..i])
      invariant NoValueTouched(old(db.mem), db.mem)
    {
      var tx := b.txs[i];
      assert b.txs[..i + 1][..i] == b.txs[..i];
      if tx.action.Set? && |tx.action.value| > 0 {
        db.Write(TxValueKey(tx.ID()), BytesVal(tx.action.value));
        linked := linked + [tx.(action := Set(tx.action.space, tx.action.key, h.tx(tx.ID())))];
      } else {
        linked := linked + [tx];
      }
      i := i + 1;
    }
    assert b.txs[..i] == b.txs;
    db.Write(BlockKey(bid), BlockVal(b.(txs := linked)));
  }

  // ---------- verify ----------

  /** blockSize never passes the limit on the way. */
  method CheckSize(g: Genesis, txs: seq<Tx>) returns (ok: bool)
    ensures ok == B.SizeOk(g, txs)
    ensures Fits(TotalLoad(g, txs)) ==> (ok <==> TotalLoad(g, txs) <= g.maxBlockSize)
  {
    var size: uint64 := 0;
    var i := 0;
    while i < |txs|
      invariant 0 <= i <= |txs|
      invariant size == LoadOf(g, txs[..i]) && B.SizeOk(g, txs[..i])
    {
      assert txs[..i + 1][..i] == txs[..i];
      size := W(size + S.LoadUnits(g, txs[i].action));
      i := i + 1;
      if size > g.maxBlockSize {
        SizeFailsLater(g, txs, i);
        Decided(g, txs);
        return false;
      }
    }
    assert txs[..i] == txs;
    Decided(g, txs);
    return true;
  }

  lemma Decided(g: Genesis, txs: seq<Tx>)
    ensures Fits(TotalLoad(g, txs)) ==> (B.SizeOk(g, txs) <==> TotalLoad(g, txs) <= g.maxBlockSize)
  {
    if Fits(TotalLoad(g, txs)) {
      SizeExact(g, txs);
    }
  }

  lemma SizeFailsLater(g: Genesis, txs: seq<Tx>, i: nat)
    requires i <= |txs| && !B.SizeOk(g, txs[..i])
    ensures !B.SizeOk(g, txs)
    decreases |txs|
  {
    if i == |txs| {
      assert txs[..i] == txs;
    } else {
      assert txs[..|txs| - 1][..i] == txs[..i];
      SizeFailsLater(g, txs[..|txs| - 1], i);
    }
  }

  lemma GoodPrefix(h: Hashes, g: Genesis, m: Db, b: Block, bid: BlockID, c: S.Context, txs: seq<Tx>, i: nat)
    requires TxsGood(h, g, m, b, bid, c, txs) && i <= |txs|
    ensures TxsGood(h, g, m, b, bid, c, txs[..i])
    decreases |txs|
  {
    hide TxGood, B.ExecTxs;
    if i == |txs| {
      assert txs[..i] == txs;
    } else {
      assert txs[..|txs| - 1][..i] == txs[..i];
      GoodPrefix(h, g, m, b, bid, c, txs[..|txs| - 1], i);
    }
  }

  lemma FailsLater(h: Hashes, g: Genesis, m: Db, b: Block, bid: BlockID, c: S.Context, txs: seq<Tx>, i: nat)
    requires i <= |txs| && B.ExecTxs(h, g, m, b, bid, c, txs[..i]).Err?
    ensures B.ExecTxs(h, g, m, b, bid, c, txs) == B.ExecTxs(h, g, m, b, bid, c, txs[..i])
    decreases |txs|
  {
    hide S.ExecTx;
    if i == |txs| {
      assert txs[..i] == txs;
    } else {
      assert txs[..|txs| - 1][..i] == txs[..i];
      FailsLater(h, g, m, b, bid, c, txs[..|txs| - 1], i);
    }
  }

  /** The keys a layer may hold without getting in the way of pruning below it. */
  ghost predicate SparesQueue(m: Db, mem: Mem) {
    forall k :: k in mem && (k.ValueKey? || k.PruningKey?) ==> !Waiting(m, k.raw)
  }

  /** Nothing leaves the pruning queue. */
  ghost predicate QueueKept(m: Db, m': Db) {
    forall t: uint64, r :: PruningKey(t, r) in m ==> PruningKey(t, r) in m'
  }

  lemma SparesMore(m0: Db, m: Db, now: uint64, before: Mem, after: Mem)
    requires SparesQueue(m0, before) && OnlyLiveTouched(m, before, after)
    requires QueueKept(m0, m) && PruningQueue(m, now)
    ensures SparesQueue(m0, after)
  {
    forall k | k in after && (k.ValueKey? || k.PruningKey?)
      ensures !Waiting(m0, k.raw)
    {
      if k !in before {
        assert S.Live(m, k.raw);
        assert forall t: uint64 :: PruningKey(t, k.raw) !in m;
      }
    }
  }

  lemma ActionKeepsQueue(h: Hashes, g: Genesis, m: Db, t: S.TxContext, a: Action)
    requires S.ExecAction(h, g, m, t, a).Ok?
    ensures QueueKept(m, S.ExecAction(h, g, m, t, a).value)
  {
  }

  lemma TxKeepsQueue(h: Hashes, g: Genesis, m: Db, b: Block, bid: BlockID, c: S.Context, tx: Tx)
    requires S.ExecTx(h, g, m, b, bid, c, tx).Ok?
    ensures QueueKept(m, S.ExecTx(h, g, m, b, bid, c, tx).value)
  {
    hide S.ExecAction, S.ExecuteBase, S.Fee, S.RewardAmount;
    var m1 := S.ModifyBalance(m, tx.sender, false, S.Fee(g, tx)).value;
    ActionKeepsQueue(h, g, m1, S.TxContext(W(b.tmstmp), tx.ID(), tx.sender), tx.action);
  }

  lemma ExpireKeepsQueue(m: Db, now: uint64, bootstrapped: bool)
    ensures QueueKept(m, S.Expire(m, now, bootstrapped))
  {
  }

  lemma NextGood(h: Hashes, g: Genesis, m: Db, b: Block, bid: BlockID, c: S.Context, txs: seq<Tx>, i: nat)
    requires TxsGood(h, g, m, b, bid, c, txs) && i < |txs|
    ensures B.ExecTxs(h, g, m, b, bid, c, txs[..i]).Ok? ==>
      TxGood(g, B.ExecTxs(h, g, m, b, bid, c, txs[..i]).value, b, txs[i])
  {
    hide TxGood, B.ExecTxs;
    GoodPrefix(h, g, m, b, bid, c, txs, i + 1);
    assert txs[..i + 1][..i] == txs[..i];
  }

  method ExecNext(h: Hashes, g: Genesis, db: Database, b: Block, bid: BlockID, c: S.Context, tx: Tx, ghost below: Db)
    returns (err: Error?)
    requires Sound(h) && Inv(g, db.View(), W(b.tmstmp)) && W(b.tmstmp) >= 1 && TxGood(g, db.View(), b, tx)
    requires SparesQueue(below, db.mem) && QueueKept(below, db.View())
    modifies db
    ensures Carries(S.ExecTx(h, g, old(db.View()), b, bid, c, tx), err, db.View())
    ensures err.None? ==> Inv(g, db.View(), W(b.tmstmp)) && SparesQueue(below, db.mem) && QueueKept(below, db.View())
  {
    hide S.ExecTx, Inv, TxGood, SparesQueue, QueueKept, OnlyLiveTouched;
    ghost var m, mem := db.View(), db.mem;
    InvIsTidy(g, m, W(b.tmstmp));
    err := ExecTx(h, g, db, b, bid, c, tx);
    if err.None? {
      TxKeepsInv(h, g, m, b, bid, c, tx);
      TxKeepsQueue(h, g, m, b, bid, c, tx);
      QueueKeptTransitive(below, m, db.View());
      InvIsShape(g, m, W(b.tmstmp));
      SparesMore(below, m, W(b.tmstmp), mem, db.mem);
    }
  }

  method ExecTxs(h: Hashes, g: Genesis, db: Database, b: Block, bid: BlockID, c: S.Context, ghost below: Db)
    returns (err: Error?, surplus: uint64)
    requires Sound(h) && Inv(g, db.View(), W(b.tmstmp)) && W(b.tmstmp) >= 1
    requires TxsGood(h, g, db.View(), b, bid, c, b.txs)
    requires SparesQueue(below, db.mem) && QueueKept(below, db.View())
    modifies db
    ensures Carries(B.ExecTxs(h, g, old(db.View()), b, bid, c, b.txs), err, db.View())
    ensures err.None? ==> surplus == B.Surplus(g, b, b.txs)
    ensures err.None? ==> SparesQueue(below, db.mem) && QueueKept(below, db.View())
  {
    hide S.ExecTx, Inv, TxGood, SparesQueue, QueueKept, TxsGood, S.FeeUnits, W;
    ghost var m := db.View();
    surplus := 0;
    var i := 0;
    while i < |b.txs|
      invariant 0 <= i <= |b.txs|
      invariant B.ExecTxs(h, g, m, b, bid, c, b.txs[..i]) == Ok(db.View())
      invariant surplus == B.Surplus(g, b, b.txs[..i])
      invariant Inv(g, db.View(), W(b.tmstmp))
      invariant SparesQueue(below, db.mem) && QueueKept(below, db.View())
    {
      var tx := b.txs[i];
      assert b.txs[..i + 1][..i] == b.txs[..i] && b.txs[..i + 1][i] == tx;
      NextGood(h, g, m, b, bid, c, b.txs, i);
      err := ExecNext(h, g, db, b, bid, c, tx, below);
      if err.Some? {
        FailsLater(h, g, m, b, bid, c, b.txs, i + 1);
        return;
      }
      surplus := W(surplus + W(W(tx.price - b.price) * S.FeeUnits(g, tx.action)));
      i := i + 1;
    }
    assert b.txs[..i] == b.txs;
    err := None;
  }

  lemma InvIsShape(g: Genesis, m: Db, now: uint64)
    requires Inv(g, m, now)
    ensures Shape(m, now)
  {
  }

  lemma QueueKeptTransitive(a: Db, b: Db, c: Db)
    requires QueueKept(a, b) && QueueKept(b, c)
    ensures QueueKept(a, c)
  {
  }

  const FUTURE_BOUND := 10

  /** StatelessBlock.verify followed by SetLastAccepted, on a new layer over the parent's state. The
      context `c` is the one the VM computed for this block. */
  method VerifyBlock(h: Hashes, g: Genesis, parentState: Db, b: Block, c: S.Context, bootstrapped: bool, now: int)
    returns (err: Error?, db: Database)
    requires Sound(h) && b.prnt.BlockHash? && Inv(g, parentState, W(b.prnt.blk.tmstmp))
    requires b.prnt.blk.tmstmp <= b.tmstmp ==> BlockGood(h, g, parentState, b, bootstrapped)
    requires c == ExecutionContext(g, b.tmstmp, b.prnt)
    ensures fresh(db) && db.base == parentState
    ensures b.tmstmp < now + FUTURE_BOUND ==> Carries(B.ExecBlock(h, g, parentState, b, bootstrapped), err, db.View())
    ensures b.tmstmp >= now + FUTURE_BOUND ==> err.Some?
    ensures err.None? ==> SparesQueue(parentState, db.mem) && QueueKept(parentState, db.View())
  {
    hide Inv, TxsGood, SparesQueue, QueueKept, ExecutionContext, S.Expire, B.ExecTxs, B.Surplus, B.Recorded, B.SizeOk;
    db := new Database(parentState);
    if |b.txs| == 0 {
      return Some(ErrNoTxs), db;
    }
    if b.tmstmp >= now + FUTURE_BOUND {
      return Some(ErrTimestampTooLate), db;
    }
    var sizeOk := CheckSize(g, b.txs);
    if !sizeOk {
      return Some(ErrBlockTooBig), db;
    }
    if b.tmstmp < b.prnt.blk.tmstmp {
      return Some(ErrTimestampTooEarly), db;
    }
    if b.cost != c.nextCost {
      return Some(ErrInvalidCost), db;
    }
    if b.price != c.nextPrice {
      return Some(ErrInvalidPrice), db;
    }
    ExpireKeepsInv(g, parentState, W(b.prnt.blk.tmstmp), W(b.tmstmp), bootstrapped);
    ExpireKeepsQueue(parentState, W(b.tmstmp), bootstrapped);
    InvIsShape(g, parentState, W(b.prnt.blk.tmstmp));
    ghost var mem0 := db.mem;
    ExpireNext(h, db, b.prnt.blk.tmstmp, b.tmstmp, bootstrapped);
    ExpirySpares(parentState, W(b.prnt.blk.tmstmp), db.mem);
    var surplus;
    err, surplus := ExecTxs(h, g, db, b, BlockHash(b), c, parentState);
    if err.Some? {
      return;
    }
    if surplus < W(b.price * b.cost) {
      return Some(ErrInsufficientSurplus), db;
    }
    ghost var m1, mem1 := db.View(), db.mem;
    SetLastAccepted(h, db, b);
    RecordedSpares(h, parentState, m1, b, mem1, db.mem);
    err := None;
  }

  lemma ExpirySpares(m: Db, now: uint64, mem: Mem)
    requires Shape(m, now) && OnlyLiveTouched(m, map[], mem)
    ensures SparesQueue(m, mem)
  {
    SparesMore(m, m, now, map[], mem);
  }

  lemma RecordedSpares(h: Hashes, m: Db, m1: Db, b: Block, mem1: Mem, mem: Mem)
    requires SparesQueue(m, mem1) && QueueKept(m, m1) && NoValueTouched(mem1, mem)
    ensures SparesQueue(m, mem) && QueueKept(m, B.Recorded(h, m1, b))
  {
    ValuesKeepQueue(m1[LastAcceptedKey := IDVal(BlockHash(b))], b.txs);
  }

  lemma {:induction false} ValuesKeepQueue(m: Db, txs: seq<Tx>)
    ensures QueueKept(m, B.WithValues(m, txs))
  {
    if |txs| > 0 {
      ValuesKeepQueue(m, txs[..|txs| - 1]);
    }
  }
}

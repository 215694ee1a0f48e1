/** Pruning and bootstrapping do not matter: two stores that agree on everything but what waits to
    be pruned give the same verdict on every block and go on agreeing. */
module Agreement {
  import opened Types
  import opened Bytes
  import opened Keys
  import opened Store
  import opened Spaces
  import opened Chain
  import opened Preservation
  import opened Blocks
  import opened BlockInvariants

  predicate Shared(k: Key) {
    !k.PruningKey? && !k.ValueKey?
  }

  /** The same records, queues, owners, balances and history, and the same values of live spaces. */
  ghost predicate Agree(m: Db, m': Db) {
    && (forall k :: Shared(k) ==> (k in m <==> k in m'))
    && (forall k :: Shared(k) && k in m ==> m'[k] == m[k])
    && (forall r, x :: Live(m, r) ==> (ValueKey(r, x) in m <==> ValueKey(r, x) in m'))
    && (forall r, x :: Live(m, r) && ValueKey(r, x) in m ==> m'[ValueKey(r, x)] == m[ValueKey(r, x)])
  }

  lemma AgreeReads(m: Db, m': Db)
    requires Agree(m, m')
    ensures forall s :: GetInfo(m', s) == GetInfo(m, s)
    ensures forall r :: Live(m', r) == Live(m, r)
    ensures forall a: Address :: GetBalance(m', a) == GetBalance(m, a)
    ensures forall r, x :: Live(m, r) ==> GetMeta(m', r, x) == GetMeta(m, r, x)
  {
    forall s
      ensures GetInfo(m', s) == GetInfo(m, s)
    {
      assert Shared(InfoKey(s));
    }
    forall a: Address
      ensures GetBalance(m', a) == GetBalance(m, a)
    {
      assert Shared(BalanceKey(a));
    }
  }

  lemma AgreeSymmetric(m: Db, m': Db)
    requires Agree(m, m')
    ensures Agree(m', m)
  {
    AgreeReads(m, m');
  }

  lemma AgreeTransitive(a: Db, b: Db, c: Db)
    requires Agree(a, b) && Agree(b, c)
    ensures Agree(a, c)
  {
    AgreeReads(a, b);
  }

  // ---------- Writes keep agreement ----------

  /** Writing or deleting a key that is not a record, or a value of a live space. */
  lemma AgreeWrite(m: Db, m': Db, k: Key, v: Val)
    requires Agree(m, m') && !k.InfoKey? && !k.PruningKey? && (k.ValueKey? ==> Live(m, k.raw))
    ensures Agree(m[k := v], m'[k := v])
  {
    assert forall r :: Live(m[k := v], r) == Live(m, r);
  }

  lemma AgreeDrop(m: Db, m': Db, k: Key)
    requires Agree(m, m') && !k.InfoKey?
    ensures Agree(m - {k}, m' - {k})
  {
    assert forall r :: Live(m - {k}, r) == Live(m, r);
  }

  /** Writing the record of a space, live or newly claimed: its values must already agree. */
  lemma AgreeRecord(m: Db, m': Db, s: Name, i: SpaceInfo)
    requires Agree(m, m')
    requires forall x :: ValueKey(i.raw, x) in m <==> ValueKey(i.raw, x) in m'
    requires forall x :: ValueKey(i.raw, x) in m ==> m'[ValueKey(i.raw, x)] == m[ValueKey(i.raw, x)]
    ensures Agree(m[InfoKey(s) := InfoVal(i)], m'[InfoKey(s) := InfoVal(i)])
  {
    assert forall r :: Live(m[InfoKey(s) := InfoVal(i)], r) ==> Live(m, r) || r == i.raw;
  }

  lemma AgreePutSpaceInfo(m: Db, m': Db, s: Name, i: SpaceInfo, lastExpiry: uint64)
    requires Agree(m, m')
    requires i.raw.EmptyRaw? || Live(m, i.raw)
    requires i.raw.EmptyRaw? ==> forall x ::
      ValueKey(RawOf(s, i.created), x) !in m && ValueKey(RawOf(s, i.created), x) !in m'
    ensures Agree(PutSpaceInfo(m, s, i, lastExpiry), PutSpaceInfo(m', s, i, lastExpiry))
  {
    var i' := if i.raw.EmptyRaw? then i.(raw := RawOf(s, i.created)) else i;
    var a, a' := m, m';
    if i.raw.EmptyRaw? {
      AgreeWrite(a, a', OwnedKey(i'.owner, s), NilVal);
      a, a' := a[OwnedKey(i'.owner, s) := NilVal], a'[OwnedKey(i'.owner, s) := NilVal];
    }
    if lastExpiry > 0 {
      AgreeDrop(a, a', ExpiryKey(lastExpiry, i'.raw));
      a, a' := a - {ExpiryKey(lastExpiry, i'.raw)}, a' - {ExpiryKey(lastExpiry, i'.raw)};
    }
    AgreeWrite(a, a', ExpiryKey(i'.expiry, i'.raw), ExpiryVal(i'.owner, s));
    a, a' := a[ExpiryKey(i'.expiry, i'.raw) := ExpiryVal(i'.owner, s)],
      a'[ExpiryKey(i'.expiry, i'.raw) := ExpiryVal(i'.owner, s)];
    AgreeRecord(a, a', s, i');
  }

  // ---------- The transactions ----------

  /** Two outcomes are alike: the same error, or states that agree. */
  ghost predicate Alike(r: Result<Db>, r': Result<Db>) {
    if r.Ok? && r'.Ok? then Agree(r.value, r'.value) else r == r'
  }

  lemma ModifyAlike(m: Db, m': Db, a: Address, add: bool, change: uint64)
    requires Agree(m, m')
    ensures Alike(ModifyBalance(m, a, add, change), ModifyBalance(m', a, add, change))
  {
    AgreeReads(m, m');
    var n := if add then GetBalance(m, a) + change else GetBalance(m, a) - change;
    if Fits(n) {
      AgreeWrite(m, m', BalanceKey(a), BalanceVal(n));
    }
  }

  lemma ClaimAlike(g: Genesis, m: Db, m': Db, t: TxContext, s: Name)
    requires Agree(m, m') && Inv(g, m, t.blockTime) && Inv(g, m', t.blockTime)
    ensures Alike(ExecClaim(g, m, t, s), ExecClaim(g, m', t, s))
  {
    hide PutSpaceInfo;
    assert Shared(InfoKey(s));
    if ExecClaim(g, m, t, s).Ok? {
      ClaimIsFresh(m, t.blockTime, s);
      ClaimIsFresh(m', t.blockTime, s);
      AgreePutSpaceInfo(m, m', s,
        SpaceInfo(t.sender, t.blockTime, t.blockTime, W(t.blockTime + g.claimReward / g.claimExpiryUnits),
          g.claimExpiryUnits, EmptyRaw), 0);
    }
  }

  lemma LifelineAlike(g: Genesis, m: Db, m': Db, t: TxContext, s: Name, units: uint64)
    requires Agree(m, m') && Inv(g, m, t.blockTime) && Inv(g, m', t.blockTime)
    ensures Alike(ExecLifeline(g, m, s, units), ExecLifeline(g, m', s, units))
  {
    hide PutSpaceInfo;
    AgreeReads(m, m');
    assert ExecLifeline(g, m, s, units).Ok? <==> ExecLifeline(g, m', s, units).Ok?;
    if ExecLifeline(g, m, s, units).Ok? {
      var i := GetInfo(m, s).value;
      AgreePutSpaceInfo(m, m', s, i.(expiry := W(i.expiry + W(g.claimReward * units) / i.units)), i.expiry);
    }
  }

  lemma UpdateAlike(m: Db, m': Db, t: TxContext, s: Name, remaining: uint64, i: SpaceInfo)
    requires Agree(m, m') && Live(m, i.raw)
    ensures Alike(UpdateSpace(m, s, t, remaining, i), UpdateSpace(m', s, t, remaining, i))
  {
    hide PutSpaceInfo;
    if i.units != 0 {
      AgreePutSpaceInfo(m, m', s, i.(updated := t.blockTime, expiry := W(t.blockTime + remaining / i.units)), i.expiry);
    }
  }

  lemma SetAlike(h: Hashes, g: Genesis, m: Db, m': Db, t: TxContext, s: Name, x: Name, value: seq<byte>)
    requires Agree(m, m') && Inv(g, m, t.blockTime) && Inv(g, m', t.blockTime)
    ensures Alike(ExecSet(h, g, m, t, s, x, value), ExecSet(h, g, m', t, s, x, value))
  {
    AgreeReads(m, m');
    if VerifySpace(m, s, t).Ok? && CheckContents(s) && CheckContents(x) && 0 < |value| <= g.maxValueSize {
      var i := GetInfo(m, s).value;
      assert Live(m, i.raw);
      var v := GetMeta(m, i.raw, x);
      var meta := ValueMeta(|value|, t.txID, if v.Some? then v.value.created else t.blockTime, t.blockTime);
      var k := ValueKey(i.raw, x);
      AgreeWrite(m, m', k, MetaVal(meta));
      UpdateAlike(m[k := MetaVal(meta)], m'[k := MetaVal(meta)], t, s, TimeRemaining(i),
        i.(units := Reunit(g, i.units, v, Some(meta.size))));
    }
  }

  lemma DeleteAlike(g: Genesis, m: Db, m': Db, t: TxContext, s: Name, x: Name)
    requires Agree(m, m') && Inv(g, m, t.blockTime) && Inv(g, m', t.blockTime)
    ensures Alike(ExecDelete(g, m, t, s, x), ExecDelete(g, m', t, s, x))
  {
    AgreeReads(m, m');
    if VerifySpace(m, s, t).Ok? {
      var i := GetInfo(m, s).value;
      assert Live(m, i.raw);
      var k := ValueKey(i.raw, x);
      AgreeDrop(m, m', k);
      UpdateAlike(m - {k}, m' - {k}, t, s, TimeRemaining(i),
        i.(units := Reunit(g, i.units, GetMeta(m, i.raw, x), None)));
    }
  }

  lemma MoveAlike(g: Genesis, m: Db, m': Db, t: TxContext, s: Name, owner: Address)
    requires Agree(m, m') && Inv(g, m, t.blockTime) && Inv(g, m', t.blockTime)
    ensures Alike(ExecMove(m, t, s, owner), ExecMove(m', t, s, owner))
  {
    AgreeReads(m, m');
    if ExecMove(m, t, s, owner).Ok? {
      var i := GetInfo(m, s).value.(owner := owner);
      assert Live(m, i.raw);
      AgreeRecord(m, m', s, i);
      var a, a' := m[InfoKey(s) := InfoVal(i)], m'[InfoKey(s) := InfoVal(i)];
      AgreeDrop(a, a', OwnedKey(t.sender, s));
      a, a' := a - {OwnedKey(t.sender, s)}, a' - {OwnedKey(t.sender, s)};
      AgreeWrite(a, a', OwnedKey(i.owner, s), NilVal);
      a, a' := a[OwnedKey(i.owner, s) := NilVal], a'[OwnedKey(i.owner, s) := NilVal];
      AgreeWrite(a, a', ExpiryKey(i.expiry, i.raw), ExpiryVal(i.owner, s));
    }
  }

  lemma ActionAlike(h: Hashes, g: Genesis, m: Db, m': Db, t: TxContext, a: Action)
    requires Agree(m, m') && Inv(g, m, t.blockTime) && Inv(g, m', t.blockTime)
    ensures Alike(ExecAction(h, g, m, t, a), ExecAction(h, g, m', t, a))
  {
    hide ExecClaim, ExecLifeline, ExecSet, ExecDelete, ExecMove, Inv;
    match a
    case Claim(s) => ClaimAlike(g, m, m', t, s);
    case Lifeline(s, units) => LifelineAlike(g, m, m', t, s, units);
    case Set(s, x, value) => SetAlike(h, g, m, m', t, s, x, value);
    case Delete(s, x) => DeleteAlike(g, m, m', t, s, x);
    case Move(s, owner) => MoveAlike(g, m, m', t, s, owner);
    case Transfer(recipient, units) =>
      ModifyAlike(m, m', t.sender, false, units);
      if ModifyBalance(m, t.sender, false, units).Ok? {
        ModifyAlike(ModifyBalance(m, t.sender, false, units).value, ModifyBalance(m', t.sender, false, units).value,
          recipient, true, units);
      }
  }

  lemma FitsAlike(g: Genesis, m: Db, m': Db, t: TxContext, a: Action)
    requires Agree(m, m') && Inv(g, m, t.blockTime) && ActionFits(g, m, t, a)
    ensures ActionFits(g, m', t, a)
  {
    hide SpaceFits, Agree, Inv;
    AgreeReads(m, m');
    match a
    case Set(s, x, _) =>
      if GetInfo(m, s).Some? {
        UnitsAlike(g, m, m', t.blockTime, s, x);
      }
    case Delete(s, x) =>
      if GetInfo(m, s).Some? {
        UnitsAlike(g, m, m', t.blockTime, s, x);
      }
    case _ =>
  }

  lemma UnitsAlike(g: Genesis, m: Db, m': Db, now: uint64, s: Name, x: Name)
    requires Agree(m, m') && Inv(g, m, now) && GetInfo(m, s).Some?
    ensures UnitsAt(g, m', GetInfo(m, s).value.raw, x) == UnitsAt(g, m, GetInfo(m, s).value.raw, x)
  {
    AgreeReads(m, m');
    assert Live(m, GetInfo(m, s).value.raw);
  }

  // ---------- The lottery ----------

  /** A key that comes no later than a record, and no earlier than a position among the records,
      is a record. */
  lemma BetweenRecords(h: Hashes, seed: seq<byte>, k: Key, s: Name)
    requires Leq(Head(3) + seed, Encode(h, k)) && Leq(Encode(h, k), Encode(h, InfoKey(s)))
    ensures k.InfoKey?
  {
    assert (Head(3) + seed)[0] == 3;
    assert Encode(h, InfoKey(s))[0] == 3;
    assert Encode(h, k)[0] == Tag(k);
  }

  lemma RecordContainsHead(h: Hashes, s: Name)
    ensures Contains(Encode(h, InfoKey(s)), Head(3))
  {
    var e := Encode(h, InfoKey(s));
    assert e[0..] == e && e[..2] == Head(3);
    assert IsPrefix(Head(3), e[0..]);
  }

  /** If the first key in one store is a record, the other store has the same first key. */
  lemma SameWinner(h: Hashes, m: Db, m': Db, seed: seq<byte>, s: Name)
    requires Sound(h) && Agree(m, m') && FirstFrom(h, m, Head(3) + seed) == Some(InfoKey(s))
    ensures FirstFrom(h, m', Head(3) + seed) == Some(InfoKey(s))
  {
    var start := Head(3) + seed;
    assert Shared(InfoKey(s));
    var f := FirstFrom(h, m', start);
    assert IsFirst(h, m, start, InfoKey(s));
    assert f.Some?;
    BetweenRecords(h, seed, f.value, s);
    assert Shared(f.value);
    LessTotal(Encode(h, f.value), Encode(h, InfoKey(s)));
    EncodeInjectiveIf(h, f.value, InfoKey(s));
  }

  lemma EncodeInjectiveIf(h: Hashes, k: Key, k': Key)
    requires Sound(h)
    ensures Encode(h, k) == Encode(h, k') ==> k == k'
  {
    if Encode(h, k) == Encode(h, k') {
      EncodeInjective(h, k, k');
    }
  }

  lemma WinnerMeansRecord(h: Hashes, m: Db, seed: seq<byte>)
    requires Typed(m)
    ensures DrawFrom(h, m, seed).Winner? <==>
      FirstFrom(h, m, Head(3) + seed).Some? && FirstFrom(h, m, Head(3) + seed).value.InfoKey?
    ensures DrawFrom(h, m, seed).Winner? ==> var k := FirstFrom(h, m, Head(3) + seed).value;
      DrawFrom(h, m, seed).info == m[k].info
  {
    var f := FirstFrom(h, m, Head(3) + seed);
    if f.Some? && f.value.InfoKey? {
      RecordContainsHead(h, f.value.space);
    }
  }

  /** Unless the cursor runs into another family's key that happens to contain the record prefix,
      the draw depends on the records alone. */
  lemma SameDraw(h: Hashes, m: Db, m': Db, seed: seq<byte>)
    requires Sound(h) && Agree(m, m') && Typed(m) && Typed(m')
    requires DrawFrom(h, m, seed) != Foreign && DrawFrom(h, m', seed) != Foreign
    ensures DrawFrom(h, m, seed) == DrawFrom(h, m', seed)
  {
    WinnerMeansRecord(h, m, seed);
    WinnerMeansRecord(h, m', seed);
    hide DrawFrom;
    if DrawFrom(h, m, seed).Winner? {
      var s := FirstFrom(h, m, Head(3) + seed).value.space;
      SameWinner(h, m, m', seed, s);
      assert Shared(InfoKey(s));
    } else if DrawFrom(h, m', seed).Winner? {
      AgreeSymmetric(m, m');
      var s := FirstFrom(h, m', Head(3) + seed).value.space;
      SameWinner(h, m', m, seed, s);
    }
  }

  // ---------- Transactions and blocks ----------

  /** Alike, unless one of the two ran into a foreign key in the lottery. */
  ghost predicate AlikeUnlessForeign(r: Result<Db>, r': Result<Db>) {
    r == Err(ErrCodec) || r' == Err(ErrCodec) || Alike(r, r')
  }

  lemma ChargeAlike(h: Hashes, g: Genesis, m: Db, m': Db, b: Block, c: Context, tx: Tx)
    requires Agree(m, m') && Inv(g, m, W(b.tmstmp)) && Inv(g, m', W(b.tmstmp))
    ensures Alike(ExecCharge(h, g, m, b, c, tx), ExecCharge(h, g, m', b, c, tx))
  {
    hide ExecAction, Agree, Inv, ExecuteBase;
    var t := ContextOf(b, tx);
    var fee := Fee(g, tx);
    ModifyAlike(m, m', tx.sender, false, fee);
    var r, r' := ModifyBalance(m, tx.sender, false, fee), ModifyBalance(m', tx.sender, false, fee);
    if r.Ok? {
      BalanceKeepsInv(g, m, t.blockTime, tx.sender, false, fee);
      BalanceKeepsInv(g, m', t.blockTime, tx.sender, false, fee);
      hide ModifyBalance;
      ActionAlike(h, g, r.value, r'.value, t, tx.action);
      var a, a' := ExecAction(h, g, r.value, t, tx.action), ExecAction(h, g, r'.value, t, tx.action);
      if a.Ok? {
        AgreeWrite(a.value, a'.value, TxKey(tx.ID()), NilVal);
      }
    }
  }

  lemma RewardAlike(h: Hashes, m: Db, m': Db, bid: BlockID, tid: TxID, sender: Address, reward: uint64)
    requires Sound(h) && Agree(m, m') && Typed(m) && Typed(m')
    ensures AlikeUnlessForeign(
      ApplyReward(h, m, bid, tid, sender, reward), ApplyReward(h, m', bid, tid, sender, reward))
  {
    hide DrawFrom, ModifyBalance;
    var d, d' := DrawFrom(h, m, h.lottery(bid, tid)), DrawFrom(h, m', h.lottery(bid, tid));
    if d != Foreign && d' != Foreign {
      SameDraw(h, m, m', h.lottery(bid, tid));
      if d.Winner? {
        ModifyAlike(m, m', d.info.owner, true, reward);
      }
    }
  }

  lemma TxAlike(h: Hashes, g: Genesis, m: Db, m': Db, b: Block, bid: BlockID, c: Context, tx: Tx)
    requires Sound(h) && Agree(m, m') && Inv(g, m, W(b.tmstmp)) && Inv(g, m', W(b.tmstmp))
    requires W(b.tmstmp) >= 1 && TxGood(g, m, b, tx)
    ensures TxGood(g, m', b, tx)
    ensures AlikeUnlessForeign(ExecTx(h, g, m, b, bid, c, tx), ExecTx(h, g, m', b, bid, c, tx))
  {
    hide ExecCharge, Agree, ApplyReward, ActionFits;
    FitsAlike(g, m, m', ContextOf(b, tx), tx.action);
    ChargeAlike(h, g, m, m', b, c, tx);
    var r, r' := ExecCharge(h, g, m, b, c, tx), ExecCharge(h, g, m', b, c, tx);
    if r.Ok? {
      ChargeKeepsInv(h, g, m, b, c, tx);
      ChargeKeepsInv(h, g, m', b, c, tx);
      RewardAlike(h, r.value, r'.value, bid, tx.ID(), tx.sender, RewardAmount(g, b, tx));
    }
  }

  lemma {:induction false} TxsAlike(h: Hashes, g: Genesis, m: Db, m': Db, b: Block, bid: BlockID, c: Context,
                                    txs: seq<Tx>)
    requires Sound(h) && Agree(m, m') && Inv(g, m, W(b.tmstmp)) && Inv(g, m', W(b.tmstmp))
    requires W(b.tmstmp) >= 1 && TxsGood(h, g, m, b, bid, c, txs)
    ensures AlikeUnlessForeign(ExecTxs(h, g, m, b, bid, c, txs), ExecTxs(h, g, m', b, bid, c, txs))
    ensures ExecTxs(h, g, m, b, bid, c, txs) != Err(ErrCodec) ==> TxsGood(h, g, m', b, bid, c, txs)
  {
    hide ExecTx, Agree, Inv, TxGood;
    if |txs| > 0 {
      var n := |txs| - 1;
      TxsAlike(h, g, m, m', b, bid, c, txs[..n]);
      var r, r' := ExecTxs(h, g, m, b, bid, c, txs[..n]), ExecTxs(h, g, m', b, bid, c, txs[..n]);
      if r.Ok? && r'.Ok? {
        TxsKeepInv(h, g, m, b, bid, c, txs[..n]);
        TxsKeepInv(h, g, m', b, bid, c, txs[..n]);
        TxAlike(h, g, r.value, r'.value, b, bid, c, txs[n]);
      }
    }
  }

  /** Expiry keeps agreement, whether or not either side defers its deletions. */
  lemma ExpireAlike(m: Db, m': Db, now: uint64, later: uint64, boot: bool, boot': bool)
    requires Agree(m, m') && Shape(m, now) && Shape(m', now)
    ensures Agree(Expire(m, later, boot), Expire(m', later, boot'))
  {
    AgreeReads(m, m');
    assert forall s :: Shared(InfoKey(s));
    ExpiredAtExact(m, now, later);
    ExpiredAtExact(m', now, later);
    var gone := ExpiredAt(m, later);
    assert gone == ExpiredAt(m', later);
    WithoutAlike(m, m', now, gone, boot, boot');
  }

  lemma WithoutAlike(m: Db, m': Db, now: uint64, gone: set<Name>, boot: bool, boot': bool)
    requires Agree(m, m') && Shape(m, now) && Shape(m', now)
    ensures Agree(Without(m, gone, boot), Without(m', gone, boot'))
  {
    AgreeReads(m, m');
    var a, a' := Without(m, gone, boot), Without(m', gone, boot');
    forall k | Shared(k)
      ensures k in a <==> k in a'
      ensures k in a ==> a'[k] == a[k]
    {
      assert k in a <==> k in m && !Drops(m, gone, boot, k);
      assert k in a' <==> k in m' && !Drops(m', gone, boot', k);
    }
    forall r | Live(a, r)
      ensures Live(m, r) && r.space !in gone
    {
      assert InfoKey(r.space) in a;
    }
  }

  lemma {:induction false} ValuesAlike(m: Db, m': Db, txs: seq<Tx>)
    requires Agree(m, m')
    ensures Agree(WithValues(m, txs), WithValues(m', txs))
  {
    if |txs| > 0 {
      var n := |txs| - 1;
      ValuesAlike(m, m', txs[..n]);
      if txs[n].action.Set? {
        AgreeWrite(WithValues(m, txs[..n]), WithValues(m', txs[..n]), TxValueKey(txs[n].ID()),
          BytesVal(txs[n].action.value));
      }
    }
  }

  lemma RecordedAlike(h: Hashes, m: Db, m': Db, b: Block)
    requires Agree(m, m')
    ensures Agree(Recorded(h, m, b), Recorded(h, m', b))
  {
    hide WithValues, Agree;
    var k, v := LastAcceptedKey, IDVal(BlockHash(b));
    AgreeWrite(m, m', k, v);
    ValuesAlike(m[k := v], m'[k := v], b.txs);
    AgreeWrite(WithValues(m[k := v], b.txs), WithValues(m'[k := v], b.txs), BlockKey(BlockHash(b)),
      BlockVal(b.(txs := LinkedTxs(h, b.txs))));
  }

  lemma InvIsShape(g: Genesis, m: Db, now: uint64)
    requires Inv(g, m, now)
    ensures Shape(m, now)
  {
  }

  /** Two nodes that have pruned different amounts, or of which one is still bootstrapping, give a
      block the same verdict and end in states that agree again. */
  lemma BlockAlike(h: Hashes, g: Genesis, m: Db, m': Db, b: Block, boot: bool, boot': bool)
    requires Sound(h) && Agree(m, m') && b.prnt.BlockHash?
    requires Inv(g, m, W(b.prnt.blk.tmstmp)) && Inv(g, m', W(b.prnt.blk.tmstmp))
    requires BlockGood(h, g, m, b, boot)
    ensures AlikeUnlessForeign(ExecBlock(h, g, m, b, boot), ExecBlock(h, g, m', b, boot'))
    ensures ExecBlock(h, g, m, b, boot).Ok? ==> BlockGood(h, g, m', b, boot')
  {
    hide ExecTxs, TxsGood, Agree, Inv, Recorded, Expire, Surplus, ExecutionContext;
    var c := ExecutionContext(g, b.tmstmp, b.prnt);
    if PreVerify(g, b).None? {
      var e, e' := Expire(m, W(b.tmstmp), boot), Expire(m', W(b.tmstmp), boot');
      ExpireKeepsInv(g, m, W(b.prnt.blk.tmstmp), W(b.tmstmp), boot);
      ExpireKeepsInv(g, m', W(b.prnt.blk.tmstmp), W(b.tmstmp), boot');
      InvIsShape(g, m, W(b.prnt.blk.tmstmp));
      InvIsShape(g, m', W(b.prnt.blk.tmstmp));
      ExpireAlike(m, m', W(b.prnt.blk.tmstmp), W(b.tmstmp), boot, boot');
      TxsAlike(h, g, e, e', b, BlockHash(b), c, b.txs);
      var r, r' := ExecTxs(h, g, e, b, BlockHash(b), c, b.txs), ExecTxs(h, g, e', b, BlockHash(b), c, b.txs);
      if r.Ok? && r'.Ok? {
        RecordedAlike(h, r.value, r'.value, b);
      }
    }
  }

  /** Pruning keeps agreement with anything the store agreed with before. */
  lemma PruneAlike(g: Genesis, m: Db, now: uint64, done: set<Key>)
    requires Inv(g, m, now)
    requires forall k :: k in done ==> k.PruningKey? && k in m
    ensures Agree(m, Pruned(m, done))
  {
    PruneKeepsInv(g, m, now, done);
  }
}

/** Two nodes that disagree about a block, because one has pruned and the other has not yet. */
module Divergence {
  import opened Types
  import opened Bytes
  import opened Keys
  import opened Store
  import opened Chain
  import opened Blocks
  import opened BlockInvariants
  import opened Agreement
  import opened Lottery
  import P = Storage
  import opened BlockTree
  import opened ChainVM
  import opened Example

  /** At a share of 34 percent a fee of one unit earns no reward below a price of three. */
  const SHARE: uint64 := 34

  const T1 := 1700000003
  const T2 := 1726542100
  const T3 := 1726542200

  /** The second at which the space runs out ends in the byte 3. */
  const DUE: Key := PruningKey(1726542083, RawOf(SPACE, T1))

  function FirstID(): BlockID {
    BlockHash(First(T1, 1))
  }

  /** A payment, in a block after the space has run out. */
  function Second(): Block {
    Block(FirstID(), T2, 2, 2, 0, [Paying(FirstID(), 2, SENDER)])
  }

  function SecondID(): BlockID {
    BlockHash(Second())
  }

  /** Another payment, in the first block whose transactions can win a reward. */
  function Third(): Block {
    Block(SecondID(), T3, 3, 3, 0, [Paying(SecondID(), 3, SENDER)])
  }

  /** The space is gone, and waits to be pruned. */
  ghost predicate Unpruned(m: Db) {
    Simple(m, {DUE}) && DUE in m && Have(m, 2, 997, 1)
  }

  ghost predicate Clean(m: Db) {
    Simple(m, {}) && Have(m, 2, 997, 1)
  }

  // ---------- The second block ----------

  lemma SecondIsPlain()
    ensures Plain(SHARE, Second(), Second().txs[0])
  {
    OneLoad(SHARE, First(T1, 1).txs);
    assert Second().txs[0].ID() !in TxIDsIn(First(T1, 1).txs);
    hide LoadOf, TxIDsIn;
  }

  ghost predicate Due(m: Db) {
    Simple(m, {DUE}) && DUE in m && Have(m, 2, 1000, 0)
  }

  lemma SpaceRunsOut(m: Db)
    requires Claimed(m, T1)
    ensures Due(Expire(m, T2, true))
  {
    assert ExpiredAt(m, T2) == {SPACE} by {
      forall s | s in ExpiredAt(m, T2)
        ensures s == SPACE
      {
      }
      assert InfoKey(SPACE).space == SPACE;
    }
    hide ExpiredAt;
    var e := ExpiryKey(Ends(T1), Raw(T1));
    assert e in m && DUE == PruningKey(e.ts, e.raw);
    assert Queued(m, {SPACE}) == {DUE} by {
      assert DUE in Queued(m, {SPACE});
    }
    hide Queued;
  }

  lemma SecondRuns(h: Hashes, m: Db)
    requires Claimed(m, T1)
    ensures BlockGood(h, Rules(SHARE), m, Second(), true)
    ensures var r := ExecBlock(h, Rules(SHARE), m, Second(), true); r.Ok? && Unpruned(r.value)
  {
    hide ExecBlock, BlockGood, Recorded, Claimed, ExecCharge, ApplyReward, Expire, Plain, ExecutionContext, Simple,
      AfterPayment, RewardAmount, TxIDsIn;
    var b := Second();
    var t := b.txs[0];
    SecondIsPlain();
    OneTxIsGood(h, SHARE, m, b, t, true);
    OneTxDecides(h, SHARE, m, b, t, true);
    SpaceRunsOut(m);
    PassesChecks(SHARE, b, t);
    var m0 := Expire(m, T2, true);
    Pays(h, m0, b, t, {DUE});
    NoReward();
    StaysSimple(h, AfterPayment(m0, t), b, t, {DUE});
    RecordsOnly(h, AfterPayment(m0, t), b, t);
  }

  lemma NoReward()
    ensures RewardAmount(Rules(SHARE), Second(), Second().txs[0]) == 0
    ensures RewardAmount(Rules(SHARE), Third(), Third().txs[0]) == 1
  {
    OneUnit(SHARE, Second().txs[0].action);
    hide FeeUnits;
  }

  /** What a payment in a plain block does. */
  lemma Pays(h: Hashes, m: Db, b: Block, t: Tx, others: set<Key>)
    requires Plain(SHARE, b, t) && t == Paying(t.blockID, t.price, SENDER) && Simple(m, others)
    requires GetBalance(m, SENDER) >= t.price + 1 && GetBalance(m, RECEIVER) < 10
    ensures ExecCharge(h, Rules(SHARE), m, b, ContextFor(SHARE, b), t) == Ok(AfterPayment(m, t))
    ensures Simple(AfterPayment(m, t), others)
    ensures GetBalance(AfterPayment(m, t), SENDER) == GetBalance(m, SENDER) - t.price - 1
    ensures GetBalance(AfterPayment(m, t), RECEIVER) == GetBalance(m, RECEIVER) + 1
    ensures GetBalance(AfterPayment(m, t), OWNER) == GetBalance(m, OWNER)
    ensures forall k: Key :: !k.BalanceKey? && !k.TxKey? ==>
      (k in AfterPayment(m, t) <==> k in m) && (k in m ==> AfterPayment(m, t)[k] == m[k])
  {
    hide ExecCharge, AfterPayment, LoadOf, TxIDsIn, ExecutionContext, Simple;
    assert OWNER[0] != SENDER[0] && OWNER[0] != RECEIVER[0] && SENDER[0] != RECEIVER[0];
    PassesChecks(SHARE, b, t);
    PaymentCharged(h, SHARE, m, b, ContextFor(SHARE, b), t);
    PaymentIsSimple(m, t, others);
  }

  // ---------- The third block ----------

  lemma ThirdIsPlain()
    ensures Plain(SHARE, Third(), Third().txs[0])
  {
    OneLoad(SHARE, Second().txs);
    assert Third().txs[0].blockID != Second().txs[0].blockID;
    assert Third().txs[0].ID() !in TxIDsIn(Second().txs);
    hide LoadOf, TxIDsIn;
  }

  /** With the queue entry still there, it comes next after the place drawn, wherever that is, and fouls
      the draw. */
  lemma QueueFouls(h: Hashes, m: Db, seed: seq<byte>)
    requires Sound(h) && Simple(m, {DUE}) && DUE in m
    ensures DrawFrom(h, m, seed) == Foreign
  {
    hide Contains, Less;
    ComesNext(h, m, seed, DUE);
    TimeKeyContains(h, 6, DUE.ts, DUE.raw);
    DrawExact(h, m, seed);
  }

  lemma NoHeadInside(e: seq<byte>, x: byte)
    requires |e| == 22 && e[0] == 7 && e[1] == 47 && x != 47 && forall i :: 2 <= i < 22 ==> e[i] == x
    ensures !Contains(e, Head(3))
  {
    forall i | 0 <= i <= |e|
      ensures !IsPrefix(Head(3), e[i..])
    {
      var tail := e[i..];
      if |tail| >= 2 {
        assert tail[0] == e[i] && tail[1] == e[i + 1];
        assert tail[..2][0] == tail[0] && tail[..2][1] == tail[1];
      }
    }
  }

  lemma NoHeadAtEnd()
    ensures !Contains(LAST_ACCEPTED, Head(3))
  {
    forall i | 0 <= i <= |LAST_ACCEPTED|
      ensures !IsPrefix(Head(3), LAST_ACCEPTED[i..])
    {
      var tail := LAST_ACCEPTED[i..];
      if |tail| >= 2 {
        assert tail[0] == LAST_ACCEPTED[i] && tail[..2][0] == tail[0];
      }
    }
  }

  lemma NoHeadIn(h: Hashes, k: Key)
    requires Expected(k, {}) && Tag(k) > 3
    ensures !Contains(Encode(h, k), Head(3))
  {
    hide Contains;
    if k.BalanceKey? {
      var e := Encode(h, k);
      assert e == [7, 47] + k.addr;
      assert forall i :: 2 <= i < 22 ==> e[i] == k.addr[i - 2];
      NoHeadInside(e, k.addr[0]);
    } else {
      NoHeadAtEnd();
    }
  }

  /** With nothing left of the space, the draw pays nobody. */
  lemma NobodyWins(h: Hashes, m: Db, seed: seq<byte>)
    requires Sound(h) && Simple(m, {})
    ensures DrawFrom(h, m, seed) == NoSpace
  {
    hide Contains, Less, Encode;
    DrawExact(h, m, seed);
    var next := FirstFrom(h, m, Head(3) + seed);
    if next.Some? {
      var k := next.value;
      assert k in m && Expected(k, {});
      TagDecides(h, k, seed);
      NoHeadIn(h, k);
    }
  }

  lemma ThirdDecides(h: Hashes, m: Db, others: set<Key>)
    requires Simple(m, others) && Have(m, 2, 997, 1) && InfoKey(SPACE) !in others
    requires forall k :: k in others ==> k == DUE
    ensures BlockGood(h, Rules(SHARE), m, Third(), true)
    ensures var m1 := AfterPayment(m, Third().txs[0]);
      var d := DrawFrom(h, m1, h.lottery(BlockHash(Third()), Third().txs[0].ID()));
      && Simple(m1, others) && (forall k: Key :: !k.BalanceKey? && !k.TxKey? ==> (k in m1 <==> k in m))
      && (d == Foreign ==> ExecBlock(h, Rules(SHARE), m, Third(), true) == Err(ErrCodec))
      && (d == NoSpace ==> ExecBlock(h, Rules(SHARE), m, Third(), true).Ok?)
  {
    hide ExecBlock, BlockGood, Recorded, ExecCharge, DrawFrom, Expire, Plain, ExecutionContext, AfterPayment,
      RewardAmount, TxIDsIn;
    var b := Third();
    var t := b.txs[0];
    ThirdIsPlain();
    OneTxIsGood(h, SHARE, m, b, t, true);
    OneTxDecides(h, SHARE, m, b, t, true);
    assert ExpiredAt(m, T3) == {};
    NobodyExpires(m, T3, true);
    hide Simple;
    Pays(h, m, b, t, others);
    NoReward();
  }

  /** The two nodes run the third block: with the queue entry it fails, without it succeeds. */
  lemma ThirdRuns(h: Hashes, m: Db, m': Db)
    requires Sound(h) && Unpruned(m) && Clean(m')
    ensures BlockGood(h, Rules(SHARE), m, Third(), true) && BlockGood(h, Rules(SHARE), m', Third(), true)
    ensures ExecBlock(h, Rules(SHARE), m, Third(), true) == Err(ErrCodec)
    ensures ExecBlock(h, Rules(SHARE), m', Third(), true).Ok?
  {
    hide ExecBlock, BlockGood, DrawFrom, AfterPayment, Simple;
    var t := Third().txs[0];
    ThirdDecides(h, m, {DUE});
    ThirdDecides(h, m', {});
    QueueFouls(h, AfterPayment(m, t), h.lottery(BlockHash(Third()), t.ID()));
    NobodyWins(h, AfterPayment(m', t), h.lottery(BlockHash(Third()), t.ID()));
  }

  lemma PruningCleans(m: Db, done: set<Key>)
    requires Unpruned(m) && P.WorkedOff(m, done, 2)
    ensures Clean(Pruned(m, done)) && done == {DUE}
  {
    forall k | k in done
      ensures k == DUE
    {
    }
    assert done == {} || done == {DUE};
    assert |done| < 2;
  }

  // ---------- Two states of one chain ----------

  /** From genesis, two states the second block may be in, before and after a prune. On the first the
      third block is refused, and on the second it is accepted. */
  lemma UnprunedNodeRefuses(h: Hashes) returns (m: Db, m': Db)
    requires Sound(h)
    ensures StateOk(h, Rules(SHARE), TheOrigin(h), SecondID(), m)
    ensures Canon(h, Rules(SHARE), TheOrigin(h), true, SecondID()) == Ok(m)
    ensures StateOk(h, Rules(SHARE), TheOrigin(h), SecondID(), m') && m' == Pruned(m, {DUE}) && Agree(m, m')
    ensures ExecBlock(h, Rules(SHARE), m, Third(), true) == Err(ErrCodec)
    ensures ExecBlock(h, Rules(SHARE), m', Third(), true).Ok?
  {
    hide StateOk, OriginOk, ExecBlock, BlockGood, Simple, Have, Recorded, Claimed, Agree, Pruned, Unpruned, Clean;
    var g, o := Rules(SHARE), TheOrigin(h);
    GenesisIsSimple(h);
    GenesisIsOk(h, g, Balances(), GenesisBlock());
    FirstRuns(h, SHARE, o.state, T1, 1, true);
    BlockLeadsToState(h, g, o, o.state, First(T1, 1), true);
    var m1 := ExecBlock(h, g, o.state, First(T1, 1), true).value;
    SecondRuns(h, m1);
    BlockLeadsToState(h, g, o, m1, Second(), true);
    m := ExecBlock(h, g, m1, Second(), true).value;
    assert Canon(h, g, o, true, FirstID()) == Ok(m1);
    m' := Pruned(m, {DUE});
    DueIsDue(m);
    PruningCleans(m, {DUE});
    PruneKeepsState(h, g, o, SecondID(), m, {DUE});
    ThirdRuns(h, m, m');
  }

  lemma DueIsDue(m: Db)
    requires Unpruned(m)
    ensures DUE in m && P.WorkedOff(m, {DUE}, 2)
  {
  }

  // ---------- Two nodes ----------

  /** A bootstrapped node that has verified and accepted the first two blocks. */
  method WithSecond(h: Hashes) returns (vm: VM)
    requires Sound(h)
    ensures fresh(vm) && vm.Valid() && vm.h == h && vm.g == Rules(SHARE) && vm.o == TheOrigin(h) && vm.bootstrapped
    ensures vm.lastAccepted == SecondID() && vm.nodes.Keys <= {FirstID(), SecondID()} && Unpruned(vm.db)
  {
    hide VM.Valid, Simple, Have, ExecBlock, BlockGood, Claimed, VM.Exact, ViewOf, Unpruned;
    vm := WithFirst(h, SHARE, T1, 1);
    vm.Accept(FirstID());
    SecondRuns(h, vm.db);
    assert vm.StateOf(FirstID()) == vm.db;
    var err := vm.Verify(Second(), T2);
    assert err == None;
    vm.Accept(SecondID());
  }

  /** Two nodes on one network accept the same two blocks, one of them prunes, and then they are at odds
      about the third, wherever the lottery draws. */
  method NodesDisagree(h: Hashes) returns (a: VM, b: VM, err: Option<Error>, err': Option<Error>)
    requires Sound(h)
    ensures fresh(a) && fresh(b) && a.Valid() && b.Valid() && a.h == b.h == h && a.g == b.g && a.o == b.o
    ensures a.bootstrapped && b.bootstrapped && a.lastAccepted == b.lastAccepted == SecondID()
    ensures err == Some(ErrCodec) && err' == None
  {
    hide VM.Valid, Simple, Have, ExecBlock, BlockGood, VM.Exact, ViewOf, Unpruned, Clean, P.WorkedOff;
    a := WithSecond(h);
    b := WithSecond(h);
    ghost var m := b.db;
    var _, done := b.PruneCall(2);
    PruningCleans(m, done);
    ThirdRuns(h, a.db, b.db);
    assert a.StateOf(SecondID()) == a.db && b.StateOf(SecondID()) == b.db;
    err := a.Verify(Third(), T3);
    err' := b.Verify(Third(), T3);
  }
}

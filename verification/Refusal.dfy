/** A block that is filled and then refused, because the run that filled it paid a reward the run that
    verifies it does not. */
module Refusal {
  import opened Types
  import opened Bytes
  import opened Keys
  import opened Store
  import opened Chain
  import B = Blocks
  import opened BlockInvariants
  import opened Lottery
  import opened Mempool
  import BT = BlockTree
  import opened ChainVM
  import opened Builder
  import opened Built
  import opened Example

  /** At a share of 50 percent a fee of one unit earns a reward of one at a price of two. */
  const SHARE: uint64 := 50

  const T1 := 1700000004
  const T2 := 1700000204

  function FirstID(): BlockID {
    BlockHash(First(T1, 1))
  }

  function Payment(): Tx {
    Paying(FirstID(), 3, SENDER)
  }

  /** The owner of the space spends a reward: the money it has is one short. */
  function Spending(): Tx {
    Paying(FirstID(), 2, OWNER)
  }

  function Ctx(): Context {
    ExecutionContext(Rules(SHARE), T2, FirstID())
  }

  function TheBlock(): Block {
    Block(FirstID(), T2, 2, 2, 0, [])
  }

  function TheJob(h: Hashes, start: Db): Job {
    Job(h, Rules(SHARE), start, TheBlock(), Ctx())
  }

  function Offers(): set<TxID> {
    {Payment().ID(), Spending().ID()}
  }

  function RealID(): BlockID {
    BlockHash(TheBlock().(txs := [Payment(), Spending()]))
  }

  lemma ContextIs()
    ensures Ctx() == Context({FirstID()}, TxIDsIn(First(T1, 1).txs), 0, 2)
    ensures Payment().ID() !in Ctx().recentTxIDs && Spending().ID() !in Ctx().recentTxIDs
    ensures TheBlock() == NewBlock(FirstID(), T2, Ctx())
  {
    OneLoad(SHARE, First(T1, 1).txs);
    ContextOn(SHARE, T2, FirstID());
    assert Payment().action.Transfer? && Spending().action.Transfer? && First(T1, 1).txs[0].action.Claim?;
    hide LoadOf, ExecutionContext;
  }

  lemma NobodyIsDue(m: Db)
    requires Claimed(m, T1)
    ensures Expire(m, T2, true) == m
  {
    assert ExpiredAt(m, T2) == {};
    NobodyExpires(m, T2, true);
  }

  lemma JobIsSetUp(h: Hashes, m: Db)
    requires Claimed(m, T1)
    ensures SetUp(TheJob(h, m), m)
  {
    hide Expire, ExecutionContext, Claimed;
    ContextIs();
    NobodyIsDue(m);
  }

  // ---------- The lottery ----------

  /** The place drawn is past the only record. */
  ghost predicate DrawsPast(h: Hashes, seed: seq<byte>) {
    Less(Encode(h, InfoKey(SPACE)), Head(3) + seed)
  }

  lemma OwnerWins(h: Hashes, m: Db, seed: seq<byte>)
    requires Alive(m, T1) && !DrawsPast(h, seed)
    ensures DrawFrom(h, m, seed) == Winner(Info(T1))
  {
    assert InfoKey(SPACE) in m && RecordAhead(h, m, seed);
    hide DrawFrom, Less, Encode;
    DrawExact(h, m, seed);
    var d := DrawFrom(h, m, seed);
    var s :| FirstRecord(h, m, seed, s) && GetInfo(m, s) == Some(d.info);
    assert s == SPACE;
  }

  lemma NobodyWins(h: Hashes, m: Db, seed: seq<byte>)
    requires Alive(m, T1) && DrawsPast(h, seed)
    ensures !DrawFrom(h, m, seed).Winner?
  {
    hide DrawFrom, Less, Encode, Contains;
    DrawExact(h, m, seed);
    assert forall s :: InfoKey(s) in m ==> s == SPACE;
    assert !RecordAhead(h, m, seed);
  }

  // ---------- The two transactions ----------

  lemma RewardIsOne()
    ensures RewardAmount(Rules(SHARE), TheBlock(), Payment()) == 1
    ensures RewardAmount(Rules(SHARE), TheBlock(), Spending()) == 1
  {
    OneUnit(SHARE, Payment().action);
    hide FeeUnits;
  }

  lemma Affords(m: Db)
    requires Claimed(m, T1)
    ensures GetBalance(m, SENDER) == 1000 && GetBalance(m, RECEIVER) == 0
  {
  }

  /** Both transactions are there, with the balances after the first of them. */
  ghost predicate Paid(m: Db, owner: uint64) {
    Alive(m, T1) && Have(m, owner, 996, 1)
  }

  lemma PaymentChargedAs(h: Hashes, m: Db)
    requires Claimed(m, T1)
    ensures ExecCharge(h, Rules(SHARE), m, TheBlock(), Ctx(), Payment()) == Ok(AfterPayment(m, Payment()))
    ensures Paid(AfterPayment(m, Payment()), 2)
  {
    hide ExecCharge, AfterPayment, ExecutionContext, TxIDsIn, Simple;
    ContextIs();
    PaymentCharged(h, SHARE, m, TheBlock(), Ctx(), Payment());
    PaymentIsSimple(m, Payment(), KeysOfSpace(T1));
    assert OWNER[0] != SENDER[0] && OWNER[0] != RECEIVER[0];
  }

  function Rewarded(m: Db): Db {
    m[BalanceKey(OWNER) := BalanceVal(3)]
  }

  lemma RewardedIsPaid(m: Db)
    requires Paid(m, 2)
    ensures Paid(Rewarded(m), 3) && ModifyBalance(m, OWNER, true, 1) == Ok(Rewarded(m))
  {
    assert OWNER[0] != SENDER[0] && OWNER[0] != RECEIVER[0];
  }

  /** The run that fills the block pays the owner. */
  lemma PaymentPays(h: Hashes, m: Db)
    requires Claimed(m, T1) && !DrawsPast(h, h.lottery(EmptyBlockID, Payment().ID()))
    ensures ExecOne(TheJob(h, m), m, Payment()) == Ok(Rewarded(AfterPayment(m, Payment())))
    ensures Paid(Rewarded(AfterPayment(m, Payment())), 3)
  {
    hide ExecCharge, DrawFrom, DrawsPast, RewardAmount, AfterPayment, Simple, ModifyBalance, ExecutionContext, Rewarded;
    PaymentChargedAs(h, m);
    RewardIsOne();
    OwnerWins(h, AfterPayment(m, Payment()), h.lottery(EmptyBlockID, Payment().ID()));
    RewardedIsPaid(AfterPayment(m, Payment()));
    assert OWNER[0] != SENDER[0];
  }

  lemma SpendingChargedAs(h: Hashes, m: Db, owner: uint64)
    requires Paid(m, owner) && (owner == 2 || owner == 3)
    ensures owner == 2 ==> ExecCharge(h, Rules(SHARE), m, TheBlock(), Ctx(), Spending()).Err?
    ensures owner == 3 ==>
      ExecCharge(h, Rules(SHARE), m, TheBlock(), Ctx(), Spending()) == Ok(AfterPayment(m, Spending()))
    ensures owner == 3 ==> Alive(AfterPayment(m, Spending()), T1)
  {
    hide ExecCharge, AfterPayment, ExecutionContext, TxIDsIn, Simple;
    assert OWNER[0] != RECEIVER[0];
    ContextIs();
    PaymentCharged(h, SHARE, m, TheBlock(), Ctx(), Spending());
    if owner == 3 {
      PaymentIsSimple(m, Spending(), KeysOfSpace(T1));
    }
  }

  /** And then the owner can spend it. */
  lemma SpendingPays(h: Hashes, start: Db, m: Db)
    requires Paid(m, 3) && !DrawsPast(h, h.lottery(EmptyBlockID, Spending().ID()))
    ensures ExecOne(TheJob(h, start), m, Spending()) == Ok(AfterPayment(m, Spending()))
  {
    hide ExecCharge, DrawFrom, DrawsPast, RewardAmount, AfterPayment, Simple, ModifyBalance, ExecutionContext;
    SpendingChargedAs(h, m, 3);
    RewardIsOne();
    OwnerWins(h, AfterPayment(m, Spending()), h.lottery(EmptyBlockID, Spending().ID()));
  }

  // ---------- The block ----------

  /** With an empty block ID both draws stop at the space, and with the real ID the first draws past it. */
  ghost predicate Draws(h: Hashes) {
    && !DrawsPast(h, h.lottery(EmptyBlockID, Payment().ID()))
    && !DrawsPast(h, h.lottery(EmptyBlockID, Spending().ID()))
    && DrawsPast(h, h.lottery(RealID(), Payment().ID()))
  }

  /** Nothing that is asked of the digests rules this out. */
  lemma DrawsCanFallSo(h: Hashes)
    requires Sound(h)
    ensures exists draw :: Sound(h.(lottery := draw)) && Draws(h.(lottery := draw))
  {
    var draw := (bid: BlockID, tid: TxID) => if bid == EmptyBlockID then [] else [98];
    var h' := h.(lottery := draw);
    assert Draws(h') by {
      assert Encode(h', InfoKey(SPACE)) == [3, 47, 97];
      assert Head(3) + [] == [3, 47] && Head(3) + [98] == [3, 47, 98];
      LessSamePrefix([3, 47], [97], []);
      LessSamePrefix([3, 47], [97], [98]);
      assert [3, 47] + [97] == [3, 47, 97] && [3, 47] + [98] == [3, 47, 98];
    }
    assert Sound(h');
  }

  lemma RunsInFull(h: Hashes, m: Db)
    requires Claimed(m, T1) && Draws(h)
    ensures var j := TheJob(h, m);
      && Exec(j, []) == Ok(m) && Exec(j, [Payment()]).Ok? && ExecOne(j, m, Payment()) == Exec(j, [Payment()])
      && ExecOne(j, Exec(j, [Payment()]).value, Spending()).Ok? && Exec(j, [Payment(), Spending()]).Ok?
  {
    hide ExecOne, DrawsPast, AfterPayment, Rewarded, Claimed, Paid, Exec, TotalLoad, IDs, ExecutionContext;
    var j, t1, t2 := TheJob(h, m), Payment(), Spending();
    Affords(m);
    PaymentPays(h, m);
    SpendingPays(h, m, Rewarded(AfterPayment(m, t1)));
    hide Payment, Spending, TheBlock, Filling;
    FillStart(j, {});
    Extended(j, [], t1);
    Extended(j, [t1], t2);
    assert [] + [t1] == [t1] && [t1] + [t2] == [t1, t2];
  }

  lemma BlockIsFilled(h: Hashes, m: Db)
    requires Claimed(m, T1) && Draws(h)
    ensures Filled(TheJob(h, m), Offers(), {}, [Payment(), Spending()])
  {
    hide ExecOne, DrawsPast, Failed, Exec, Claimed;
    var j, t1, t2 := TheJob(h, m), Payment(), Spending();
    RunsInFull(h, m);
    OneUnit(SHARE, t1.action);
    hide LoadUnits;
    Extended(j, [], t1);
    Extended(j, [t1], t2);
    assert [] + [t1] == [t1] && [t1] + [t2] == [t1, t2];
    assert TotalLoad(j.g, []) == 0;
    assert OWNER[0] != SENDER[0];
    assert IDs([t1, t2]) == Offers();
  }

  /** From genesis, a state and two transactions that fill a block on it, and the block does not verify. */
  lemma FilledBlockIsRefused(h: Hashes) returns (m: Db)
    requires Sound(h) && Draws(h)
    ensures BT.StateOk(h, Rules(SHARE), TheOrigin(h), FirstID(), m)
    ensures B.Canon(h, Rules(SHARE), TheOrigin(h), true, FirstID()) == Ok(m)
    ensures SetUp(TheJob(h, m), m) && Filled(TheJob(h, m), Offers(), {}, [Payment(), Spending()])
    ensures B.ExecBlock(h, Rules(SHARE), m, TheBlock().(txs := [Payment(), Spending()]), true).Err?
  {
    hide BT.StateOk, OriginOk, B.ExecBlock, BlockGood, Simple, Have, B.Recorded, Claimed, Filled, SetUp, Draws;
    var g, o := Rules(SHARE), TheOrigin(h);
    GenesisIsSimple(h);
    GenesisIsOk(h, g, Balances(), GenesisBlock());
    FirstRuns(h, SHARE, o.state, T1, 1, true);
    BT.BlockLeadsToState(h, g, o, o.state, First(T1, 1), true);
    m := B.ExecBlock(h, g, o.state, First(T1, 1), true).value;
    IsRefused(h, m);
  }

  lemma IsRefused(h: Hashes, m: Db)
    requires Claimed(m, T1) && Draws(h)
    ensures SetUp(TheJob(h, m), m) && Filled(TheJob(h, m), Offers(), {}, [Payment(), Spending()])
    ensures B.ExecBlock(h, Rules(SHARE), m, TheBlock().(txs := [Payment(), Spending()]), true).Err?
  {
    hide B.ExecBlock, Claimed, Filled, SetUp, ExecCharge, DrawFrom, DrawsPast, AfterPayment, Simple, Have,
      ExecutionContext;
    Affords(m);
    JobIsSetUp(h, m);
    BlockIsFilled(h, m);
    PaymentChargedAs(h, m);
    SpendingChargedAs(h, AfterPayment(m, Payment()), 2);
    NobodyWins(h, AfterPayment(m, Payment()), h.lottery(RealID(), Payment().ID()));
    UnpaidFails(TheJob(h, m), m, Offers(), {}, Payment(), Spending());
  }

  // ---------- A node that loses both transactions ----------

  lemma IsGood(m: Db, t: Tx)
    requires t == Payment() || t == Spending()
    ensures TxGood(Rules(SHARE), m, TheBlock(), t)
  {
    OneUnit(SHARE, t.action);
    hide FeeUnits;
  }

  lemma {:induction false} AllGood(h: Hashes, m: Db, bid: BlockID, txs: seq<Tx>)
    requires forall t :: t in txs ==> t == Payment() || t == Spending()
    ensures TxsGood(h, Rules(SHARE), m, TheBlock(), bid, Ctx(), txs)
  {
    hide B.ExecTxs, ExecutionContext;
    if |txs| > 0 {
      hide TxGood;
      var rest, last := txs[..|txs| - 1], txs[|txs| - 1];
      assert last in txs && forall t :: t in rest ==> t in txs;
      AllGood(h, m, bid, rest);
      var r := B.ExecTxs(h, Rules(SHARE), m, TheBlock(), bid, Ctx(), rest);
      if r.Ok? {
        IsGood(r.value, last);
      }
    }
  }

  lemma NothingWrapsHere(h: Hashes, m: Db)
    ensures NothingWraps(h, Rules(SHARE), m, TheBlock(), Ctx(), Offers())
  {
    hide TxsGood, ExecutionContext, Expire, Distinct;
    OneUnit(SHARE, Payment().action);
    forall bid: BlockID, boot: bool, txs: seq<Tx> | Distinct(txs) && IDs(txs) <= Offers()
      ensures TxsGood(h, Rules(SHARE), Expire(m, W(TheBlock().tmstmp), boot), TheBlock(), bid, Ctx(), txs)
    {
      forall t | t in txs
        ensures t == Payment() || t == Spending()
      {
        var i :| 0 <= i < |txs| && txs[i] == t;
        assert t.ID() in IDs(txs);
      }
      AllGood(h, Expire(m, W(TheBlock().tmstmp), boot), bid, txs);
    }
  }

  /** Neither transaction has a place in the block where it fails. */
  lemma BothStay(h: Hashes, m: Db, txs: seq<Tx>)
    requires Claimed(m, T1) && Draws(h) && IDs(txs) <= Offers() && Distinct(txs)
    ensures Payment() !in txs ==> !Failed(TheJob(h, m), txs, Payment())
    ensures !Failed(TheJob(h, m), [Payment()], Spending())
  {
    hide Exec, ExecOne, Claimed, Draws, Distinct;
    var j, t1, t2 := TheJob(h, m), Payment(), Spending();
    RunsInFull(h, m);
    TxsOf(txs);
    if t1 !in txs {
      forall i: nat | i <= |txs|
        ensures !Fails(j, txs, t1, i)
      {
        assert i > 0 ==> txs[0] in txs && txs[0] == t2;
        assert txs[..0] == [];
      }
    }
    forall i: nat | i <= 1
      ensures !Fails(j, [t1], t2, i)
    {
      assert [t1][..1] == [t1] && [t1][0] == t1;
    }
  }

  /** There is one way to fill the block. */
  lemma OneWayToFill(h: Hashes, m: Db, left: set<TxID>, txs: seq<Tx>)
    requires Claimed(m, T1) && Draws(h) && Filled(TheJob(h, m), Offers(), left, txs)
    ensures left == {} && txs == [Payment(), Spending()]
  {
    hide Exec, ExecOne, Claimed, Draws, TotalLoad, TooLarge, Descending, Distinct, Failed;
    var j, t1, t2 := TheJob(h, m), Payment(), Spending();
    AtMostTwo(txs);
    NoneLeft(j, left, txs);
    BothStay(h, m, txs);
    TxsOf(txs);
    PaymentComesFirst(txs);
    assert t1.ID() in Offers() && t2.ID() in Offers();
    assert t1.ID() in IDs(txs);
    assert t2.ID() in IDs(txs);
  }

  lemma TwoAlike(txs: seq<Tx>, a: Tx, b: Tx) returns (i: nat, k: nat)
    requires |txs| > 2 && forall i :: 0 <= i < |txs| ==> txs[i] == a || txs[i] == b
    ensures i < k < |txs| && txs[i] == txs[k]
  {
    i, k := if txs[0] == txs[1] || txs[0] == txs[2] then 0 else 1, if txs[0] == txs[1] then 1 else 2;
  }

  lemma Repeats(txs: seq<Tx>, i: nat, k: nat)
    requires i < k < |txs| && txs[i] == txs[k]
    ensures !Distinct(txs)
  {
  }

  lemma TwoValues(txs: seq<Tx>, a: Tx, b: Tx)
    requires Distinct(txs) && forall i :: 0 <= i < |txs| ==> txs[i] == a || txs[i] == b
    ensures |txs| <= 2
  {
    hide Distinct;
    if |txs| > 2 {
      var i, k := TwoAlike(txs, a, b);
      Repeats(txs, i, k);
    }
  }

  lemma AtMostTwo(txs: seq<Tx>)
    requires Distinct(txs) && IDs(txs) <= Offers()
    ensures |txs| <= 2 && TotalLoad(Rules(SHARE), txs) <= 2
  {
    hide Payment, Spending, TotalLoad, Distinct, Rules;
    forall i | 0 <= i < |txs|
      ensures txs[i] == Payment() || txs[i] == Spending()
    {
      assert txs[i].ID() in IDs(txs);
    }
    TwoValues(txs, Payment(), Spending());
    TwoLoads(txs);
  }

  lemma {:induction false} TwoLoads(txs: seq<Tx>)
    requires forall i :: 0 <= i < |txs| ==> txs[i] == Payment() || txs[i] == Spending()
    ensures TotalLoad(Rules(SHARE), txs) == |txs|
  {
    if |txs| > 0 {
      TwoLoads(txs[..|txs| - 1]);
      OneUnit(SHARE, txs[|txs| - 1].action);
    }
  }

  /** The dearer transaction is ahead. */
  lemma PaymentComesFirst(txs: seq<Tx>)
    requires Distinct(txs) && Descending(txs) && IDs(txs) <= Offers()
    ensures Payment() in txs ==> txs[0] == Payment()
    ensures Payment() in txs && Spending() !in txs ==> txs == [Payment()]
    ensures Payment() in txs && Spending() in txs ==> txs == [Payment(), Spending()]
  {
    AtMostTwo(txs);
    TxsOf(txs);
  }

  lemma TxsOf(txs: seq<Tx>)
    ensures forall t :: t in txs <==> t.ID() in IDs(txs)
  {
    forall t | t in txs
      ensures t.ID() in IDs(txs)
    {
      var i :| 0 <= i < |txs| && txs[i] == t;
    }
  }

  lemma NoneLeft(j: Job, left: set<TxID>, txs: seq<Tx>)
    requires j.g == Rules(SHARE) && j.b == TheBlock() && Filled(j, Offers(), left, txs)
    requires TotalLoad(j.g, txs) < 200
    ensures left == {}
  {
  }

  method WithOffers() returns (mempool: Mempool)
    ensures fresh(mempool) && fresh(mempool.Repr) && mempool.Valid() && mempool.Held() == Offers()
  {
    hide Mempool.Valid;
    mempool := new Mempool(Rules(SHARE), 2);
    var _ := mempool.Add(Payment());
    var _ := mempool.Add(Spending());
  }

  /** A node that runs BuildBlock with both transactions in its mempool builds nothing, although they fill
      a block, and both are gone. */
  method BuildsNothing(h: Hashes) returns (vm: VM, mempool: Mempool, r: Result<Block>)
    requires Sound(h) && Draws(h)
    ensures fresh(vm) && vm.Valid() && vm.h == h && vm.g == Rules(SHARE) && vm.o == TheOrigin(h) && vm.bootstrapped
    ensures vm.lastAccepted == FirstID() && mempool.Valid()
    ensures r.Err? && mempool.Held() == {}
  {
    hide VM.Valid, Simple, Have, B.ExecBlock, BlockGood, Claimed, VM.Exact, BT.ViewOf, Mempool.Valid, Draws, Filled,
      NothingWraps, ExecutionContext, Expire;
    vm := WithFirst(h, SHARE, T1, 1);
    vm.Accept(FirstID());
    mempool := WithOffers();
    ContextIs();
    NothingWrapsHere(h, vm.db);
    NobodyIsDue(vm.db);
    assert Recent(Offers(), Ctx().recentBlockIDs) == Offers();
    ghost var txs;
    r, txs := BuildBlock(vm, FirstID(), mempool, T2, T2);
    OneWayToFill(h, vm.db, mempool.Held(), txs);
    IsRefused(h, vm.db);
  }
}

/** A small network for counterexamples: its parameters, its genesis, the block in which a space is
    claimed, and what a block with one transaction does. */
module Example {
  import opened Types
  import opened Bytes
  import opened Keys
  import opened Store
  import opened Spaces
  import opened Chain
  import opened Blocks
  import opened BlockInvariants
  import opened Lottery
  import P = Storage
  import BT = BlockTree
  import opened ChainVM

  const OWNER: Address := [1, 1, 1, 1, 1, 1, 1, 1, 1, 1, 1, 1, 1, 1, 1, 1, 1, 1, 1, 1]
  const SENDER: Address := [2, 2, 2, 2, 2, 2, 2, 2, 2, 2, 2, 2, 2, 2, 2, 2, 2, 2, 2, 2]
  const RECEIVER: Address := [4, 4, 4, 4, 4, 4, 4, 4, 4, 4, 4, 4, 4, 4, 4, 4, 4, 4, 4, 4]

  const SPACE: Name := [97]

  /** The default parameters but for the fees: every transaction is one unit, and a block that is not empty
      raises the price by one. The lottery pays `share` percent. */
  function Rules(share: uint64): Genesis
    requires share <= 100
  {
    Params(1, 1, 1024, 204800, 10, 1, 0, 0, 10, 2654208000, 100, share, 1, 60, 1, 0, 246, true)
  }

  /** A claim lasts ClaimReward / ClaimExpiryUnits seconds. */
  const CLAIM_LASTS: uint64 := 26542080

  function GenesisBlock(): Block {
    Block(EmptyBlockID, 0, 0, 1, 0, [])
  }

  function GenesisID(): BlockID {
    BlockHash(GenesisBlock())
  }

  function Balances(): Db {
    map[BalanceKey(OWNER) := BalanceVal(3), BalanceKey(SENDER) := BalanceVal(1000)]
  }

  function TheOrigin(h: Hashes): Origin {
    Origin(GenesisID(), Recorded(h, Balances(), GenesisBlock()))
  }

  function Claiming(on: BlockID, price: uint64, sender: Address): Tx {
    Tx(Claim(SPACE), on, 1, price, sender, [])
  }

  function Paying(on: BlockID, price: uint64, sender: Address): Tx {
    Tx(Transfer(RECEIVER, 1), on, 1, price, sender, [])
  }

  /** The owner claims the space. */
  function First(at: int, hght: uint64): Block {
    Block(GenesisID(), at, hght, 1, 0, [Claiming(GenesisID(), 1, OWNER)])
  }

  // ---------- Stores ----------

  /** The keys the network is about. */
  predicate Expected(k: Key, others: set<Key>) {
    || k in others || k.LastAcceptedKey? || k.BlockKey? || k.TxKey?
    || (k.BalanceKey? && (k.addr == OWNER || k.addr == SENDER || k.addr == RECEIVER))
  }

  ghost predicate Simple(m: Db, others: set<Key>) {
    Typed(m) && forall k :: k in m ==> Expected(k, others)
  }

  predicate Have(m: Db, owner: uint64, sender: uint64, receiver: uint64) {
    GetBalance(m, OWNER) == owner && GetBalance(m, SENDER) == sender && GetBalance(m, RECEIVER) == receiver
  }

  function Raw(at: uint64): RawID {
    RawOf(SPACE, at)
  }

  function Ends(at: uint64): uint64
    requires at < TWO63
  {
    at + CLAIM_LASTS
  }

  function Info(at: uint64): SpaceInfo
    requires at < TWO63
  {
    SpaceInfo(OWNER, at, at, Ends(at), 100, Raw(at))
  }

  function KeysOfSpace(at: uint64): set<Key>
    requires at < TWO63
  {
    {InfoKey(SPACE), OwnedKey(OWNER, SPACE), ExpiryKey(Ends(at), Raw(at))}
  }

  /** The space is live, claimed at the given time, and it is the only one. */
  ghost predicate Alive(m: Db, at: uint64)
    requires at < TWO63
  {
    && Simple(m, KeysOfSpace(at))
    && InfoKey(SPACE) in m && m[InfoKey(SPACE)] == InfoVal(Info(at)) && ExpiryKey(Ends(at), Raw(at)) in m
  }

  /** And nothing has happened since. */
  ghost predicate Claimed(m: Db, at: uint64)
    requires at < TWO63
  {
    Alive(m, at) && Have(m, 2, 1000, 0)
  }

  lemma GenesisIsSimple(h: Hashes)
    ensures Simple(TheOrigin(h).state, {}) && Have(TheOrigin(h).state, 3, 1000, 0)
  {
    assert OWNER[0] != RECEIVER[0] && SENDER[0] != RECEIVER[0] && OWNER[0] != SENDER[0];
    assert WithValues(Balances()[LastAcceptedKey := IDVal(GenesisID())], [])
        == Balances()[LastAcceptedKey := IDVal(GenesisID())];
    assert LinkedTxs(h, []) == [];
  }

  // ---------- A block with one transaction ----------

  /** Whatever came before, the context of a block whose window holds its parent alone. */
  lemma ContextOn(share: uint64, cur: int, p: BlockID)
    requires share <= 100 && p.BlockHash? && p.blk.cost == 0 && p.blk.price < 100
    requires p.blk.tmstmp < cur < TWO63 && 0 <= p.blk.tmstmp
    requires p.blk.hght != 0 ==> p.blk.prnt.BlockHash? && cur - p.blk.prnt.blk.tmstmp > 60
    ensures ExecutionContext(Rules(share), cur, p)
         == Context({p}, TxIDsIn(p.blk.txs), 0, p.blk.price + if LoadOf(Rules(share), p.blk.txs) > 0 then 1 else 0)
  {
    var g := Rules(share);
    WindowIsParent(g, cur, p);
    hide LoadOf, TxIDsIn, Window;
    assert [p][..0] == [] && [p][0] == p;
    assert IDsOf([p]) == {p} && TxIDsOf([]) == {} && UnitsOf(g, []) == 0;
    assert TargetRangeUnits(g) == 0;
  }

  lemma WindowIsParent(g: Genesis, cur: int, p: BlockID)
    requires p.BlockHash? && g.lookbackWindow == 60
    requires p.blk.hght != 0 ==> p.blk.prnt.BlockHash? && cur - p.blk.prnt.blk.tmstmp > 60
    ensures Window(g, cur, p, p) == [p]
  {
    if p.blk.hght != 0 {
      assert p.blk.prnt < p;
      assert Window(g, cur, p.blk.prnt, p) == [];
    }
  }

  /** A block of one transaction of one unit, with the price that is due. */
  predicate Plain(share: uint64, b: Block, t: Tx)
    requires share <= 100
  {
    && b.txs == [t] && (t.action.Transfer? || t.action.Claim?) && b.cost == 0 && 1 <= b.tmstmp < TWO63 - 100000000
    && b.prnt.BlockHash? && 0 <= b.prnt.blk.tmstmp < b.tmstmp && b.prnt.blk.cost == 0 && b.prnt.blk.price < 100
    && (b.prnt.blk.hght != 0 ==> b.prnt.blk.prnt.BlockHash? && b.tmstmp - b.prnt.blk.prnt.blk.tmstmp > 60)
    && b.price == b.prnt.blk.price + (if LoadOf(Rules(share), b.prnt.blk.txs) > 0 then 1 else 0)
    && t.price == b.price >= 1 && t.magic == 1 && t.blockID == b.prnt && t.ID() !in TxIDsIn(b.prnt.blk.txs)
  }

  function ContextFor(share: uint64, b: Block): Context
    requires share <= 100 && b.prnt.BlockHash?
  {
    ExecutionContext(Rules(share), b.tmstmp, b.prnt)
  }

  lemma OneUnit(share: uint64, a: Action)
    requires share <= 100 && (a.Transfer? || a.Claim?)
    ensures LoadUnits(Rules(share), a) == 1
    ensures a == Claim(SPACE) || a.Transfer? ==> FeeUnits(Rules(share), a) == 1
  {
  }

  lemma OneLoad(share: uint64, txs: seq<Tx>)
    requires share <= 100 && |txs| == 1 && (txs[0].action.Transfer? || txs[0].action.Claim?)
    ensures LoadOf(Rules(share), txs) == 1 && SizeOk(Rules(share), txs)
  {
    OneUnit(share, txs[0].action);
    assert txs[..0] == [];
    hide LoadUnits;
    assert LoadOf(Rules(share), txs[..0]) == 0;
  }

  lemma PassesChecks(share: uint64, b: Block, t: Tx)
    requires share <= 100 && Plain(share, b, t)
    ensures PreVerify(Rules(share), b) == None
    ensures ContextFor(share, b) == Context({b.prnt}, TxIDsIn(b.prnt.blk.txs), 0, b.price)
  {
    hide TxIDsIn, LoadOf, ExecutionContext, SizeOk;
    ContextOn(share, b.tmstmp, b.prnt);
    OneLoad(share, b.txs);
  }

  /** Its verdict is that of its transaction. */
  lemma OneTxDecides(h: Hashes, share: uint64, m: Db, b: Block, t: Tx, boot: bool)
    requires share <= 100 && Plain(share, b, t)
    ensures var r := ExecTx(h, Rules(share), Expire(m, W(b.tmstmp), boot), b, BlockHash(b), ContextFor(share, b), t);
      ExecBlock(h, Rules(share), m, b, boot) == if r.Ok? then Ok(Recorded(h, r.value, b)) else r
  {
    hide PreVerify, Expire, ExecTx, ExecTxs, Recorded, ExecutionContext, Surplus, LoadOf, TxIDsIn, W;
    PassesChecks(share, b, t);
    assert W(b.price * b.cost) == 0 by {
      assert W(0) == 0;
    }
    RunsOne(h, Rules(share), Expire(m, W(b.tmstmp), boot), b, BlockHash(b), ContextFor(share, b), t);
  }

  lemma RunsOne(h: Hashes, g: Genesis, m: Db, b: Block, bid: BlockID, c: Context, t: Tx)
    ensures ExecTxs(h, g, m, b, bid, c, [t]) == ExecTx(h, g, m, b, bid, c, t)
    ensures TxGood(g, m, b, t) ==> TxsGood(h, g, m, b, bid, c, [t])
  {
    hide ExecTx, TxGood;
    assert [t][..0] == [];
  }

  lemma OneTxIsGood(h: Hashes, share: uint64, m: Db, b: Block, t: Tx, boot: bool)
    requires share <= 100 && Plain(share, b, t) && (t.action == Claim(SPACE) || t.action.Transfer?)
    ensures BlockGood(h, Rules(share), m, b, boot)
  {
    hide Expire, ExecTx, ExecutionContext, FeeUnits, TxIDsIn, LoadOf, TxsGood;
    OneUnit(share, t.action);
    var m0 := Expire(m, W(b.tmstmp), boot);
    assert b.price * share <= 10000 && 0 <= b.price * share by {
      SmallProduct(b.price, share);
    }
    assert TxFits(Rules(share), b, t);
    assert W(b.tmstmp) == b.tmstmp;
    assert TxGood(Rules(share), m0, b, t);
    RunsOne(h, Rules(share), m0, b, BlockHash(b), ContextFor(share, b), t);
  }

  lemma SmallProduct(a: nat, b: nat)
    requires a <= 100 && b <= 100
    ensures 0 <= a * b <= 10000
  {
  }

  /** Recording a block that carries no values touches nothing else. */
  lemma RecordsOnly(h: Hashes, m: Db, b: Block, t: Tx)
    requires b.txs == [t] && !t.action.Set?
    ensures forall k: Key :: !k.LastAcceptedKey? && !k.BlockKey? ==>
      (k in Recorded(h, m, b) <==> k in m) && (k in m ==> Recorded(h, m, b)[k] == m[k])
    ensures Typed(m) ==> Typed(Recorded(h, m, b))
  {
    assert b.txs[..0] == [];
    var m1 := m[LastAcceptedKey := IDVal(BlockHash(b))];
    assert WithValues(m1, b.txs[..0]) == m1;
    hide LinkedTxs;
  }

  lemma StaysSimple(h: Hashes, m: Db, b: Block, t: Tx, others: set<Key>)
    requires b.txs == [t] && !t.action.Set? && Simple(m, others)
    ensures Simple(Recorded(h, m, b), others)
    ensures forall a: Address :: GetBalance(Recorded(h, m, b), a) == GetBalance(m, a)
  {
    RecordsOnly(h, m, b, t);
    hide Recorded, Typed;
  }

  lemma NobodyExpires(m: Db, now: uint64, boot: bool)
    requires ExpiredAt(m, now) == {}
    ensures Expire(m, now, boot) == m
  {
    P.NothingGone(m, boot, []);
  }

  // ---------- The claim ----------

  /** The store once a fee of one unit at the given price is paid for the space. */
  function AfterClaim(m: Db, t: Tx, at: uint64): Db
    requires at < TWO63 && GetBalance(m, t.sender) >= t.price
  {
    var i := Info(at).(owner := t.sender);
    m[BalanceKey(t.sender) := BalanceVal(GetBalance(m, t.sender) - t.price)]
    [OwnedKey(t.sender, SPACE) := NilVal][ExpiryKey(i.expiry, i.raw) := ExpiryVal(t.sender, SPACE)]
    [InfoKey(SPACE) := InfoVal(i)][TxKey(t.ID()) := NilVal]
  }

  lemma NoRewardYet(share: uint64, b: Block, t: Tx)
    requires share < 50 || (share < 100 && b.price == 1)
    requires FeeUnits(Rules(share), t.action) == 1 && 1 <= b.price <= 2
    ensures RewardAmount(Rules(share), b, t) == 0
  {
    hide FeeUnits;
    assert b.price == 1 || b.price == 2;
  }

  lemma ClaimCharged(h: Hashes, share: uint64, m: Db, b: Block, t: Tx)
    requires share < 50 || (share < 100 && b.price == 1)
    requires Plain(share, b, t) && t.action == Claim(SPACE) && b.price <= 2
    requires GetBalance(m, t.sender) >= t.price
    ensures var c := ContextFor(share, b);
      ExecTx(h, Rules(share), m, b, BlockHash(b), c, t)
        == if InfoKey(SPACE) in m then Err(ErrSpaceNotExpired) else Ok(AfterClaim(m, t, b.tmstmp))
  {
    hide ExecutionContext, FeeUnits, TxIDsIn, LoadOf, ApplyReward, RewardAmount;
    PassesChecks(share, b, t);
    OneUnit(share, t.action);
    NoRewardYet(share, b, t);
    assert Fee(Rules(share), t) == t.price;
    var m1 := m[BalanceKey(t.sender) := BalanceVal(GetBalance(m, t.sender) - t.price)];
    assert ModifyBalance(m, t.sender, false, t.price) == Ok(m1);
    assert W(b.tmstmp) == b.tmstmp;
  }

  lemma FirstIsPlain(share: uint64, at: int, hght: uint64)
    requires share <= 100 && 1 <= at < TWO63 - 100000000
    ensures Plain(share, First(at, hght), Claiming(GenesisID(), 1, OWNER))
  {
    assert LoadOf(Rules(share), []) == 0;
  }

  lemma ClaimedAfter(m: Db, at: uint64)
    requires at < TWO63 && Simple(m, {}) && Have(m, 3, 1000, 0)
    ensures Claimed(AfterClaim(m, Claiming(GenesisID(), 1, OWNER), at), at)
  {
    assert OWNER[0] != RECEIVER[0] && SENDER[0] != RECEIVER[0] && OWNER[0] != SENDER[0];
  }

  lemma StaysClaimed(h: Hashes, m: Db, b: Block, t: Tx, at: uint64)
    requires b.txs == [t] && !t.action.Set? && at < TWO63 && Claimed(m, at)
    ensures Claimed(Recorded(h, m, b), at)
  {
    RecordsOnly(h, m, b, t);
    hide Recorded, Typed;
  }

  /** The first block, on the genesis state. */
  lemma FirstRuns(h: Hashes, share: uint64, m: Db, at: int, hght: uint64, boot: bool)
    requires share < 100 && 1 <= at < TWO63 - 100000000 && Simple(m, {}) && Have(m, 3, 1000, 0)
    ensures BlockGood(h, Rules(share), m, First(at, hght), boot)
    ensures var r := ExecBlock(h, Rules(share), m, First(at, hght), boot); r.Ok? && Claimed(r.value, at)
  {
    hide ExecBlock, BlockGood, Recorded, Claimed, ExecTx, Expire, Plain, AfterClaim, ExecutionContext;
    var b, t := First(at, hght), Claiming(GenesisID(), 1, OWNER);
    FirstIsPlain(share, at, hght);
    OneTxIsGood(h, share, m, b, t, boot);
    OneTxDecides(h, share, m, b, t, boot);
    assert InfoKey(SPACE) !in m && ExpiredAt(m, at) == {};
    NobodyExpires(m, at, boot);
    ClaimCharged(h, share, m, b, t);
    ClaimedAfter(m, at);
    StaysClaimed(h, AfterClaim(m, t, at), b, t, at);
  }

  // ---------- A transfer ----------

  function AfterPayment(m: Db, t: Tx): Db
    requires t.action.Transfer? && GetBalance(m, t.sender) >= t.price + t.action.units
    requires GetBalance(m, t.action.to) + t.action.units < TWO64
  {
    m[BalanceKey(t.sender) := BalanceVal(GetBalance(m, t.sender) - t.price - t.action.units)]
    [BalanceKey(t.action.to) := BalanceVal(GetBalance(m, t.action.to) + t.action.units)][TxKey(t.ID()) := NilVal]
  }

  /** What is charged for it, in a context that admits it. */
  lemma PaymentCharged(h: Hashes, share: uint64, m: Db, b: Block, c: Context, t: Tx)
    requires share <= 100 && t == Paying(t.blockID, t.price, t.sender) && t.sender != RECEIVER
    requires t.blockID in c.recentBlockIDs && t.blockID != EmptyBlockID && t.ID() !in c.recentTxIDs
    requires t.price >= c.nextPrice && t.price >= 1 && GetBalance(m, RECEIVER) + 1 < TWO64
    ensures ExecCharge(h, Rules(share), m, b, c, t).Ok? <==> GetBalance(m, t.sender) >= t.price + 1
    ensures GetBalance(m, t.sender) >= t.price + 1 ==>
      ExecCharge(h, Rules(share), m, b, c, t) == Ok(AfterPayment(m, t))
  {
    OneUnit(share, t.action);
    assert ZERO_ADDRESS[0] != RECEIVER[0];
    hide FeeUnits, W;
    assert Fee(Rules(share), t) == t.price by {
      assert W(1 * t.price) == t.price;
    }
    var r := ModifyBalance(m, t.sender, false, t.price);
    if r.Ok? {
      var m1 := r.value;
      assert GetBalance(m1, t.sender) == GetBalance(m, t.sender) - t.price;
      assert GetBalance(m1, RECEIVER) == GetBalance(m, RECEIVER);
      var r2 := ModifyBalance(m1, t.sender, false, 1);
      if r2.Ok? {
        var n: uint64 := GetBalance(m, t.sender) - t.price - 1;
        assert r2.value == m[BalanceKey(t.sender) := BalanceVal(n)];
        assert GetBalance(r2.value, RECEIVER) == GetBalance(m, RECEIVER);
      }
    }
  }

  lemma PaymentIsSimple(m: Db, t: Tx, others: set<Key>)
    requires Simple(m, others) && t == Paying(t.blockID, t.price, t.sender) && (t.sender == SENDER || t.sender == OWNER)
    requires GetBalance(m, t.sender) >= t.price + 1 && GetBalance(m, RECEIVER) + 1 < TWO64
    ensures Simple(AfterPayment(m, t), others)
    ensures GetBalance(AfterPayment(m, t), t.sender) == GetBalance(m, t.sender) - t.price - 1
    ensures GetBalance(AfterPayment(m, t), RECEIVER) == GetBalance(m, RECEIVER) + 1
    ensures forall a: Address :: a != t.sender && a != RECEIVER ==>
      GetBalance(AfterPayment(m, t), a) == GetBalance(m, a)
    ensures forall k: Key :: !k.BalanceKey? && !k.TxKey? ==>
      (k in AfterPayment(m, t) <==> k in m) && (k in m ==> AfterPayment(m, t)[k] == m[k])
  {
    assert OWNER[0] != RECEIVER[0] && SENDER[0] != RECEIVER[0];
  }

  // ---------- The lottery ----------

  lemma FirstByteDecides(p: byte, x: seq<byte>, q: byte, y: seq<byte>)
    requires p != q
    ensures Less([p] + x, [q] + y) <==> p < q
  {
  }

  lemma TagDecides(h: Hashes, k: Key, seed: seq<byte>)
    requires Tag(k) != 3
    ensures Leq(Head(3) + seed, Encode(h, k)) <==> 3 < Tag(k)
  {
    var e, s := Encode(h, k), Head(3) + seed;
    assert e == [e[0]] + e[1..] && s == [3] + s[1..];
    FirstByteDecides(e[0], e[1..], 3, s[1..]);
  }

  lemma TagsDecide(h: Hashes, k: Key, k': Key)
    requires Tag(k) < Tag(k')
    ensures Leq(Encode(h, k), Encode(h, k'))
  {
    var e, e' := Encode(h, k), Encode(h, k');
    assert e == [e[0]] + e[1..] && e' == [e'[0]] + e'[1..];
    FirstByteDecides(e'[0], e'[1..], e[0], e[1..]);
  }

  lemma NotBefore(h: Hashes, m: Db, seed: seq<byte>, k: Key, k': Key)
    requires k' in m && Leq(Head(3) + seed, Encode(h, k')) && !RecordAhead(h, m, seed)
    requires k' != k ==> Tag(k') <= 3 || Tag(k') > Tag(k)
    ensures Leq(Encode(h, k), Encode(h, k'))
  {
    hide Less, Encode, RecordAhead;
    if k' == k {
      LessTotal(Encode(h, k), Encode(h, k));
    } else if Tag(k') == 3 {
      RecordIsAhead(h, m, seed, k');
    } else {
      TagDecides(h, k', seed);
      TagsDecide(h, k, k');
    }
  }

  /** With one key of the lowest family after the records, and no record ahead, that key comes next. */
  lemma ComesNext(h: Hashes, m: Db, seed: seq<byte>, k: Key)
    requires Sound(h) && k in m && Tag(k) > 3 && !RecordAhead(h, m, seed)
    requires forall k' :: k' in m && k' != k ==> Tag(k') <= 3 || Tag(k') > Tag(k)
    ensures FirstFrom(h, m, Head(3) + seed) == Some(k)
  {
    hide Less, Encode, RecordAhead, Tag, Head;
    var start := Head(3) + seed;
    TagDecides(h, k, seed);
    forall k' | k' in m && Leq(start, Encode(h, k'))
      ensures Leq(Encode(h, k), Encode(h, k'))
    {
      NotBefore(h, m, seed, k, k');
    }
    assert IsFirst(h, m, start, k);
    FirstUnique(h, m, start, k, FirstFrom(h, m, start).value);
  }

  // ---------- A node of the network ----------

  /** A bootstrapped node that has just started from genesis. */
  method Started(h: Hashes, share: uint64) returns (vm: VM)
    requires Sound(h) && share <= 100
    ensures fresh(vm) && vm.Valid() && vm.h == h && vm.g == Rules(share) && vm.o == TheOrigin(h) && vm.bootstrapped
    ensures vm.db == TheOrigin(h).state && vm.lastAccepted == GenesisID()
    ensures vm.nodes == map[] && vm.verifiedBlocks == {}
    ensures Simple(vm.db, {}) && Have(vm.db, 3, 1000, 0)
  {
    hide VM.Valid, Simple, Have, Recorded, VM.Exact;
    GenesisIsSimple(h);
    vm := new VM(h, Rules(share), Balances(), GenesisBlock());
    vm.SetBootstrapped(true);
  }

  /** A node on which the space has been claimed. */
  method WithFirst(h: Hashes, share: uint64, at: int, hght: uint64) returns (vm: VM)
    requires Sound(h) && share < 100 && 1 <= at < TWO63 - 100000000
    ensures fresh(vm) && vm.Valid() && vm.h == h && vm.g == Rules(share) && vm.o == TheOrigin(h) && vm.bootstrapped
    ensures vm.verifiedBlocks == {BlockHash(First(at, hght))} && vm.lastAccepted == GenesisID()
    ensures vm.nodes.Keys <= {BlockHash(First(at, hght))} && vm.db == TheOrigin(h).state
    ensures vm.IsRooted(BlockHash(First(at, hght)))
    ensures ExecBlock(h, Rules(share), vm.db, First(at, hght), true) == Ok(vm.StateOf(BlockHash(First(at, hght))))
    ensures Claimed(vm.StateOf(BlockHash(First(at, hght))), at)
  {
    hide VM.Valid, Simple, Have, ExecBlock, BlockGood, Claimed, VM.Exact, BT.ViewOf;
    vm := Started(h, share);
    var b := First(at, hght);
    FirstRuns(h, share, vm.db, at, hght, true);
    assert vm.lastAccepted == b.prnt && vm.StateOf(b.prnt) == vm.db && BlockHash(b) != vm.lastAccepted;
    var err := vm.Verify(b, at);
    assert err == None;
  }
}

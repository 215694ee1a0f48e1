/** A block of height 0 that is still processing, and what its child is executed on (block.go). */
module Heights {
  import opened Types
  import opened Keys
  import opened Store
  import opened Chain
  import opened Blocks
  import opened BlockInvariants
  import BT = BlockTree
  import opened ChainVM
  import opened Example

  const SHARE: uint64 := 34
  const T1 := 1700000003
  const T2 := 1700000203

  /** The owner claims the space, in a block that says its height is 0. */
  function Low(): Block {
    First(T1, 0)
  }

  function LowID(): BlockID {
    BlockHash(Low())
  }

  /** Somebody else claims the same space. */
  function Again(): Block {
    Block(LowID(), T2, 1, 2, 0, [Claiming(LowID(), 2, SENDER)])
  }

  lemma AgainIsPlain()
    ensures Plain(SHARE, Again(), Again().txs[0])
  {
    OneLoad(SHARE, Low().txs);
    assert Again().txs[0].blockID != Low().txs[0].blockID;
    assert Again().txs[0].ID() !in TxIDsIn(Low().txs);
    hide LoadOf, TxIDsIn;
  }

  /** The verdict on the second claim depends on whether the store has the space. */
  lemma AgainRuns(h: Hashes, m: Db)
    requires Have(m, 3, 1000, 0) || Claimed(m, T1)
    requires ExpiredAt(m, T2) == {}
    ensures var r := ExecBlock(h, Rules(SHARE), m, Again(), true);
      if InfoKey(SPACE) in m then r == Err(ErrSpaceNotExpired) else r.Ok?
  {
    hide ExecBlock, Recorded, ExecTx, Expire, Plain, AfterClaim, ExecutionContext;
    AgainIsPlain();
    OneTxDecides(h, SHARE, m, Again(), Again().txs[0], true);
    NobodyExpires(m, T2, true);
    ClaimCharged(h, SHARE, m, Again(), Again().txs[0]);
  }

  lemma NobodyIsDue(m: Db)
    requires Simple(m, {}) || Claimed(m, T1)
    ensures ExpiredAt(m, T2) == {}
  {
  }

  /** A node verifies a block of height 0, in which a space is claimed. While it is processing, onAccept
      does not give its state, and on what it gives somebody else can claim the same space again. */
  method LowBlock(h: Hashes) returns (vm: VM)
    requires Sound(h)
    ensures fresh(vm) && vm.Valid() && vm.h == h && vm.g == Rules(SHARE) && vm.o == TheOrigin(h)
    ensures vm.IsRooted(LowID()) && vm.OnAccept(LowID()) != vm.StateOf(LowID())
    ensures ExecBlock(h, vm.g, vm.OnAccept(LowID()), Again(), vm.bootstrapped).Ok?
    ensures ExecBlock(h, vm.g, vm.StateOf(LowID()), Again(), vm.bootstrapped) == Err(ErrSpaceNotExpired)
  {
    hide VM.Valid, VM.StateOf, Simple, Have, ExecBlock, BlockGood, BT.ViewOf, ExpiredAt;
    vm := WithFirst(h, SHARE, T1, 0);
    vm.OnAcceptExact(Low());
    GenesisIsSimple(h);
    NobodyIsDue(vm.db);
    NobodyIsDue(vm.StateOf(LowID()));
    AgainRuns(h, vm.db);
    AgainRuns(h, vm.StateOf(LowID()));
    assert InfoKey(SPACE) !in vm.db by {
      NoSpaceAtGenesis(vm.db);
    }
  }

  lemma NoSpaceAtGenesis(m: Db)
    requires Simple(m, {})
    ensures InfoKey(SPACE) !in m
  {
  }
}

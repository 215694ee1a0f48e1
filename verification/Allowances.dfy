/** The lifetime budget of the spaces in whatever state a VM is in, after any run: verified on pruned
    stores or unpruned ones, bootstrapped or not. */
module Allowances {
  import opened Types
  import opened Keys
  import opened Store
  import opened Spaces
  import opened Chain
  import opened Preservation
  import opened Blocks
  import opened BlockInvariants
  import opened Agreement
  import opened Budget
  import BT = BlockTree
  import opened ChainVM

  /** Some run of verified blocks leads to a store that agrees with this one, and these are the lifeline
      units bought in it. */
  ghost predicate Spends(h: Hashes, g: Genesis, o: Origin, id: BlockID, m: Db, l: Ledger)
    decreases id
  {
    if id == o.id then Agree(m, o.state) && l == map[]
    else
      && id.BlockHash?
      && exists m0: Db, boot: bool, l0: Ledger ::
           Spends(h, g, o, id.blk.prnt, m0, l0) && SpendsBlock(h, g, m0, id.blk, boot, m, l0, l)
  }

  ghost predicate SpendsBlock(h: Hashes, g: Genesis, m0: Db, b: Block, boot: bool, m: Db, l0: Ledger, l: Ledger) {
    BT.Leads(h, g, m0, b, boot, m) && l == BlockLedger(h, g, m0, b, boot, l0)
  }

  lemma SameBudget(g: Genesis, m: Db, m': Db, l: Ledger)
    requires Agree(m', m) && WithinBudget(g, m, l)
    ensures WithinBudget(g, m', l)
  {
    forall s | InfoKey(s) in m'
      ensures InfoKey(s) in m && m'[InfoKey(s)] == m[InfoKey(s)]
    {
      assert Shared(InfoKey(s));
    }
  }

  /** Every store a chain leads to has a ledger within which its spaces stay. */
  lemma {:induction false} ReachesWithinBudget(h: Hashes, g: Genesis, o: Origin, id: BlockID, m: Db) returns (l: Ledger)
    requires BT.Reaches(h, g, o, id, m) && WithinBudget(g, o.state, map[])
    ensures Spends(h, g, o, id, m, l) && WithinBudget(g, m, l)
    decreases id
  {
    hide Agree, ExecBlock, BlockGood, Inv, WithinBudget, BlockLedger;
    if id == o.id {
      l := map[];
      SameBudget(g, o.state, m, l);
    } else {
      var b := id.blk;
      var m0: Db, boot: bool :| BT.Reaches(h, g, o, b.prnt, m0) && BT.Leads(h, g, m0, b, boot, m);
      var l0 := ReachesWithinBudget(h, g, o, b.prnt, m0);
      BlockKeepsBudget(h, g, m0, b, boot, l0);
      l := BlockLedger(h, g, m0, b, boot, l0);
      SameBudget(g, ExecBlock(h, g, m0, b, boot).value, m, l);
      assert SpendsBlock(h, g, m0, b, boot, m, l0, l);
    }
  }

  // ---------- The ledger is the chain's ----------

  lemma SameCredit(m: Db, m': Db, l: Ledger, a: Action)
    requires Agree(m, m')
    ensures Credit(m, l, a) == Credit(m', l, a)
  {
    AgreeReads(m, m');
  }

  lemma {:induction false} LedgerAlike(h: Hashes, g: Genesis, m: Db, m': Db, b: Block, bid: BlockID, c: Context,
                                       txs: seq<Tx>, l: Ledger)
    requires Sound(h) && Agree(m, m') && Inv(g, m, W(b.tmstmp)) && Inv(g, m', W(b.tmstmp))
    requires W(b.tmstmp) >= 1 && TxsGood(h, g, m, b, bid, c, txs)
    requires ExecTxs(h, g, m, b, bid, c, txs).Ok? && ExecTxs(h, g, m', b, bid, c, txs).Ok?
    ensures LedgerAfter(h, g, m, b, bid, c, txs, l) == LedgerAfter(h, g, m', b, bid, c, txs, l)
  {
    if |txs| > 0 {
      var n := |txs| - 1;
      LedgerAlike(h, g, m, m', b, bid, c, txs[..n], l);
      hide Agree, Inv, ExecTx, TxGood, Credit;
      TxsAlike(h, g, m, m', b, bid, c, txs[..n]);
      var r, r' := ExecTxs(h, g, m, b, bid, c, txs[..n]).value, ExecTxs(h, g, m', b, bid, c, txs[..n]).value;
      SameCredit(r, r', LedgerAfter(h, g, m, b, bid, c, txs[..n], l), txs[n].action);
    }
  }

  lemma BlockLedgerAlike(h: Hashes, g: Genesis, m: Db, m': Db, b: Block, boot: bool, boot': bool, l: Ledger)
    requires Sound(h) && Agree(m, m') && b.prnt.BlockHash?
    requires Inv(g, m, W(b.prnt.blk.tmstmp)) && Inv(g, m', W(b.prnt.blk.tmstmp)) && BlockGood(h, g, m, b, boot)
    requires ExecBlock(h, g, m, b, boot).Ok? && ExecBlock(h, g, m', b, boot').Ok?
    ensures BlockLedger(h, g, m, b, boot, l) == BlockLedger(h, g, m', b, boot', l)
  {
    hide Agree, Inv, Expire, ExecTxs, TxsGood, ExecutionContext, Recorded, Surplus, SizeOk, LedgerAfter;
    var now, then' := W(b.prnt.blk.tmstmp), W(b.tmstmp);
    ExpireKeepsInv(g, m, now, then', boot);
    ExpireKeepsInv(g, m', now, then', boot');
    InvIsShape(g, m, now);
    InvIsShape(g, m', now);
    ExpireAlike(m, m', now, then', boot, boot');
    LedgerAlike(h, g, Expire(m, then', boot), Expire(m', then', boot'), b, BlockHash(b),
      ExecutionContext(g, b.tmstmp, b.prnt), b.txs, l);
  }

  /** Whatever the nodes that verified the chain had pruned, they have the same ledger. */
  lemma {:induction false} OneLedger(h: Hashes, g: Genesis, o: Origin, id: BlockID, m: Db, m': Db, l: Ledger,
                                     l': Ledger)
    requires Sound(h) && Spends(h, g, o, id, m, l) && Spends(h, g, o, id, m', l')
    ensures Agree(m, m') && l == l'
    decreases id
  {
    hide Agree, ExecBlock, BlockGood, Inv, BlockLedger;
    if id == o.id {
      AgreeSymmetric(m', o.state);
      AgreeTransitive(m, o.state, m');
    } else {
      var b := id.blk;
      var m0: Db, boot: bool, l0: Ledger :|
        Spends(h, g, o, b.prnt, m0, l0) && SpendsBlock(h, g, m0, b, boot, m, l0, l);
      var m0': Db, boot': bool, l0': Ledger :|
        Spends(h, g, o, b.prnt, m0', l0') && SpendsBlock(h, g, m0', b, boot', m', l0', l');
      OneLedger(h, g, o, b.prnt, m0, m0', l0, l0');
      BlockLedgerAlike(h, g, m0, m0', b, boot, boot', l0);
      BlockAlike(h, g, m0, m0', b, boot, boot');
      var e, e' := ExecBlock(h, g, m0, b, boot).value, ExecBlock(h, g, m0', b, boot').value;
      AgreeTransitive(m, e, e');
      AgreeSymmetric(m', e');
      AgreeTransitive(m, e', m');
    }
  }

  // ---------- The states of a VM ----------

  /** At every block a VM can build on, after any run, every live space is within one claim's worth of
      lifetime plus one for each lifeline unit bought for it on the chain of that block. */
  lemma StaysWithinBudget(vm: VM, id: BlockID) returns (l: Ledger)
    requires vm.Valid() && vm.Extendable(id)
    ensures Spends(vm.h, vm.g, vm.o, id, vm.StateOf(id), l) && WithinBudget(vm.g, vm.StateOf(id), l)
    ensures forall m, l' :: Spends(vm.h, vm.g, vm.o, id, m, l') ==> l' == l
  {
    hide Agree, Inv, VM.Extendable, VM.StateOf, VM.OnAccept, VM.Known, BT.Reaches, BT.BlocksStored, Spends;
    vm.ParentState(id);
    vm.DiskWillDo();
    l := ReachesWithinBudget(vm.h, vm.g, vm.o, id, vm.StateOf(id));
    forall m, l' | Spends(vm.h, vm.g, vm.o, id, m, l')
      ensures l' == l
    {
      OneLedger(vm.h, vm.g, vm.o, id, vm.StateOf(id), m, l, l');
    }
  }
}

/** When exactly two nodes give the same verdict (tx.go, block.go, storage.go). Their stores agree on
    everything but what waits to be pruned; what can tell them apart is the one draw of the lottery
    that runs past the last record and into a key that contains the record prefix. */
module Verdicts {
  import opened Types
  import opened Bytes
  import opened Keys
  import opened Store
  import opened Spaces
  import opened Preservation
  import opened Chain
  import opened Blocks
  import opened BlockInvariants
  import opened Agreement
  import opened Lottery
  import BT = BlockTree
  import opened ChainVM

  // ---------- One transaction ----------

  /** No record lies at or after the place drawn, and the key that follows contains the bytes of the
      record prefix. */
  ghost predicate Foul(h: Hashes, m: Db, seed: seq<byte>) {
    var next := FirstFrom(h, m, Head(3) + seed);
    !RecordAhead(h, m, seed) && next.Some? && Contains(Encode(h, next.value), Head(3))
  }

  lemma FoulDraw(h: Hashes, m: Db, seed: seq<byte>)
    requires Typed(m)
    ensures Foul(h, m, seed) <==> DrawFrom(h, m, seed) == Foreign
  {
    DrawExact(h, m, seed);
    hide DrawFrom, Contains, RecordAhead, FirstRecord;
  }

  /** The transaction gets as far as the lottery, and its draw is foul. */
  ghost predicate FoulTx(h: Hashes, g: Genesis, m: Db, b: Block, bid: BlockID, c: Context, tx: Tx) {
    var r := ExecCharge(h, g, m, b, c, tx);
    r.Ok? && b.prnt != EmptyBlockID && RewardAmount(g, b, tx) != 0 && Foul(h, r.value, h.lottery(bid, tx.ID()))
  }

  lemma ActionNeverFoul(h: Hashes, g: Genesis, m: Db, t: TxContext, a: Action)
    ensures ExecAction(h, g, m, t, a) != Err(ErrCodec)
  {
    hide PutSpaceInfo, MoveSpaceInfo, TimeRemaining, Reunit, SetMeta, CheckContents, W, LowerHex;
  }

  lemma ChargeNeverFoul(h: Hashes, g: Genesis, m: Db, b: Block, c: Context, tx: Tx)
    ensures ExecCharge(h, g, m, b, c, tx) != Err(ErrCodec)
  {
    hide ExecAction, Fee;
    var r := ModifyBalance(m, tx.sender, false, Fee(g, tx));
    if r.Ok? {
      ActionNeverFoul(h, g, r.value, TxContext(W(b.tmstmp), tx.ID(), tx.sender), tx.action);
    }
  }

  lemma FoulTxFails(h: Hashes, g: Genesis, m: Db, b: Block, bid: BlockID, c: Context, tx: Tx)
    requires Inv(g, m, W(b.tmstmp)) && W(b.tmstmp) >= 1 && TxGood(g, m, b, tx)
    ensures FoulTx(h, g, m, b, bid, c, tx) <==> ExecTx(h, g, m, b, bid, c, tx) == Err(ErrCodec)
  {
    ChargeNeverFoul(h, g, m, b, c, tx);
    var r := ExecCharge(h, g, m, b, c, tx);
    if r.Ok? {
      ChargeKeepsInv(h, g, m, b, c, tx);
      FoulDraw(h, r.value, h.lottery(bid, tx.ID()));
    }
    hide ExecCharge, DrawFrom, Foul, RewardAmount;
  }

  /** On stores that agree, a transaction ends alike exactly if its draw is foul on both or on neither. */
  lemma TxVerdicts(h: Hashes, g: Genesis, m: Db, m': Db, b: Block, bid: BlockID, c: Context, tx: Tx)
    requires Sound(h) && Agree(m, m') && Inv(g, m, W(b.tmstmp)) && Inv(g, m', W(b.tmstmp))
    requires W(b.tmstmp) >= 1 && TxGood(g, m, b, tx)
    ensures Alike(ExecTx(h, g, m, b, bid, c, tx), ExecTx(h, g, m', b, bid, c, tx))
      <==> (FoulTx(h, g, m, b, bid, c, tx) <==> FoulTx(h, g, m', b, bid, c, tx))
  {
    hide ExecTx, FoulTx, Agree, Inv, TxGood;
    TxAlike(h, g, m, m', b, bid, c, tx);
    FoulTxFails(h, g, m, b, bid, c, tx);
    FoulTxFails(h, g, m', b, bid, c, tx);
  }

  // ---------- A block ----------

  /** Executing the transactions one after the other comes to a foul draw. */
  ghost predicate FoulTxs(h: Hashes, g: Genesis, m: Db, b: Block, bid: BlockID, c: Context, txs: seq<Tx>) {
    |txs| > 0 && (
      var r := ExecTxs(h, g, m, b, bid, c, txs[..|txs| - 1]);
      || FoulTxs(h, g, m, b, bid, c, txs[..|txs| - 1])
      || (r.Ok? && FoulTx(h, g, r.value, b, bid, c, txs[|txs| - 1])))
  }

  lemma {:induction false} FoulTxsFail(h: Hashes, g: Genesis, m: Db, b: Block, bid: BlockID, c: Context, txs: seq<Tx>)
    requires Inv(g, m, W(b.tmstmp)) && W(b.tmstmp) >= 1 && TxsGood(h, g, m, b, bid, c, txs)
    ensures FoulTxs(h, g, m, b, bid, c, txs) <==> ExecTxs(h, g, m, b, bid, c, txs) == Err(ErrCodec)
  {
    hide ExecTx, FoulTx, Inv, TxGood;
    if |txs| > 0 {
      var n := |txs| - 1;
      FoulTxsFail(h, g, m, b, bid, c, txs[..n]);
      var r := ExecTxs(h, g, m, b, bid, c, txs[..n]);
      if r.Ok? {
        TxsKeepInv(h, g, m, b, bid, c, txs[..n]);
        FoulTxFails(h, g, r.value, b, bid, c, txs[n]);
      }
    }
  }

  /** Verifying the block comes to a foul draw. */
  ghost predicate FoulBlock(h: Hashes, g: Genesis, m: Db, b: Block, boot: bool) {
    && PreVerify(g, b).None? && b.prnt.BlockHash?
    && FoulTxs(h, g, Expire(m, W(b.tmstmp), boot), b, BlockHash(b), ExecutionContext(g, b.tmstmp, b.prnt), b.txs)
  }

  lemma FoulBlockFails(h: Hashes, g: Genesis, m: Db, b: Block, boot: bool)
    requires b.prnt.BlockHash? && Inv(g, m, W(b.prnt.blk.tmstmp)) && BlockGood(h, g, m, b, boot)
    ensures FoulBlock(h, g, m, b, boot) <==> ExecBlock(h, g, m, b, boot) == Err(ErrCodec)
  {
    hide Inv, Expire, ExecTxs, TxsGood, FoulTxs, ExecutionContext, Recorded, Surplus, SizeOk;
    if PreVerify(g, b).None? {
      ExpireKeepsInv(g, m, W(b.prnt.blk.tmstmp), W(b.tmstmp), boot);
      FoulTxsFail(h, g, Expire(m, W(b.tmstmp), boot), b, BlockHash(b), ExecutionContext(g, b.tmstmp, b.prnt), b.txs);
    }
  }

  /** Two nodes that have pruned different amounts, or of which one is still bootstrapping, give a block
      the same verdict and end in states that agree again, exactly if verifying it comes to a foul draw
      on both or on neither. */
  lemma BlockVerdicts(h: Hashes, g: Genesis, m: Db, m': Db, b: Block, boot: bool, boot': bool)
    requires Sound(h) && Agree(m, m') && b.prnt.BlockHash?
    requires Inv(g, m, W(b.prnt.blk.tmstmp)) && Inv(g, m', W(b.prnt.blk.tmstmp))
    requires BlockGood(h, g, m, b, boot) && BlockGood(h, g, m', b, boot')
    ensures Alike(ExecBlock(h, g, m, b, boot), ExecBlock(h, g, m', b, boot'))
      <==> (FoulBlock(h, g, m, b, boot) <==> FoulBlock(h, g, m', b, boot'))
  {
    hide ExecBlock, FoulBlock, Agree, Inv, BlockGood;
    BlockAlike(h, g, m, m', b, boot, boot');
    FoulBlockFails(h, g, m, b, boot);
    FoulBlockFails(h, g, m', b, boot');
  }

  /** So two nodes that may both verify a block give it the same verdict, whatever they did before, except
      when its draw is foul on one of them only. */
  lemma TwoNodesDecide(a: VM, b: VM, blk: Block)
    requires a.Valid() && b.Valid() && a.h == b.h && a.g == b.g && a.o == b.o
    requires a.Extendable(blk.prnt) && b.Extendable(blk.prnt)
    requires BlockGood(a.h, a.g, a.StateOf(blk.prnt), blk, a.bootstrapped)
    requires BlockGood(b.h, b.g, b.StateOf(blk.prnt), blk, b.bootstrapped)
    ensures var m, m' := a.StateOf(blk.prnt), b.StateOf(blk.prnt);
      Alike(ExecBlock(a.h, a.g, m, blk, a.bootstrapped), ExecBlock(b.h, b.g, m', blk, b.bootstrapped))
      <==> (FoulBlock(a.h, a.g, m, blk, a.bootstrapped) <==> FoulBlock(b.h, b.g, m', blk, b.bootstrapped))
  {
    hide Agree, Inv, VM.Valid, VM.Extendable, VM.StateOf, VM.OnAccept, VM.Known, BT.StateOk, ExecBlock, FoulBlock,
      BlockGood, Sound;
    a.ParentState(blk.prnt);
    b.ParentState(blk.prnt);
    TwoNodesAgree(a, b, blk.prnt);
    BlockVerdicts(a.h, a.g, a.StateOf(blk.prnt), b.StateOf(blk.prnt), blk, a.bootstrapped, b.bootstrapped);
  }

  // ---------- The plain map ----------

  /** Executing the chain on a plain map comes to a foul draw. */
  ghost predicate FoulChain(h: Hashes, g: Genesis, o: Origin, plain: bool, id: BlockID)
    decreases id
  {
    id != o.id && id.BlockHash? && (
      || FoulChain(h, g, o, plain, id.blk.prnt)
      || (Canon(h, g, o, plain, id.blk.prnt).Ok?
        && FoulBlock(h, g, Canon(h, g, o, plain, id.blk.prnt).value, id.blk, plain)))
  }

  /** The store of a node at any block agrees with the plain map, unless the plain map comes to a foul
      draw that the blocks' verifiers did not. */
  lemma {:induction false} CanonExact(h: Hashes, g: Genesis, o: Origin, plain: bool, id: BlockID, m: Db)
    requires Sound(h) && OriginGood(g, o) && o.id.blk.prnt == EmptyBlockID && BT.Reaches(h, g, o, id, m)
    ensures var r := Canon(h, g, o, plain, id);
      if FoulChain(h, g, o, plain, id) then r == Err(ErrCodec)
      else r.Ok? && id.BlockHash? && Agree(m, r.value) && Inv(g, r.value, W(id.blk.tmstmp))
    decreases id
  {
    hide Agree, ExecBlock, FoulBlock, BlockGood, Inv, Sound;
    if id != o.id {
      var b := id.blk;
      var m0: Db, boot: bool :| BT.Reaches(h, g, o, b.prnt, m0) && BT.Leads(h, g, m0, b, boot, m);
      CanonExact(h, g, o, plain, b.prnt, m0);
      if !FoulChain(h, g, o, plain, b.prnt) {
        var c := Canon(h, g, o, plain, b.prnt).value;
        BlockAlike(h, g, m0, c, b, boot, plain);
        FoulBlockFails(h, g, c, b, plain);
        var e, e' := ExecBlock(h, g, m0, b, boot), ExecBlock(h, g, c, b, plain);
        if e'.Ok? {
          BlockKeepsInv(h, g, c, b, plain);
          AgreeTransitive(m, e.value, e'.value);
        }
      }
    }
  }

  /** What can be read at any block the VM may build on is what executing its chain from genesis, block by
      block on a plain map, gives, exactly if that execution comes to no foul draw. This is so after any
      run, with pruning and bootstrapping at any time; without them VM.Exact says more. */
  lemma ReadsAsPlainMap(vm: VM, plain: bool, id: BlockID)
    requires vm.Valid() && vm.Extendable(id)
    ensures var r := Canon(vm.h, vm.g, vm.o, plain, id);
      (r.Ok? && Agree(vm.StateOf(id), r.value)) <==> !FoulChain(vm.h, vm.g, vm.o, plain, id)
  {
    hide Agree, Inv, VM.Extendable, VM.StateOf, VM.OnAccept, VM.Known, FoulChain, Canon, Sound, BT.Reaches,
      BT.BlocksStored;
    vm.ParentState(id);
    vm.DiskWillDo();
    CanonExact(vm.h, vm.g, vm.o, plain, id, vm.StateOf(id));
  }
}

/** The blocks and values a chain has stored, and reading a block back (storage.go). */
module Archive {
  import opened Types
  import opened Bytes
  import opened Keys
  import opened Store
  import opened Chain
  import opened Blocks

  // ---------- Reading a block ----------

  predicate Holds(h: Hashes, m: Db, bytes: seq<byte>, k: Key) {
    k.TxValueKey? && k in m && h.tx(k.tid) == bytes && m[k].BytesVal?
  }

  /** The value stored for the transaction whose ID these bytes are. */
  ghost function ValueBehind(h: Hashes, m: Db, bytes: seq<byte>): Option<seq<byte>> {
    if exists k :: Holds(h, m, bytes, k) then
      var k :| Holds(h, m, bytes, k);
      Some(m[k].bytes)
    else None
  }

  ghost function RestoredTx(h: Hashes, m: Db, tx: Tx): Option<Tx> {
    if !HasValue(tx) then Some(tx)
    else match ValueBehind(h, m, tx.action.value)
      case None => None
      case Some(value) => Some(tx.(action := tx.action.(value := value)))
  }

  ghost function RestoredTxs(h: Hashes, m: Db, txs: seq<Tx>): Option<seq<Tx>> {
    if |txs| == 0 then Some([])
    else match RestoredTxs(h, m, txs[..|txs| - 1])
      case None => None
      case Some(before) =>
        match RestoredTx(h, m, txs[|txs| - 1])
        case None => None
        case Some(tx) => Some(before + [tx])
  }

  /** GetBlock. */
  ghost function ReadBlock(h: Hashes, m: Db, id: BlockID): Result<Block> {
    if BlockKey(id) !in m then Err(ErrParentNotFound)
    else if !m[BlockKey(id)].BlockVal? then Err(ErrCodec)
    else
      var b := m[BlockKey(id)].blk;
      match RestoredTxs(h, m, b.txs)
      case None => Err(ErrKeyMissing)
      case Some(txs) => Ok(b.(txs := txs))
  }

  /** The store holds the linked block, and the value of each of its transactions. */
  ghost predicate Archived(h: Hashes, m: Db, b: Block) {
    && BlockKey(BlockHash(b)) in m
    && m[BlockKey(BlockHash(b))] == BlockVal(b.(txs := LinkedTxs(h, b.txs)))
    && forall t :: t in b.txs ==> ValueFiled(m, t)
  }

  ghost predicate ValueFiled(m: Db, t: Tx) {
    HasValue(t) ==> TxValueKey(t.ID()) in m && m[TxValueKey(t.ID())] == BytesVal(t.action.value)
  }

  lemma DigestsAreNotEmpty(h: Hashes, t: TxID)
    requires Sound(h)
    ensures |h.tx(t)| > 0
  {
    var t' := TxHash(t.tx.(signature := t.tx.signature + [0]));
    assert |t'.tx.signature| != |t.tx.signature|;
    assert !IsPrefix(h.tx(t), h.tx(t'));
  }

  lemma LinkRestores(h: Hashes, m: Db, t: Tx)
    requires Sound(h) && ValueFiled(m, t)
    ensures RestoredTx(h, m, LinkedTx(h, t)) == Some(t)
  {
    if HasValue(t) {
      DigestsAreNotEmpty(h, t.ID());
      assert Holds(h, m, h.tx(t.ID()), TxValueKey(t.ID()));
      forall k | Holds(h, m, h.tx(t.ID()), k)
        ensures k == TxValueKey(t.ID())
      {
        assert IsPrefix(h.tx(k.tid), h.tx(t.ID()));
      }
    }
  }

  lemma {:induction false} LinkedTxsRestore(h: Hashes, m: Db, txs: seq<Tx>)
    requires Sound(h) && forall t :: t in txs ==> ValueFiled(m, t)
    ensures RestoredTxs(h, m, LinkedTxs(h, txs)) == Some(txs)
  {
    hide Sound, RestoredTx, LinkedTx, ValueFiled;
    if |txs| > 0 {
      var n := |txs| - 1;
      LinkedTxsRestore(h, m, txs[..n]);
      LinkRestores(h, m, txs[n]);
      var linked := LinkedTxs(h, txs);
      assert linked[..n] == LinkedTxs(h, txs[..n]) && linked[n] == LinkedTx(h, txs[n]);
      assert txs[..n] + [txs[n]] == txs;
    }
  }

  /** A block that is archived can be read back. */
  lemma ReadsBack(h: Hashes, m: Db, b: Block)
    requires Sound(h) && Archived(h, m, b)
    ensures ReadBlock(h, m, BlockHash(b)) == Ok(b)
  {
    hide Sound, RestoredTxs;
    LinkedTxsRestore(h, m, b.txs);
  }

  // ---------- What is archived stays archived ----------

  predicate Filed(k: Key) {
    k.BlockKey? || k.TxValueKey?
  }

  /** The two stores hold the same blocks and the same transaction values. */
  ghost predicate SameFiles(m: Db, m': Db) {
    forall k :: Filed(k) ==> (k in m <==> k in m') && (k in m ==> m'[k] == m[k])
  }

  /** The second store holds all blocks and values of the first. */
  ghost predicate FilesKept(m: Db, m': Db) {
    forall k :: Filed(k) && k in m ==> k in m' && m'[k] == m[k]
  }

  /** Whatever is stored for a transaction ID is the value that transaction carried. */
  ghost predicate ValuesTrue(m: Db) {
    forall t: TxID :: TxValueKey(t) in m ==> t.tx.action.Set? && m[TxValueKey(t)] == BytesVal(t.tx.action.value)
  }

  lemma ActionKeepsFiles(h: Hashes, g: Genesis, m: Db, t: TxContext, a: Action)
    requires ExecAction(h, g, m, t, a).Ok?
    ensures SameFiles(m, ExecAction(h, g, m, t, a).value)
  {
  }

  lemma TxKeepsFiles(h: Hashes, g: Genesis, m: Db, b: Block, bid: BlockID, c: Context, tx: Tx)
    requires ExecTx(h, g, m, b, bid, c, tx).Ok?
    ensures SameFiles(m, ExecTx(h, g, m, b, bid, c, tx).value)
  {
    hide ExecAction, ExecuteBase, Fee, RewardAmount;
    var m1 := ModifyBalance(m, tx.sender, false, Fee(g, tx)).value;
    ActionKeepsFiles(h, g, m1, TxContext(W(b.tmstmp), tx.ID(), tx.sender), tx.action);
  }

  lemma {:induction false} TxsKeepFiles(h: Hashes, g: Genesis, m: Db, b: Block, bid: BlockID, c: Context, txs: seq<Tx>)
    requires ExecTxs(h, g, m, b, bid, c, txs).Ok?
    ensures SameFiles(m, ExecTxs(h, g, m, b, bid, c, txs).value)
  {
    hide ExecTx;
    if |txs| > 0 {
      var n := |txs| - 1;
      TxsKeepFiles(h, g, m, b, bid, c, txs[..n]);
      TxKeepsFiles(h, g, ExecTxs(h, g, m, b, bid, c, txs[..n]).value, b, bid, c, txs[n]);
    }
  }

  /** Storing values stores them all, truly, and loses none that was true. */
  lemma {:induction false} ValuesAreFiled(m: Db, txs: seq<Tx>)
    requires ValuesTrue(m)
    ensures var m' := WithValues(m, txs);
      && ValuesTrue(m')
      && (LastAcceptedKey in m ==> LastAcceptedKey in m' && m'[LastAcceptedKey] == m[LastAcceptedKey])
      && (forall x :: BlockKey(x) in m' <==> BlockKey(x) in m)
      && FilesKept(m, m')
      && forall t :: t in txs ==> ValueFiled(m', t)
  {
    if |txs| > 0 {
      var n := |txs| - 1;
      ValuesAreFiled(m, txs[..n]);
      assert txs == txs[..n] + [txs[n]];
    }
  }

  /** Storing a block archives it, and keeps what was archived. */
  lemma RecordingFiles(h: Hashes, m: Db, b: Block)
    requires ValuesTrue(m) && BlockKey(BlockHash(b)) !in m
    ensures var m' := Recorded(h, m, b);
      && LastAcceptedKey in m' && m'[LastAcceptedKey] == IDVal(BlockHash(b))
      && ValuesTrue(m') && Archived(h, m', b)
      && (forall x :: BlockKey(x) in m' <==> BlockKey(x) in m || x == BlockHash(b))
      && FilesKept(m, m')
  {
    hide LinkedTxs, WithValues;
    ValuesAreFiled(m[LastAcceptedKey := IDVal(BlockHash(b))], b.txs);
  }

  /** Verifying a block archives it, and keeps what was archived. */
  lemma BlockFilesItself(h: Hashes, g: Genesis, m: Db, b: Block, bootstrapped: bool)
    requires ValuesTrue(m) && BlockKey(BlockHash(b)) !in m
    requires ExecBlock(h, g, m, b, bootstrapped).Ok?
    ensures var m' := ExecBlock(h, g, m, b, bootstrapped).value;
      && LastAcceptedKey in m' && m'[LastAcceptedKey] == IDVal(BlockHash(b))
      && ValuesTrue(m') && Archived(h, m', b)
      && (forall x :: BlockKey(x) in m' <==> BlockKey(x) in m || x == BlockHash(b))
      && FilesKept(m, m')
  {
    hide ExecTxs, SizeOk, Surplus, ExecutionContext, Archived, Recorded;
    var m0, c := Expire(m, W(b.tmstmp), bootstrapped), ExecutionContext(g, b.tmstmp, b.prnt);
    assert SameFiles(m, m0);
    TxsKeepFiles(h, g, m0, b, BlockHash(b), c, b.txs);
    RecordingFiles(h, ExecTxs(h, g, m0, b, BlockHash(b), c, b.txs).value, b);
  }

  lemma StaysArchived(h: Hashes, m: Db, m': Db, b: Block)
    requires Archived(h, m, b) && FilesKept(m, m')
    ensures Archived(h, m', b)
  {
    assert Filed(BlockKey(BlockHash(b)));
    forall t | t in b.txs
      ensures ValueFiled(m', t)
    {
      assert Filed(TxValueKey(t.ID()));
    }
  }
}

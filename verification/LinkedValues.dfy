/** The values of a block's transactions, which are taken out of the block when it is stored and put
    back when it is read (storage.go). Storing works in place, on the transaction objects of the
    block; module Execution runs the same operation on values. */
module LinkedValues {
  import opened Types
  import opened Bytes
  import opened Keys
  import opened VersionDB
  import B = Blocks
  import opened Archive

  // ---------- Transaction and block objects ----------

  class Transaction {
    var action: Action
    const blockID: BlockID
    const magic: uint64
    const price: uint64
    const sender: Address
    const signature: seq<byte>
    const id: TxID

    function Value(): Tx
      reads this
    {
      Tx(action, blockID, magic, price, sender, signature)
    }

    /** A transaction on which Init has computed the ID. */
    constructor (tx: Tx)
      ensures Value() == tx && id == tx.ID()
    {
      action, blockID, magic, price, sender, signature := tx.action, tx.blockID, tx.magic, tx.price, tx.sender,
        tx.signature;
      id := tx.ID();
    }

    /** Copy, then Init. */
    method Copy() returns (c: Transaction)
      ensures fresh(c) && c.Value() == Value() && c.id == Value().ID()
    {
      c := new Transaction(Value());
    }
  }

  function Objects(txs: seq<Transaction>): set<Transaction> {
    set t | t in txs
  }

  function Values(txs: seq<Transaction>): (r: seq<Tx>)
    reads Objects(txs)
    ensures |r| == |txs| && forall i :: 0 <= i < |txs| ==> r[i] == txs[i].Value()
  {
    seq(|txs|, i requires 0 <= i < |txs| reads Objects(txs) => txs[i].Value())
  }

  class StatelessBlock {
    const id: BlockID
    const prnt: BlockID
    const tmstmp: int
    const hght: uint64
    const price: uint64
    const cost: uint64
    var txs: seq<Transaction>

    function Value(): Block
      reads this, Objects(txs)
    {
      Block(prnt, tmstmp, hght, price, cost, Values(txs))
    }

    constructor (b: Block, txs: seq<Transaction>)
      ensures id == BlockHash(b) && this.txs == txs
      ensures prnt == b.prnt && tmstmp == b.tmstmp && hght == b.hght && price == b.price && cost == b.cost
    {
      id, prnt, tmstmp, hght, price, cost := BlockHash(b), b.prnt, b.tmstmp, b.hght, b.price, b.cost;
      this.txs := txs;
    }
  }

  // ---------- linkValues ----------

  /** The value of the i-th transaction when its turn comes: an object met before has already lost its
      value to the ID. */
  function Met(h: Hashes, txs: seq<Transaction>, vals: seq<Tx>, i: nat): Tx
    requires i < |txs| == |vals|
  {
    if txs[i] in txs[..i] then B.LinkedTx(h, vals[i]) else vals[i]
  }

  /** What linkValues writes for transaction objects whose values were `vals`. */
  function ValuesWritten(h: Hashes, m: Db, txs: seq<Transaction>, vals: seq<Tx>): Db
    requires |txs| == |vals|
  {
    if |txs| == 0 then m
    else
      var n := |txs| - 1;
      var m1 := ValuesWritten(h, m, txs[..n], vals[..n]);
      if B.HasValue(vals[n]) then m1[TxValueKey(vals[n].ID()) := BytesVal(Met(h, txs, vals, n).action.value)] else m1
  }

  /** No object is met twice. */
  predicate Separate(txs: seq<Transaction>) {
    forall i, k :: 0 <= i < k < |txs| ==> txs[i] != txs[k]
  }

  lemma {:induction false} SeparateValues(h: Hashes, m: Db, txs: seq<Transaction>, vals: seq<Tx>)
    requires Separate(txs) && |txs| == |vals|
    ensures ValuesWritten(h, m, txs, vals) == B.WithValues(m, vals)
  {
    if |txs| > 0 {
      var n := |txs| - 1;
      SeparateValues(h, m, txs[..n], vals[..n]);
    }
  }

  /** One turn of linkValues. */
  method LinkOne(h: Hashes, db: Database, tx: Transaction) returns (og: Transaction)
    modifies db, tx
    ensures var t := old(tx.Value());
      if B.HasValue(t) then
        && fresh(og) && og.Value() == t
        && db.View() == old(db.View())[TxValueKey(tx.id) := BytesVal(t.action.value)]
        && tx.Value() == t.(action := t.action.(value := h.tx(tx.id)))
      else og == tx && db.View() == old(db.View()) && unchanged(tx)
  {
    if tx.action.Set? && |tx.action.value| > 0 {
      og := tx.Copy();
      db.Write(TxValueKey(tx.id), BytesVal(tx.action.value));
      tx.action := tx.action.(value := h.tx(tx.id));
    } else {
      og := tx;
    }
  }

  /** What the objects hold when the first i have had their turn. */
  predicate Linking(h: Hashes, txs: seq<Transaction>, vals: seq<Tx>, now: seq<Tx>, i: nat)
    requires i <= |txs| == |vals| == |now|
  {
    forall k :: 0 <= k < |txs| ==> now[k] == if txs[k] in txs[..i] then B.LinkedTx(h, vals[k]) else vals[k]
  }

  /** What has been kept of the first transactions. */
  predicate Kept(h: Hashes, txs: seq<Transaction>, vals: seq<Tx>, kept: seq<Tx>)
    requires |kept| <= |txs| == |vals|
  {
    forall k :: 0 <= k < |kept| ==> kept[k] == Met(h, txs, vals, k)
  }

  predicate SameObjectSameValue(txs: seq<Transaction>, vals: seq<Tx>)
    requires |txs| == |vals|
  {
    forall i, k :: 0 <= i < |txs| && 0 <= k < |txs| && txs[i] == txs[k] ==> vals[i] == vals[k]
  }

  /** The turn of the i-th object: the others stay as they are. */
  lemma TurnTaken(h: Hashes, txs: seq<Transaction>, vals: seq<Tx>, now: seq<Tx>, now': seq<Tx>, i: nat)
    requires Sound(h) && i < |txs| == |vals| == |now| == |now'|
    requires SameObjectSameValue(txs, vals) && Linking(h, txs, vals, now, i)
    requires forall k :: 0 <= k < |txs| ==>
      now'[k] == (if txs[k] != txs[i] || !B.HasValue(now[i]) then now[k]
                  else now[i].(action := now[i].action.(value := h.tx(vals[i].ID()))))
    ensures now[i] == Met(h, txs, vals, i) && (B.HasValue(now[i]) <==> B.HasValue(vals[i]))
    ensures Linking(h, txs, vals, now', i + 1)
  {
    DigestsAreNotEmpty(h, vals[i].ID());
    hide Sound;
    forall k | 0 <= k < |txs|
      ensures now'[k] == if txs[k] in txs[..i + 1] then B.LinkedTx(h, vals[k]) else vals[k]
    {
      assert txs[k] in txs[..i + 1] <==> txs[k] in txs[..i] || txs[k] == txs[i] by {
        assert txs[..i + 1] == txs[..i] + [txs[i]];
      }
    }
  }

  lemma WriteOne(h: Hashes, m: Db, txs: seq<Transaction>, vals: seq<Tx>, i: nat)
    requires i < |txs| == |vals|
    ensures ValuesWritten(h, m, txs[..i + 1], vals[..i + 1]) ==
      var m1 := ValuesWritten(h, m, txs[..i], vals[..i]);
      if B.HasValue(vals[i]) then m1[TxValueKey(vals[i].ID()) := BytesVal(Met(h, txs, vals, i).action.value)] else m1
  {
    assert txs[..i + 1][..i] == txs[..i] && vals[..i + 1][..i] == vals[..i];
    assert Met(h, txs[..i + 1], vals[..i + 1], i) == Met(h, txs, vals, i);
  }

  lemma StartLinking(h: Hashes, m: Db, txs: seq<Transaction>, vals: seq<Tx>)
    requires |txs| == |vals|
    ensures Linking(h, txs, vals, vals, 0) && Kept(h, txs, vals, []) && Apart(txs, vals, [])
      && ValuesWritten(h, m, txs[..0], vals[..0]) == m
  {
  }

  lemma KeepOne(h: Hashes, txs: seq<Transaction>, vals: seq<Tx>, kept: seq<Tx>, tx: Tx)
    requires |kept| < |txs| == |vals| && Kept(h, txs, vals, kept) && tx == Met(h, txs, vals, |kept|)
    ensures Kept(h, txs, vals, kept + [tx])
  {
  }

  lemma EndLinking(h: Hashes, txs: seq<Transaction>, vals: seq<Tx>, now: seq<Tx>)
    requires |txs| == |vals| == |now| && Linking(h, txs, vals, now, |txs|)
    ensures now == B.LinkedTxs(h, vals)
  {
    assert txs[..|txs|] == txs;
  }

  /** What has been kept is not among the objects of the block, or has no value to lose. */
  predicate Apart(txs: seq<Transaction>, vals: seq<Tx>, ogTxs: seq<Transaction>)
    requires |ogTxs| <= |txs| == |vals|
  {
    forall k :: 0 <= k < |ogTxs| ==> ogTxs[k] !in txs || (ogTxs[k] == txs[k] && !B.HasValue(vals[k]))
  }

  method LinkNext(h: Hashes, db: Database, txs: seq<Transaction>, ghost vals: seq<Tx>, ogTxs: seq<Transaction>)
    returns (ogTxs': seq<Transaction>)
    requires Sound(h) && |ogTxs| < |txs| == |vals| && SameObjectSameValue(txs, vals)
    requires txs[|ogTxs|].id == vals[|ogTxs|].ID()
    requires Linking(h, txs, vals, Values(txs), |ogTxs|) && Kept(h, txs, vals, Values(ogTxs)) && Apart(txs, vals, ogTxs)
    modifies db, Objects(txs)
    ensures |ogTxs'| == |ogTxs| + 1
    ensures Linking(h, txs, vals, Values(txs), |ogTxs'|) && Kept(h, txs, vals, Values(ogTxs'))
      && Apart(txs, vals, ogTxs')
    ensures var i := |ogTxs|;
      db.View() == if B.HasValue(vals[i])
        then old(db.View())[TxValueKey(vals[i].ID()) := BytesVal(Met(h, txs, vals, i).action.value)]
        else old(db.View())
  {
    hide Sound, Linking, Kept, Met, Database.View;
    var i := |ogTxs|;
    ghost var now, kept := Values(txs), Values(ogTxs);
    assert forall k :: 0 <= k < i ==> ogTxs[k] != txs[i] || !B.HasValue(vals[i]);
    var og := LinkOne(h, db, txs[i]);
    TurnTaken(h, txs, vals, now, Values(txs), i);
    ogTxs' := ogTxs + [og];
    KeepOne(h, txs, vals, kept, og.Value());
    assert Values(ogTxs') == kept + [og.Value()];
  }

  /** Link every value in place, keeping copies of the original transactions. */
  method LinkValues(h: Hashes, db: Database, txs: seq<Transaction>) returns (ogTxs: seq<Transaction>)
    requires Sound(h) && forall t :: t in txs ==> t.id == t.Value().ID()
    modifies db, Objects(txs)
    ensures db.View() == ValuesWritten(h, old(db.View()), txs, old(Values(txs)))
    ensures Values(txs) == B.LinkedTxs(h, old(Values(txs)))
    ensures |ogTxs| == |txs| && Kept(h, txs, old(Values(txs)), Values(ogTxs))
  {
    hide Sound, Linking, Kept, Apart, ValuesWritten, Met, Database.View, B.LinkedTxs, B.LinkedTx;
    ghost var m, vals := db.View(), Values(txs);
    assert forall k :: 0 <= k < |txs| ==> txs[k].id == vals[k].ID();
    StartLinking(h, m, txs, vals);
    ogTxs := [];
    while |ogTxs| < |txs|
      invariant |ogTxs| <= |txs|
      invariant db.View() == ValuesWritten(h, m, txs[..|ogTxs|], vals[..|ogTxs|])
      invariant Linking(h, txs, vals, Values(txs), |ogTxs|)
      invariant Kept(h, txs, vals, Values(ogTxs)) && Apart(txs, vals, ogTxs)
    {
      WriteOne(h, m, txs, vals, |ogTxs|);
      ogTxs := LinkNext(h, db, txs, vals, ogTxs);
    }
    EndLinking(h, txs, vals, Values(txs));
    assert txs[..|ogTxs|] == txs && vals[..|ogTxs|] == vals;
  }

  // ---------- SetLastAccepted ----------

  /** Every ID is the one Init computed for the transaction as it is. */
  predicate Initialised(txs: seq<Transaction>)
    reads Objects(txs)
  {
    forall t :: t in txs ==> t.id == t.Value().ID()
  }

  /** With every transaction object in the block once, the block is recorded with its values set apart,
      and the block in memory ends up as it was, on the copies where values were overwritten. */
  method SetLastAccepted(h: Hashes, db: Database, block: StatelessBlock)
    requires Sound(h) && Initialised(block.txs) && block.id == BlockHash(block.Value())
    modifies db, block, Objects(block.txs)
    ensures var b, m := old(block.Value()), old(db.View());
      db.View() == ValuesWritten(h, m[LastAcceptedKey := IDVal(block.id)], old(block.txs), b.txs)
        [BlockKey(block.id) := BlockVal(b.(txs := B.LinkedTxs(h, b.txs)))]
    ensures Separate(old(block.txs)) ==>
      && db.View() == B.Recorded(h, old(db.View()), old(block.Value()))
      && block.Value() == old(block.Value())
  {
    hide B.LinkedTxs, Database.View, Sound, ValuesWritten, B.WithValues, Separate, Kept;
    ghost var b, m := block.Value(), db.View();
    db.Write(LastAcceptedKey, IDVal(block.id));
    if Separate(block.txs) {
      SeparateValues(h, db.View(), block.txs, b.txs);
    }
    var ogTxs := LinkValues(h, db, block.txs);
    ghost var kept := Values(ogTxs);
    if Separate(block.txs) {
      AllKept(h, block.txs, b.txs, kept);
    }
    db.Write(BlockKey(block.id), BlockVal(block.Value()));
    block.txs := ogTxs;
  }

  lemma AllKept(h: Hashes, txs: seq<Transaction>, vals: seq<Tx>, kept: seq<Tx>)
    requires Separate(txs) && |kept| == |txs| == |vals| && Kept(h, txs, vals, kept)
    ensures kept == vals
  {
  }

  /** What ends up stored for a transaction ID: what the last object with that ID held, which is its
      value the first time the object comes up in the block, and the ID itself from then on. */
  lemma {:induction false} LastWriteStays(h: Hashes, m: Db, txs: seq<Transaction>, vals: seq<Tx>, i: nat)
    requires i < |txs| == |vals| && B.HasValue(vals[i])
    requires forall k :: i < k < |txs| ==> vals[k].ID() != vals[i].ID()
    ensures var id, m' := vals[i].ID(), ValuesWritten(h, m, txs, vals);
      && TxValueKey(id) in m'
      && m'[TxValueKey(id)] == BytesVal(if txs[i] in txs[..i] then h.tx(id) else vals[i].action.value)
  {
    var n := |txs| - 1;
    if i < n {
      LastWriteStays(h, m, txs[..n], vals[..n], i);
      assert txs[..n][..i] == txs[..i];
    }
  }

  /** So every object in a block once is what SetLastAccepted asks of its callers: with one object twice,
      the value would be gone when the block is read back. Its callers keep to that: parsing makes an
      object for each transaction, and the mempool hands out one for each ID. */
  lemma SameObjectTwice(h: Hashes, m: Db, t: Transaction, tx: Tx)
    requires Sound(h) && B.HasValue(tx) && h.tx(tx.ID()) != tx.action.value
    ensures var m' := ValuesWritten(h, m, [t, t], [tx, tx]);
      RestoredTx(h, m', B.LinkedTx(h, tx)) == Some(tx.(action := tx.action.(value := h.tx(tx.ID()))))
    ensures ValuesWritten(h, m, [t, t], [tx, tx]) != B.WithValues(m, [tx, tx])
  {
    var m' := ValuesWritten(h, m, [t, t], [tx, tx]);
    LastWriteStays(h, m, [t, t], [tx, tx], 1);
    DigestsAreNotEmpty(h, tx.ID());
    assert Holds(h, m', h.tx(tx.ID()), TxValueKey(tx.ID()));
    forall k | Holds(h, m', h.tx(tx.ID()), k)
      ensures k == TxValueKey(tx.ID())
    {
      assert IsPrefix(h.tx(k.tid), h.tx(tx.ID()));
    }
    assert [tx, tx][..1] == [tx];
  }

  // ---------- GetBlock ----------

  /** Parse the bytes as a transaction ID and look up its value. */
  method LinkedValue(h: Hashes, db: Database, bytes: seq<byte>) returns (r: Option<seq<byte>>)
    requires Sound(h)
    ensures r == ValueBehind(h, db.View(), bytes)
  {
    var m := db.View();
    if k :| k in m && Holds(h, m, bytes, k) {
      OneHolder(h, m, bytes, k);
      return Some(m[k].bytes);
    }
    return None;
  }

  lemma OneHolder(h: Hashes, m: Db, bytes: seq<byte>, k: Key)
    requires Sound(h) && Holds(h, m, bytes, k)
    ensures ValueBehind(h, m, bytes) == Some(m[k].bytes)
  {
    forall k' | Holds(h, m, bytes, k')
      ensures k' == k
    {
      assert IsPrefix(h.tx(k'.tid), h.tx(k.tid));
    }
  }

  /** Put the values back, in place. */
  method RestoreValues(h: Hashes, db: Database, txs: seq<Transaction>) returns (ok: bool)
    requires Sound(h) && Separate(txs)
    modifies Objects(txs)
    ensures match RestoredTxs(h, db.View(), old(Values(txs)))
      case None => !ok
      case Some(restored) => ok && Values(txs) == restored
  {
    hide Sound, RestoredTxs, ValueBehind;
    ghost var m, vals := db.View(), Values(txs);
    NothingToRestore(h, m);
    var i := 0;
    while i < |txs|
      invariant 0 <= i <= |txs|
      invariant RestoredTxs(h, m, vals[..i]) == Some(Values(txs)[..i])
      invariant Values(txs)[i..] == vals[i..]
    {
      var t := txs[i];
      RestoreStep(h, m, vals, i);
      assert t.Value() == Values(txs)[i..][0] == vals[i];
      ghost var before := Values(txs);
      ok := RestoreOne(h, m, db, t);
      if !ok {
        RestoreFails(h, m, vals, i + 1);
        return;
      }
      assert Values(txs) == before[i := t.Value()];
      assert Values(txs)[..i + 1] == before[..i] + [t.Value()];
      i := i + 1;
    }
    assert vals[..i] == vals && Values(txs)[..i] == Values(txs);
    ok := true;
  }

  method RestoreOne(h: Hashes, ghost m: Db, db: Database, t: Transaction) returns (ok: bool)
    requires Sound(h) && m == db.View()
    modifies t
    ensures match RestoredTx(h, m, old(t.Value())) case None => !ok case Some(tx) => ok && t.Value() == tx
  {
    if t.action.Set? && |t.action.value| > 0 {
      var b := LinkedValue(h, db, t.action.value);
      if b.None? {
        return false;
      }
      t.action := t.action.(value := b.value);
    }
    ok := true;
  }

  lemma NothingToRestore(h: Hashes, m: Db)
    ensures RestoredTxs(h, m, []) == Some([])
  {
  }

  lemma RestoreStep(h: Hashes, m: Db, txs: seq<Tx>, i: nat)
    requires i < |txs|
    ensures RestoredTxs(h, m, txs[..i + 1]) == match RestoredTxs(h, m, txs[..i])
      case None => None
      case Some(before) => match RestoredTx(h, m, txs[i]) case None => None case Some(tx) => Some(before + [tx])
  {
    assert txs[..i + 1][..i] == txs[..i];
  }

  lemma {:induction false} RestoreFails(h: Hashes, m: Db, txs: seq<Tx>, i: nat)
    requires i <= |txs| && RestoredTxs(h, m, txs[..i]).None?
    ensures RestoredTxs(h, m, txs).None?
    decreases |txs| - i
  {
    if i == |txs| {
      assert txs[..i] == txs;
    } else {
      RestoreStep(h, m, txs, i);
      RestoreFails(h, m, txs, i + 1);
    }
  }

  /** Unmarshalling makes an object of its own for every transaction. */
  method Unmarshal(txs: seq<Tx>) returns (objects: seq<Transaction>)
    ensures Separate(objects) && fresh(Objects(objects)) && Values(objects) == txs
  {
    objects := [];
    while |objects| < |txs|
      invariant |objects| <= |txs| && Separate(objects) && forall t :: t in objects ==> fresh(t)
      invariant Values(objects) == txs[..|objects|]
    {
      var t := new Transaction(txs[|objects|]);
      objects := objects + [t];
    }
    assert txs[..|objects|] == txs;
  }

  method GetBlock(h: Hashes, db: Database, id: BlockID) returns (r: Result<Block>)
    requires Sound(h)
    ensures r == ReadBlock(h, db.View(), id)
  {
    hide Sound, RestoredTxs, Separate;
    var b := db.Get(BlockKey(id));
    if b.None? {
      return Err(ErrParentNotFound);
    }
    if !b.value.BlockVal? {
      return Err(ErrCodec);
    }
    var txs := Unmarshal(b.value.blk.txs);
    var ok := RestoreValues(h, db, txs);
    if !ok {
      return Err(ErrKeyMissing);
    }
    return Ok(b.value.blk.(txs := Values(txs)));
  }

  // ---------- The cache of linked values ----------

  /** linkedTxCache. It is shared by every database of the process: the disk, and the layers of all
      blocks, accepted or not. */
  class LinkedTxCache {
    var entries: map<seq<byte>, seq<byte>>

    /** Whatever is cached is the value its transaction carried. */
    ghost predicate Valid(h: Hashes)
      reads this
    {
      forall b :: b in entries ==> exists t: TxID :: h.tx(t) == b && t.tx.action.Set? && t.tx.action.value == entries[b]
    }

    /** Whatever is cached can be found in this store. */
    ghost predicate Mirrors(h: Hashes, m: Db)
      reads this
    {
      forall b :: b in entries ==> ValueBehind(h, m, b) == Some(entries[b])
    }

    constructor ()
      ensures entries == map[]
      ensures forall h :: Valid(h) && forall m :: Mirrors(h, m)
    {
      entries := map[];
    }

    /** As blocks are accepted and the disk is pruned, the cache goes on mirroring it. */
    lemma StillMirrors(h: Hashes, m: Db, m': Db)
      requires Sound(h) && Mirrors(h, m) && FilesKept(m, m')
      ensures Mirrors(h, m')
    {
      forall b | b in entries
        ensures ValueBehind(h, m', b) == Some(entries[b])
      {
        var k :| Holds(h, m, b, k) && m[k].bytes == entries[b];
        assert Filed(k);
        OneHolder(h, m', b, k);
      }
    }

    /** getLinkedValue. Asked of one store that never loses a value, as the disk is, it always answers
        what is stored, hit or miss. Even when asked of several, an answer agrees with every store that
        has values under their own transactions, whichever it was cached from. */
    method GetLinkedValue(h: Hashes, db: Database, b: seq<byte>) returns (r: Option<seq<byte>>)
      requires Sound(h) && Valid(h) && ValuesTrue(db.View())
      modifies this
      ensures Valid(h)
      ensures ValueBehind(h, db.View(), b).Some? ==> r == ValueBehind(h, db.View(), b)
      ensures r.Some? ==> exists t: TxID :: h.tx(t) == b && t.tx.action.Set? && r == Some(t.tx.action.value)
      ensures old(Mirrors(h, db.View())) ==> Mirrors(h, db.View()) && r == ValueBehind(h, db.View(), b)
      ensures b !in old(entries) ==> r == ValueBehind(h, db.View(), b)
      ensures forall x :: x in old(entries) ==> x in entries && entries[x] == old(entries)[x]
    {
      if b in entries {
        CachedIsTrue(h, db.View(), b, entries[b]);
        return Some(entries[b]);
      }
      r := LinkedValue(h, db, b);
      if r.Some? {
        StoredIsTrue(h, db.View(), b);
        entries := entries[b := r.value];
      }
    }

    /** The cache may forget any entry at any time. */
    method Evict(h: Hashes, b: seq<byte>)
      requires Valid(h)
      modifies this
      ensures Valid(h) && entries == old(entries) - {b}
    {
      entries := entries - {b};
    }
  }

  lemma StoredIsTrue(h: Hashes, m: Db, b: seq<byte>)
    requires ValuesTrue(m) && ValueBehind(h, m, b).Some?
    ensures exists t: TxID :: h.tx(t) == b && t.tx.action.Set? && t.tx.action.value == ValueBehind(h, m, b).value
  {
    var k :| Holds(h, m, b, k) && m[k].bytes == ValueBehind(h, m, b).value;
    assert k == TxValueKey(k.tid);
  }

  lemma CachedIsTrue(h: Hashes, m: Db, b: seq<byte>, v: seq<byte>)
    requires Sound(h) && ValuesTrue(m)
    requires exists t: TxID :: h.tx(t) == b && t.tx.action.Set? && t.tx.action.value == v
    ensures ValueBehind(h, m, b).Some? ==> ValueBehind(h, m, b) == Some(v)
  {
    if ValueBehind(h, m, b).Some? {
      StoredIsTrue(h, m, b);
      var t: TxID :| h.tx(t) == b && t.tx.action.Set? && t.tx.action.value == v;
      var t': TxID :| h.tx(t') == b && t'.tx.action.Set? && t'.tx.action.value == ValueBehind(h, m, b).value;
      assert IsPrefix(h.tx(t), h.tx(t'));
    }
  }
}

/** Building a block from the mempool (builder.go). */
module Builder {
  import opened Types
  import opened Keys
  import opened VersionDB
  import S = Store
  import opened Spaces
  import opened Preservation
  import opened Chain
  import B = Blocks
  import opened BlockInvariants
  import opened Execution
  import opened Mempool
  import P = Storage
  import BT = BlockTree
  import opened ChainVM

  /** What does not change while a block is filled: the state after expiry, the block's header and
      its context. While it is being built, a block's ID is empty. */
  datatype Job = Job(h: Hashes, g: Genesis, start: Db, b: Block, c: S.Context)

  ghost function Exec(j: Job, txs: seq<Tx>): Result<Db> {
    B.ExecTxs(j.h, j.g, j.start, j.b, EmptyBlockID, j.c, txs)
  }

  ghost function ExecOne(j: Job, m: Db, tx: Tx): Result<Db> {
    S.ExecTx(j.h, j.g, m, j.b, EmptyBlockID, j.c, tx)
  }

  predicate Distinct(txs: seq<Tx>) {
    forall i, k :: 0 <= i < k < |txs| ==> txs[i] != txs[k]
  }

  predicate Descending(txs: seq<Tx>) {
    forall i, k :: 0 <= i < k < |txs| ==> txs[i].price >= txs[k].price
  }

  /** The transaction does not fit into the block. */
  predicate TooLarge(g: Genesis, txs: seq<Tx>, tx: Tx) {
    TotalLoad(g, txs) + S.LoadUnits(g, tx.action) > g.maxBlockSize
  }

  /** The transaction fails in the state left by the transactions of the block that came first, and
      those are ones that pay at least as much, while the others pay at most as much. */
  ghost predicate Fails(j: Job, txs: seq<Tx>, tx: Tx, i: nat)
    requires i <= |txs|
  {
    && (forall k :: 0 <= k < i ==> txs[k].price >= tx.price)
    && (forall k :: i <= k < |txs| ==> txs[k].price <= tx.price)
    && Exec(j, txs[..i]).Ok? && ExecOne(j, Exec(j, txs[..i]).value, tx).Err?
  }

  ghost predicate Failed(j: Job, txs: seq<Tx>, tx: Tx) {
    exists i: nat :: i <= |txs| && Fails(j, txs, tx, i)
  }

  // ---------- What holds while the block is filled ----------

  /** Of the transactions in `all`, those in `txs` are in the block, those in `held` are still in the
      mempool, those in `aside` are to be put back, and the others have been dropped. */
  ghost predicate Filling(j: Job, all: set<TxID>, held: set<TxID>, aside: set<TxID>, txs: seq<Tx>) {
    && held <= all && aside <= all && IDs(txs) <= all
    && held !! aside && held !! IDs(txs) && aside !! IDs(txs)
    && Distinct(txs) && Descending(txs)
    && (forall t :: t in txs ==> t.price >= j.b.price)
    && (forall x, t :: x in held && t in txs ==> x.tx.price <= t.price)
    && TotalLoad(j.g, txs) <= j.g.maxBlockSize
    && (forall x :: x in aside ==> TooLarge(j.g, txs, x.tx))
    && Exec(j, txs).Ok?
    && (forall x :: x in all - held - aside - IDs(txs) ==>
      Failed(j, txs, x.tx) && forall y :: y in held ==> y.tx.price <= x.tx.price)
  }

  /** The outcome: every transaction is in the block, or left in the mempool because it pays less than
      the block's price or does not fit, or gone because it failed, and exactly one of these. */
  ghost predicate Filled(j: Job, all: set<TxID>, left: set<TxID>, txs: seq<Tx>) {
    && left <= all && IDs(txs) <= all && left !! IDs(txs)
    && Distinct(txs) && Descending(txs)
    && (forall t :: t in txs ==> t.price >= j.b.price)
    && TotalLoad(j.g, txs) <= j.g.maxBlockSize
    && Exec(j, txs).Ok?
    && (forall x :: x in left ==>
      || x.tx.price < j.b.price
      || TotalLoad(j.g, txs) + S.LoadUnits(j.g, x.tx.action) > j.g.maxBlockSize)
    && (forall x :: x in all - left - IDs(txs) ==> Failed(j, txs, x.tx))
  }

  lemma Start(j: Job, all: set<TxID>)
    ensures Filling(j, all, all, {}, [])
  {
  }

  lemma Extended(j: Job, txs: seq<Tx>, next: Tx)
    ensures (txs + [next])[..|txs|] == txs
    ensures IDs(txs + [next]) == IDs(txs) + {next.ID()}
    ensures TotalLoad(j.g, txs + [next]) == TotalLoad(j.g, txs) + S.LoadUnits(j.g, next.action)
    ensures Exec(j, txs).Ok? ==> Exec(j, txs + [next]) == ExecOne(j, Exec(j, txs).value, next)
  {
    var txs' := txs + [next];
    assert txs'[..|txs|] == txs && txs'[|txs|] == next;
    IDsStep(txs', |txs'|);
    assert txs'[..|txs'|] == txs';
  }

  lemma StillFailed(j: Job, txs: seq<Tx>, next: Tx, x: Tx)
    requires Failed(j, txs, x) && next.price <= x.price
    ensures Failed(j, txs + [next], x)
  {
    var i: nat :| i <= |txs| && Fails(j, txs, x, i);
    assert (txs + [next])[..i] == txs[..i];
    assert Fails(j, txs + [next], x, i);
  }

  /** The next transaction fits and succeeds. */
  lemma Take(j: Job, all: set<TxID>, held: set<TxID>, aside: set<TxID>, txs: seq<Tx>, next: Tx)
    requires Filling(j, all, held, aside, txs) && Dearest(held, next.ID()) && next.price >= j.b.price
    requires !TooLarge(j.g, txs, next) && ExecOne(j, Exec(j, txs).value, next).Ok?
    ensures Filling(j, all, held - {next.ID()}, aside, txs + [next])
  {
    hide S.LoadUnits, ExecOne, Fails;
    Extended(j, txs, next);
    var txs', held' := txs + [next], held - {next.ID()};
    hide Exec, TotalLoad;
    assert Distinct(txs') by {
      forall t | t in txs
        ensures t != next
      {
        var k :| 0 <= k < |txs| && txs[k] == t;
        assert t.ID() in IDs(txs);
      }
    }
    assert all - held' - aside - IDs(txs') == all - held - aside - IDs(txs);
    forall x | x in all - held' - aside - IDs(txs')
      ensures Failed(j, txs', x.tx)
    {
      assert next.ID().tx.price <= x.tx.price;
      StillFailed(j, txs, next, x.tx);
    }
  }

  /** The next transaction does not fit. */
  lemma SetAside(j: Job, all: set<TxID>, held: set<TxID>, aside: set<TxID>, txs: seq<Tx>, next: Tx)
    requires Filling(j, all, held, aside, txs) && next.ID() in held
    requires TooLarge(j.g, txs, next)
    ensures Filling(j, all, held - {next.ID()}, aside + {next.ID()}, txs)
  {
    hide S.LoadUnits, Exec, ExecOne, Failed, TotalLoad;
  }

  /** The next transaction fails. */
  lemma Drop(j: Job, all: set<TxID>, held: set<TxID>, aside: set<TxID>, txs: seq<Tx>, next: Tx)
    requires Filling(j, all, held, aside, txs) && Dearest(held, next.ID())
    requires ExecOne(j, Exec(j, txs).value, next).Err?
    ensures Filling(j, all, held - {next.ID()}, aside, txs)
  {
    hide S.LoadUnits, Exec, ExecOne, TotalLoad;
    assert txs[..|txs|] == txs;
    forall k | 0 <= k < |txs|
      ensures txs[k].price >= next.price
    {
      assert next.ID().tx.price <= txs[k].price;
    }
    assert Fails(j, txs, next, |txs|);
    assert Failed(j, txs, next);
  }

  /** Whatever is still in the mempool pays too little, and the rest is put back. */
  lemma Finish(j: Job, all: set<TxID>, held: set<TxID>, aside: set<TxID>, txs: seq<Tx>)
    requires Filling(j, all, held, aside, txs) && forall x :: x in held ==> x.tx.price < j.b.price
    ensures Filled(j, all, held + aside, txs)
  {
    hide S.LoadUnits, Exec, ExecOne, TotalLoad, Failed;
  }

  // ---------- BuildBlock ----------

  function NewBlock(parent: BlockID, tmstmp: int, c: S.Context): Block
    requires parent.BlockHash?
  {
    Block(parent, tmstmp, W(parent.blk.hght + 1), c.nextPrice, c.nextCost, [])
  }

  /** The loads can be added up. */
  ghost predicate LoadsFit(g: Genesis, offers: set<TxID>) {
    forall x :: x in offers ==> S.LoadUnits(g, x.tx.action) + g.maxBlockSize < TWO64
  }

  /** Nothing wraps around whichever of the offered transactions are executed, in whichever order. If
      the clock is behind the parent's time, no verification executes any. */
  ghost predicate NothingWraps(h: Hashes, g: Genesis, state: Db, b: Block, c: S.Context, offers: set<TxID>) {
    && LoadsFit(g, offers)
    && (b.prnt.BlockHash? && b.prnt.blk.tmstmp <= b.tmstmp ==>
      forall bid: BlockID, boot: bool, txs: seq<Tx> :: Distinct(txs) && IDs(txs) <= offers ==>
        TxsGood(h, g, S.Expire(state, W(b.tmstmp), boot), b, bid, c, txs))
  }

  lemma LoadsOfOffers(h: Hashes, g: Genesis, state: Db, b: Block, c: S.Context, offers: set<TxID>)
    requires NothingWraps(h, g, state, b, c, offers)
    ensures LoadsFit(g, offers)
  {
    hide TxsGood, LoadsFit;
  }

  /** What filling a block needs. */
  ghost predicate Safe(j: Job, all: set<TxID>) {
    Tidy(j.start) && LoadsFit(j.g, all)
  }

  lemma {:induction false} TxsKeepTidy(j: Job, txs: seq<Tx>)
    requires Tidy(j.start) && Exec(j, txs).Ok?
    ensures Tidy(Exec(j, txs).value)
  {
    if |txs| > 0 {
      hide Tidy, S.ExecTx;
      TxsKeepTidy(j, txs[..|txs| - 1]);
      TxKeepsTidy(j.h, j.g, Exec(j, txs[..|txs| - 1]).value, j.b, EmptyBlockID, j.c, txs[|txs| - 1]);
    }
  }

  lemma PrefixIDs(txs: seq<Tx>, n: nat)
    requires n <= |txs|
    ensures IDs(txs[..n]) <= IDs(txs)
    ensures IDs(txs[..n]) == if n == 0 then {} else IDs(txs[..n - 1]) + {txs[n - 1].ID()}
  {
    IDsStep(txs, n);
    assert forall i :: 0 <= i < n ==> txs[..n][i] == txs[i];
  }

  /** Put the transactions back. */
  method Restore(mempool: Mempool, unusable: seq<Tx>)
    requires mempool.Valid() && |mempool.Held() + IDs(unusable)| <= mempool.maxSize
    modifies mempool.Repr
    ensures mempool.Valid() && fresh(mempool.Repr - old(mempool.Repr))
    ensures mempool.Held() == old(mempool.Held()) + IDs(unusable)
  {
    hide Mempool.Valid, IDs;
    ghost var held := mempool.Held();
    PrefixIDs(unusable, 0);
    var i := 0;
    while i < |unusable|
      invariant 0 <= i <= |unusable|
      invariant mempool.Valid() && fresh(mempool.Repr - old(mempool.Repr))
      invariant mempool.Held() == held + IDs(unusable[..i])
    {
      PrefixIDs(unusable, i + 1);
      PutBack(mempool, unusable[i], held + IDs(unusable));
      i := i + 1;
    }
    assert unusable[..i] == unusable;
  }

  /** With room for it, an added transaction is held and no other goes. */
  method PutBack(mempool: Mempool, tx: Tx, ghost all: set<TxID>)
    requires mempool.Valid() && mempool.Held() + {tx.ID()} <= all && |all| <= mempool.maxSize
    modifies mempool.Repr
    ensures mempool.Valid() && fresh(mempool.Repr - old(mempool.Repr))
    ensures mempool.Held() == old(mempool.Held()) + {tx.ID()}
  {
    NoLarger(mempool.Held() + {tx.ID()}, all);
    var _ := mempool.Add(tx);
  }

  /** Execute a transaction on a layer of its own, and commit the layer if it succeeds: a transaction
      that fails leaves the state as it was. */
  method TryTx(j: Job, vdb: Database, next: Tx) returns (err: Option<Error>)
    requires Sound(j.h) && Tidy(vdb.View())
    modifies vdb
    ensures Carries(ExecOne(j, old(vdb.View()), next), err, vdb.View())
    ensures err.Some? ==> unchanged(vdb)
  {
    hide Tidy, ExecOne;
    var tvdb := new Database(vdb.View());
    err := RunTx(j, tvdb, next);
    if err.None? {
      tvdb.CommitTo(vdb);
    }
  }

  method RunTx(j: Job, tvdb: Database, next: Tx) returns (err: Option<Error>)
    requires Sound(j.h) && Tidy(tvdb.View())
    modifies tvdb
    ensures Carries(ExecOne(j, old(tvdb.View()), next), err, tvdb.View())
  {
    hide Tidy, S.ExecTx;
    err := ExecTx(j.h, j.g, tvdb, j.b, EmptyBlockID, j.c, next);
  }

  lemma StateIsTidy(j: Job, all: set<TxID>, txs: seq<Tx>)
    requires Safe(j, all) && Exec(j, txs).Ok?
    ensures Tidy(Exec(j, txs).value)
  {
    TxsKeepTidy(j, txs);
  }

  lemma Fullness(j: Job, all: set<TxID>, held: set<TxID>, aside: set<TxID>, txs: seq<Tx>, next: Tx)
    requires Safe(j, all) && Filling(j, all, held, aside, txs) && next.ID() in held
    ensures TotalLoad(j.g, txs) <= j.g.maxBlockSize && held <= all
    ensures TotalLoad(j.g, txs) + S.LoadUnits(j.g, next.action) < TWO64
    ensures TooLarge(j.g, txs, next) <==> TotalLoad(j.g, txs) + S.LoadUnits(j.g, next.action) > j.g.maxBlockSize
  {
    hide S.LoadUnits, Failed, Exec, TotalLoad, Tidy;
    assert next.ID().tx == next;
  }

  /** What the loop does with a transaction that pays enough. */
  method Consider(j: Job, vdb: Database, txs: seq<Tx>, units: uint64, next: Tx,
                  ghost all: set<TxID>, ghost held: set<TxID>, ghost aside: set<TxID>)
    returns (tooLarge: bool, txs': seq<Tx>, units': uint64)
    requires Sound(j.h) && Safe(j, all) && Filling(j, all, held, aside, txs)
    requires Dearest(held, next.ID()) && next.price >= j.b.price
    requires units == TotalLoad(j.g, txs) && Exec(j, txs) == Ok(vdb.View())
    modifies vdb
    ensures Filling(j, all, held - {next.ID()}, aside + (if tooLarge then {next.ID()} else {}), txs')
    ensures units' == TotalLoad(j.g, txs') && Exec(j, txs') == Ok(vdb.View())
  {
    hide Filling, Safe, Tidy, Exec, ExecOne, TotalLoad, S.LoadUnits;
    tooLarge, txs', units' := false, txs, units;
    Fullness(j, all, held, aside, txs, next);
    var nextLoad := S.LoadUnits(j.g, next.action);
    if W(units + nextLoad) > j.g.maxBlockSize {
      SetAside(j, all, held, aside, txs, next);
      tooLarge := true;
    } else {
      StateIsTidy(j, all, txs);
      var err := TryTx(j, vdb, next);
      assert aside + {} == aside;
      if err.Some? {
        Drop(j, all, held, aside, txs, next);
      } else {
        Take(j, all, held, aside, txs, next);
        Extended(j, txs, next);
        txs' := txs + [next];
        units' := W(units + nextLoad);
      }
    }
  }

  /** The same, with the list of those to be put back. */
  method ConsiderNext(j: Job, vdb: Database, txs: seq<Tx>, unusable: seq<Tx>, units: uint64, next: Tx,
                      ghost all: set<TxID>, ghost held: set<TxID>)
    returns (txs': seq<Tx>, unusable': seq<Tx>, units': uint64)
    requires Sound(j.h) && Safe(j, all) && Filling(j, all, held, IDs(unusable), txs)
    requires Dearest(held, next.ID()) && next.price >= j.b.price
    requires units == TotalLoad(j.g, txs) && Exec(j, txs) == Ok(vdb.View())
    modifies vdb
    ensures Filling(j, all, held - {next.ID()}, IDs(unusable'), txs')
    ensures units' == TotalLoad(j.g, txs') && Exec(j, txs') == Ok(vdb.View())
  {
    hide Filling, Safe, Exec, TotalLoad, IDs, Sound, Dearest;
    var tooLarge;
    tooLarge, txs', units' := Consider(j, vdb, txs, units, next, all, held, IDs(unusable));
    unusable' := if tooLarge then unusable + [next] else unusable;
    if tooLarge {
      Extended(j, unusable, next);
    }
    assert IDs(unusable) + {} == IDs(unusable);
  }

  /** What is true of the mempool and the block, whenever the loop tests its condition. */
  ghost predicate Underway(j: Job, vdb: Database, mempool: Mempool, all: set<TxID>, txs: seq<Tx>, unusable: seq<Tx>,
                           units: uint64)
    reads vdb, mempool, mempool.Repr
  {
    && mempool.Valid() && vdb !in mempool.Repr
    && Filling(j, all, mempool.Held(), IDs(unusable), txs)
    && units == TotalLoad(j.g, txs) && Exec(j, txs) == Ok(vdb.View())
  }

  /** One turn of the loop. */
  method Turn(j: Job, vdb: Database, mempool: Mempool, txs: seq<Tx>, unusable: seq<Tx>, units: uint64,
              ghost all: set<TxID>)
    returns (stop: bool, txs': seq<Tx>, unusable': seq<Tx>, units': uint64)
    requires Sound(j.h) && Safe(j, all)
    requires Underway(j, vdb, mempool, all, txs, unusable, units) && mempool.Held() != {}
    requires |all| <= mempool.maxSize
    modifies vdb, mempool.Repr
    ensures fresh(mempool.Repr - old(mempool.Repr))
    ensures Underway(j, vdb, mempool, all, txs', unusable', units')
    ensures stop ==> forall x :: x in mempool.Held() ==> x.tx.price < j.b.price
    ensures !stop ==> mempool.Held() < old(mempool.Held())
  {
    hide Filling, Safe, Exec, TotalLoad, IDs, Mempool.Valid, Mempool.Queue, Mempool.Synced, Sound, Database.View,
      Offered;
    hide Mempool.SentIntact, TooLarge, ExecOne, S.LoadUnits, Contents, InBounds, W;
    stop, txs', unusable', units' := false, txs, unusable, units;
    ghost var held := mempool.Held();
    FillingWithin(j, all, held, IDs(unusable), txs);
    var next, price := mempool.PopMax();
    WithinSize(mempool);
    if price < j.b.price {
      PutBack(mempool, next, all);
      stop := true;
      assert mempool.Valid() && vdb !in mempool.Repr;
      assert mempool.Held() == held;
      assert Exec(j, txs) == Ok(vdb.View());
    } else {
      txs', unusable', units' := ConsiderNext(j, vdb, txs, unusable, units, next, all, held);
      assert vdb !in mempool.Repr;
      assert mempool.Valid();
      assert mempool.Held() == held - {next.ID()};
    }
  }

  /** The loop of BuildBlock. */
  method Fill(j: Job, vdb: Database, mempool: Mempool, ghost all: set<TxID>) returns (txs: seq<Tx>, unusable: seq<Tx>)
    requires mempool.Valid() && mempool.Held() == all && vdb !in mempool.Repr
    requires Sound(j.h) && Safe(j, all) && vdb.View() == j.start
    modifies vdb, mempool.Repr
    ensures mempool.Valid() && fresh(mempool.Repr - old(mempool.Repr))
    ensures Filling(j, all, mempool.Held(), IDs(unusable), txs)
    ensures forall x :: x in mempool.Held() ==> x.tx.price < j.b.price
  {
    hide Filling, Safe, Exec, TotalLoad, IDs, Mempool.Valid, Mempool.Queue, Mempool.Synced, Sound, Database.View,
      Offered;
    txs, unusable := [], [];
    var units: uint64 := 0;
    FillStart(j, all);
    WithinSize(mempool);
    var n := mempool.Len();
    var stop := false;
    while n > 0 && !stop
      invariant n == |mempool.Held()| && fresh(mempool.Repr - old(mempool.Repr))
      invariant Underway(j, vdb, mempool, all, txs, unusable, units)
      invariant stop ==> forall x :: x in mempool.Held() ==> x.tx.price < j.b.price
      decreases !stop, mempool.Held()
    {
      stop, txs, unusable, units := Turn(j, vdb, mempool, txs, unusable, units, all);
      WithinSize(mempool);
      n := mempool.Len();
    }
  }

  lemma FillingWithin(j: Job, all: set<TxID>, held: set<TxID>, aside: set<TxID>, txs: seq<Tx>)
    requires Filling(j, all, held, aside, txs)
    ensures held <= all && held + aside <= all && IDs(txs) <= all && Distinct(txs)
  {
  }

  lemma WithinSize(mempool: Mempool)
    requires mempool.Valid()
    ensures mempool.Synced() && |mempool.Held()| <= mempool.maxSize
    ensures mempool in mempool.Repr && mempool.maxHeap in mempool.Repr
  {
  }

  lemma FillStart(j: Job, all: set<TxID>)
    ensures Filling(j, all, all, IDs([]), [])
    ensures TotalLoad(j.g, []) == 0 && Exec(j, []) == Ok(j.start)
  {
    assert IDs([]) == {};
    Start(j, all);
  }

  /** Execution looks at the block's header only. */
  lemma {:induction false} SameHeader(h: Hashes, g: Genesis, m: Db, b: Block, b': Block, bid: BlockID, c: S.Context,
                                      txs: seq<Tx>)
    requires b'.prnt == b.prnt && b'.tmstmp == b.tmstmp && b'.price == b.price
    ensures B.ExecTxs(h, g, m, b', bid, c, txs) == B.ExecTxs(h, g, m, b, bid, c, txs)
    ensures TxsGood(h, g, m, b, bid, c, txs) ==> TxsGood(h, g, m, b', bid, c, txs)
  {
    if |txs| > 0 {
      hide S.ExecTx, TxGood;
      SameHeader(h, g, m, b, b', bid, c, txs[..|txs| - 1]);
      var r := B.ExecTxs(h, g, m, b, bid, c, txs[..|txs| - 1]);
      if r.Ok? {
        SameHeaderOnce(h, g, r.value, b, b', bid, c, txs[|txs| - 1]);
      }
    }
  }

  lemma SameHeaderOnce(h: Hashes, g: Genesis, m: Db, b: Block, b': Block, bid: BlockID, c: S.Context, tx: Tx)
    requires b'.prnt == b.prnt && b'.tmstmp == b.tmstmp && b'.price == b.price
    ensures S.ExecTx(h, g, m, b', bid, c, tx) == S.ExecTx(h, g, m, b, bid, c, tx)
    ensures TxGood(g, m, b, tx) == TxGood(g, m, b', tx)
  {
    hide S.ExecAction, S.ModifyBalance, S.ExecuteBase, S.Fee, S.ApplyReward, S.FeeUnits, W, ActionFits;
  }

  lemma JobIsSafe(j: Job, state: Db, now: uint64, all: set<TxID>)
    requires Inv(j.g, state, now) && LoadsFit(j.g, all)
    requires j.start == S.Expire(state, W(j.b.tmstmp), true)
    ensures Safe(j, all)
  {
    ExpireKeepsTidy(state, W(j.b.tmstmp));
  }

  lemma ExpireKeepsTidy(m: Db, now: uint64)
    requires Tidy(m)
    ensures Tidy(S.Expire(m, now, true))
  {
    hide S.ExpiredAt;
  }

  lemma BuiltIsGood(j: Job, state: Db, all: set<TxID>, txs: seq<Tx>, bootstrapped: bool)
    requires NothingWraps(j.h, j.g, state, j.b, j.c, all) && Distinct(txs) && IDs(txs) <= all
    requires j.b.prnt.BlockHash? && 0 <= j.b.prnt.blk.tmstmp <= j.b.tmstmp && 1 <= j.b.tmstmp < TWO63
    requires j.c == Chain.ExecutionContext(j.g, j.b.tmstmp, j.b.prnt)
    ensures BlockGood(j.h, j.g, state, j.b.(txs := txs), bootstrapped)
  {
    hide TxsGood, S.Expire, Distinct, IDs, S.LoadUnits, Chain.ExecutionContext, W;
    var b' := j.b.(txs := txs);
    SameHeader(j.h, j.g, S.Expire(state, W(j.b.tmstmp), bootstrapped), j.b, b', BlockHash(b'), j.c, txs);
  }

  /** Fill a block on top of the preferred one with the mempool's best transactions, and hand it out
      if it verifies. */
  method BuildBlock(vm: VM, preferred: BlockID, mempool: Mempool, nextTime: int, later: int)
    returns (r: Result<Block>, ghost txs: seq<Tx>)
    requires vm.Valid() && vm.Extendable(preferred) && vm.Answers(preferred) && preferred.BlockHash?
    requires mempool.Valid() && vm !in mempool.Repr
    requires 1 <= nextTime < TWO63
    requires var c := Chain.ExecutionContext(vm.g, nextTime, preferred);
      NothingWraps(vm.h, vm.g, vm.StateOf(preferred), NewBlock(preferred, nextTime, c), c,
        Recent(mempool.Held(), c.recentBlockIDs))
    modifies mempool.Repr
    ensures mempool.Valid() && fresh(mempool.Repr - old(mempool.Repr))
    ensures var c := Chain.ExecutionContext(vm.g, nextTime, preferred);
      var b := NewBlock(preferred, nextTime, c);
      var state := vm.StateOf(preferred);
      && Filled(Job(vm.h, vm.g, S.Expire(state, W(nextTime), true), b, c),
                Recent(old(mempool.Held()), c.recentBlockIDs), mempool.Held(), txs)
      && (r.Ok? ==> r.value == b.(txs := txs))
      && (r.Ok? <==>
           nextTime < later + 10 && B.ExecBlock(vm.h, vm.g, state, b.(txs := txs), vm.bootstrapped).Ok?)
  {
    hide Inv, Mempool.Valid, VM.Valid, VM.Extendable, VM.Known, VM.StateOf, VM.OnAccept, Filled, NothingWraps, S.Expire,
      B.ExecBlock, Chain.ExecutionContext, Recent, Sound, BT.StateOk;
    vm.ParentState(preferred);
    var context := vm.ExecutionContext(nextTime, preferred);
    var c := context.value;
    var b := NewBlock(preferred, nextTime, c);
    var state := vm.OnAccept(preferred);
    ghost var all := Recent(mempool.Held(), c.recentBlockIDs);
    mempool.Prune(c.recentBlockIDs);
    r, txs := BuildOn(vm.h, vm.g, state, b, c, vm.bootstrapped, mempool, later, all);
  }

  /** The same, once the parent's state and the context are known and the mempool is pruned. */
  method BuildOn(h: Hashes, g: Genesis, state: Db, b: Block, c: S.Context, bootstrapped: bool, mempool: Mempool,
                 later: int, ghost all: set<TxID>)
    returns (r: Result<Block>, ghost txs: seq<Tx>)
    requires Sound(h) && b.prnt.BlockHash? && Inv(g, state, W(b.prnt.blk.tmstmp)) && b.txs == []
    requires 0 <= b.prnt.blk.tmstmp && 1 <= b.tmstmp < TWO63
    requires c == Chain.ExecutionContext(g, b.tmstmp, b.prnt) && NothingWraps(h, g, state, b, c, all)
    requires mempool.Valid() && mempool.Held() == all
    modifies mempool.Repr
    ensures mempool.Valid() && fresh(mempool.Repr - old(mempool.Repr))
    ensures Filled(Job(h, g, S.Expire(state, W(b.tmstmp), true), b, c), all, mempool.Held(), txs)
    ensures r.Ok? ==> r.value == b.(txs := txs)
    ensures r.Ok? <==> b.tmstmp < later + FUTURE_BOUND && B.ExecBlock(h, g, state, b.(txs := txs), bootstrapped).Ok?
  {
    hide Inv, Mempool.Valid, Filling, Filled, NothingWraps, S.Expire, B.ExecBlock, Chain.ExecutionContext, IDs,
      Distinct, Sound, BlockGood, SparesQueue, QueueKept;
    ghost var j := Job(h, g, S.Expire(state, W(b.tmstmp), true), b, c);
    WithinSize(mempool);
    var chosen, unusable := FillOn(h, g, state, b, c, mempool, all);
    txs := chosen;
    FillingWithin(j, all, mempool.Held(), IDs(unusable), chosen);
    Finish(j, all, mempool.Held(), IDs(unusable), chosen);
    NoLarger(mempool.Held() + IDs(unusable), all);
    var b' := b.(txs := chosen);
    r := VerifyFilled(j, h, g, state, b', c, bootstrapped, later, all);
    Restore(mempool, unusable);
  }

  /** Verify the block under its real ID, without saving it. */
  method VerifyFilled(ghost j: Job, h: Hashes, g: Genesis, state: Db, b: Block, c: S.Context, bootstrapped: bool,
                      later: int, ghost all: set<TxID>)
    returns (r: Result<Block>)
    requires j.h == h && j.g == g && j.c == c && j.b.(txs := b.txs) == b
    requires Sound(h) && b.prnt.BlockHash? && Inv(g, state, W(b.prnt.blk.tmstmp))
    requires 0 <= b.prnt.blk.tmstmp && 1 <= b.tmstmp < TWO63
    requires c == Chain.ExecutionContext(g, b.tmstmp, b.prnt) && NothingWraps(h, g, state, j.b, c, all)
    requires Distinct(b.txs) && IDs(b.txs) <= all
    ensures r.Ok? ==> r.value == b
    ensures r.Ok? <==> b.tmstmp < later + FUTURE_BOUND && B.ExecBlock(h, g, state, b, bootstrapped).Ok?
  {
    hide Inv, NothingWraps, B.ExecBlock, Chain.ExecutionContext, IDs, Distinct, Sound, BlockGood, SparesQueue,
      QueueKept;
    if b.prnt.blk.tmstmp <= b.tmstmp {
      BuiltIsGood(j, state, all, b.txs, bootstrapped);
    }
    var err, _ := VerifyBlock(h, g, state, b, c, bootstrapped, later);
    r := if err.Some? then Err(err.value) else Ok(b);
  }

  /** Expire, on a layer over the parent's state, and fill. */
  method FillOn(h: Hashes, g: Genesis, state: Db, b: Block, c: S.Context, mempool: Mempool, ghost all: set<TxID>)
    returns (txs: seq<Tx>, unusable: seq<Tx>)
    requires Sound(h) && b.prnt.BlockHash? && Inv(g, state, W(b.prnt.blk.tmstmp))
    requires 0 <= b.prnt.blk.tmstmp && 1 <= b.tmstmp < TWO63
    requires NothingWraps(h, g, state, b, c, all)
    requires mempool.Valid() && mempool.Held() == all
    modifies mempool.Repr
    ensures mempool.Valid() && fresh(mempool.Repr - old(mempool.Repr))
    ensures Filling(Job(h, g, S.Expire(state, W(b.tmstmp), true), b, c), all, mempool.Held(), IDs(unusable), txs)
    ensures forall x :: x in mempool.Held() ==> x.tx.price < b.price
  {
    hide Inv, Mempool.Valid, Filling, Safe, NothingWraps, S.Expire, Sound, Shape, P.OnlyLiveTouched, IDs;
    var vdb := new Database(state);
    InvIsShape(g, state, W(b.prnt.blk.tmstmp));
    P.ExpireNext(h, vdb, b.prnt.blk.tmstmp, b.tmstmp, true);
    var j := Job(h, g, vdb.View(), b, c);
    assert LoadsFit(g, all) by {
      LoadsOfOffers(h, g, state, b, c, all);
    }
    JobIsSafe(j, state, W(b.prnt.blk.tmstmp), all);
    txs, unusable := Fill(j, vdb, mempool, all);
  }
}

/** The mempool (mempool.go): the same transactions in a max-heap and a min-heap, and the queue of
    those not yet gossiped, which shares its memory with the batches already handed out. */
module Mempool {
  import opened Types
  import opened TxHeap
  import S = Store
  import opened Chain

  // ---------- Transactions by price ----------

  /** `id` has the lowest price in `ids`. */
  predicate Cheapest(ids: set<TxID>, id: TxID) {
    id in ids && forall x :: x in ids ==> id.tx.price <= x.tx.price
  }

  predicate Dearest(ids: set<TxID>, id: TxID) {
    id in ids && forall x :: x in ids ==> id.tx.price >= x.tx.price
  }

  /** Those that name one of the given blocks. */
  function Recent(ids: set<TxID>, blockIDs: set<BlockID>): set<TxID> {
    set id | id in ids && id.tx.blockID in blockIDs
  }

  /** What offering `tx` to a mempool that holds `held` may leave in it: with the transaction in, one
      of the cheapest gives way when they are too many. */
  ghost predicate Offered(maxSize: nat, held: set<TxID>, tx: Tx, held': set<TxID>) {
    var all := held + {tx.ID()};
    if tx.ID() in held then held' == held
    else if |all| <= maxSize then held' == all
    else exists m :: Cheapest(all, m) && held' == all - {m}
  }

  lemma OfferTwice(maxSize: nat, held: set<TxID>, tx: Tx)
    requires tx.ID() in held
    ensures Offered(maxSize, held, tx, held)
  {
  }

  lemma OfferFits(maxSize: nat, held: set<TxID>, tx: Tx)
    requires tx.ID() !in held && |held + {tx.ID()}| <= maxSize
    ensures Offered(maxSize, held, tx, held + {tx.ID()})
  {
  }

  lemma OfferOver(maxSize: nat, held: set<TxID>, tx: Tx, m: TxID)
    requires tx.ID() !in held && |held + {tx.ID()}| > maxSize && |held| <= maxSize
    requires Cheapest(held + {tx.ID()}, m)
    ensures Offered(maxSize, held, tx, held + {tx.ID()} - {m})
    ensures |held + {tx.ID()} - {m}| <= maxSize
  {
    assert |held + {tx.ID()}| == |held| + 1;
  }

  // ---------- Slices ----------

  /** A Go slice: a stretch of an array it does not own. Its capacity reaches to the array's end. */
  datatype Slice = Slice(mem: array<Tx>, lo: nat, hi: nat)

  ghost predicate InBounds(s: Slice) {
    s.lo <= s.hi <= s.mem.Length
  }

  function Contents(s: Slice): (txs: seq<Tx>)
    requires InBounds(s)
    reads s.mem
    ensures |txs| == s.hi - s.lo
  {
    s.mem[s.lo..s.hi]
  }

  /** A batch handed out, and what it read as then. */
  datatype Batch = Batch(slice: Slice, txs: seq<Tx>)

  function ArraysOf(sent: seq<Batch>): set<array<Tx>> {
    set b | b in sent :: b.slice.mem
  }

  // ---------- Loads ----------

  /** The transactions still held, in order. */
  function StillHeld(txs: seq<Tx>, held: set<TxID>): seq<Tx> {
    if |txs| == 0 then []
    else StillHeld(txs[..|txs| - 1], held) + if txs[|txs| - 1].ID() in held then [txs[|txs| - 1]] else []
  }

  lemma {:induction false} StillHeldFits(txs: seq<Tx>, held: set<TxID>)
    ensures |StillHeld(txs, held)| <= |txs|
  {
    if |txs| > 0 {
      StillHeldFits(txs[..|txs| - 1], held);
    }
  }

  /** One more transaction of the queue. */
  lemma TakeStep(g: Genesis, txs: seq<Tx>, held: set<TxID>, i: nat, batch: seq<Tx>, tx: Tx)
    requires i < |txs| && txs[i] == tx && batch == StillHeld(txs[..i], held)
    ensures StillHeld(txs[..i + 1], held) == if tx.ID() in held then batch + [tx] else batch
    ensures TotalLoad(g, batch + [tx]) == TotalLoad(g, batch) + S.LoadUnits(g, tx.action)
    ensures |batch| <= i
  {
    assert txs[..i + 1][..i] == txs[..i];
    assert (batch + [tx])[..|batch|] == batch;
    StillHeldFits(txs[..i], held);
  }

  /** `batch` is what is still held of the first transactions in the queue, and `rest` is the rest of
      it, which starts with a transaction that is held and would take the load over `maxUnits`. */
  predicate Gossiped(g: Genesis, queue: seq<Tx>, held: set<TxID>, maxUnits: uint64, batch: seq<Tx>, rest: seq<Tx>) {
    var n := |queue| - |rest|;
    && n >= 0 && rest == queue[n..]
    && batch == StillHeld(queue[..n], held)
    && TotalLoad(g, batch) <= maxUnits
    && (|rest| > 0 ==> (rest[0].ID() in held && TotalLoad(g, batch + [rest[0]]) > maxUnits))
  }

  lemma StopsAt(g: Genesis, queue: seq<Tx>, held: set<TxID>, maxUnits: uint64, batch: seq<Tx>, n: nat)
    requires n <= |queue| && batch == StillHeld(queue[..n], held) && TotalLoad(g, batch) <= maxUnits
    requires n < |queue| ==> (queue[n].ID() in held && TotalLoad(g, batch + [queue[n]]) > maxUnits)
    ensures Gossiped(g, queue, held, maxUnits, batch, queue[n..])
  {
  }

  class Mempool {
    const g: Genesis
    const maxSize: nat
    const maxHeap: Heap
    const minHeap: Heap
    var pending: bool  // whether an item is in the channel Pending
    var newTxs: Slice
    ghost var sent: seq<Batch>
    ghost var Repr: set<object>

    constructor (g: Genesis, maxSize: nat)
      ensures Valid() && this.maxSize == maxSize && this.g == g
      ensures Held() == {} && Queue() == [] && !pending
      ensures fresh(Repr)
    {
      this.g, this.maxSize := g, maxSize;
      maxHeap := new Heap(false);
      minHeap := new Heap(true);
      pending, sent := false, [];
      var mem := new Tx[] [];
      newTxs := Slice(mem, 0, 0);
      Repr := {this, maxHeap, minHeap, mem};
    }

    /** Both heaps are in order and every entry sits at its recorded index; they share no entry and
        hold the same transaction IDs. */
    ghost predicate Synced()
      reads maxHeap, Entries(maxHeap.items), minHeap, Entries(minHeap.items)
    {
      && maxHeap != minHeap && !maxHeap.isMinHeap && minHeap.isMinHeap
      && maxHeap.Valid() && minHeap.Valid()
      && Entries(maxHeap.items) !! Entries(minHeap.items)
      && maxHeap.lookup.Keys == minHeap.lookup.Keys
    }

    /** Every batch ever handed out still reads as it did then. */
    ghost predicate SentIntact()
      reads `newTxs, `sent, newTxs.mem, ArraysOf(sent)
    {
      && InBounds(newTxs)
      && forall b :: b in sent ==>
        && InBounds(b.slice) && Contents(b.slice) == b.txs
        && (b.slice.mem == newTxs.mem ==> b.slice.hi <= newTxs.lo)
    }

    ghost predicate Valid()
      reads this, Repr
    {
      && {this, maxHeap, minHeap, newTxs.mem} <= Repr
      && Entries(maxHeap.items) <= Repr && Entries(minHeap.items) <= Repr && ArraysOf(sent) <= Repr
      && Synced() && SentIntact() && |Held()| <= maxSize
    }

    function Held(): set<TxID>
      reads maxHeap
    {
      maxHeap.lookup.Keys
    }

    function Queue(): seq<Tx>
      requires InBounds(newTxs)
      reads `newTxs, newTxs.mem
    {
      Contents(newTxs)
    }

    method Len() returns (n: nat)
      requires Synced()
      ensures n == |Held()|
    {
      maxHeap.Count();
      return |maxHeap.items|;
    }

    predicate Has(id: TxID)
      reads maxHeap
      ensures Has(id) <==> id in Held()
    {
      maxHeap.Has(id)
    }

    // ---------- Both heaps together ----------

    lemma SameLength()
      requires Synced()
      ensures |maxHeap.items| == |minHeap.items| == |Held()|
    {
      maxHeap.Count();
      minHeap.Count();
    }

    method PushBoth(tx: Tx)
      requires Synced() && tx.ID() !in Held()
      modifies maxHeap, minHeap, Entries(maxHeap.items), Entries(minHeap.items)
      ensures Synced() && Held() == old(Held()) + {tx.ID()}
      ensures fresh(Entries(maxHeap.items) - old(Entries(maxHeap.items)))
      ensures fresh(Entries(minHeap.items) - old(Entries(minHeap.items)))
    {
      hide Heap.Valid, Ordered;
      SameLength();
      var oldLen := |maxHeap.items|;
      var e := new TxEntry(tx, oldLen);
      maxHeap.Push(e);
      var e2 := new TxEntry(tx, oldLen);
      minHeap.Push(e2);
    }

    /** remove. */
    method Remove(id: TxID) returns (tx: Option<Tx>)
      requires Synced()
      modifies maxHeap, minHeap, Entries(maxHeap.items), Entries(minHeap.items)
      ensures Synced() && Held() == old(Held()) - {id}
      ensures tx == if id in old(Held()) then Some(id.tx) else None
      ensures Entries(maxHeap.items) <= old(Entries(maxHeap.items))
        && Entries(minHeap.items) <= old(Entries(minHeap.items))
    {
      hide Ordered;
      if !maxHeap.Has(id) {
        return None;
      }
      var _ := maxHeap.Remove(maxHeap.lookup[id].index);
      if !minHeap.Has(id) {
        return None;
      }
      var txe := minHeap.Remove(minHeap.lookup[id].index);
      return Some(txe.tx);
    }

    method PopMin() returns (tx: Tx, price: uint64)
      requires Synced() && Held() != {}
      modifies maxHeap, minHeap, Entries(maxHeap.items), Entries(minHeap.items)
      ensures Synced() && Held() == old(Held()) - {tx.ID()}
      ensures Cheapest(old(Held()), tx.ID()) && price == tx.price
      ensures Entries(maxHeap.items) <= old(Entries(maxHeap.items))
        && Entries(minHeap.items) <= old(Entries(minHeap.items))
    {
      minHeap.Count();
      minHeap.RootIsExtreme();
      hide Ordered;
      var item := minHeap.items[0];
      var t := Remove(item.id);
      return t.value, item.price;
    }

    method PopMax() returns (tx: Tx, price: uint64)
      requires Valid() && Held() != {}
      modifies Repr
      ensures Valid() && unchanged(`Repr, `newTxs, `sent, `pending) && Queue() == old(Queue())
      ensures Held() == old(Held()) - {tx.ID()}
      ensures Dearest(old(Held()), tx.ID()) && price == tx.price
    {
      hide Synced;
      tx, price := PeekMax();
      ghost var held := Held();
      var _ := Remove(tx.ID());
      NoLarger(Held(), held);
    }

    method PeekMax() returns (tx: Tx, price: uint64)
      requires Synced() && Held() != {}
      ensures Dearest(Held(), tx.ID()) && price == tx.price
    {
      maxHeap.Count();
      maxHeap.RootIsExtreme();
      hide Ordered;
      var item := maxHeap.items[0];
      return item.tx, item.price;
    }

    // ---------- Add and Prune ----------

    method Add(tx: Tx) returns (added: bool)
      requires Valid()
      modifies Repr
      ensures Valid() && sent == old(sent) && fresh(Repr - old(Repr))
      ensures Offered(maxSize, old(Held()), tx, Held())
      ensures added <==> tx.ID() !in old(Held()) && tx.ID() in Held()
      ensures added ==> Queue() == old(Queue()) + [tx] && pending
      ensures !added ==> Queue() == old(Queue()) && pending == old(pending)
    {
      hide Synced, SentIntact, Offered, Queue;
      added := AddAndQueue(tx);
      Repr := Repr + Entries(maxHeap.items) + Entries(minHeap.items) + {newTxs.mem};
    }

    method AddAndQueue(tx: Tx) returns (added: bool)
      requires Synced() && SentIntact() && |Held()| <= maxSize
      modifies this`newTxs, this`pending, maxHeap, minHeap, Entries(maxHeap.items), Entries(minHeap.items), newTxs.mem
      ensures Synced() && SentIntact() && |Held()| <= maxSize
      ensures Offered(maxSize, old(Held()), tx, Held())
      ensures added <==> tx.ID() !in old(Held()) && tx.ID() in Held()
      ensures added ==> Queue() == old(Queue()) + [tx] && pending
      ensures !added ==> Queue() == old(Queue()) && pending == old(pending)
      ensures fresh(Entries(maxHeap.items) - old(Entries(maxHeap.items)))
      ensures fresh(Entries(minHeap.items) - old(Entries(minHeap.items)))
      ensures newTxs.mem == old(newTxs.mem) || fresh(newTxs.mem)
    {
      hide Synced, Offered, Cheapest;
      added := Admit(tx);
      if added {
        Enqueue(tx);
        pending := true;
      }
    }

    /** The heaps' part of Add. */
    method Admit(tx: Tx) returns (added: bool)
      requires Synced() && |Held()| <= maxSize
      modifies maxHeap, minHeap, Entries(maxHeap.items), Entries(minHeap.items)
      ensures Synced() && |Held()| <= maxSize
      ensures Offered(maxSize, old(Held()), tx, Held())
      ensures added <==> tx.ID() !in old(Held()) && tx.ID() in Held()
      ensures fresh(Entries(maxHeap.items) - old(Entries(maxHeap.items)))
      ensures fresh(Entries(minHeap.items) - old(Entries(minHeap.items)))
    {
      hide Synced, Cheapest, Offered;
      var txID := tx.ID();
      ghost var held := Held();
      if Has(txID) {
        OfferTwice(maxSize, held, tx);
        return false;
      }
      PushBoth(tx);
      assert txID in Held();
      var n := Len();
      if n <= maxSize {
        OfferFits(maxSize, held, tx);
      } else {
        var t, _ := PopMin();
        OfferOver(maxSize, held, tx, t.ID());
        if t.ID() == txID {
          return false;
        }
      }
      return true;
    }

    /** append(newTxs, tx): in place while the array has room, else in a longer copy. */
    method Enqueue(tx: Tx)
      requires SentIntact()
      modifies this`newTxs, newTxs.mem
      ensures SentIntact() && Queue() == old(Queue()) + [tx]
      ensures newTxs.mem == old(newTxs.mem) || fresh(newTxs.mem)
    {
      var s := newTxs;
      if s.hi < s.mem.Length {
        s.mem[s.hi] := tx;
        newTxs := s.(hi := s.hi + 1);
      } else {
        var q := s.mem[s.lo..s.hi];
        var mem := new Tx[2 * |q| + 1](i => if 0 <= i < |q| then q[i] else tx);
        newTxs := Slice(mem, 0, |q| + 1);
      }
    }

    /** Keep exactly the transactions whose block ID is valid, if nobody else calls meanwhile. */
    method Prune(validHashes: set<BlockID>)
      requires Valid()
      modifies Repr
      ensures Valid() && unchanged(`Repr, `newTxs, `sent, `pending) && Queue() == old(Queue())
      ensures Held() == Recent(old(Held()), validHashes)
    {
      hide Synced;
      ghost var held := Held();
      var toRemove := Outdated(validHashes);
      RemoveAll(toRemove);
      NoLarger(Held(), held);
    }

    method RemoveAll(ids: seq<TxID>)
      requires Synced()
      modifies maxHeap, minHeap, Entries(maxHeap.items), Entries(minHeap.items)
      ensures Synced() && Held() == old(Held()) - Those(ids)
      ensures Entries(maxHeap.items) <= old(Entries(maxHeap.items))
        && Entries(minHeap.items) <= old(Entries(minHeap.items))
    {
      hide Synced;
      ghost var held := Held();
      var i := 0;
      while i < |ids|
        invariant 0 <= i <= |ids| && Synced()
        invariant Held() == held - Those(ids[..i])
        invariant Entries(maxHeap.items) <= old(Entries(maxHeap.items))
          && Entries(minHeap.items) <= old(Entries(minHeap.items))
      {
        assert Those(ids[..i + 1]) == Those(ids[..i]) + {ids[i]};
        var _ := Remove(ids[i]);
        i := i + 1;
      }
      assert ids[..i] == ids;
    }

    method Outdated(validHashes: set<BlockID>) returns (ids: seq<TxID>)
      requires Synced()
      ensures forall id :: id in ids <==> id in Held() && id.tx.blockID !in validHashes
    {
      hide Ordered;
      ids := [];
      var i := 0;
      while i < |maxHeap.items|
        invariant 0 <= i <= |maxHeap.items|
        invariant forall id :: id in ids ==> id in Held() && id.tx.blockID !in validHashes
        invariant forall k :: 0 <= k < i && maxHeap.items[k].tx.blockID !in validHashes ==> maxHeap.items[k].id in ids
      {
        if maxHeap.items[i].tx.blockID !in validHashes {
          ids := ids + [maxHeap.items[i].id];
        }
        i := i + 1;
      }
      forall id | id in Held() && id.tx.blockID !in validHashes
        ensures id in ids
      {
        assert maxHeap.items[maxHeap.lookup[id].index].id == id;
      }
    }

    // ---------- NewTxs ----------

    /** The next transactions to gossip. The batch is written over the front of the array that holds
        the queue, and neither the rest of the queue nor any earlier batch changes. */
    method NewTxs(maxUnits: uint64) returns (selected: Slice)
      requires Valid()
      modifies this`newTxs, this`sent, newTxs.mem
      ensures Valid() && newTxs.mem == old(newTxs.mem) && InBounds(selected)
      ensures sent == old(sent) + [Batch(selected, Contents(selected))]
      ensures Gossiped(g, old(Queue()), Held(), maxUnits, Contents(selected), Queue())
    {
      hide Synced, Gossiped;
      ghost var entries: set<object> := Entries(maxHeap.items) + Entries(minHeap.items);
      assert newTxs.mem !in entries;
      selected := Select(maxUnits);
      sent := sent + [Batch(selected, Contents(selected))];
    }

    method Select(maxUnits: uint64) returns (selected: Slice)
      requires SentIntact()
      modifies this`newTxs, newTxs.mem
      ensures SentIntact() && newTxs.mem == selected.mem == old(newTxs.mem)
      ensures old(newTxs.lo) == selected.lo <= selected.hi <= newTxs.lo <= newTxs.hi == old(newTxs.hi)
      ensures Gossiped(g, old(Queue()), Held(), maxUnits, Contents(selected), Queue())
    {
      hide StillHeld, TotalLoad, Gossiped;
      var mem, lo, hi := newTxs.mem, newTxs.lo, newTxs.hi;
      ghost var q := Queue();
      var i, k, batch := Filter(mem, lo, hi, maxUnits, q);
      forall b | b in sent
        ensures Contents(b.slice) == b.txs
      {
        BatchIntact(old(Contents(b.slice)), Contents(b.slice));
      }
      newTxs := Slice(mem, i, hi);
      selected := Slice(mem, lo, lo + k);
      BatchIntact(Queue(), q[i - lo..]);
      StopsAt(g, q, Held(), maxUnits, batch, i - lo);
    }

    /** The loop of NewTxs: write what it selects over the front of the slice, and stop at i. */
    method Filter(mem: array<Tx>, lo: nat, hi: nat, maxUnits: uint64, ghost q: seq<Tx>)
      returns (i: nat, k: nat, ghost batch: seq<Tx>)
      requires lo <= hi <= mem.Length && q == mem[lo..hi]
      modifies mem
      ensures lo <= lo + k <= i <= hi
      ensures forall x :: 0 <= x < lo || i <= x < hi ==> mem[x] == old(mem[x])
      ensures mem[lo..lo + k] == batch == StillHeld(q[..i - lo], Held())
      ensures TotalLoad(g, batch) <= maxUnits
      ensures i < hi ==> q[i - lo].ID() in Held() && TotalLoad(g, batch + [q[i - lo]]) > maxUnits
    {
      hide StillHeld, TotalLoad;
      ghost var held := Held();
      var units: uint64 := 0;
      i, k, batch := lo, 0, [];
      NothingTaken(g, held);
      while i < hi
        invariant lo <= lo + k <= i <= hi
        invariant forall x :: 0 <= x < lo || i <= x < hi ==> mem[x] == old(mem[x])
        invariant mem[lo..lo + k] == batch == StillHeld(q[..i - lo], held)
        invariant units == TotalLoad(g, batch) <= maxUnits
      {
        var stop;
        stop, k, units, batch := FilterOne(mem, lo, k, i, mem[i], units, maxUnits, q, batch);
        if stop {
          return;
        }
        i := i + 1;
      }
    }

    /** One turn of the loop. */
    method FilterOne(mem: array<Tx>, lo: nat, k: nat, i: nat, tx: Tx, units: uint64, maxUnits: uint64,
                     ghost q: seq<Tx>, ghost batch: seq<Tx>)
      returns (stop: bool, k': nat, units': uint64, ghost batch': seq<Tx>)
      requires lo + k <= i < mem.Length && i - lo < |q| && tx == q[i - lo]
      requires mem[lo..lo + k] == batch == StillHeld(q[..i - lo], Held())
      requires units == TotalLoad(g, batch) <= maxUnits
      modifies mem
      ensures stop ==> unchanged(mem) && k' == k && batch' == batch
      ensures stop ==> tx.ID() in Held() && TotalLoad(g, batch + [tx]) > maxUnits
      ensures !stop ==> lo + k' <= i + 1 && mem[lo..lo + k'] == batch' == StillHeld(q[..i - lo + 1], Held())
      ensures !stop ==> units' == TotalLoad(g, batch') <= maxUnits
      ensures forall x :: 0 <= x < lo || i < x < mem.Length ==> mem[x] == old(mem[x])
    {
      hide StillHeld, TotalLoad, S.LoadUnits;
      stop, k', units', batch' := false, k, units, batch;
      TakeStep(g, q, Held(), i - lo, batch, tx);
      if Has(tx.ID()) {
        var txUnits := S.LoadUnits(g, tx.action);
        if txUnits > maxUnits - units {
          stop := true;
          return;
        }
        units' := units + txUnits;
        WriteNext(mem, lo + k, tx, lo, batch);
        k', batch' := k + 1, batch + [tx];
      }
    }
  }

  lemma BatchIntact(a: seq<Tx>, b: seq<Tx>)
    requires |a| == |b| && forall x :: 0 <= x < |a| ==> a[x] == b[x]
    ensures a == b
  {
  }

  method WriteNext(mem: array<Tx>, at: nat, tx: Tx, ghost lo: nat, ghost batch: seq<Tx>)
    requires lo <= at < mem.Length && mem[lo..at] == batch
    modifies mem
    ensures mem[lo..at + 1] == batch + [tx]
    ensures forall x :: 0 <= x < mem.Length && x != at ==> mem[x] == old(mem[x])
  {
    mem[at] := tx;
    assert mem[lo..at] == batch;
  }

  lemma NothingTaken(g: Genesis, held: set<TxID>)
    ensures StillHeld([], held) == [] && TotalLoad(g, []) == 0
  {
  }

  function Those(ids: seq<TxID>): set<TxID> {
    set id | id in ids
  }

  // ---------- Prune among other calls ----------

  /** Between looking for what to remove and removing it, one at a time, Prune lets others in. Whatever
      others do to the transactions held, `worked[k]` of the removals have been made after k steps. */
  predicate PruneRun(ids: seq<TxID>, held: seq<set<TxID>>, worked: seq<nat>) {
    && |held| == |worked| > 0 && worked[0] == 0 && worked[|worked| - 1] == |ids|
    && forall k :: 0 <= k < |worked| - 1 ==> worked[k] <= |ids| && (Others(worked, k) || Removal(ids, held, worked, k))
  }

  /** Somebody else's call. */
  predicate Others(worked: seq<nat>, k: nat)
    requires k + 1 < |worked|
  {
    worked[k + 1] == worked[k]
  }

  predicate Removal(ids: seq<TxID>, held: seq<set<TxID>>, worked: seq<nat>, k: nat)
    requires k + 1 < |held| && k + 1 < |worked|
  {
    && worked[k] < |ids| && worked[k + 1] == worked[k] + 1
    && held[k + 1] == held[k] - {ids[worked[k]]}
  }

  /** Somebody else has put the transaction in. */
  predicate PutIn(held: seq<set<TxID>>, worked: seq<nat>, k: nat, x: TxID)
    requires k + 1 < |held| && k + 1 < |worked|
  {
    Others(worked, k) && x !in held[k] && x in held[k + 1]
  }

  lemma {:induction false} RemovalCame(ids: seq<TxID>, held: seq<set<TxID>>, worked: seq<nat>, i: nat, n: nat)
    returns (k: nat)
    requires PruneRun(ids, held, worked) && n < |worked| && i < worked[n]
    ensures k < n && Removal(ids, held, worked, k) && worked[k] == i
  {
    if i < worked[n - 1] {
      k := RemovalCame(ids, held, worked, i, n - 1);
    } else {
      k := n - 1;
    }
  }

  lemma {:induction false} CameBack(ids: seq<TxID>, held: seq<set<TxID>>, worked: seq<nat>, x: TxID, n: nat)
    returns (k: nat)
    requires PruneRun(ids, held, worked) && n + 1 < |held| && x !in held[n] && x in held[|held| - 1]
    ensures n <= k < |held| - 1 && PutIn(held, worked, k, x)
    decreases |held| - n
  {
    if x in held[n + 1] {
      k := n;
    } else {
      k := CameBack(ids, held, worked, x, n + 1);
    }
  }

  /** Whatever others do meanwhile, Prune removes nothing whose block ID is valid, and an outdated
      transaction it has seen is gone at the end unless somebody has put it in again. */
  lemma PruneAmongOthers(ids: seq<TxID>, held: seq<set<TxID>>, worked: seq<nat>, validHashes: set<BlockID>)
    requires PruneRun(ids, held, worked)
    requires forall id :: id in ids <==> id in held[0] && id.tx.blockID !in validHashes
    ensures forall k :: 0 <= k < |held| - 1 && !Others(worked, k) ==>
      Recent(held[k], validHashes) <= held[k + 1] <= held[k]
    ensures forall x :: x in held[0] && x.tx.blockID !in validHashes && x in held[|held| - 1] ==>
      exists k :: 0 <= k < |held| - 1 && PutIn(held, worked, k, x)
  {
    forall k | 0 <= k < |held| - 1 && !Others(worked, k)
      ensures Recent(held[k], validHashes) <= held[k + 1] <= held[k]
    {
      assert Removal(ids, held, worked, k);
      assert ids[worked[k]] in ids;
    }
    forall x | x in held[0] && x.tx.blockID !in validHashes && x in held[|held| - 1]
      ensures exists k :: 0 <= k < |held| - 1 && PutIn(held, worked, k, x)
    {
      assert x in ids;
      var i :| 0 <= i < |ids| && ids[i] == x;
      var n := RemovalCame(ids, held, worked, i, |worked| - 1);
      var _ := CameBack(ids, held, worked, x, n + 1);
    }
  }

  // ---------- Runs of Add ----------

  /** The mempool's contents along a run of offers. */
  ghost predicate OfferRun(maxSize: nat, offers: seq<Tx>, held: seq<set<TxID>>) {
    && |held| == |offers| + 1 && held[0] == {}
    && forall i :: 0 <= i < |offers| ==> Offered(maxSize, held[i], offers[i], held[i + 1])
  }

  function IDs(txs: seq<Tx>): set<TxID> {
    set i | 0 <= i < |txs| :: txs[i].ID()
  }

  /** As many of `all` as fit, and none left out pays more than one held. */
  ghost predicate Best(maxSize: nat, all: set<TxID>, held: set<TxID>) {
    && held <= all
    && |held| == (if |all| <= maxSize then |all| else maxSize)
    && forall out, in' :: out in all - held && in' in held ==> out.tx.price <= in'.tx.price
  }

  /** After any offers, re-offers included, the mempool holds as many as it may of the distinct
      transactions offered, and none left out pays more than one held. */
  lemma {:induction false} HoldsTheDearest(maxSize: nat, offers: seq<Tx>, held: seq<set<TxID>>, n: nat)
    requires OfferRun(maxSize, offers, held) && n <= |offers|
    ensures Best(maxSize, IDs(offers[..n]), held[n])
  {
    hide Best, Offered, IDs;
    IDsStep(offers, n);
    if n == 0 {
      NothingIsBest(maxSize);
    } else {
      HoldsTheDearest(maxSize, offers, held, n - 1);
      OfferKeeps(maxSize, IDs(offers[..n - 1]), held[n - 1], offers[n - 1], held[n]);
    }
  }

  lemma IDsStep(txs: seq<Tx>, n: nat)
    requires n <= |txs|
    ensures IDs(txs[..n]) == if n == 0 then {} else IDs(txs[..n - 1]) + {txs[n - 1].ID()}
  {
    if n > 0 {
      assert forall i :: 0 <= i < n - 1 ==> txs[..n][i] == txs[..n - 1][i];
      assert txs[..n][n - 1] == txs[n - 1];
    }
  }

  lemma NothingIsBest(maxSize: nat)
    ensures Best(maxSize, {}, {})
  {
  }

  lemma OfferKeeps(maxSize: nat, all: set<TxID>, held: set<TxID>, tx: Tx, held': set<TxID>)
    requires Best(maxSize, all, held) && Offered(maxSize, held, tx, held')
    ensures Best(maxSize, all + {tx.ID()}, held')
  {
    var id := tx.ID();
    var all' := all + {id};
    if id in held {
      assert all' == all;
    } else {
      if id in all {
        assert all' == all;
        SmallerSet(held, all, id);
      } else {
        assert |all'| == |all| + 1;
      }
      assert |held + {id}| == |held| + 1;
      if |all| <= maxSize {
        SameSet(held, all);
      }
    }
  }

  lemma SmallerSet(a: set<TxID>, b: set<TxID>, x: TxID)
    requires a <= b && x in b - a
    ensures |a| < |b|
  {
    assert b == a + (b - a);
  }

  lemma NoLarger(a: set<TxID>, b: set<TxID>)
    requires a <= b
    ensures |a| <= |b|
  {
    assert b == a + (b - a);
  }

  lemma SameSet(a: set<TxID>, b: set<TxID>)
    requires a <= b && |a| == |b|
    ensures a == b
  {
    forall x | x in b
      ensures x in a
    {
      if x !in a {
        SmallerSet(a, b, x);
      }
    }
  }
}

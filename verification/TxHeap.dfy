/** A price-ordered binary heap of transactions whose entries know their own positions
    (tx_heap.go), driven by Go's container/heap. */
module TxHeap {
  import opened Types

  class TxEntry {
    const id: TxID
    const tx: Tx
    const price: uint64
    var index: int

    constructor (tx: Tx, index: int)
      ensures this.tx == tx && id == tx.ID() && price == tx.price && this.index == index
    {
      this.tx, this.id, this.price, this.index := tx, tx.ID(), tx.price, index;
    }
  }

  // ---------- Heap order, on sequences ----------

  /** The entry at i belongs above the one at j. */
  predicate LessAt(items: seq<TxEntry>, isMin: bool, i: nat, j: nat)
    requires i < |items| && j < |items|
  {
    if isMin then items[i].price < items[j].price else items[i].price > items[j].price
  }

  function Parent(k: nat): nat {
    if k == 0 then 0 else (k - 1) / 2
  }

  /** No entry among the first n belongs above its parent, except perhaps the one at `but`. */
  predicate OrderedBut(items: seq<TxEntry>, isMin: bool, n: nat, but: int)
    requires n <= |items|
  {
    forall k :: 0 < k < n && k != but ==> !LessAt(items, isMin, k, Parent(k))
  }

  /** The same, except perhaps between `hole` and its neighbours. */
  predicate OrderedAround(items: seq<TxEntry>, isMin: bool, n: nat, hole: nat)
    requires n <= |items| && hole < |items|
  {
    forall k :: 0 < k < n && k != hole && Parent(k) != hole ==> !LessAt(items, isMin, k, Parent(k))
  }

  /** The children of `hole` do not belong above its parent. */
  predicate Bridged(items: seq<TxEntry>, isMin: bool, n: nat, hole: nat)
    requires n <= |items| && hole < |items|
  {
    forall k :: 0 < k < n && hole > 0 && Parent(k) == hole ==> !LessAt(items, isMin, k, Parent(hole))
  }

  predicate Ordered(items: seq<TxEntry>, isMin: bool) {
    OrderedBut(items, isMin, |items|, -1)
  }

  function Swapped(items: seq<TxEntry>, i: nat, j: nat): (r: seq<TxEntry>)
    requires i < |items| && j < |items|
    ensures |r| == |items|
  {
    items[i := items[j]][j := items[i]]
  }

  /** The first entry of an ordered heap belongs above all. */
  lemma {:induction false} RootIsBest(items: seq<TxEntry>, isMin: bool, k: nat)
    requires Ordered(items, isMin) && k < |items|
    ensures !LessAt(items, isMin, k, 0)
    decreases k
  {
    if k > 0 {
      RootIsBest(items, isMin, Parent(k));
    }
  }

  /** One step of up: the entry at j belongs above its parent and trades places with it. */
  lemma UpStep(items: seq<TxEntry>, isMin: bool, n: nat, j: nat)
    requires 0 < j < n <= |items|
    requires OrderedBut(items, isMin, n, j) && Bridged(items, isMin, n, j)
    requires LessAt(items, isMin, j, Parent(j))
    ensures var items' := Swapped(items, Parent(j), j);
      OrderedBut(items', isMin, n, Parent(j)) && Bridged(items', isMin, n, Parent(j))
  {
    var p := Parent(j);
    var items' := Swapped(items, p, j);
    forall k | 0 < k < n && k != p
      ensures !LessAt(items', isMin, k, Parent(k))
    {
      if k != j && Parent(k) == p {
        assert !LessAt(items, isMin, k, p);
      }
    }
    forall k | 0 < k < n && p > 0 && Parent(k) == p
      ensures !LessAt(items', isMin, k, Parent(p))
    {
      assert !LessAt(items, isMin, p, Parent(p));
      if k != j {
        assert !LessAt(items, isMin, k, p);
      }
    }
  }

  /** One step of down: the better child j of i belongs above i and trades places with it. */
  lemma DownStep(items: seq<TxEntry>, isMin: bool, n: nat, i: nat, j: nat)
    requires i < j < n <= |items| && Parent(j) == i
    requires OrderedAround(items, isMin, n, i) && Bridged(items, isMin, n, i)
    requires LessAt(items, isMin, j, i)
    requires forall k :: 0 < k < n && Parent(k) == i ==> !LessAt(items, isMin, k, j)
    ensures var items' := Swapped(items, i, j);
      OrderedAround(items', isMin, n, j) && Bridged(items', isMin, n, j) && !LessAt(items', isMin, j, i)
  {
    var items' := Swapped(items, i, j);
    forall k | 0 < k < n && k != j && Parent(k) != j
      ensures !LessAt(items', isMin, k, Parent(k))
    {
      if k != i && Parent(k) == i {
        assert !LessAt(items, isMin, k, j);
      }
    }
    forall k | 0 < k < n && Parent(k) == j
      ensures !LessAt(items', isMin, k, Parent(j))
    {
      assert !LessAt(items, isMin, k, Parent(k));
    }
  }

  function Entries(items: seq<TxEntry>): set<TxEntry> {
    set e | e in items
  }

  lemma SwappedSameEntries(items: seq<TxEntry>, i: nat, j: nat)
    requires i < |items| && j < |items|
    ensures Entries(Swapped(items, i, j)) == Entries(items)
  {
    var items' := Swapped(items, i, j);
    assert items'[i] == items[j] && items'[j] == items[i];
    forall e | e in items
      ensures e in items'
    {
      var k :| 0 <= k < |items| && items[k] == e;
      assert items'[if k == i then j else if k == j then i else k] == e;
    }
  }

  /** The transaction IDs of the first n entries. */
  function IDsIn(items: seq<TxEntry>, n: nat): set<TxID>
    requires n <= |items|
  {
    set k | 0 <= k < n :: items[k].id
  }

  lemma {:induction false} CountIDs(items: seq<TxEntry>, n: nat)
    requires n <= |items| && forall i, j :: 0 <= i < j < n ==> items[i].id != items[j].id
    ensures |IDsIn(items, n)| == n
  {
    if n > 0 {
      CountIDs(items, n - 1);
      assert items[n - 1].id !in IDsIn(items, n - 1);
      assert IDsIn(items, n) == IDsIn(items, n - 1) + {items[n - 1].id};
    }
  }

  // ---------- The heap object ----------

  class Heap {
    const isMinHeap: bool
    var items: seq<TxEntry>
    var lookup: map<TxID, TxEntry>

    constructor (isMinHeap: bool)
      ensures Valid() && this.isMinHeap == isMinHeap && items == [] && lookup == map[]
    {
      this.isMinHeap := isMinHeap;
      items, lookup := [], map[];
    }

    /** Every entry sits at its recorded index and is the one its ID is looked up as, and lookup
        holds nothing else. */
    ghost predicate Wired()
      reads this, items
    {
      && (forall i :: 0 <= i < |items| ==> items[i].index == i)
      && (forall i :: 0 <= i < |items| ==> items[i].id in lookup && lookup[items[i].id] == items[i])
      && (forall id :: id in lookup ==> lookup[id] in items && lookup[id].id == id)
      && (forall id :: id in lookup ==> lookup[id].tx.ID() == id && lookup[id].price == lookup[id].tx.price)
    }

    ghost predicate Valid()
      reads this, items
    {
      Wired() && Ordered(items, isMinHeap)
    }

    predicate Has(id: TxID)
      reads this
    {
      id in lookup
    }

    /** There are as many entries as transaction IDs. */
    lemma Count()
      requires Wired()
      ensures |items| == |lookup.Keys|
    {
      CountIDs(items, |items|);
      assert IDsIn(items, |items|) == lookup.Keys;
    }

    /** The first entry's transaction has the lowest, or highest, price of all. */
    lemma RootIsExtreme()
      requires Valid() && |items| > 0
      ensures items[0].id in lookup && items[0].id.tx == items[0].tx
      ensures forall id :: id in lookup ==>
        if isMinHeap then items[0].id.tx.price <= id.tx.price else items[0].id.tx.price >= id.tx.price
    {
      forall id | id in lookup
        ensures if isMinHeap then items[0].price <= id.tx.price else items[0].price >= id.tx.price
      {
        RootIsBest(items, isMinHeap, lookup[id].index);
      }
    }

    predicate Less(i: nat, j: nat)
      requires i < |items| && j < |items|
      reads this
    {
      LessAt(items, isMinHeap, i, j)
    }

    method Swap(i: nat, j: nat)
      requires Wired() && i < |items| && j < |items|
      modifies this`items, Entries(items)
      ensures Wired() && items == Swapped(old(items), i, j)
      ensures Entries(items) == old(Entries(items))
      ensures forall e :: e in items <==> e in old(items)
    {
      SwappedSameEntries(items, i, j);
      ghost var entries := Entries(items);
      items := items[i := items[j]][j := items[i]];
      items[i].index := i;
      items[j].index := j;
      assert forall e :: e in items <==> e in entries;
    }

    /** container/heap's up, among the first n entries. */
    method Up(start: nat, n: nat)
      requires Wired() && start < n <= |items|
      requires OrderedBut(items, isMinHeap, n, start) && Bridged(items, isMinHeap, n, start)
      modifies this`items, Entries(items)
      ensures Wired() && |items| == old(|items|) && Entries(items) == old(Entries(items))
      ensures items[n..] == old(items[n..])
      ensures forall e :: e in items <==> e in old(items)
      ensures OrderedBut(items, isMinHeap, n, -1)
    {
      hide OrderedBut, Bridged, Entries, Wired;
      var j: nat := start;
      while j > 0 && Less(j, Parent(j))
        invariant Wired() && j < n <= |items| == old(|items|) && Entries(items) == old(Entries(items))
        invariant items[n..] == old(items[n..])
        invariant forall e :: e in items <==> e in old(items)
        invariant OrderedBut(items, isMinHeap, n, j) && Bridged(items, isMinHeap, n, j)
      {
        UpStep(items, isMinHeap, n, j);
        var i := Parent(j);
        Swap(i, j);
        j := i;
      }
      UpDone(items, isMinHeap, n, j);
    }

    /** The child of i that belongs above the other. */
    method BestChild(i: nat, n: nat) returns (j: nat)
      requires 2 * i + 1 < n <= |items|
      ensures i < j < n && Parent(j) == i
      ensures forall k :: 0 < k < n && Parent(k) == i ==> !LessAt(items, isMinHeap, k, j)
    {
      j := 2 * i + 1;
      var j2 := j + 1;
      if j2 < n && Less(j2, j) {
        j := j2;
      }
      forall k | 0 < k < n && Parent(k) == i
        ensures k == 2 * i + 1 || k == 2 * i + 2
      {
      }
    }

    /** container/heap's down, among the first n entries. */
    method Down(i0: nat, n: nat) returns (moved: bool)
      requires Wired() && i0 < n <= |items|
      requires OrderedAround(items, isMinHeap, n, i0) && Bridged(items, isMinHeap, n, i0)
      modifies this`items, Entries(items)
      ensures Wired() && |items| == old(|items|) && Entries(items) == old(Entries(items))
      ensures items[n..] == old(items[n..])
      ensures forall e :: e in items <==> e in old(items)
      ensures moved ==> OrderedBut(items, isMinHeap, n, -1)
      ensures !moved ==> OrderedBut(items, isMinHeap, n, i0) && Bridged(items, isMinHeap, n, i0)
    {
      hide OrderedBut, OrderedAround, Bridged, Entries, Wired;
      var i := i0;
      var done := false;
      while !done
        invariant i0 <= i < n <= |items| == old(|items|)
        invariant Wired() && Entries(items) == old(Entries(items)) && items[n..] == old(items[n..])
        invariant forall e :: e in items <==> e in old(items)
        invariant OrderedAround(items, isMinHeap, n, i) && Bridged(items, isMinHeap, n, i)
        invariant i > i0 ==> !LessAt(items, isMinHeap, i, Parent(i))
        invariant done ==> forall k :: 0 < k < n && Parent(k) == i ==> !LessAt(items, isMinHeap, k, i)
        decreases n - i, !done
      {
        if 2 * i + 1 >= n {
          done := true;
        } else {
          var j := BestChild(i, n);
          if Less(j, i) {
            DownStep(items, isMinHeap, n, i, j);
            Swap(i, j);
            i := j;
          } else {
            done := true;
          }
        }
      }
      moved := i > i0;
      DownDone(items, isMinHeap, n, i);
    }

    /** Put an entry whose ID is new at the end; the order is in doubt there only. */
    method Append(e: TxEntry)
      requires Valid() && e !in items && e.index == |items| && e.id == e.tx.ID() && e.price == e.tx.price
      modifies this
      ensures Wired() && |items| > 0
      ensures OrderedBut(items, isMinHeap, |items|, |items| - 1) && Bridged(items, isMinHeap, |items|, |items| - 1)
      ensures old(Has(e.id)) ==> lookup == old(lookup) && items == old(items)
      ensures !old(Has(e.id)) ==> lookup == old(lookup)[e.id := e] && items == old(items) + [e]
      ensures Entries(items) == old(Entries(items)) + if old(Has(e.id)) then {} else {e}
    {
      hide OrderedBut, Bridged;
      if Has(e.id) {
        LastInDoubt(items, isMinHeap);
      } else {
        AppendOrdered(items, isMinHeap, e);
        items := items + [e];
        lookup := lookup[e.id := e];
        assert items[|items| - 1] == e;
      }
    }

    /** heap.Push. */
    method Push(e: TxEntry)
      requires Valid() && e !in items && e.index == |items| && e.id == e.tx.ID() && e.price == e.tx.price
      modifies this, Entries(items), e
      ensures Valid()
      ensures old(Has(e.id)) ==> lookup == old(lookup) && Entries(items) == old(Entries(items))
      ensures !old(Has(e.id)) ==> lookup == old(lookup)[e.id := e] && Entries(items) == old(Entries(items)) + {e}
    {
      Append(e);
      hide OrderedBut, Bridged, Entries, Wired;
      Up(|items| - 1, |items|);
    }

    /** heap.Remove but for its last line: the last entry takes the place of the one at i, which goes
        to the end, and then finds its own place downwards or upwards. */
    method Settle(i: nat)
      requires Valid() && i < |items|
      modifies this`items, Entries(items)
      ensures Wired() && |items| == old(|items|) && Entries(items) == old(Entries(items))
      ensures items[|items| - 1] == old(items[i])
      ensures OrderedBut(items, isMinHeap, |items| - 1, -1)
    {
      hide OrderedBut, OrderedAround, Bridged, Entries, Wired, Swapped;
      var n := |items| - 1;
      if n == i {
        AllButLast(items, isMinHeap);
      } else {
        HoleAfterSwap(items, isMinHeap, i);
        Swap(i, n);
        ghost var last := items[n];
        assert items[n..] == [last];
        var moved := Down(i, n);
        if !moved {
          Up(i, n);
        }
        assert items[n..] == [last] && items[n..][0] == items[n];
      }
    }

    /** heap.Remove. */
    method Remove(i: nat) returns (e: TxEntry)
      requires Valid() && i < |items|
      modifies this, Entries(items)
      ensures Valid()
      ensures e == old(items[i]) && lookup == old(lookup) - {e.id} && Entries(items) == old(Entries(items)) - {e}
    {
      Settle(i);
      e := items[|items| - 1];
      PopOrdered(items, isMinHeap);
      hide OrderedBut;
      Pop();
    }

    /** Take off the last entry. */
    method Pop()
      requires Wired() && |items| > 0
      modifies this
      ensures Wired() && items == old(items[..|items| - 1]) && lookup == old(lookup) - {old(items[|items| - 1]).id}
      ensures Entries(items) == old(Entries(items)) - {old(items[|items| - 1])}
    {
      var n := |items| - 1;
      var e := items[n];
      items := items[..n];
      lookup := lookup - {e.id};
    }
  }

  lemma UpDone(items: seq<TxEntry>, isMin: bool, n: nat, j: nat)
    requires j < n <= |items| && OrderedBut(items, isMin, n, j)
    requires j == 0 || !LessAt(items, isMin, j, Parent(j))
    ensures OrderedBut(items, isMin, n, -1)
  {
  }

  lemma DownDone(items: seq<TxEntry>, isMin: bool, n: nat, i: nat)
    requires i < n <= |items| && OrderedAround(items, isMin, n, i)
    requires forall k :: 0 < k < n && Parent(k) == i ==> !LessAt(items, isMin, k, i)
    ensures OrderedBut(items, isMin, n, i)
    ensures i > 0 && !LessAt(items, isMin, i, Parent(i)) ==> OrderedBut(items, isMin, n, -1)
  {
  }

  lemma AppendOrdered(items: seq<TxEntry>, isMin: bool, e: TxEntry)
    requires Ordered(items, isMin)
    ensures var items' := items + [e];
      OrderedBut(items', isMin, |items'|, |items|) && Bridged(items', isMin, |items'|, |items|)
  {
    var items' := items + [e];
    forall k | 0 < k < |items|
      ensures !LessAt(items', isMin, k, Parent(k))
    {
      assert !LessAt(items, isMin, k, Parent(k));
    }
  }

  lemma LastInDoubt(items: seq<TxEntry>, isMin: bool)
    requires Ordered(items, isMin) && |items| > 0
    ensures OrderedBut(items, isMin, |items|, |items| - 1) && Bridged(items, isMin, |items|, |items| - 1)
  {
  }

  lemma AllButLast(items: seq<TxEntry>, isMin: bool)
    requires Ordered(items, isMin) && |items| > 0
    ensures OrderedBut(items, isMin, |items| - 1, -1)
  {
  }

  /** With the last entry in place of the one at i, only the edges at i are in doubt. */
  lemma HoleAfterSwap(items: seq<TxEntry>, isMin: bool, i: nat)
    requires Ordered(items, isMin) && i < |items| - 1
    ensures var n := |items| - 1;
      var items' := Swapped(items, i, n);
      items'[n] == items[i] && OrderedAround(items', isMin, n, i) && Bridged(items', isMin, n, i)
  {
    var n := |items| - 1;
    var items' := Swapped(items, i, n);
    assert forall k :: 0 <= k < n && k != i ==> items'[k] == items[k];
    hide Swapped;
    forall k | 0 < k < n && k != i && Parent(k) != i
      ensures !LessAt(items', isMin, k, Parent(k))
    {
      assert !LessAt(items, isMin, k, Parent(k));
    }
    forall k | 0 < k < n && i > 0 && Parent(k) == i
      ensures !LessAt(items', isMin, k, Parent(i))
    {
      assert !LessAt(items, isMin, k, Parent(k)) && !LessAt(items, isMin, i, Parent(i));
    }
  }

  lemma PopOrdered(items: seq<TxEntry>, isMin: bool)
    requires |items| > 0
    ensures OrderedBut(items, isMin, |items| - 1, -1) ==> Ordered(items[..|items| - 1], isMin)
  {
    var n := |items| - 1;
    if OrderedBut(items, isMin, n, -1) {
      forall k | 0 < k < n
        ensures !LessAt(items[..n], isMin, k, Parent(k))
      {
        assert !LessAt(items, isMin, k, Parent(k));
      }
    }
  }
}

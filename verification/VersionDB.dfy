/** The layered database: a finite set of pending writes over whatever the database beneath reads
    as. The database beneath does not change while a layer is being written, so a layer keeps
    what it reads through to as a constant; re-basing is in module BlockTree. */
module VersionDB {
  import opened Types
  import opened Bytes
  import opened Keys

  datatype Mod = Put(val: Val) | Deleted

  type Mem = map<Key, Mod>

  /** What reads through `mem` over `base` return. */
  function Overlay(base: Db, mem: Mem): Db {
    map k | k in base.Keys + mem.Keys && (k in mem ==> mem[k].Put?) :: if k in mem then mem[k].val else base[k]
  }

  /** Two layers read as one: the upper one's writes win. This is what Commit relies on. */
  lemma OverlayMerge(base: Db, lower: Mem, upper: Mem)
    ensures Overlay(Overlay(base, lower), upper) == Overlay(base, lower + upper)
  {
    var a, b := Overlay(Overlay(base, lower), upper), Overlay(base, lower + upper);
    forall k
      ensures k in a <==> k in b
    {
    }
  }

  lemma OverlayEmpty(base: Db)
    ensures Overlay(base, map[]) == base
  {
  }

  /** Removing keys that the layer does not touch from the base removes them from the view. */
  lemma OverlayMinus(base: Db, mem: Mem, gone: set<Key>)
    requires forall k :: k in gone ==> k !in mem
    ensures Overlay(base - gone, mem) == Overlay(base, mem) - gone
  {
    var a, b := Overlay(base - gone, mem), Overlay(base, mem) - gone;
    forall k
      ensures k in a <==> k in b
    {
    }
  }

  class Database {
    const base: Db
    var mem: Mem

    constructor (base: Db)
      ensures this.base == base && mem == map[]
      ensures View() == base
    {
      this.base := base;
      mem := map[];
      new;
      OverlayEmpty(base);
    }

    function View(): Db
      reads this
    {
      Overlay(base, mem)
    }

    function Get(k: Key): (r: Option<Val>)
      reads this
      ensures r == if k in View() then Some(View()[k]) else None
    {
      if k in mem then (if mem[k].Put? then Some(mem[k].val) else None)
      else if k in base then Some(base[k])
      else None
    }

    predicate Has(k: Key)
      reads this
      ensures Has(k) <==> k in View()
    {
      Get(k).Some?
    }

    method Write(k: Key, v: Val)
      modifies this
      ensures View() == old(View())[k := v]
      ensures mem == old(mem)[k := Put(v)]
    {
      mem := mem[k := Put(v)];
      assert View() == old(View())[k := v];
    }

    method Delete(k: Key)
      modifies this
      ensures View() == old(View()) - {k}
      ensures mem == old(mem)[k := Deleted]
    {
      mem := mem[k := Deleted];
      assert View() == old(View()) - {k};
    }

    /** The keys at or after `start`, in byte order, as a snapshot. */
    method NewIteratorWithStart(h: Hashes, start: seq<byte>) returns (keys: seq<Key>)
      requires Sound(h)
      ensures Snapshot(h, View(), start, keys)
    {
      var view := View();
      var rest := set k | k in view && Leq(start, Encode(h, k));
      keys := [];
      while rest != {}
        invariant forall k :: k in keys || k in rest <==> k in view && Leq(start, Encode(h, k))
        invariant Ascending(h, keys) && AllBefore(h, keys, rest)
        decreases rest
      {
        NextExists(h, rest);
        var k :| k in rest && AllBefore(h, [k], rest - {k});
        ExtendAscending(h, keys, rest, k);
        keys := keys + [k];
        rest := rest - {k};
      }
    }

    /** database.ClearPrefix on the values of one raw space. */
    method ClearValues(h: Hashes, raw: RawID)
      requires Sound(h)
      modifies this
      ensures View() == old(View()) - ValuesOf(old(View()), raw)
      ensures forall k :: k in mem && k !in old(mem) ==> k.ValueKey? && k.raw == raw
    {
      var keys := NewIteratorWithStart(h, Encode(h, ValueKey(raw, [])));
      ghost var before := View();
      var i := 0;
      while i < |keys| && HasValuePrefix(h, raw, keys[i])
        invariant 0 <= i <= |keys|
        invariant forall k :: k in keys[..i] ==> k.ValueKey? && k.raw == raw
        invariant View() == before - (set k | k in keys[..i])
        invariant forall k :: k in mem && k !in old(mem) ==> k.ValueKey? && k.raw == raw
      {
        assert keys[..i + 1] == keys[..i] + [keys[i]];
        Delete(keys[i]);
        i := i + 1;
      }
      ValuesAreARun(h, raw, before, keys, i);
      assert (set k | k in keys[..i]) == ValuesOf(before, raw);
    }

    /** Commit: move every pending write into the layer below and start empty. */
    method CommitTo(parent: Database)
      requires parent != this && base == parent.View()
      modifies this, parent
      ensures parent.View() == old(View())
      ensures parent.mem == old(parent.mem) + old(mem)
      ensures mem == map[]
    {
      OverlayMerge(parent.base, parent.mem, mem);
      parent.mem := parent.mem + mem;
      mem := map[];
    }
  }

  function ValuesOf(m: Db, raw: RawID): set<Key> {
    set k | k in m && k.ValueKey? && k.raw == raw
  }

  predicate HasValuePrefix(h: Hashes, raw: RawID, k: Key)
    requires Sound(h)
    ensures HasValuePrefix(h, raw, k) <==> k.ValueKey? && k.raw == raw
  {
    ValuePrefix(h, raw, k);
    IsPrefix(Encode(h, ValueKey(raw, [])), Encode(h, k))
  }

  predicate Before(h: Hashes, k: Key, k': Key) {
    Less(Encode(h, k), Encode(h, k'))
  }

  predicate Ascending(h: Hashes, keys: seq<Key>) {
    forall i, j :: 0 <= i < j < |keys| ==> Before(h, keys[i], keys[j])
  }

  predicate AllBefore(h: Hashes, keys: seq<Key>, rest: set<Key>) {
    forall i, k :: 0 <= i < |keys| && k in rest ==> Before(h, keys[i], k)
  }

  /** `keys` lists the keys of m at or after `start`, in byte order. */
  ghost predicate Snapshot(h: Hashes, m: Db, start: seq<byte>, keys: seq<Key>) {
    && (forall k :: k in keys <==> k in m && Leq(start, Encode(h, k)))
    && Ascending(h, keys)
  }

  lemma NextExists(h: Hashes, rest: set<Key>)
    requires Sound(h) && rest != {}
    ensures exists k :: k in rest && AllBefore(h, [k], rest - {k})
  {
    var codes := set k | k in rest :: Encode(h, k);
    var k0 :| k0 in rest;
    assert Encode(h, k0) in codes;
    LeastExists(codes);
    var least :| IsLeast(codes, least);
    var k :| k in rest && Encode(h, k) == least;
    forall k' | k' in rest - {k}
      ensures Before(h, k, k')
    {
      LeastIsBefore(h, codes, k, k');
    }
    assert AllBefore(h, [k], rest - {k});
  }

  lemma LeastIsBefore(h: Hashes, codes: set<seq<byte>>, k: Key, k': Key)
    requires Sound(h) && k != k' && IsLeast(codes, Encode(h, k)) && Encode(h, k') in codes
    ensures Before(h, k, k')
  {
    LessTotal(Encode(h, k), Encode(h, k'));
    if Encode(h, k) == Encode(h, k') {
      EncodeInjective(h, k, k');
    }
  }

  lemma ExtendAscending(h: Hashes, keys: seq<Key>, rest: set<Key>, k: Key)
    requires Ascending(h, keys) && AllBefore(h, keys, rest)
    requires k in rest && AllBefore(h, [k], rest - {k})
    ensures Ascending(h, keys + [k]) && AllBefore(h, keys + [k], rest - {k})
  {
    forall k' | k' in rest - {k}
      ensures Before(h, k, k')
    {
      assert Before(h, [k][0], k');
    }
  }

  /** In byte order the values of one raw space stand next to each other, first among the keys at
      or after their common prefix. */
  lemma ValuesAreARun(h: Hashes, raw: RawID, m: Db, keys: seq<Key>, i: nat)
    requires Sound(h) && i <= |keys|
    requires Snapshot(h, m, Encode(h, ValueKey(raw, [])), keys)
    requires forall k :: k in keys[..i] ==> k.ValueKey? && k.raw == raw
    requires i < |keys| ==> !HasValuePrefix(h, raw, keys[i])
    ensures forall k :: k in keys[..i] <==> k in ValuesOf(m, raw)
  {
    forall k | k in ValuesOf(m, raw)
      ensures k in keys[..i]
    {
      var p := Encode(h, ValueKey(raw, []));
      assert HasValuePrefix(h, raw, k);
      PrefixLeq(p, Encode(h, k));
      assert k in keys;
      var j :| 0 <= j < |keys| && keys[j] == k;
      if i < j {
        assert Before(h, keys[i], k);
        assert keys[i] in keys;
        LessTotal(Encode(h, keys[i]), Encode(h, k));
        PrefixBetween(p, Encode(h, keys[i]), Encode(h, k));
      }
      assert j < i;
      assert keys[..i][j] == k;
    }
    forall k | k in keys[..i]
      ensures k in keys
    {
    }
  }

  lemma PrefixLeq(p: seq<byte>, s: seq<byte>)
    requires IsPrefix(p, s)
    ensures Leq(p, s)
  {
    assert s == p + s[|p|..] && p == p + [];
    LessSamePrefix(p, s[|p|..], []);
  }

  lemma {:induction false} PrefixBetween(p: seq<byte>, a: seq<byte>, b: seq<byte>)
    requires IsPrefix(p, b) && Leq(p, a) && Leq(a, b)
    ensures IsPrefix(p, a)
    decreases |p|
  {
    if |p| > 0 && |a| > 0 {
      assert p[0] == b[..|p|][0] == b[0];
      assert b[1..][..|p| - 1] == b[..|p|][1..] == p[1..];
      PrefixBetween(p[1..], a[1..], b[1..]);
      assert a[..|p|] == [a[0]] + a[1..][..|p| - 1];
    }
  }
}

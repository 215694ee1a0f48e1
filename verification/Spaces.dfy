/** The invariant of the store: the five key families of the spaces agree. */
module Spaces {
  import opened Types
  import opened Keys
  import opened Store
  import opened Sums

  predicate WellTyped(k: Key, v: Val) {
    match k
    case LastAcceptedKey => v.IDVal?
    case BlockKey(_) => v.BlockVal?
    case TxKey(_) => v.NilVal?
    case TxValueKey(_) => v.BytesVal?
    case InfoKey(_) => v.InfoVal?
    case ValueKey(_, _) => v.MetaVal?
    case ExpiryKey(_, _) => v.ExpiryVal?
    case PruningKey(_, _) => v.NilVal?
    case BalanceKey(_) => v.BalanceVal?
    case OwnedKey(_, _) => v.NilVal?
  }

  predicate Typed(m: Db) {
    forall k :: k in m ==> WellTyped(k, m[k])
  }

  /** Every record is of the space it is filed under and of its current incarnation, and the space
      has not run out at time `now`. */
  predicate RecordOk(s: Name, i: SpaceInfo, now: uint64) {
    && i.raw == RawOf(s, i.created)
    && i.created <= i.updated <= now <= i.expiry
    && 0 < i.expiry
  }

  /** The least that every transaction keeps, at any time and whatever wraps around: what is stored can
      be parsed, and every record is of the current incarnation of its space. */
  ghost predicate Tidy(m: Db) {
    Typed(m) && forall s :: InfoKey(s) in m ==> m[InfoKey(s)].info.raw == RawOf(s, m[InfoKey(s)].info.created)
  }

  ghost predicate Records(m: Db, now: uint64)
    requires Typed(m)
  {
    forall s :: InfoKey(s) in m ==> RecordOk(s, m[InfoKey(s)].info, now)
  }

  /** The ownership entries are exactly the pairs (owner of s, s) of the live spaces. */
  ghost predicate Ownership(m: Db)
    requires Typed(m)
  {
    forall a: Address, s :: OwnedKey(a, s) in m <==> InfoKey(s) in m && m[InfoKey(s)].info.owner == a
  }

  /** The expiry queue is exactly the map from (expiry, raw space) to (owner, space) of the live
      spaces. */
  ghost predicate ExpiryQueue(m: Db)
    requires Typed(m)
  {
    forall t: uint64, r ::
      && (ExpiryKey(t, r) in m <==> Live(m, r) && m[InfoKey(r.space)].info.expiry == t)
      && (ExpiryKey(t, r) in m ==> m[ExpiryKey(t, r)] == ExpiryVal(m[InfoKey(r.space)].info.owner, r.space))
  }

  /** What waits to be pruned is dead, and died before `now`. */
  ghost predicate PruningQueue(m: Db, now: uint64) {
    forall t: uint64, r :: PruningKey(t, r) in m ==> r.RawOf? && r.created <= t < now && !Live(m, r)
  }

  ghost predicate Waiting(m: Db, r: RawID) {
    exists t: uint64 :: PruningKey(t, r) in m
  }

  /** No value is without a home: its space is live or its raw space waits to be pruned. */
  ghost predicate Values(m: Db) {
    forall r, x :: ValueKey(r, x) in m ==> Live(m, r) || Waiting(m, r)
  }

  ghost predicate Shape(m: Db, now: uint64) {
    Typed(m) && Records(m, now) && Ownership(m) && ExpiryQueue(m) && PruningQueue(m, now) && Values(m)
  }

  // ---------- Units ----------

  ghost function StoredUnits(g: Genesis, m: Db, r: RawID): map<Key, nat> {
    map k | k in m && k.ValueKey? && k.raw == r && m[k].MetaVal? :: ExpiryUnits(g, m[k].meta.size)
  }

  /** Every live space carries the claim's units plus those of each value it stores. */
  ghost predicate UnitsExact(g: Genesis, m: Db)
    requires Typed(m)
  {
    forall s :: InfoKey(s) in m ==>
      m[InfoKey(s)].info.units == g.claimExpiryUnits + Sum(StoredUnits(g, m, m[InfoKey(s)].info.raw))
  }

  ghost predicate Inv(g: Genesis, m: Db, now: uint64) {
    Shape(m, now) && UnitsExact(g, m)
  }

  lemma InvIsTidy(g: Genesis, m: Db, now: uint64)
    requires Inv(g, m, now)
    ensures Tidy(m)
  {
  }

  // ---------- How the shape is kept ----------

  /** Keys that are not about spaces. */
  predicate Neutral(k: Key) {
    k.LastAcceptedKey? || k.BlockKey? || k.TxKey? || k.TxValueKey? || k.BalanceKey?
  }

  /** Values keep a home as long as no live space and no queue entry goes away. */
  lemma ValuesKept(m: Db, m': Db)
    requires Values(m)
    requires forall r :: Live(m, r) ==> Live(m', r)
    requires forall t: uint64, r :: PruningKey(t, r) in m ==> PruningKey(t, r) in m'
    requires forall r, x :: ValueKey(r, x) in m' ==> ValueKey(r, x) in m || Live(m', r)
    ensures Values(m')
  {
    forall r, x | ValueKey(r, x) in m'
      ensures Live(m', r) || Waiting(m', r)
    {
      if !Live(m', r) {
        var t: uint64 :| PruningKey(t, r) in m;
        assert PruningKey(t, r) in m';
      }
    }
  }

  lemma ShapeNeutral(m: Db, now: uint64, k: Key, v: Val)
    requires Shape(m, now) && Neutral(k) && WellTyped(k, v)
    ensures Shape(m[k := v], now)
  {
    var m' := m[k := v];
    assert forall r :: Live(m', r) == Live(m, r);
    ValuesKept(m, m');
  }

  lemma ShapeValueWrite(m: Db, now: uint64, r: RawID, x: Name, v: ValueMeta)
    requires Shape(m, now) && Live(m, r)
    ensures Shape(m[ValueKey(r, x) := MetaVal(v)], now)
  {
    var m' := m[ValueKey(r, x) := MetaVal(v)];
    assert forall r' :: Live(m', r') == Live(m, r');
    ValuesKept(m, m');
  }

  lemma ShapeValueDrop(m: Db, now: uint64, r: RawID, x: Name)
    requires Shape(m, now)
    ensures Shape(m - {ValueKey(r, x)}, now)
  {
    var m' := m - {ValueKey(r, x)};
    assert forall r' :: Live(m', r') == Live(m, r');
    ValuesKept(m, m');
  }

  /** Rewriting the record of a live space moves its one queue entry along. */
  lemma ShapeReschedule(m: Db, now: uint64, s: Name, i: SpaceInfo)
    requires Shape(m, now) && InfoKey(s) in m
    requires RecordOk(s, i, now)
    requires var i0 := m[InfoKey(s)].info; i.owner == i0.owner && i.created == i0.created
    ensures Shape(PutSpaceInfo(m, s, i, m[InfoKey(s)].info.expiry), now)
  {
    var i0 := m[InfoKey(s)].info;
    var m' := PutSpaceInfo(m, s, i, i0.expiry);
    assert i.raw == i0.raw;
    assert m' == (m - {ExpiryKey(i0.expiry, i.raw)})[ExpiryKey(i.expiry, i.raw) := ExpiryVal(i.owner, s)]
      [InfoKey(s) := InfoVal(i)];
    assert forall r :: Live(m', r) == Live(m, r);
    ValuesKept(m, m');
  }

  lemma ShapeMove(m: Db, now: uint64, s: Name, owner: Address)
    requires Shape(m, now) && InfoKey(s) in m
    ensures Shape(MoveSpaceInfo(m, m[InfoKey(s)].info.owner, s, m[InfoKey(s)].info.(owner := owner)), now)
  {
    var i0 := m[InfoKey(s)].info;
    var i := i0.(owner := owner);
    var m' := MoveSpaceInfo(m, i0.owner, s, i);
    assert forall r :: Live(m', r) == Live(m, r);
    ValuesKept(m, m');
  }

  /** A name claimed at `now` is a raw space nobody has used: nothing stored or queued mentions it. */
  lemma ClaimIsFresh(m: Db, now: uint64, s: Name)
    requires Shape(m, now) && InfoKey(s) !in m
    ensures forall t: uint64 :: ExpiryKey(t, RawOf(s, now)) !in m && PruningKey(t, RawOf(s, now)) !in m
    ensures forall x :: ValueKey(RawOf(s, now), x) !in m
  {
    var r := RawOf(s, now);
    assert !Live(m, r);
    assert forall t: uint64 :: PruningKey(t, r) !in m;
    assert !Waiting(m, r);
  }

  lemma ShapeClaim(m: Db, now: uint64, s: Name, i: SpaceInfo)
    requires Shape(m, now) && InfoKey(s) !in m
    requires i.raw == EmptyRaw && i.created == i.updated == now <= i.expiry && 0 < i.expiry
    ensures Shape(PutSpaceInfo(m, s, i, 0), now)
  {
    ClaimIsFresh(m, now, s);
    var r := RawOf(s, now);
    var m' := PutSpaceInfo(m, s, i, 0);
    assert m' == m[OwnedKey(i.owner, s) := NilVal][ExpiryKey(i.expiry, r) := ExpiryVal(i.owner, s)]
      [InfoKey(s) := InfoVal(i.(raw := r))];
    assert forall r' :: Live(m', r') == (Live(m, r') || r' == r);
    ValuesKept(m, m');
  }

  // ---------- How the units are kept ----------

  lemma StoredSame(g: Genesis, m: Db, m': Db, r: RawID)
    requires forall x :: ValueKey(r, x) in m <==> ValueKey(r, x) in m'
    requires forall x :: ValueKey(r, x) in m ==> m'[ValueKey(r, x)] == m[ValueKey(r, x)]
    ensures StoredUnits(g, m', r) == StoredUnits(g, m, r)
  {
    var f, f' := StoredUnits(g, m, r), StoredUnits(g, m', r);
    forall k
      ensures k in f <==> k in f'
      ensures k in f ==> f[k] == f'[k]
    {
      if k.ValueKey? && k.raw == r {
        assert k == ValueKey(r, k.key);
      }
    }
  }

  lemma StoredWrite(g: Genesis, m: Db, r: RawID, x: Name, v: ValueMeta)
    requires Typed(m)
    ensures var m' := m[ValueKey(r, x) := MetaVal(v)];
      Sum(StoredUnits(g, m', r)) == Sum(StoredUnits(g, m, r))
        - (if GetMeta(m, r, x).Some? then ExpiryUnits(g, GetMeta(m, r, x).value.size) else 0)
        + ExpiryUnits(g, v.size)
  {
    var k, m' := ValueKey(r, x), m[ValueKey(r, x) := MetaVal(v)];
    assert StoredUnits(g, m', r) == StoredUnits(g, m, r)[k := ExpiryUnits(g, v.size)];
    SumUpdate(StoredUnits(g, m, r), k, ExpiryUnits(g, v.size));
  }

  lemma StoredDrop(g: Genesis, m: Db, r: RawID, x: Name)
    requires Typed(m) && ValueKey(r, x) in m
    ensures Sum(StoredUnits(g, m - {ValueKey(r, x)}, r)) + ExpiryUnits(g, m[ValueKey(r, x)].meta.size)
      == Sum(StoredUnits(g, m, r))
  {
    var k := ValueKey(r, x);
    assert StoredUnits(g, m - {k}, r) == StoredUnits(g, m, r) - {k};
    SumRemove(StoredUnits(g, m, r), k);
  }

  lemma StoredBound(g: Genesis, m: Db, r: RawID, x: Name)
    requires Typed(m) && ValueKey(r, x) in m
    ensures ExpiryUnits(g, m[ValueKey(r, x)].meta.size) <= Sum(StoredUnits(g, m, r))
  {
    SumAtLeast(StoredUnits(g, m, r), ValueKey(r, x));
  }
}

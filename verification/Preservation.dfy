/** Every operation on the store keeps its invariant. */
module Preservation {
  import opened Types
  import opened Keys
  import opened Store
  import opened Sums
  import opened Spaces

  // ---------- Expiry ----------

  /** Expire up to a later time: the whole invariant holds at that time, whatever had run out is
      gone from every family, and exactly the spaces that have not run out remain. */
  lemma ExpireKeepsInv(g: Genesis, m: Db, now: uint64, later: uint64, bootstrapped: bool)
    requires Inv(g, m, now) && now <= later
    ensures Inv(g, Expire(m, later, bootstrapped), later)
    ensures var m' := Expire(m, later, bootstrapped);
      forall s :: InfoKey(s) in m' <==> InfoKey(s) in m && m[InfoKey(s)].info.expiry >= later
  {
    var gone := ExpiredAt(m, later);
    var m' := Expire(m, later, bootstrapped);
    ExpiredAtExact(m, now, later);
    ExpireShape(m, now, later, bootstrapped);
    ExpireValues(m, now, gone, bootstrapped);
    forall s | InfoKey(s) in m'
      ensures m'[InfoKey(s)].info.units == g.claimExpiryUnits + Sum(StoredUnits(g, m', m'[InfoKey(s)].info.raw))
    {
      StoredSame(g, m, m', m[InfoKey(s)].info.raw);
    }
  }

  lemma ExpiredAtExact(m: Db, now: uint64, later: uint64)
    requires Shape(m, now)
    ensures forall s :: s in ExpiredAt(m, later) <==> InfoKey(s) in m && m[InfoKey(s)].info.expiry < later
  {
    forall s | InfoKey(s) in m && m[InfoKey(s)].info.expiry < later
      ensures s in ExpiredAt(m, later)
    {
      assert InfoKey(s).space == s;
    }
  }

  lemma ExpireShape(m: Db, now: uint64, later: uint64, bootstrapped: bool)
    requires Shape(m, now) && now <= later
    ensures var m' := Expire(m, later, bootstrapped);
      Typed(m') && Records(m', later) && Ownership(m') && ExpiryQueue(m') && PruningQueue(m', later)
  {
    ExpiredAtExact(m, now, later);
    ExpireMembers(m, now, ExpiredAt(m, later), bootstrapped);
    ExpireQueues(m, now, ExpiredAt(m, later), bootstrapped);
  }

  /** What is left of each family once the spaces in `gone` are out. */
  lemma ExpireMembers(m: Db, now: uint64, gone: set<Name>, bootstrapped: bool)
    requires Shape(m, now)
    ensures var m' := Without(m, gone, bootstrapped);
      && Typed(m')
      && (forall k :: k in m && k in m' ==> m'[k] == m[k])
      && (forall s :: InfoKey(s) in m' <==> InfoKey(s) in m && s !in gone)
      && (forall a: Address, s :: OwnedKey(a, s) in m' <==> OwnedKey(a, s) in m && s !in gone)
      && (forall t: uint64, r :: ExpiryKey(t, r) in m' <==> ExpiryKey(t, r) in m && r.space !in gone)
      && (forall r :: Live(m', r) <==> Live(m, r) && r.space !in gone)
  {
  }

  lemma ExpireQueues(m: Db, now: uint64, gone: set<Name>, bootstrapped: bool)
    requires Shape(m, now)
    requires forall s :: s in gone ==> InfoKey(s) in m
    ensures var m' := Without(m, gone, bootstrapped);
      forall t: uint64, r :: PruningKey(t, r) in m' <==>
        PruningKey(t, r) in m || (bootstrapped && Live(m, r) && r.space in gone && m[InfoKey(r.space)].info.expiry == t)
  {
    var m' := Without(m, gone, bootstrapped);
    forall t: uint64, r | bootstrapped && Live(m, r) && r.space in gone && m[InfoKey(r.space)].info.expiry == t
      ensures PruningKey(t, r) in m'
    {
      assert ExpiryKey(t, r) in m;
      assert PruningKey(t, r) in Queued(m, gone);
    }
  }

  lemma ExpireValues(m: Db, now: uint64, gone: set<Name>, bootstrapped: bool)
    requires Shape(m, now)
    requires forall s :: s in gone ==> InfoKey(s) in m
    ensures Values(Without(m, gone, bootstrapped))
  {
    var m' := Without(m, gone, bootstrapped);
    ExpireQueues(m, now, gone, bootstrapped);
    forall r, x | ValueKey(r, x) in m'
      ensures Live(m', r) || Waiting(m', r)
    {
      if Live(m, r) {
        if r.space in gone {
          assert PruningKey(m[InfoKey(r.space)].info.expiry, r) in m';
        }
      } else {
        var t: uint64 :| PruningKey(t, r) in m;
        assert PruningKey(t, r) in m';
      }
    }
  }

  /** What expiry does with the rest: after bootstrapping it keeps every value and queues exactly the
      spaces that ran out, under the time they ran out; before, it drops exactly the values of those
      spaces and queues nothing. Keys that are not about spaces stay as they are. */
  lemma ExpireExact(m: Db, now: uint64, later: uint64, bootstrapped: bool)
    requires Shape(m, now)
    ensures var m' := Expire(m, later, bootstrapped);
      && (forall r, x :: ValueKey(r, x) in m' <==>
        ValueKey(r, x) in m && (bootstrapped || !(Live(m, r) && m[InfoKey(r.space)].info.expiry < later)))
      && (forall t: uint64, r :: PruningKey(t, r) in m' <==>
        PruningKey(t, r) in m || (bootstrapped && Live(m, r) && m[InfoKey(r.space)].info.expiry == t < later))
      && (forall k :: Neutral(k) ==> (k in m' <==> k in m))
      && (forall k :: k in m && k in m' ==> m'[k] == m[k])
  {
    ExpiredAtExact(m, now, later);
    var gone := ExpiredAt(m, later);
    forall t: uint64, r
      ensures PruningKey(t, r) in Queued(m, gone) <==> Live(m, r) && m[InfoKey(r.space)].info.expiry == t < later
    {
      QueuedIs(m, now, later, gone, t, r);
    }
    hide Queued, ExpiredAt;
  }

  lemma QueuedIs(m: Db, now: uint64, later: uint64, gone: set<Name>, t: uint64, r: RawID)
    requires Shape(m, now)
    requires forall s :: s in gone <==> InfoKey(s) in m && m[InfoKey(s)].info.expiry < later
    ensures PruningKey(t, r) in Queued(m, gone) <==> Live(m, r) && m[InfoKey(r.space)].info.expiry == t < later
  {
    var e := ExpiryKey(t, r);
    if PruningKey(t, r) in Queued(m, gone) {
      var k :| k in m && k.ExpiryKey? && k.raw.RawOf? && k.raw.space in gone
        && PruningKey(t, r) == PruningKey(k.ts, k.raw);
      assert k == e;
    }
    if Live(m, r) && m[InfoKey(r.space)].info.expiry == t < later {
      assert e in m && e.ExpiryKey?;
    }
  }

  // ---------- Pruning ----------

  /** Working off any part of the pruning queue keeps the invariant and touches nothing that
      belongs to a live space. */
  lemma PruneKeepsInv(g: Genesis, m: Db, now: uint64, done: set<Key>)
    requires Inv(g, m, now)
    requires forall k :: k in done ==> k.PruningKey? && k in m
    ensures Inv(g, Pruned(m, done), now)
    ensures var m' := Pruned(m, done);
      forall k :: k in m && !k.PruningKey? && !(k.ValueKey? && !Live(m, k.raw)) ==> k in m' && m'[k] == m[k]
  {
    var m' := Pruned(m, done);
    assert forall r :: r in RawsOf(done) ==> !Live(m, r) by {
      forall r | r in RawsOf(done)
        ensures !Live(m, r)
      {
        var k :| k in done && k.PruningKey? && k.raw == r;
        assert k == PruningKey(k.ts, r);
      }
    }
    assert forall r :: Live(m', r) == Live(m, r);
    forall r, x | ValueKey(r, x) in m'
      ensures Live(m', r) || Waiting(m', r)
    {
      if !Live(m, r) {
        var t: uint64 :| PruningKey(t, r) in m;
        assert PruningKey(t, r).raw == r;
        assert PruningKey(t, r) in m';
      }
    }
    forall s | InfoKey(s) in m'
      ensures m'[InfoKey(s)].info.units == g.claimExpiryUnits + Sum(StoredUnits(g, m', m'[InfoKey(s)].info.raw))
    {
      StoredSame(g, m, m', m[InfoKey(s)].info.raw);
    }
  }

  // ---------- The arithmetic of one transaction stays within 64 bits ----------

  predicate SpaceFits(t: TxContext, i: SpaceInfo, units: int) {
    && Fits((i.expiry - i.updated) * i.units)
    && Fits(units)
    && (units > 0 ==> Fits(t.blockTime + (i.expiry - i.updated) * i.units / units))
  }

  function UnitsAt(g: Genesis, m: Db, raw: RawID, x: Name): nat {
    match GetMeta(m, raw, x)
    case None => 0
    case Some(v) => ExpiryUnits(g, v.size)
  }

  predicate ActionFits(g: Genesis, m: Db, t: TxContext, a: Action) {
    match a
    case Claim(s) => Fits(t.blockTime + g.claimReward / g.claimExpiryUnits)
    case Lifeline(s, units) =>
      Fits(g.claimReward * units) &&
      (GetInfo(m, s).Some? && GetInfo(m, s).value.units > 0 ==>
        Fits(GetInfo(m, s).value.expiry + g.claimReward * units / GetInfo(m, s).value.units))
    case Set(s, x, value) =>
      Fits(|value|) &&
      (GetInfo(m, s).Some? ==> var i := GetInfo(m, s).value;
        SpaceFits(t, i, i.units - UnitsAt(g, m, i.raw, x) + ExpiryUnits(g, |value|)))
    case Delete(s, x) =>
      (GetInfo(m, s).Some? ==> var i := GetInfo(m, s).value;
        SpaceFits(t, i, i.units - UnitsAt(g, m, i.raw, x)))
    case _ => true
  }

  // ---------- The actions ----------

  lemma UnitsNeutral(g: Genesis, m: Db, m': Db)
    requires Typed(m) && Typed(m') && UnitsExact(g, m)
    requires forall r, x :: ValueKey(r, x) in m <==> ValueKey(r, x) in m'
    requires forall r, x :: ValueKey(r, x) in m ==> m'[ValueKey(r, x)] == m[ValueKey(r, x)]
    requires forall s :: InfoKey(s) in m' ==> (InfoKey(s) in m
      && m'[InfoKey(s)].info.raw == m[InfoKey(s)].info.raw
      && m'[InfoKey(s)].info.units == m[InfoKey(s)].info.units)
    ensures UnitsExact(g, m')
  {
    forall s | InfoKey(s) in m'
      ensures m'[InfoKey(s)].info.units == g.claimExpiryUnits + Sum(StoredUnits(g, m', m'[InfoKey(s)].info.raw))
    {
      StoredSame(g, m, m', m[InfoKey(s)].info.raw);
    }
  }

  lemma NeutralKeepsInv(g: Genesis, m: Db, now: uint64, k: Key, v: Val)
    requires Inv(g, m, now) && Neutral(k) && WellTyped(k, v)
    ensures Inv(g, m[k := v], now)
  {
    ShapeNeutral(m, now, k, v);
    UnitsNeutral(g, m, m[k := v]);
  }

  lemma ClaimKeepsInv(g: Genesis, m: Db, t: TxContext, s: Name)
    requires Inv(g, m, t.blockTime) && t.blockTime >= 1
    requires ActionFits(g, m, t, Claim(s)) && ExecClaim(g, m, t, s).Ok?
    ensures Inv(g, ExecClaim(g, m, t, s).value, t.blockTime)
  {
    var i := SpaceInfo(t.sender, t.blockTime, t.blockTime, t.blockTime + g.claimReward / g.claimExpiryUnits,
      g.claimExpiryUnits, EmptyRaw);
    var m' := ExecClaim(g, m, t, s).value;
    ShapeClaim(m, t.blockTime, s, i);
    ClaimIsFresh(m, t.blockTime, s);
    forall s' | InfoKey(s') in m'
      ensures m'[InfoKey(s')].info.units == g.claimExpiryUnits + Sum(StoredUnits(g, m', m'[InfoKey(s')].info.raw))
    {
      StoredSame(g, m, m', m'[InfoKey(s')].info.raw);
      if s' == s {
        assert StoredUnits(g, m, RawOf(s, t.blockTime)) == map[] by {
          assert forall k :: k in m && k.ValueKey? && k.raw == RawOf(s, t.blockTime) ==> k == ValueKey(k.raw, k.key);
        }
      }
    }
  }

  lemma QuotientNonNegative(a: int, b: int)
    requires 0 <= a && 0 < b
    ensures 0 <= a / b
  {
  }

  lemma LifelineKeepsInv(g: Genesis, m: Db, t: TxContext, s: Name, units: uint64)
    requires Inv(g, m, t.blockTime)
    requires ActionFits(g, m, t, Lifeline(s, units)) && ExecLifeline(g, m, s, units).Ok?
    ensures Inv(g, ExecLifeline(g, m, s, units).value, t.blockTime)
  {
    var i := m[InfoKey(s)].info;
    QuotientNonNegative(g.claimReward * units, i.units);
    var i' := i.(expiry := i.expiry + g.claimReward * units / i.units);
    ShapeReschedule(m, t.blockTime, s, i');
    UnitsNeutral(g, m, ExecLifeline(g, m, s, units).value);
  }

  lemma MoveKeepsInv(g: Genesis, m: Db, t: TxContext, s: Name, owner: Address)
    requires Inv(g, m, t.blockTime) && ExecMove(m, t, s, owner).Ok?
    ensures Inv(g, ExecMove(m, t, s, owner).value, t.blockTime)
  {
    ShapeMove(m, t.blockTime, s, owner);
    UnitsNeutral(g, m, ExecMove(m, t, s, owner).value);
  }

  /** The last step of Set and Delete: the values already changed, the record follows. */
  lemma UpdateKeepsInv(g: Genesis, m: Db, m1: Db, t: TxContext, s: Name, remaining: uint64, units: uint64)
    requires Inv(g, m, t.blockTime) && t.blockTime >= 1 && InfoKey(s) in m
    requires Shape(m1, t.blockTime) && InfoKey(s) in m1
    requires forall s' :: InfoKey(s') in m1 ==> InfoKey(s') in m && m1[InfoKey(s')] == m[InfoKey(s')]
    requires forall r, x :: r != m[InfoKey(s)].info.raw ==> (ValueKey(r, x) in m <==> ValueKey(r, x) in m1)
    requires forall r, x :: r != m[InfoKey(s)].info.raw && ValueKey(r, x) in m ==>
      m1[ValueKey(r, x)] == m[ValueKey(r, x)]
    requires units == g.claimExpiryUnits + Sum(StoredUnits(g, m1, m[InfoKey(s)].info.raw))
    requires Fits(t.blockTime + remaining / units)
    ensures UpdateSpace(m1, s, t, remaining, m[InfoKey(s)].info.(units := units)).Ok?
    ensures Inv(g, UpdateSpace(m1, s, t, remaining, m[InfoKey(s)].info.(units := units)).value, t.blockTime)
  {
    hide Inv, Shape, UnitsExact;
    InvParts(g, m, t.blockTime);
    var i0 := m[InfoKey(s)].info;
    var i := i0.(units := units, updated := t.blockTime, expiry := t.blockTime + remaining / units);
    UpdateParts(g, m, m1, t, s, remaining, units);
    UpdateUnits(g, m, m1, s, i, i0.expiry);
    ShapeAndUnits(g, PutSpaceInfo(m1, s, i, i0.expiry), t.blockTime);
  }

  lemma ShapeAndUnits(g: Genesis, m: Db, now: uint64)
    requires Shape(m, now) && UnitsExact(g, m)
    ensures Inv(g, m, now)
  {
  }

  lemma InvParts(g: Genesis, m: Db, now: uint64)
    requires Inv(g, m, now)
    ensures Typed(m) && UnitsExact(g, m)
    ensures forall s, s' :: InfoKey(s) in m && InfoKey(s') in m && s != s' ==>
      m[InfoKey(s)].info.raw != m[InfoKey(s')].info.raw
  {
  }

  lemma UpdateParts(g: Genesis, m: Db, m1: Db, t: TxContext, s: Name, remaining: uint64, units: uint64)
    requires Inv(g, m, t.blockTime) && t.blockTime >= 1 && InfoKey(s) in m
    requires Shape(m1, t.blockTime) && InfoKey(s) in m1 && m1[InfoKey(s)] == m[InfoKey(s)]
    requires units >= g.claimExpiryUnits && Fits(t.blockTime + remaining / units)
    ensures Typed(m) && Typed(m1) && m[InfoKey(s)].info.raw.RawOf?
    ensures var i0 := m[InfoKey(s)].info;
      var i := i0.(units := units, updated := t.blockTime, expiry := t.blockTime + remaining / units);
      && UpdateSpace(m1, s, t, remaining, i0.(units := units)) == Ok(PutSpaceInfo(m1, s, i, i0.expiry))
      && Shape(PutSpaceInfo(m1, s, i, i0.expiry), t.blockTime) && Typed(PutSpaceInfo(m1, s, i, i0.expiry))
  {
    hide UnitsExact;
    var i0 := m[InfoKey(s)].info;
    QuotientNonNegative(remaining, units);
    ShapeReschedule(m1, t.blockTime, s,
      i0.(units := units, updated := t.blockTime, expiry := t.blockTime + remaining / units));
  }

  lemma UpdateUnits(g: Genesis, m: Db, m1: Db, s: Name, i: SpaceInfo, lastExpiry: uint64)
    requires Typed(m) && UnitsExact(g, m) && InfoKey(s) in m && i.raw == m[InfoKey(s)].info.raw && i.raw.RawOf?
    requires Typed(m1) && Typed(PutSpaceInfo(m1, s, i, lastExpiry))
    requires forall s' :: InfoKey(s') in m1 ==> InfoKey(s') in m && m1[InfoKey(s')] == m[InfoKey(s')]
    requires forall s' :: InfoKey(s') in m && s' != s ==> m[InfoKey(s')].info.raw != i.raw
    requires forall r, x :: r != i.raw ==> (ValueKey(r, x) in m <==> ValueKey(r, x) in m1)
    requires forall r, x :: r != i.raw && ValueKey(r, x) in m ==> m1[ValueKey(r, x)] == m[ValueKey(r, x)]
    requires i.units == g.claimExpiryUnits + Sum(StoredUnits(g, m1, i.raw))
    ensures UnitsExact(g, PutSpaceInfo(m1, s, i, lastExpiry))
  {
    hide StoredUnits, Sum;
    var m' := PutSpaceInfo(m1, s, i, lastExpiry);
    forall s' | InfoKey(s') in m'
      ensures m'[InfoKey(s')].info.units == g.claimExpiryUnits + Sum(StoredUnits(g, m', m'[InfoKey(s')].info.raw))
    {
      var r := m'[InfoKey(s')].info.raw;
      StoredSame(g, m1, m', r);
      if s' != s {
        StoredSame(g, m, m1, r);
      }
    }
  }

  lemma SetSteps(h: Hashes, g: Genesis, m: Db, t: TxContext, s: Name, x: Name, value: seq<byte>)
    requires Fits(|value|) && ExecSet(h, g, m, t, s, x, value).Ok?
    ensures GetInfo(m, s).Some?
    ensures var i := GetInfo(m, s).value;
      ExecSet(h, g, m, t, s, x, value) ==
        UpdateSpace(m[ValueKey(i.raw, x) := MetaVal(SetMeta(m, t, i, x, |value|))], s, t, TimeRemaining(i),
          i.(units := Reunit(g, i.units, GetMeta(m, i.raw, x), Some(|value|))))
  {
    hide UpdateSpace, CheckContents, TimeRemaining, Reunit, GetMeta;
  }

  lemma RecordOf(g: Genesis, m: Db, now: uint64, s: Name)
    requires Inv(g, m, now) && GetInfo(m, s).Some?
    ensures InfoKey(s) in m && m[InfoKey(s)].InfoVal? && m[InfoKey(s)].info == GetInfo(m, s).value
    ensures Live(m, m[InfoKey(s)].info.raw)
      && m[InfoKey(s)].info.units == g.claimExpiryUnits + Sum(StoredUnits(g, m, m[InfoKey(s)].info.raw))
    ensures m[InfoKey(s)].info.updated <= m[InfoKey(s)].info.expiry
    ensures Typed(m) && Shape(m, now)
  {
  }

  lemma SetUnitsExact(g: Genesis, m: Db, t: TxContext, s: Name, x: Name, value: seq<byte>)
    requires Inv(g, m, t.blockTime) && GetInfo(m, s).Some?
    requires ActionFits(g, m, t, Set(s, x, value))
    ensures var i := GetInfo(m, s).value;
      var m1 := m[ValueKey(i.raw, x) := MetaVal(SetMeta(m, t, i, x, |value|))];
      var units := Reunit(g, i.units, GetMeta(m, i.raw, x), Some(|value|));
      && Shape(m1, t.blockTime)
      && units == g.claimExpiryUnits + Sum(StoredUnits(g, m1, i.raw))
      && Fits(t.blockTime + TimeRemaining(i) / units)
  {
    RecordOf(g, m, t.blockTime, s);
    var i := GetInfo(m, s).value;
    var meta := SetMeta(m, t, i, x, |value|);
    ShapeValueWrite(m, t.blockTime, i.raw, x, meta);
    StoredWrite(g, m, i.raw, x, meta);
    if GetMeta(m, i.raw, x).Some? {
      StoredBound(g, m, i.raw, x);
    }
    hide Shape, Inv, StoredUnits, Sum, Live, Typed, ExpiryUnits;
  }

  lemma SetKeepsInv(h: Hashes, g: Genesis, m: Db, t: TxContext, s: Name, x: Name, value: seq<byte>)
    requires Inv(g, m, t.blockTime) && t.blockTime >= 1
    requires ActionFits(g, m, t, Set(s, x, value)) && ExecSet(h, g, m, t, s, x, value).Ok?
    ensures Inv(g, ExecSet(h, g, m, t, s, x, value).value, t.blockTime)
  {
    hide Inv, ExecSet, Shape, UpdateSpace, StoredUnits, Sum, TimeRemaining, Reunit, GetMeta, SetMeta, SpaceFits;
    SetSteps(h, g, m, t, s, x, value);
    RecordOf(g, m, t.blockTime, s);
    SetUnitsExact(g, m, t, s, x, value);
    var i := m[InfoKey(s)].info;
    var m1 := m[ValueKey(i.raw, x) := MetaVal(SetMeta(m, t, i, x, |value|))];
    UpdateKeepsInv(g, m, m1, t, s, TimeRemaining(i), Reunit(g, i.units, GetMeta(m, i.raw, x), Some(|value|)));
  }

  lemma DeleteUnitsExact(g: Genesis, m: Db, t: TxContext, s: Name, x: Name)
    requires Inv(g, m, t.blockTime) && GetInfo(m, s).Some? && GetMeta(m, GetInfo(m, s).value.raw, x).Some?
    requires ActionFits(g, m, t, Delete(s, x))
    ensures var i := GetInfo(m, s).value;
      var m1 := m - {ValueKey(i.raw, x)};
      var units := Reunit(g, i.units, GetMeta(m, i.raw, x), None);
      && Shape(m1, t.blockTime)
      && units == g.claimExpiryUnits + Sum(StoredUnits(g, m1, i.raw))
      && Fits(t.blockTime + TimeRemaining(i) / units)
  {
    hide Shape, Inv, StoredUnits, Sum, Live, Typed, ExpiryUnits;
    RecordOf(g, m, t.blockTime, s);
    var i := GetInfo(m, s).value;
    ShapeValueDrop(m, t.blockTime, i.raw, x);
    StoredDrop(g, m, i.raw, x);
    StoredBound(g, m, i.raw, x);
  }

  lemma DeleteKeepsInv(g: Genesis, m: Db, t: TxContext, s: Name, x: Name)
    requires Inv(g, m, t.blockTime) && t.blockTime >= 1
    requires ActionFits(g, m, t, Delete(s, x)) && ExecDelete(g, m, t, s, x).Ok?
    ensures Inv(g, ExecDelete(g, m, t, s, x).value, t.blockTime)
  {
    hide Inv, Shape, UpdateSpace, StoredUnits, Sum, TimeRemaining, Reunit, SpaceFits, CheckContents;
    RecordOf(g, m, t.blockTime, s);
    DeleteUnitsExact(g, m, t, s, x);
    var i := m[InfoKey(s)].info;
    var m1 := m - {ValueKey(i.raw, x)};
    UpdateKeepsInv(g, m, m1, t, s, TimeRemaining(i), Reunit(g, i.units, GetMeta(m, i.raw, x), None));
  }

  lemma BalanceKeepsInv(g: Genesis, m: Db, now: uint64, a: Address, add: bool, change: uint64)
    requires Inv(g, m, now) && ModifyBalance(m, a, add, change).Ok?
    ensures Inv(g, ModifyBalance(m, a, add, change).value, now)
  {
    var n := if add then GetBalance(m, a) + change else GetBalance(m, a) - change;
    NeutralKeepsInv(g, m, now, BalanceKey(a), BalanceVal(n));
  }

  /** Each of the six transactions keeps the five families in agreement and the units exact. */
  lemma ActionKeepsInv(h: Hashes, g: Genesis, m: Db, t: TxContext, a: Action)
    requires Inv(g, m, t.blockTime) && t.blockTime >= 1
    requires ActionFits(g, m, t, a) && ExecAction(h, g, m, t, a).Ok?
    ensures Inv(g, ExecAction(h, g, m, t, a).value, t.blockTime)
  {
    match a
    case Claim(s) => ClaimKeepsInv(g, m, t, s);
    case Lifeline(s, units) => LifelineKeepsInv(g, m, t, s, units);
    case Set(s, x, value) => SetKeepsInv(h, g, m, t, s, x, value);
    case Delete(s, x) => DeleteKeepsInv(g, m, t, s, x);
    case Move(s, owner) => MoveKeepsInv(g, m, t, s, owner);
    case Transfer(recipient, units) =>
      BalanceKeepsInv(g, m, t.blockTime, t.sender, false, units);
      BalanceKeepsInv(g, ModifyBalance(m, t.sender, false, units).value, t.blockTime, recipient, true, units);
  }

  // ---------- Branches that cannot be taken ----------

  /** While the invariant holds, no action ever divides by zero, no subtraction of units or times
      underflows, and the ErrSpaceExpired branch is dead. */
  lemma NoDeadBranch(h: Hashes, g: Genesis, m: Db, t: TxContext, a: Action)
    requires Inv(g, m, t.blockTime) && ActionFits(g, m, t, a)
    ensures ExecAction(h, g, m, t, a) != Err(ErrDivideByZero)
    ensures ExecAction(h, g, m, t, a) != Err(ErrSpaceExpired)
    ensures forall s, x :: InfoKey(s) in m ==> var i := m[InfoKey(s)].info;
      i.updated <= i.expiry && g.claimExpiryUnits + UnitsAt(g, m, i.raw, x) <= i.units
  {
    forall s, x | InfoKey(s) in m
      ensures var i := m[InfoKey(s)].info; g.claimExpiryUnits + UnitsAt(g, m, i.raw, x) <= i.units
    {
      var i := m[InfoKey(s)].info;
      if ValueKey(i.raw, x) in m {
        StoredBound(g, m, i.raw, x);
      }
    }
  }
}

/** The storage operations as they are carried out on a layered database: by reading, writing and
    deleting keys and by walking a cursor in byte order (storage.go). */
module Storage {
  import opened Types
  import opened Bytes
  import opened Keys
  import opened VersionDB
  import S = Store
  import opened Spaces
  import opened Preservation

  /** Between two contents of a layer no value and no pruning entry was newly written. */
  ghost predicate NoValueTouched(before: Mem, after: Mem) {
    forall k :: k in after && k !in before ==> !k.ValueKey? && !k.PruningKey?
  }

  /** The values and pruning entries newly written belong to spaces that are live in m. */
  ghost predicate OnlyLiveTouched(m: Db, before: Mem, after: Mem) {
    forall k :: k in after && k !in before && (k.ValueKey? || k.PruningKey?) ==> S.Live(m, k.raw)
  }

  // ---------- Reading ----------

  function ReadInfo(db: Database, s: Name): (r: Option<SpaceInfo>)
    reads db
    ensures r == S.GetInfo(db.View(), s)
  {
    var v := db.Get(InfoKey(s));
    if v.Some? && v.value.InfoVal? then Some(v.value.info) else None
  }

  function ReadMeta(db: Database, raw: RawID, x: Name): (r: Option<ValueMeta>)
    reads db
    ensures r == S.GetMeta(db.View(), raw, x)
  {
    var v := db.Get(ValueKey(raw, x));
    if v.Some? && v.value.MetaVal? then Some(v.value.meta) else None
  }

  function ReadBalance(db: Database, a: Address): (r: uint64)
    reads db
    ensures r == S.GetBalance(db.View(), a)
  {
    var v := db.Get(BalanceKey(a));
    if v.Some? && v.value.BalanceVal? then v.value.bal else 0
  }

  // ---------- Writing ----------

  method PutSpaceInfo(db: Database, s: Name, info: SpaceInfo, lastExpiry: uint64)
    modifies db
    ensures db.View() == S.PutSpaceInfo(old(db.View()), s, info, lastExpiry)
    ensures NoValueTouched(old(db.mem), db.mem)
  {
    var i := info;
    if i.raw == EmptyRaw {
      i := i.(raw := RawOf(s, i.created));
      db.Write(OwnedKey(i.owner, s), NilVal);
    }
    if lastExpiry > 0 {
      db.Delete(ExpiryKey(lastExpiry, i.raw));
    }
    db.Write(ExpiryKey(i.expiry, i.raw), ExpiryVal(i.owner, s));
    db.Write(InfoKey(s), InfoVal(i));
  }

  method MoveSpaceInfo(db: Database, oldOwner: Address, s: Name, i: SpaceInfo)
    modifies db
    ensures db.View() == S.MoveSpaceInfo(old(db.View()), oldOwner, s, i)
    ensures NoValueTouched(old(db.mem), db.mem)
  {
    db.Write(InfoKey(s), InfoVal(i));
    db.Delete(OwnedKey(oldOwner, s));
    db.Write(OwnedKey(i.owner, s), NilVal);
    db.Write(ExpiryKey(i.expiry, i.raw), ExpiryVal(i.owner, s));
  }

  method ModifyBalance(db: Database, a: Address, add: bool, change: uint64) returns (err: Option<Error>)
    modifies db
    ensures match S.ModifyBalance(old(db.View()), a, add, change)
      case Ok(m) => err == None && db.View() == m
      case Err(e) => err == Some(e) && db.View() == old(db.View())
    ensures NoValueTouched(old(db.mem), db.mem)
  {
    var b := ReadBalance(db, a);
    if (add && b + change >= TWO64) || (!add && b < change) {
      return Some(ErrInvalidBalance);
    }
    db.Write(BalanceKey(a), BalanceVal(if add then b + change else b - change));
    return None;
  }

  // ---------- ExpireNext ----------

  /** The store m with one expiry entry carried out. */
  function ExpireOneIn(m: Db, k: Key, owner: Address, s: Name, bootstrapped: bool): Db
    requires k.ExpiryKey?
  {
    var m2 := m - {k} - {OwnedKey(owner, s)} - {InfoKey(s)};
    if bootstrapped then m2[PruningKey(k.ts, k.raw) := NilVal] else m2 - ValuesOf(m2, k.raw)
  }

  predicate Dropped(i: SpaceInfo, s: Name, bootstrapped: bool, k: Key) {
    || k == ExpiryKey(i.expiry, i.raw) || k == OwnedKey(i.owner, s) || k == InfoKey(s)
    || (!bootstrapped && k.ValueKey? && k.raw == i.raw)
  }

  lemma DropsStep(m: Db, now: uint64, gone: set<Name>, bootstrapped: bool, s: Name, k: Key)
    requires Shape(m, now) && InfoKey(s) in m && k in m
    ensures S.Drops(m, gone + {s}, bootstrapped, k) <==>
      S.Drops(m, gone, bootstrapped, k) || Dropped(m[InfoKey(s)].info, s, bootstrapped, k)
  {
    match k
    case OwnedKey(a, s') => assert OwnedKey(a, s') in m;
    case ExpiryKey(t, r) => assert ExpiryKey(t, r) in m;
    case _ =>
  }

  lemma WithoutAt(m: Db, gone: set<Name>, bootstrapped: bool, k: Key)
    ensures var w := S.Without(m, gone, bootstrapped);
      && (k in w <==> (k in m || (bootstrapped && k in S.Queued(m, gone))) && !S.Drops(m, gone, bootstrapped, k))
      && (k in w ==> w[k] == if k in m then m[k] else NilVal)
  {
  }

  lemma WithoutStepAt(m: Db, now: uint64, gone: set<Name>, bootstrapped: bool, s: Name, k: Key)
    requires Shape(m, now) && InfoKey(s) in m
    ensures var i := m[InfoKey(s)].info;
      var a := S.Without(m, gone + {s}, bootstrapped);
      var b := ExpireOneIn(S.Without(m, gone, bootstrapped), ExpiryKey(i.expiry, i.raw), i.owner, s, bootstrapped);
      (k in a <==> k in b) && (k in a ==> a[k] == b[k])
  {
    WithoutAt(m, gone, bootstrapped, k);
    WithoutAt(m, gone + {s}, bootstrapped, k);
    QueuedStep(m, now, gone, s);
    if k in m {
      assert WellTyped(k, m[k]);
      DropsStep(m, now, gone, bootstrapped, s, k);
    }
    assert k in S.Queued(m, gone + {s}) ==> k.PruningKey?;
    hide S.Queued, S.Without, Shape;
  }

  /** Taking one more live space out. */
  lemma WithoutStep(m: Db, now: uint64, gone: set<Name>, bootstrapped: bool, s: Name)
    requires Shape(m, now) && InfoKey(s) in m
    ensures var i := m[InfoKey(s)].info;
      S.Without(m, gone + {s}, bootstrapped)
        == ExpireOneIn(S.Without(m, gone, bootstrapped), ExpiryKey(i.expiry, i.raw), i.owner, s, bootstrapped)
  {
    var i := m[InfoKey(s)].info;
    var a := S.Without(m, gone + {s}, bootstrapped);
    var b := ExpireOneIn(S.Without(m, gone, bootstrapped), ExpiryKey(i.expiry, i.raw), i.owner, s, bootstrapped);
    hide S.Without, ExpireOneIn;
    forall k
      ensures k in a <==> k in b
      ensures k in a ==> a[k] == b[k]
    {
      WithoutStepAt(m, now, gone, bootstrapped, s, k);
    }
  }

  lemma QueuedStep(m: Db, now: uint64, gone: set<Name>, s: Name)
    requires Shape(m, now) && InfoKey(s) in m
    ensures var i := m[InfoKey(s)].info; S.Queued(m, gone + {s}) == S.Queued(m, gone) + {PruningKey(i.expiry, i.raw)}
  {
    var i := m[InfoKey(s)].info;
    assert ExpiryKey(i.expiry, i.raw) in m;
    var a, b := S.Queued(m, gone + {s}), S.Queued(m, gone) + {PruningKey(i.expiry, i.raw)};
    forall k | k in a
      ensures k in b
    {
      var e :| e in m && e.ExpiryKey? && e.raw.RawOf? && e.raw.space in gone + {s} && k == PruningKey(e.ts, e.raw);
      assert e == ExpiryKey(e.ts, e.raw);
    }
    forall k | k in b
      ensures k in a
    {
      if k == PruningKey(i.expiry, i.raw) {
        var e := ExpiryKey(i.expiry, i.raw);
        assert e in m && e.raw.space in gone + {s} && k == PruningKey(e.ts, e.raw);
      }
    }
  }

  ghost function SpacesOf(keys: seq<Key>): set<Name> {
    set k | k in keys && k.ExpiryKey? && k.raw.RawOf? :: k.raw.space
  }

  lemma SpacesOfStep(keys: seq<Key>, i: nat)
    requires i < |keys| && keys[i].ExpiryKey? && keys[i].raw.RawOf?
    ensures SpacesOf(keys[..i + 1]) == SpacesOf(keys[..i]) + {keys[i].raw.space}
  {
    assert keys[..i + 1] == keys[..i] + [keys[i]];
  }

  /** Where the scan stopped, and what it met before. */
  ghost predicate Scanned(h: Hashes, m: Db, now: uint64, later: uint64, keys: seq<Key>, i: nat) {
    && i <= |keys| && Snapshot(h, m, RangeTimeKey(5, now), keys)
    && (forall k :: k in keys[..i] ==> TimeKeyIn(k, 5, now, later))
    && (i < |keys| ==> Less(RangeTimeKey(5, later), Encode(h, keys[i])))
  }

  /** A due entry comes before the place where the scan stopped. */
  lemma DueIsMet(h: Hashes, m: Db, now: uint64, later: uint64, keys: seq<Key>, i: nat, k: Key)
    requires Sound(h) && Scanned(h, m, now, later, keys, i) && k in m && TimeKeyIn(k, 5, now, later)
    ensures k in keys[..i]
  {
    hide Less, Encode, RangeTimeKey, TimeKeyIn;
    TimeWindow(h, 5, now, later, k);
    assert k in keys;
    var j :| 0 <= j < |keys| && keys[j] == k;
    if i <= j {
      if i < j {
        assert Before(h, keys[i], keys[j]);
      }
      LessTotal(Encode(h, keys[i]), Encode(h, k));
      LessTotal(RangeTimeKey(5, later), Encode(h, keys[i]));
      LessTransitive(Encode(h, keys[i]), Encode(h, k), RangeTimeKey(5, later));
    }
    assert keys[..i][j] == k;
  }

  lemma ExpiredIsMet(h: Hashes, m: Db, now: uint64, later: uint64, keys: seq<Key>, i: nat, s: Name)
    requires Sound(h) && Shape(m, now) && Scanned(h, m, now, later, keys, i) && s in S.ExpiredAt(m, later)
    ensures s in SpacesOf(keys[..i])
  {
    ExpiredAtExact(m, now, later);
    var info := m[InfoKey(s)].info;
    var k := ExpiryKey(info.expiry, info.raw);
    assert k in m;
    hide Shape, Scanned, S.ExpiredAt;
    DueIsMet(h, m, now, later, keys, i, k);
  }

  lemma MetIsExpired(h: Hashes, m: Db, now: uint64, later: uint64, keys: seq<Key>, i: nat, s: Name)
    requires Sound(h) && Shape(m, now) && Scanned(h, m, now, later, keys, i) && s in SpacesOf(keys[..i])
    ensures s in S.ExpiredAt(m, later)
  {
    hide Less, Encode, RangeTimeKey;
    ExpiredAtExact(m, now, later);
    var k :| k in keys[..i] && k.ExpiryKey? && k.raw.RawOf? && k.raw.space == s;
    assert k in keys;
    assert ExpiryKey(k.ts, k.raw) in m;
  }

  /** The byte scan met exactly the spaces that ran out: every queue entry before the stopping point
      is due, and none after it is. */
  lemma ScanIsExact(h: Hashes, m: Db, now: uint64, later: uint64, keys: seq<Key>, i: nat)
    requires Sound(h) && Shape(m, now) && i <= |keys| && Scanned(h, m, now, later, keys, i)
    ensures SpacesOf(keys[..i]) == S.ExpiredAt(m, later)
  {
    hide Shape, Scanned, S.ExpiredAt, SpacesOf;
    forall s | s in S.ExpiredAt(m, later)
      ensures s in SpacesOf(keys[..i])
    {
      ExpiredIsMet(h, m, now, later, keys, i, s);
    }
    forall s | s in SpacesOf(keys[..i])
      ensures s in S.ExpiredAt(m, later)
    {
      MetIsExpired(h, m, now, later, keys, i, s);
    }
  }

  method ExpireOne(h: Hashes, db: Database, k: Key, owner: Address, space: Name, bootstrapped: bool)
    requires Sound(h) && k.ExpiryKey?
    modifies db
    ensures db.View() == ExpireOneIn(old(db.View()), k, owner, space, bootstrapped)
    ensures forall x :: x in db.mem && x !in old(db.mem) && (x.ValueKey? || x.PruningKey?) ==> x.raw == k.raw
  {
    db.Delete(k);
    db.Delete(OwnedKey(owner, space));
    db.Delete(InfoKey(space));
    if bootstrapped {
      db.Write(PruningKey(k.ts, k.raw), NilVal);
    } else {
      db.ClearValues(h, k.raw);
    }
  }

  /** Whatever the cursor meets, the outcome is that every space that ran out before `current` is
      gone from all the families, and nothing else has changed. */
  method ExpireNext(h: Hashes, db: Database, rparent: int, rcurrent: int, bootstrapped: bool)
    requires Sound(h) && Shape(db.View(), W(rparent))
    modifies db
    ensures db.View() == S.Expire(old(db.View()), W(rcurrent), bootstrapped)
    ensures OnlyLiveTouched(old(db.View()), old(db.mem), db.mem)
  {
    hide S.Without, ExpireOneIn, SpacesOf, TimeKeyIn, Shape, Encode, Less, RangeTimeKey, Snapshot, W;
    var parent, current := W(rparent), W(rcurrent);
    var endKey := RangeTimeKey(5, current);
    var snapshot := db.View();
    var keys := db.NewIteratorWithStart(h, RangeTimeKey(5, parent));
    NothingGone(snapshot, bootstrapped, keys);
    var i := 0;
    while i < |keys| && !Less(endKey, Encode(h, keys[i]))
      invariant 0 <= i <= |keys|
      invariant forall k :: k in keys[..i] ==> TimeKeyIn(k, 5, parent, current)
      invariant db.View() == S.Without(snapshot, SpacesOf(keys[..i]), bootstrapped)
      invariant OnlyLiveTouched(snapshot, old(db.mem), db.mem)
    {
      var k := keys[i];
      DueEntry(h, snapshot, parent, current, keys, i);
      var owner, space := snapshot[k].owner, snapshot[k].space;
      SpacesOfStep(keys, i);
      WithoutStep(snapshot, parent, SpacesOf(keys[..i]), bootstrapped, space);
      assert keys[..i + 1] == keys[..i] + [k];
      ExpireOne(h, db, k, owner, space, bootstrapped);
      i := i + 1;
    }
    ScanIsExact(h, snapshot, parent, current, keys, i);
  }

  lemma NothingGone(m: Db, bootstrapped: bool, keys: seq<Key>)
    ensures SpacesOf(keys[..0]) == {} && S.Without(m, {}, bootstrapped) == m
  {
    assert S.Queued(m, {}) == {};
  }

  /** An entry inside the scan is the queue entry of a live space, with what that space's record
      says. */
  lemma DueEntry(h: Hashes, m: Db, now: uint64, later: uint64, keys: seq<Key>, i: nat)
    requires Sound(h) && Shape(m, now) && i < |keys|
    requires Snapshot(h, m, RangeTimeKey(5, now), keys)
    requires Leq(Encode(h, keys[i]), RangeTimeKey(5, later))
    ensures TimeKeyIn(keys[i], 5, now, later) && keys[i].ExpiryKey? && keys[i] in m
    ensures keys[i].raw.RawOf? && S.Live(m, keys[i].raw)
    ensures var i' := m[InfoKey(keys[i].raw.space)].info;
      keys[i] == ExpiryKey(i'.expiry, i'.raw) && m[keys[i]] == ExpiryVal(i'.owner, keys[i].raw.space)
  {
    assert keys[i] in keys;
    TimeWindow(h, 5, now, later, keys[i]);
    assert ExpiryKey(keys[i].ts, keys[i].raw) in m;
  }

  // ---------- PruneNext ----------

  const MAX_INT64: uint64 := 0x7FFF_FFFF_FFFF_FFFF

  function KeysOf(keys: seq<Key>): set<Key> {
    set k | k in keys
  }

  lemma PrunedStep(m: Db, done: set<Key>, k: Key)
    requires k.PruningKey?
    ensures S.Pruned(m, done + {k}) == S.Pruned(m, done) - {k} - ValuesOf(S.Pruned(m, done) - {k}, k.raw)
  {
    assert S.RawsOf(done + {k}) == S.RawsOf(done) + {k.raw} by {
      forall r | r in S.RawsOf(done) + {k.raw}
        ensures r in S.RawsOf(done + {k})
      {
        if r == k.raw {
          assert k in done + {k};
        } else {
          var d :| d in done && d.PruningKey? && d.raw == r;
          assert d in done + {k};
        }
      }
    }
  }

  lemma AscendingDistinct(h: Hashes, keys: seq<Key>, i: nat)
    requires Ascending(h, keys) && i <= |keys|
    ensures |KeysOf(keys[..i])| == i
  {
    hide Before;
    if i > 0 {
      AscendingDistinct(h, keys, i - 1);
      assert keys[..i] == keys[..i - 1] + [keys[i - 1]];
      assert KeysOf(keys[..i]) == KeysOf(keys[..i - 1]) + {keys[i - 1]};
      if keys[i - 1] in keys[..i - 1] {
        var j :| 0 <= j < i - 1 && keys[j] == keys[i - 1];
        assert Before(h, keys[j], keys[i - 1]);
        NotBeforeItself(h, keys[j]);
      }
    }
  }

  lemma NotBeforeItself(h: Hashes, k: Key)
    ensures !Before(h, k, k)
  {
    LessTotal(Encode(h, k), Encode(h, k));
  }

  /** Work off at most `limit` entries of the pruning queue, in key order, so oldest first; fewer
      only if nothing that may be pruned is left. */
  method PruneNext(h: Hashes, db: Database, limit: int) returns (removals: nat, ghost done: set<Key>)
    requires Sound(h)
    modifies db
    ensures db.View() == S.Pruned(old(db.View()), done)
    ensures |done| == removals && (removals <= limit || removals == 0)
    ensures forall k :: k in done ==> k in old(db.View()) && TimeKeyIn(k, 6, 0, MAX_INT64)
    ensures forall k, q :: k in done && q !in done && q in old(db.View()) && q.PruningKey? ==> Before(h, k, q)
    ensures removals < limit ==> forall k :: k in old(db.View()) && TimeKeyIn(k, 6, 0, MAX_INT64) ==> k in done
    ensures forall k :: k in db.mem && k !in old(db.mem) ==> k in done || (k.ValueKey? && k.raw in S.RawsOf(done))
  {
    hide S.Pruned, S.RawsOf, TimeKeyIn, Encode, Less, RangeTimeKey, Snapshot;
    var endKey := RangeTimeKey(6, MAX_INT64);
    ghost var view := db.View();
    var keys := db.NewIteratorWithStart(h, RangeTimeKey(6, 0));
    NothingPruned(view, keys);
    var i := 0;
    while i < |keys| && i < limit && !Less(endKey, Encode(h, keys[i]))
      invariant 0 <= i <= |keys| && (i <= limit || i == 0)
      invariant forall k :: k in keys[..i] ==> TimeKeyIn(k, 6, 0, MAX_INT64)
      invariant db.View() == S.Pruned(view, KeysOf(keys[..i]))
      invariant forall k :: k in db.mem && k !in old(db.mem) ==>
        k in KeysOf(keys[..i]) || (k.ValueKey? && k.raw in S.RawsOf(KeysOf(keys[..i])))
    {
      var k := keys[i];
      QueueEntry(h, view, keys, i);
      PrunedStep(view, KeysOf(keys[..i]), k);
      RawsOfStep(KeysOf(keys[..i]), k);
      assert keys[..i + 1] == keys[..i] + [k];
      assert KeysOf(keys[..i + 1]) == KeysOf(keys[..i]) + {k};
      db.Delete(k);
      db.ClearValues(h, k.raw);
      i := i + 1;
    }
    removals, done := i, KeysOf(keys[..i]);
    AscendingDistinctAt(h, view, keys, i);
    PruneOrder(h, view, keys, i, limit);
  }

  /** `done` is what one call works off: entries of the queue, at most `limit` of them, and all that are
      due if they are fewer. */
  ghost predicate WorkedOff(m: Db, done: set<Key>, limit: int) {
    && (forall k :: k in done ==> k.PruningKey? && k in m)
    && (|done| <= limit || done == {})
    && (|done| < limit ==> forall k :: k in m && k.PruningKey? && k.ts < MAX_INT64 ==> k in done)
  }

  lemma AllWorkedOff(m: Db, done: set<Key>, limit: int)
    requires forall k :: k in done ==> k in m && TimeKeyIn(k, 6, 0, MAX_INT64)
    requires |done| <= limit || |done| == 0
    requires |done| < limit ==> forall k :: k in m && TimeKeyIn(k, 6, 0, MAX_INT64) ==> k in done
    ensures WorkedOff(m, done, limit)
  {
  }

  lemma NothingPruned(m: Db, keys: seq<Key>)
    ensures KeysOf(keys[..0]) == {} && S.Pruned(m, {}) == m
  {
    assert S.PrunedKeys(m, {}) == {};
  }

  lemma RawsOfStep(done: set<Key>, k: Key)
    requires k.PruningKey?
    ensures k.raw in S.RawsOf(done + {k})
    ensures forall r :: r in S.RawsOf(done) ==> r in S.RawsOf(done + {k})
  {
    assert k in done + {k};
    forall r | r in S.RawsOf(done)
      ensures r in S.RawsOf(done + {k})
    {
      var d :| d in done && d.PruningKey? && d.raw == r;
      assert d in done + {k};
    }
  }

  lemma AscendingDistinctAt(h: Hashes, m: Db, keys: seq<Key>, i: nat)
    requires Snapshot(h, m, RangeTimeKey(6, 0), keys) && i <= |keys|
    ensures |KeysOf(keys[..i])| == i
  {
    AscendingDistinct(h, keys, i);
  }

  lemma QueueEntry(h: Hashes, m: Db, keys: seq<Key>, i: nat)
    requires Sound(h) && i < |keys| && Snapshot(h, m, RangeTimeKey(6, 0), keys)
    requires Leq(Encode(h, keys[i]), RangeTimeKey(6, MAX_INT64))
    ensures TimeKeyIn(keys[i], 6, 0, MAX_INT64) && keys[i].PruningKey? && keys[i] in m
  {
    assert keys[i] in keys;
    TimeWindow(h, 6, 0, MAX_INT64, keys[i]);
  }

  lemma InPrefix(keys: seq<Key>, i: nat, b: nat)
    requires i <= |keys| && b < |keys|
    ensures b < i ==> keys[b] in KeysOf(keys[..i])
  {
    if b < i {
      assert keys[..i][b] == keys[b];
    }
  }

  lemma PruneOrder(h: Hashes, m: Db, keys: seq<Key>, i: nat, limit: int)
    requires Sound(h) && i <= |keys| && Snapshot(h, m, RangeTimeKey(6, 0), keys)
    requires forall k :: k in keys[..i] ==> TimeKeyIn(k, 6, 0, MAX_INT64)
    requires i < |keys| && i < limit ==> Less(RangeTimeKey(6, MAX_INT64), Encode(h, keys[i]))
    ensures forall k :: k in KeysOf(keys[..i]) ==> k in m && TimeKeyIn(k, 6, 0, MAX_INT64)
    ensures forall k, q :: k in KeysOf(keys[..i]) && q !in KeysOf(keys[..i]) && q in m && q.PruningKey? ==>
      Before(h, k, q)
    ensures i < limit ==> forall k :: k in m && TimeKeyIn(k, 6, 0, MAX_INT64) ==> k in KeysOf(keys[..i])
  {
    forall k | k in KeysOf(keys[..i])
      ensures k in m
    {
      assert k in keys;
    }
    forall k, q | k in KeysOf(keys[..i]) && q !in KeysOf(keys[..i]) && q in m && q.PruningKey?
      ensures Before(h, k, q)
    {
      TimeKeyOrder(h, 6, q.ts, q.raw, 0);
      LessTotal(RangeTimeKey(6, 0), Encode(h, q));
      assert q in keys;
      var a :| 0 <= a < i && keys[..i][a] == k;
      var b :| 0 <= b < |keys| && keys[b] == q;
      InPrefix(keys, i, b);
      assert Before(h, keys[a], keys[b]);
    }
    if i < limit {
      forall k | k in m && TimeKeyIn(k, 6, 0, MAX_INT64)
        ensures k in KeysOf(keys[..i])
      {
        TimeWindow(h, 6, 0, MAX_INT64, k);
        assert k in keys;
        var j :| 0 <= j < |keys| && keys[j] == k;
        if i <= j {
          if i < j {
            assert Before(h, keys[i], keys[j]);
          }
          LessTotal(Encode(h, keys[i]), Encode(h, k));
          LessTransitive(Encode(h, keys[i]), Encode(h, k), RangeTimeKey(6, MAX_INT64));
        }
        assert j < i;
        assert keys[..i][j] == k;
      }
    }
  }

  // ---------- ApplyReward ----------

  method ApplyReward(h: Hashes, db: Database, bid: BlockID, tid: TxID, sender: Address, reward: uint64)
    returns (err: Option<Error>)
    requires Sound(h) && Typed(db.View())
    modifies db
    ensures match S.ApplyReward(h, old(db.View()), bid, tid, sender, reward)
      case Ok(m) => err == None && db.View() == m
      case Err(e) => err == Some(e)
    ensures NoValueTouched(old(db.mem), db.mem)
  {
    hide Encode, Contains, Snapshot, IsFirst, S.ModifyBalance, Typed;
    var seed := h.lottery(bid, tid);
    var keys := db.NewIteratorWithStart(h, Head(3) + seed);
    if |keys| == 0 {
      NoFirst(h, db.View(), Head(3) + seed);
      return None;
    }
    var k := keys[0];
    FirstIsHead(h, db.View(), Head(3) + seed, keys);
    if !Contains(Encode(h, k), Head(3)) {
      return None;
    }
    var v := db.View()[k];
    if !v.InfoVal? {
      return Some(ErrCodec);
    }
    if v.info.owner == sender {
      return None;
    }
    err := ModifyBalance(db, v.info.owner, true, reward);
  }

  lemma NoFirst(h: Hashes, m: Db, start: seq<byte>)
    requires Snapshot(h, m, start, [])
    ensures FirstFrom(h, m, start) == None
  {
    assert forall k :: k in m && Leq(start, Encode(h, k)) ==> k in [];
  }

  lemma FirstIsHead(h: Hashes, m: Db, start: seq<byte>, keys: seq<Key>)
    requires Sound(h) && Snapshot(h, m, start, keys) && |keys| > 0
    ensures FirstFrom(h, m, start) == Some(keys[0])
  {
    assert keys[0] in keys;
    forall k | k in m && Leq(start, Encode(h, k))
      ensures Leq(Encode(h, keys[0]), Encode(h, k))
    {
      assert k in keys;
      var j :| 0 <= j < |keys| && keys[j] == k;
      if j > 0 {
        assert Before(h, keys[0], keys[j]);
      }
      LessTotal(Encode(h, keys[0]), Encode(h, k));
    }
    assert IsFirst(h, m, start, keys[0]);
    FirstUnique(h, m, start, keys[0], FirstFrom(h, m, start).value);
  }
}

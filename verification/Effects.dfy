/** What the transactions mean to the people who send them: what can be read afterwards, and what one
    transaction undoes of another (set_tx.go, delete_tx.go, move_tx.go, transfer_tx.go, lifeline_tx.go). */
module Effects {
  import opened Types
  import opened Keys
  import opened Store
  import opened Spaces
  import opened Preservation
  import opened Budget

  ghost predicate SameValuesBut(m: Db, m': Db, raw: RawID, x: Name) {
    && (forall r, y :: (r != raw || y != x) ==> (ValueKey(r, y) in m <==> ValueKey(r, y) in m'))
    && (forall r, y :: (r != raw || y != x) && ValueKey(r, y) in m ==> m'[ValueKey(r, y)] == m[ValueKey(r, y)])
  }

  ghost predicate SameRecordsBut(m: Db, m': Db, s: Name) {
    forall s' :: s' != s ==> GetInfo(m', s') == GetInfo(m, s')
  }

  /** The checks before a set, a delete or a move let the owner through, and nobody else, on every live
      space; what they hand on is the record of the current incarnation. */
  lemma OwnerAlone(g: Genesis, m: Db, t: TxContext, s: Name)
    requires Inv(g, m, t.blockTime)
    ensures VerifySpace(m, s, t).Ok? <==> OwnedKey(t.sender, s) in m
    ensures VerifySpace(m, s, t).Ok? ==> var i := VerifySpace(m, s, t).value;
      Live(m, i.raw) && i.raw.space == s && GetInfo(m, s) == Some(i)
    ensures InfoKey(s) !in m <==> VerifySpace(m, s, t) == Err(ErrSpaceMissing)
    ensures InfoKey(s) in m && OwnedKey(t.sender, s) !in m <==> VerifySpace(m, s, t) == Err(ErrUnauthorized)
  {
    hide UnitsExact;
    if InfoKey(s) in m {
      RecordOf(g, m, t.blockTime, s);
      assert OwnedKey(m[InfoKey(s)].info.owner, s) in m;
    }
  }

  /** After a set the value is found under its key in the current incarnation, attributed to the
      transaction; its time of creation survives being overwritten; nothing else is touched. */
  lemma SetReadsBack(h: Hashes, g: Genesis, m: Db, t: TxContext, s: Name, x: Name, value: seq<byte>)
    requires ExecSet(h, g, m, t, s, x, value).Ok? && Inv(g, m, t.blockTime)
    ensures var m', i := ExecSet(h, g, m, t, s, x, value).value, GetInfo(m, s).value;
      && GetInfo(m, s).Some? && i.owner == t.sender
      && GetMeta(m', i.raw, x).Some?
      && var v := GetMeta(m', i.raw, x).value;
        && v.size == |value| && v.txID == t.txID && v.updated == t.blockTime
        && v.created == (if GetMeta(m, i.raw, x).Some? then GetMeta(m, i.raw, x).value.created else t.blockTime)
        && SameValuesBut(m, m', i.raw, x) && SameRecordsBut(m, m', s)
        && GetInfo(m', s).Some? && GetInfo(m', s).value.raw == i.raw && GetInfo(m', s).value.owner == i.owner
  {
    hide CheckContents, TimeRemaining, Reunit, W, Inv;
    RecordOf(g, m, t.blockTime, s);
    SetSteps(h, g, m, t, s, x, value);
  }

  /** Deleting what was set leaves values, units and owner as they were before it was, and no more of
      the lifetime budget. */
  lemma DeleteUndoesSet(h: Hashes, g: Genesis, m: Db, t: TxContext, t': TxContext, s: Name, x: Name, value: seq<byte>)
    requires Inv(g, m, t.blockTime) && 1 <= t.blockTime <= t'.blockTime
    requires ActionFits(g, m, t, Set(s, x, value)) && ExecSet(h, g, m, t, s, x, value).Ok?
    requires GetMeta(m, GetInfo(m, s).value.raw, x).None?
    requires var m1 := ExecSet(h, g, m, t, s, x, value).value;
      && Inv(g, m1, t'.blockTime)
      && ActionFits(g, m1, t', Delete(s, x)) && ExecDelete(g, m1, t', s, x).Ok?
    ensures var m2 := ExecDelete(g, ExecSet(h, g, m, t, s, x, value).value, t', s, x).value;
      var i, i2 := GetInfo(m, s), GetInfo(m2, s);
      && i.Some? && i2.Some?
      && i2.value.units == i.value.units && i2.value.owner == i.value.owner && i2.value.raw == i.value.raw
      && (forall r, y :: ValueKey(r, y) in m2 <==> ValueKey(r, y) in m)
      && (forall r, y :: ValueKey(r, y) in m ==> m2[ValueKey(r, y)] == m[ValueKey(r, y)])
      && SameRecordsBut(m, m2, s)
      && Remaining(i2.value) <= Remaining(i.value)
  {
    hide Inv, ExecSet, ExecDelete, ExpiryUnits, ActionFits, Remaining, GetMeta, GetInfo;
    var m1 := ExecSet(h, g, m, t, s, x, value).value;
    SetReadsBack(h, g, m, t, s, x, value);
    SetChangesRecord(h, g, m, t, s, x, value);
    DeleteChangesRecord(g, m1, t', s, x);
    NoMetaNoValue(g, m, t.blockTime, GetInfo(m, s).value.raw, x);
  }

  lemma NoMetaNoValue(g: Genesis, m: Db, now: uint64, raw: RawID, x: Name)
    requires Inv(g, m, now) && GetMeta(m, raw, x).None?
    ensures ValueKey(raw, x) !in m
  {
  }

  /** What updateSpace leaves to be read. */
  lemma UpdateReads(m: Db, s: Name, t: TxContext, i: SpaceInfo, units: uint64)
    requires units > 0 && i.raw.RawOf? && i.updated <= i.expiry
    requires Fits(Remaining(i)) && Fits(t.blockTime + Remaining(i) / units)
    ensures var r := UpdateSpace(m, s, t, TimeRemaining(i), i.(units := units));
      && r.Ok? && GetInfo(r.value, s).Some?
      && var i' := GetInfo(r.value, s).value;
        && i'.units == units && i'.raw == i.raw && i'.owner == i.owner
        && Remaining(i') <= Remaining(i)
        && (forall k: Key :: k.ValueKey? ==> (k in r.value <==> k in m) && (k in m ==> r.value[k] == m[k]))
        && SameRecordsBut(m, r.value, s)
  {
    UpdateCarriesBudget(t, i, units);
    hide W, TimeRemaining, Remaining;
  }

  lemma SetChangesRecord(h: Hashes, g: Genesis, m: Db, t: TxContext, s: Name, x: Name, value: seq<byte>)
    requires Inv(g, m, t.blockTime) && t.blockTime >= 1
    requires ActionFits(g, m, t, Set(s, x, value)) && ExecSet(h, g, m, t, s, x, value).Ok?
    requires GetMeta(m, GetInfo(m, s).value.raw, x).None?
    ensures var m', i := ExecSet(h, g, m, t, s, x, value).value, GetInfo(m, s).value;
      && GetInfo(m, s).Some? && GetInfo(m', s).Some?
      && GetInfo(m', s).value.units == i.units + ExpiryUnits(g, |value|)
      && Remaining(GetInfo(m', s).value) <= Remaining(i)
  {
    hide Inv, ExpiryUnits, UpdateSpace, SetMeta, ExecSet, Remaining, TimeRemaining, W, GetMeta;
    SetSteps(h, g, m, t, s, x, value);
    RecordOf(g, m, t.blockTime, s);
    var i := GetInfo(m, s).value;
    SetFits(g, m, t, s, x, value);
    UpdateReads(m[ValueKey(i.raw, x) := MetaVal(SetMeta(m, t, i, x, |value|))], s, t, i,
      i.units + ExpiryUnits(g, |value|));
  }

  lemma SetFits(g: Genesis, m: Db, t: TxContext, s: Name, x: Name, value: seq<byte>)
    requires Inv(g, m, t.blockTime) && GetInfo(m, s).Some? && ActionFits(g, m, t, Set(s, x, value))
    requires GetMeta(m, GetInfo(m, s).value.raw, x).None?
    ensures var i := GetInfo(m, s).value;
      var units := i.units + ExpiryUnits(g, |value|);
      && i.raw.RawOf? && i.units > 0
      && Fits(units) && Reunit(g, i.units, GetMeta(m, i.raw, x), Some(|value|)) == units
      && Fits(Remaining(i)) && Fits(t.blockTime + Remaining(i) / units)
  {
    RecordOf(g, m, t.blockTime, s);
    hide Inv, ExpiryUnits;
  }

  lemma DeleteSteps(g: Genesis, m: Db, t: TxContext, s: Name, x: Name)
    requires ExecDelete(g, m, t, s, x).Ok?
    ensures GetInfo(m, s).Some?
    ensures var i := GetInfo(m, s).value;
      && GetMeta(m, i.raw, x).Some?
      && ExecDelete(g, m, t, s, x) == UpdateSpace(m - {ValueKey(i.raw, x)}, s, t, TimeRemaining(i),
        i.(units := Reunit(g, i.units, GetMeta(m, i.raw, x), None)))
  {
    hide UpdateSpace, TimeRemaining, Reunit, CheckContents;
  }

  lemma DeleteFits(g: Genesis, m: Db, t: TxContext, s: Name, x: Name)
    requires Inv(g, m, t.blockTime) && GetInfo(m, s).Some? && ActionFits(g, m, t, Delete(s, x))
    requires GetMeta(m, GetInfo(m, s).value.raw, x).Some?
    ensures var i := GetInfo(m, s).value;
      var units := i.units - ExpiryUnits(g, GetMeta(m, i.raw, x).value.size);
      && i.raw.RawOf? && units > 0
      && Fits(units) && Reunit(g, i.units, GetMeta(m, i.raw, x), None) == units
      && Fits(Remaining(i)) && Fits(t.blockTime + Remaining(i) / units)
  {
    RecordOf(g, m, t.blockTime, s);
    StoredBound(g, m, GetInfo(m, s).value.raw, x);
    hide Inv, ExpiryUnits, StoredUnits;
  }

  lemma DeleteChangesRecord(g: Genesis, m: Db, t: TxContext, s: Name, x: Name)
    requires Inv(g, m, t.blockTime) && t.blockTime >= 1
    requires ActionFits(g, m, t, Delete(s, x)) && ExecDelete(g, m, t, s, x).Ok?
    ensures var m', i := ExecDelete(g, m, t, s, x).value, GetInfo(m, s).value;
      && GetInfo(m, s).Some? && GetInfo(m', s).Some? && GetMeta(m, i.raw, x).Some?
      && GetInfo(m', s).value.units == i.units - ExpiryUnits(g, GetMeta(m, i.raw, x).value.size)
      && GetInfo(m', s).value.raw == i.raw && GetInfo(m', s).value.owner == i.owner
      && Remaining(GetInfo(m', s).value) <= Remaining(i)
      && ValueKey(i.raw, x) !in m' && SameValuesBut(m, m', i.raw, x) && SameRecordsBut(m, m', s)
  {
    hide Inv, ExpiryUnits, UpdateSpace, ExecDelete, Remaining, TimeRemaining, W, GetMeta;
    DeleteSteps(g, m, t, s, x);
    RecordOf(g, m, t.blockTime, s);
    var i := GetInfo(m, s).value;
    DeleteFits(g, m, t, s, x);
    UpdateReads(m - {ValueKey(i.raw, x)}, s, t, i, i.units - ExpiryUnits(g, GetMeta(m, i.raw, x).value.size));
  }

  /** Moving a space away and back restores the store exactly. */
  lemma MoveBackUndoes(g: Genesis, m: Db, t: TxContext, t': TxContext, s: Name)
    requires Inv(g, m, t.blockTime) && ExecMove(m, t, s, t'.sender).Ok?
    requires ExecMove(ExecMove(m, t, s, t'.sender).value, t', s, t.sender).Ok?
    ensures ExecMove(ExecMove(m, t, s, t'.sender).value, t', s, t.sender).value == m
  {
    hide CheckContents;
  }

  /** Transferring back the same amount restores every balance. */
  lemma TransferBackUndoes(m: Db, t: TxContext, t': TxContext, units: uint64)
    requires ExecTransfer(m, t, t'.sender, units).Ok?
    ensures ExecTransfer(ExecTransfer(m, t, t'.sender, units).value, t', t.sender, units).Ok? ==>
      forall a: Address ::
        GetBalance(ExecTransfer(ExecTransfer(m, t, t'.sender, units).value, t', t.sender, units).value, a)
          == GetBalance(m, a)
  {
  }
}

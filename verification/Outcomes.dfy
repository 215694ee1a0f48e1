/** When each transaction succeeds, which error refuses it otherwise, and the whole store it leaves behind
    (claim_tx.go, lifeline_tx.go, set_tx.go, delete_tx.go, move_tx.go, transfer_tx.go, tx.go). */
module Outcomes {
  import opened Types
  import opened Bytes
  import opened Keys
  import opened Store
  import opened Spaces
  import opened Preservation
  import opened Budget
  import opened Conservation
  import opened Fees
  import opened Lottery
  import opened Effects

  /** Nothing else has changed. */
  ghost predicate OnlyTouched(m: Db, m': Db, keys: set<Key>) {
    forall k :: k !in keys ==> (k in m' <==> k in m) && (k in m ==> m'[k] == m[k])
  }

  // ---------- Names ----------

  predicate LetterOrDigit(c: char) {
    'a' <= c <= 'z' || '0' <= c <= '9'
  }

  /** A name is proper exactly if it is made of small letters and digits, at most 256 of them. */
  lemma NamesAreProper(s: Name)
    ensures CheckContents(s) <==> 1 <= |s| <= 256 && forall i :: 0 <= i < |s| ==> LetterOrDigit(s[i] as char)
  {
  }

  // ---------- Claim ----------

  /** The time a claim lasts, times the units of a new space, is the claim reward, rounded down. */
  ghost predicate LastsForClaim(g: Genesis, seconds: int) {
    seconds * g.claimExpiryUnits <= g.claimReward < seconds * g.claimExpiryUnits + g.claimExpiryUnits
  }

  lemma LastsFor(g: Genesis)
    ensures LastsForClaim(g, g.claimReward / g.claimExpiryUnits)
  {
    DivMul(g.claimReward, g.claimExpiryUnits);
  }

  /** Somebody may claim a space of a proper name that nobody has, but a name of the length of an address
      only if it is the sender's own. */
  lemma ClaimExact(g: Genesis, m: Db, t: TxContext, s: Name)
    requires Inv(g, m, t.blockTime) && ActionFits(g, m, t, Claim(s))
    ensures ExecClaim(g, m, t, s).Ok? <==>
      CheckContents(s) && (|s| == 42 ==> s == LowerHex(t.sender)) && InfoKey(s) !in m
    ensures !CheckContents(s) ==> ExecClaim(g, m, t, s) == Err(ErrInvalidContents)
    ensures CheckContents(s) && |s| == 42 && s != LowerHex(t.sender) ==>
      ExecClaim(g, m, t, s) == Err(ErrAddressMismatch)
    ensures CheckContents(s) && (|s| == 42 ==> s == LowerHex(t.sender)) && InfoKey(s) in m ==>
      ExecClaim(g, m, t, s) == Err(ErrSpaceNotExpired)
    ensures ExecClaim(g, m, t, s).Ok? ==>
      var m', now, r := ExecClaim(g, m, t, s).value, t.blockTime, RawOf(s, t.blockTime);
      && GetInfo(m', s).Some?
      && var expiry := GetInfo(m', s).value.expiry;
        && GetInfo(m', s) == Some(SpaceInfo(t.sender, now, now, expiry, g.claimExpiryUnits, r))
        && LastsForClaim(g, expiry - now)
        && OwnedKey(t.sender, s) in m' && m'.Keys >= {ExpiryKey(expiry, r)}
        && m'[ExpiryKey(expiry, r)] == ExpiryVal(t.sender, s)
        && OnlyTouched(m, m', {InfoKey(s), OwnedKey(t.sender, s), ExpiryKey(expiry, r)})
  {
    hide UnitsExact, CheckContents, LowerHex, LastsForClaim;
    LastsFor(g);
  }

  lemma {:induction false} HexDigitsTell(a: seq<byte>, b: seq<byte>)
    requires |a| == |b| && HexDigits(a) == HexDigits(b)
    ensures a == b
  {
    if |a| > 0 {
      var x, y := HexDigits(a), HexDigits(b);
      assert x[0] == y[0] && x[1] == y[1];
      assert x[2..] == HexDigits(a[1..]) && y[2..] == HexDigits(b[1..]);
      HexDigitsTell(a[1..], b[1..]);
      DigitsTell(a[0], b[0]);
      assert a == [a[0]] + a[1..] && b == [b[0]] + b[1..];
    }
  }

  lemma DigitsTell(a: byte, b: byte)
    requires HexDigits([a])[0] == HexDigits([b])[0] && HexDigits([a])[1] == HexDigits([b])[1]
    ensures a == b
  {
  }

  /** The name that is an address can be claimed by that address, and by no other. */
  lemma AddressNames(a: Address, b: Address)
    ensures |LowerHex(a)| == 42 && CheckContents(LowerHex(a))
    ensures LowerHex(a) == LowerHex(b) ==> a == b
  {
    HexDigitsAre(a);
    if LowerHex(a) == LowerHex(b) {
      assert HexDigits(a) == LowerHex(a)[2..] && HexDigits(b) == LowerHex(b)[2..];
      HexDigitsTell(a, b);
    }
  }

  lemma {:induction false} HexDigitsAre(a: seq<byte>)
    ensures |HexDigits(a)| == 2 * |a|
    ensures forall i :: 0 <= i < |HexDigits(a)| ==> 97 <= HexDigits(a)[i] <= 102 || 48 <= HexDigits(a)[i] <= 57
  {
    if |a| > 0 {
      HexDigitsAre(a[1..]);
    }
  }

  // ---------- Lifeline ----------

  /** Anybody may buy time for a live space. The budget grows by the claim reward for every unit bought,
      less what is lost to spreading it over the units of the space, which is less than one second. */
  lemma LifelineExact(g: Genesis, m: Db, t: TxContext, s: Name, units: uint64)
    requires Inv(g, m, t.blockTime) && ActionFits(g, m, t, Lifeline(s, units))
    ensures ExecLifeline(g, m, s, units).Ok? <==> units > 0 && CheckContents(s) && InfoKey(s) in m
    ensures units == 0 ==> ExecLifeline(g, m, s, units) == Err(ErrNonActionable)
    ensures units > 0 && !CheckContents(s) ==> ExecLifeline(g, m, s, units) == Err(ErrInvalidContents)
    ensures units > 0 && CheckContents(s) && InfoKey(s) !in m ==> ExecLifeline(g, m, s, units) == Err(ErrSpaceMissing)
    ensures ExecLifeline(g, m, s, units).Ok? ==>
      var m', i := ExecLifeline(g, m, s, units).value, m[InfoKey(s)].info;
      && GetInfo(m', s).Some?
      && var i' := GetInfo(m', s).value;
        && i' == i.(expiry := i'.expiry)
        && Remaining(i) + Times(g.claimReward, units) - i.units < Remaining(i')
           <= Remaining(i) + Times(g.claimReward, units)
        && Requeued(m, m', s, i, i', {})
  {
    hide UnitsExact, CheckContents, Remaining, Times;
    if InfoKey(s) in m {
      RecordOf(g, m, t.blockTime, s);
      var i := m[InfoKey(s)].info;
      UnitsArePositive(g, m, t.blockTime, s);
      LifelineBuys(g, i, units);
    }
  }

  lemma UnitsArePositive(g: Genesis, m: Db, now: uint64, s: Name)
    requires Inv(g, m, now) && InfoKey(s) in m
    ensures m[InfoKey(s)].info.units >= g.claimExpiryUnits > 0
  {
    RecordOf(g, m, now, s);
  }

  lemma LifelineBuys(g: Genesis, i: SpaceInfo, units: uint64)
    requires i.updated <= i.expiry && i.units > 0
    requires Fits(g.claimReward * units) && Fits(i.expiry + g.claimReward * units / i.units)
    ensures var i' := i.(expiry := W(i.expiry + W(g.claimReward * units) / i.units));
      Remaining(i) + Times(g.claimReward, units) - i.units < Remaining(i') <= Remaining(i) + Times(g.claimReward, units)
  {
    DivMul(g.claimReward * units, i.units);
    Budget.Distribute(i.expiry - i.updated, g.claimReward * units / i.units, i.units);
  }

  /** The record of the space and its queue entry have moved on from i to i', and otherwise nothing has
      changed but the given keys. */
  ghost predicate Requeued(m: Db, m': Db, s: Name, i: SpaceInfo, i': SpaceInfo, others: set<Key>) {
    && OnlyTouched(m, m', {InfoKey(s), ExpiryKey(i.expiry, i.raw), ExpiryKey(i'.expiry, i.raw)} + others)
    && InfoKey(s) in m' && m'[InfoKey(s)] == InfoVal(i')
    && ExpiryKey(i'.expiry, i.raw) in m' && m'[ExpiryKey(i'.expiry, i.raw)] == ExpiryVal(i.owner, s)
    && (i'.expiry != i.expiry ==> ExpiryKey(i.expiry, i.raw) !in m')
  }

  // ---------- Set and Delete ----------

  /** The budget is carried over to the new units, less what is lost to truncation. */
  ghost predicate CarriedOver(i: SpaceInfo, i': SpaceInfo, now: uint64, units: int) {
    && i' == i.(units := i'.units, updated := now, expiry := i'.expiry) && i'.units == units
    && Remaining(i) - units < Remaining(i') <= Remaining(i)
  }

  lemma UpdateExact(m: Db, s: Name, t: TxContext, i: SpaceInfo, units: uint64)
    requires units > 0 && i.raw.RawOf? && i.updated <= i.expiry && 0 < i.expiry
    requires Fits(Remaining(i)) && Fits(t.blockTime + Remaining(i) / units)
    ensures var r := UpdateSpace(m, s, t, TimeRemaining(i), i.(units := units));
      && r.Ok? && GetInfo(r.value, s).Some?
      && var i' := GetInfo(r.value, s).value;
        CarriedOver(i, i', t.blockTime, units) && Requeued(m, r.value, s, i, i', {})
  {
    UpdateCarriesBudget(t, i, units);
    hide W, TimeRemaining, Remaining;
  }

  ghost predicate SetAllowed(h: Hashes, g: Genesis, m: Db, t: TxContext, s: Name, x: Name, value: seq<byte>) {
    && CheckContents(s) && CheckContents(x) && 0 < |value| <= g.maxValueSize
    && OwnedKey(t.sender, s) in m && (|x| == 66 ==> x == h.valueHash(value))
  }

  /** The owner, and nobody else, may set a value of at most the greatest size; a key of the length of a
      hash must be that of the value. */
  lemma SetExact(h: Hashes, g: Genesis, m: Db, t: TxContext, s: Name, x: Name, value: seq<byte>)
    requires Inv(g, m, t.blockTime) && t.blockTime >= 1 && ActionFits(g, m, t, Set(s, x, value))
    ensures ExecSet(h, g, m, t, s, x, value).Ok? <==> SetAllowed(h, g, m, t, s, x, value)
    ensures SetAllowed(h, g, m, t, s, x, value) ==> InfoKey(s) in m
    ensures ExecSet(h, g, m, t, s, x, value).Ok? ==>
      var m', i := ExecSet(h, g, m, t, s, x, value).value, m[InfoKey(s)].info;
      && GetInfo(m', s).Some?
      && var i' := GetInfo(m', s).value;
        && CarriedOver(i, i', t.blockTime, i.units - UnitsAt(g, m, i.raw, x) + ExpiryUnits(g, |value|))
        && Requeued(m, m', s, i, i', {ValueKey(i.raw, x)})
        && GetMeta(m', i.raw, x) == Some(SetMeta(m, t, i, x, |value|))
  {
    hide Inv, CheckContents, UpdateSpace, TimeRemaining, Reunit, SetMeta, ExpiryUnits, GetMeta, Remaining, UnitsAt,
      CarriedOver, SpaceFits;
    OwnerAlone(g, m, t, s);
    if OwnedKey(t.sender, s) in m {
      RecordOf(g, m, t.blockTime, s);
      var i := m[InfoKey(s)].info;
      SetUpdates(g, m, t, s, x, value);
      SetStored(m, t, s, i, x, |value|, Reunit(g, i.units, GetMeta(m, i.raw, x), Some(|value|)));
    }
  }

  lemma SetUpdates(g: Genesis, m: Db, t: TxContext, s: Name, x: Name, value: seq<byte>)
    requires Inv(g, m, t.blockTime) && t.blockTime >= 1 && ActionFits(g, m, t, Set(s, x, value)) && InfoKey(s) in m
    ensures var i := m[InfoKey(s)].info;
      var units := Reunit(g, i.units, GetMeta(m, i.raw, x), Some(|value|));
      && units == i.units - UnitsAt(g, m, i.raw, x) + ExpiryUnits(g, |value|)
      && units > 0 && i.raw.RawOf? && i.updated <= i.expiry && 0 < i.expiry
      && Fits(Remaining(i)) && Fits(t.blockTime + Remaining(i) / units)
  {
    RecordOf(g, m, t.blockTime, s);
    var i := m[InfoKey(s)].info;
    if GetMeta(m, i.raw, x).Some? {
      StoredBound(g, m, i.raw, x);
    }
    hide Inv, ExpiryUnits, StoredUnits;
  }

  lemma SetStored(m: Db, t: TxContext, s: Name, i: SpaceInfo, x: Name, size: uint64, units: uint64)
    requires units > 0 && i.raw.RawOf? && i.updated <= i.expiry && 0 < i.expiry
    requires Fits(Remaining(i)) && Fits(t.blockTime + Remaining(i) / units)
    ensures var m1 := m[ValueKey(i.raw, x) := MetaVal(SetMeta(m, t, i, x, size))];
      var r := UpdateSpace(m1, s, t, TimeRemaining(i), i.(units := units));
      && r.Ok? && GetInfo(r.value, s).Some?
      && var i' := GetInfo(r.value, s).value;
        && CarriedOver(i, i', t.blockTime, units) && Requeued(m, r.value, s, i, i', {ValueKey(i.raw, x)})
        && GetMeta(r.value, i.raw, x) == Some(SetMeta(m, t, i, x, size))
  {
    var m1 := m[ValueKey(i.raw, x) := MetaVal(SetMeta(m, t, i, x, size))];
    UpdateExact(m1, s, t, i, units);
    hide UpdateSpace, TimeRemaining, CarriedOver, SetMeta, Remaining;
  }

  /** Which check refuses a set. */
  lemma SetErrors(h: Hashes, g: Genesis, m: Db, t: TxContext, s: Name, x: Name, value: seq<byte>)
    requires Inv(g, m, t.blockTime) && t.blockTime >= 1 && ActionFits(g, m, t, Set(s, x, value))
    ensures var r := ExecSet(h, g, m, t, s, x, value);
      && (!CheckContents(s) || !CheckContents(x) ==> r == Err(ErrInvalidContents))
      && (CheckContents(s) && CheckContents(x) && value == [] ==> r == Err(ErrValueEmpty))
      && (CheckContents(s) && CheckContents(x) && |value| > g.maxValueSize ==> r == Err(ErrValueTooBig))
      && (CheckContents(s) && CheckContents(x) && 0 < |value| <= g.maxValueSize ==>
        && (InfoKey(s) !in m ==> r == Err(ErrSpaceMissing))
        && (InfoKey(s) in m && OwnedKey(t.sender, s) !in m ==> r == Err(ErrUnauthorized))
        && (OwnedKey(t.sender, s) in m && |x| == 66 && x != h.valueHash(value) ==> r == Err(ErrInvalidKey)))
  {
    hide Inv, CheckContents, UpdateSpace, SetMeta, TimeRemaining, Reunit, VerifySpace;
    OwnerAlone(g, m, t, s);
  }

  ghost predicate DeleteAllowed(m: Db, t: TxContext, s: Name, x: Name)
    requires Typed(m)
  {
    && CheckContents(s) && CheckContents(x) && OwnedKey(t.sender, s) in m
    && InfoKey(s) in m && ValueKey(m[InfoKey(s)].info.raw, x) in m
  }

  /** The owner, and nobody else, may delete a value that is there. */
  lemma DeleteExact(g: Genesis, m: Db, t: TxContext, s: Name, x: Name)
    requires Inv(g, m, t.blockTime) && t.blockTime >= 1 && ActionFits(g, m, t, Delete(s, x))
    ensures ExecDelete(g, m, t, s, x).Ok? <==> DeleteAllowed(m, t, s, x)
    ensures ExecDelete(g, m, t, s, x).Ok? ==>
      var m', i := ExecDelete(g, m, t, s, x).value, m[InfoKey(s)].info;
      && GetInfo(m', s).Some?
      && var i' := GetInfo(m', s).value;
        && CarriedOver(i, i', t.blockTime, i.units - UnitsAt(g, m, i.raw, x))
        && Requeued(m, m', s, i, i', {ValueKey(i.raw, x)})
        && ValueKey(i.raw, x) !in m'
  {
    hide CheckContents, UpdateSpace, TimeRemaining, Reunit, ExpiryUnits, GetMeta, Remaining, CarriedOver, SpaceFits,
      UnitsAt, ActionFits, VerifySpace;
    OwnerAlone(g, m, t, s);
    if InfoKey(s) in m {
      RecordOf(g, m, t.blockTime, s);
      ValueIsMeta(m, m[InfoKey(s)].info.raw, x);
    }
    hide Inv;
    if DeleteAllowed(m, t, s, x) {
      var i := m[InfoKey(s)].info;
      DeleteFits(g, m, t, s, x);
      DeleteUnits(g, m, i.raw, x);
      DeleteStored(m, t, s, i, x, Reunit(g, i.units, GetMeta(m, i.raw, x), None));
    }
  }

  lemma ValueIsMeta(m: Db, raw: RawID, x: Name)
    requires Typed(m)
    ensures GetMeta(m, raw, x).Some? <==> ValueKey(raw, x) in m
  {
  }

  lemma DeleteUnits(g: Genesis, m: Db, raw: RawID, x: Name)
    requires GetMeta(m, raw, x).Some?
    ensures UnitsAt(g, m, raw, x) == ExpiryUnits(g, GetMeta(m, raw, x).value.size)
  {
  }

  lemma DeleteStored(m: Db, t: TxContext, s: Name, i: SpaceInfo, x: Name, units: uint64)
    requires units > 0 && i.raw.RawOf? && i.updated <= i.expiry && 0 < i.expiry
    requires Fits(Remaining(i)) && Fits(t.blockTime + Remaining(i) / units)
    ensures var r := UpdateSpace(m - {ValueKey(i.raw, x)}, s, t, TimeRemaining(i), i.(units := units));
      && r.Ok? && GetInfo(r.value, s).Some?
      && var i' := GetInfo(r.value, s).value;
        && CarriedOver(i, i', t.blockTime, units) && Requeued(m, r.value, s, i, i', {ValueKey(i.raw, x)})
        && ValueKey(i.raw, x) !in r.value
  {
    UpdateExact(m - {ValueKey(i.raw, x)}, s, t, i, units);
    hide UpdateSpace, TimeRemaining, CarriedOver, Remaining;
  }

  /** Which check refuses a delete. */
  lemma DeleteErrors(g: Genesis, m: Db, t: TxContext, s: Name, x: Name)
    requires Inv(g, m, t.blockTime)
    ensures var r := ExecDelete(g, m, t, s, x);
      && (!CheckContents(s) || !CheckContents(x) ==> r == Err(ErrInvalidContents))
      && (CheckContents(s) && CheckContents(x) ==>
        && (InfoKey(s) !in m ==> r == Err(ErrSpaceMissing))
        && (InfoKey(s) in m && OwnedKey(t.sender, s) !in m ==> r == Err(ErrUnauthorized))
        && (OwnedKey(t.sender, s) in m && InfoKey(s) in m && ValueKey(m[InfoKey(s)].info.raw, x) !in m ==>
          r == Err(ErrKeyMissing)))
  {
    hide CheckContents, UpdateSpace, TimeRemaining, Reunit, VerifySpace;
    OwnerAlone(g, m, t, s);
    if InfoKey(s) in m {
      RecordOf(g, m, t.blockTime, s);
      ValueIsMeta(m, m[InfoKey(s)].info.raw, x);
    }
    hide Inv;
  }

  // ---------- Move ----------

  /** The owner may give the space to anybody else but the zero address. The record, the owned sets and
      the queue entry name the new owner, and nothing else changes. */
  lemma MoveExact(g: Genesis, m: Db, t: TxContext, s: Name, to: Address)
    requires Inv(g, m, t.blockTime)
    ensures ExecMove(m, t, s, to).Ok? <==>
      CheckContents(s) && OwnedKey(t.sender, s) in m && to != ZERO_ADDRESS && to != t.sender
    ensures ExecMove(m, t, s, to).Ok? ==>
      && InfoKey(s) in m
      && var m', i := ExecMove(m, t, s, to).value, m[InfoKey(s)].info;
        && GetInfo(m', s) == Some(i.(owner := to))
        && OwnedKey(to, s) in m' && OwnedKey(t.sender, s) !in m'
        && ExpiryKey(i.expiry, i.raw) in m' && m'[ExpiryKey(i.expiry, i.raw)] == ExpiryVal(to, s)
        && OnlyTouched(m, m', {InfoKey(s), OwnedKey(to, s), OwnedKey(t.sender, s), ExpiryKey(i.expiry, i.raw)})
    ensures !CheckContents(s) ==> ExecMove(m, t, s, to) == Err(ErrInvalidContents)
    ensures CheckContents(s) && (to == ZERO_ADDRESS || to == t.sender) ==>
      ExecMove(m, t, s, to) == Err(ErrNonActionable)
    ensures CheckContents(s) && to != ZERO_ADDRESS && to != t.sender ==>
      && (InfoKey(s) !in m ==> ExecMove(m, t, s, to) == Err(ErrSpaceMissing))
      && (InfoKey(s) in m && OwnedKey(t.sender, s) !in m ==> ExecMove(m, t, s, to) == Err(ErrUnauthorized))
  {
    hide CheckContents, VerifySpace;
    OwnerAlone(g, m, t, s);
    if InfoKey(s) in m {
      RecordOf(g, m, t.blockTime, s);
    }
    hide Inv;
  }

  // ---------- Transfer ----------

  /** Whoever has the money may send it to anybody else but the zero address. */
  lemma TransferExact(m: Db, t: TxContext, to: Address, units: uint64)
    ensures ExecTransfer(m, t, to, units).Ok? <==>
      && to != ZERO_ADDRESS && to != t.sender && 0 < units <= GetBalance(m, t.sender)
      && GetBalance(m, to) + units < TWO64
    ensures ExecTransfer(m, t, to, units).Ok? ==> var m' := ExecTransfer(m, t, to, units).value;
      && GetBalance(m', t.sender) == GetBalance(m, t.sender) - units
      && GetBalance(m', to) == GetBalance(m, to) + units
      && OnlyTouched(m, m', {BalanceKey(t.sender), BalanceKey(to)})
    ensures to == ZERO_ADDRESS || to == t.sender || units == 0 ==>
      ExecTransfer(m, t, to, units) == Err(ErrNonActionable)
    ensures to != ZERO_ADDRESS && to != t.sender && units > 0 && ExecTransfer(m, t, to, units).Err? ==>
      ExecTransfer(m, t, to, units) == Err(ErrInvalidBalance)
  {
  }

  // ---------- Charging a transaction ----------

  function FeeOf(g: Genesis, tx: Tx): int {
    FeeUnits(g, tx.action) * tx.price
  }

  function Debited(m: Db, a: Address, amount: nat): Db
    requires amount <= GetBalance(m, a)
  {
    m[BalanceKey(a) := BalanceVal(GetBalance(m, a) - amount)]
  }

  function ActionRun(h: Hashes, g: Genesis, m: Db, b: Block, tx: Tx): Result<Db>
    requires 0 <= FeeOf(g, tx) <= GetBalance(m, tx.sender)
  {
    ExecAction(h, g, Debited(m, tx.sender, FeeOf(g, tx)), TxContext(W(b.tmstmp), tx.ID(), tx.sender), tx.action)
  }

  /** The transaction is of this network, names a recent block, is not a recent one, and pays enough. */
  predicate Admitted(g: Genesis, c: Context, tx: Tx) {
    && tx.blockID != EmptyBlockID && tx.magic == g.magic && tx.price >= g.minPrice && tx.price >= c.nextPrice
    && tx.blockID in c.recentBlockIDs && tx.ID() !in c.recentTxIDs
  }

  /** A transaction succeeds up to the lottery exactly if it is admitted, its sender has the fee, and its
      action succeeds once the fee is paid. It leaves what the action leaves, and is recorded. */
  lemma ChargeExact(h: Hashes, g: Genesis, m: Db, b: Block, c: Context, tx: Tx)
    requires Fits(FeeOf(g, tx))
    ensures ExecCharge(h, g, m, b, c, tx).Ok? <==>
      Admitted(g, c, tx) && FeeOf(g, tx) <= GetBalance(m, tx.sender) && ActionRun(h, g, m, b, tx).Ok?
    ensures ExecCharge(h, g, m, b, c, tx).Ok? ==>
      var m', m1 := ExecCharge(h, g, m, b, c, tx).value, ActionRun(h, g, m, b, tx).value;
      TxKey(tx.ID()) in m' && OnlyTouched(m1, m', {TxKey(tx.ID())})
  {
    hide ExecAction, FeeUnits;
    FeeIsExact(g, tx);
    hide FeeOf, Fee;
  }

  /** Which check refuses it. */
  lemma ChargeErrors(h: Hashes, g: Genesis, m: Db, b: Block, c: Context, tx: Tx)
    requires Fits(FeeOf(g, tx))
    ensures var r := ExecCharge(h, g, m, b, c, tx);
      if tx.blockID == EmptyBlockID then r == Err(ErrInvalidBlockID)
      else if tx.magic != g.magic then r == Err(ErrInvalidMagic)
      else if tx.price < g.minPrice then r == Err(ErrInvalidPrice)
      else if tx.blockID !in c.recentBlockIDs then r == Err(ErrInvalidBlockID)
      else if tx.ID() in c.recentTxIDs then r == Err(ErrDuplicateTx)
      else if FeeOf(g, tx) > GetBalance(m, tx.sender) then r == Err(ErrInvalidBalance)
      else if tx.price < c.nextPrice then r == Err(ErrInsufficientPrice)
      else ActionRun(h, g, m, b, tx).Err? ==> r == ActionRun(h, g, m, b, tx)
  {
    hide ExecAction, FeeUnits;
    FeeIsExact(g, tx);
    hide FeeOf, Fee;
  }

  // ---------- The reward ----------

  function RewardOf(g: Genesis, b: Block, tx: Tx): int {
    FeeUnits(g, tx.action) * b.price * g.lotteryRewardMultiplier / 100
  }

  /** The winner is paid, unless it is the sender. */
  ghost predicate WinnerPaid(m: Db, r: Result<Db>, winner: Address, sender: Address, reward: int) {
    if winner == sender then r == Ok(m)
    else if GetBalance(m, winner) + reward >= TWO64 then r == Err(ErrInvalidBalance)
    else
      && r.Ok? && OnlyTouched(m, r.value, {BalanceKey(winner)})
      && GetBalance(r.value, winner) == GetBalance(m, winner) + reward
  }

  ghost predicate OwnerPaid(m: Db, r: Result<Db>, s: Name, sender: Address, reward: int) {
    GetInfo(m, s).Some? && WinnerPaid(m, r, GetInfo(m, s).value.owner, sender, reward)
  }

  /** What comes of a transaction once it is charged: with a parent and a reward to win, the owner of the
      first space at or after the place drawn is paid; without such a space nobody is, and it fails exactly
      if the key that follows contains the bytes of the record prefix. */
  lemma TxExact(h: Hashes, g: Genesis, m: Db, b: Block, bid: BlockID, c: Context, tx: Tx)
    requires Typed(m) && Fits(FeeUnits(g, tx.action) * b.price * g.lotteryRewardMultiplier)
    ensures var r, charge := ExecTx(h, g, m, b, bid, c, tx), ExecCharge(h, g, m, b, c, tx);
      if charge.Err? || b.prnt == EmptyBlockID || RewardOf(g, b, tx) == 0 then r == charge
      else
        var m1, seed := charge.value, h.lottery(bid, tx.ID());
        var next := FirstFrom(h, m1, Head(3) + seed);
        if RecordAhead(h, m1, seed)
        then exists s :: FirstRecord(h, m1, seed, s) && OwnerPaid(m1, r, s, tx.sender, RewardOf(g, b, tx))
        else r == if next.Some? && Contains(Encode(h, next.value), Head(3)) then Err(ErrCodec) else charge
  {
    hide ExecCharge, FeeUnits, DrawFrom, Contains, Less, Encode, RecordAhead, FirstRecord, Typed, FirstFrom;
    RewardAmountIs(g, b, tx);
    var charge := ExecCharge(h, g, m, b, c, tx);
    if charge.Ok? {
      ChargeSupply(h, g, m, b, c, tx);
      DrawExact(h, charge.value, h.lottery(bid, tx.ID()));
    }
  }

  lemma RewardAmountIs(g: Genesis, b: Block, tx: Tx)
    requires Fits(FeeUnits(g, tx.action) * b.price * g.lotteryRewardMultiplier)
    ensures RewardAmount(g, b, tx) == RewardOf(g, b, tx)
  {
    hide FeeUnits;
    WrapTwice(FeeUnits(g, tx.action) * b.price, g.lotteryRewardMultiplier);
  }
}

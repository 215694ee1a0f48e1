/** What the storage operations and the six transactions do to the store, as functions of the
    store's contents (storage.go, common_tx.go, *_tx.go, tx.go). The methods that carry them out
    on a layered database are in modules Storage and Execution. */
module Store {
  import opened Types
  import opened Bytes
  import opened Keys

  // ---------- Readers ----------

  function GetInfo(m: Db, s: Name): Option<SpaceInfo> {
    if InfoKey(s) in m && m[InfoKey(s)].InfoVal? then Some(m[InfoKey(s)].info) else None
  }

  function GetMeta(m: Db, raw: RawID, key: Name): Option<ValueMeta> {
    if ValueKey(raw, key) in m && m[ValueKey(raw, key)].MetaVal? then Some(m[ValueKey(raw, key)].meta) else None
  }

  function GetBalance(m: Db, a: Address): uint64 {
    if BalanceKey(a) in m && m[BalanceKey(a)].BalanceVal? then m[BalanceKey(a)].bal else 0
  }

  /** The raw space is the current incarnation of its name. */
  predicate Live(m: Db, r: RawID) {
    r.RawOf? && GetInfo(m, r.space).Some? && GetInfo(m, r.space).value.raw == r
  }

  // ---------- Writers ----------

  function PutSpaceInfo(m: Db, s: Name, i: SpaceInfo, lastExpiry: uint64): Db {
    var isNew := i.raw.EmptyRaw?;
    var i' := if isNew then i.(raw := RawOf(s, i.created)) else i;
    var m1 := if isNew then m[OwnedKey(i'.owner, s) := NilVal] else m;
    var m2 := if lastExpiry > 0 then m1 - {ExpiryKey(lastExpiry, i'.raw)} else m1;
    m2[ExpiryKey(i'.expiry, i'.raw) := ExpiryVal(i'.owner, s)][InfoKey(s) := InfoVal(i')]
  }

  function MoveSpaceInfo(m: Db, oldOwner: Address, s: Name, i: SpaceInfo): Db {
    (m[InfoKey(s) := InfoVal(i)] - {OwnedKey(oldOwner, s)})
    [OwnedKey(i.owner, s) := NilVal][ExpiryKey(i.expiry, i.raw) := ExpiryVal(i.owner, s)]
  }

  function ModifyBalance(m: Db, a: Address, add: bool, change: uint64): Result<Db> {
    var n := if add then GetBalance(m, a) + change else GetBalance(m, a) - change;
    if Fits(n) then Ok(m[BalanceKey(a) := BalanceVal(n)]) else Err(ErrInvalidBalance)
  }

  /** The store without the spaces in `gone`: their records, ownership entries and queue entries
      are dropped; their values are queued for pruning or, before bootstrapping ends, dropped. */
  function Without(m: Db, gone: set<Name>, bootstrapped: bool): Db {
    map k | k in m.Keys + (if bootstrapped then Queued(m, gone) else {}) && !Drops(m, gone, bootstrapped, k)
      :: if k in m then m[k] else NilVal
  }

  function Queued(m: Db, gone: set<Name>): set<Key> {
    set k | k in m && k.ExpiryKey? && k.raw.RawOf? && k.raw.space in gone :: PruningKey(k.ts, k.raw)
  }

  predicate Drops(m: Db, gone: set<Name>, bootstrapped: bool, k: Key) {
    match k
    case InfoKey(s) => s in gone
    case OwnedKey(_, s) => s in gone
    case ExpiryKey(_, r) => r.RawOf? && r.space in gone
    case ValueKey(r, _) => !bootstrapped && r.RawOf? && r.space in gone && Live(m, r)
    case _ => false
  }

  function ExpiredAt(m: Db, now: uint64): set<Name> {
    set k | k in m && k.InfoKey? && GetInfo(m, k.space).Some? && GetInfo(m, k.space).value.expiry < now :: k.space
  }

  /** ExpireNext up to `now`. */
  function Expire(m: Db, now: uint64, bootstrapped: bool): Db {
    Without(m, ExpiredAt(m, now), bootstrapped)
  }

  /** The store after the pruning-queue entries in `done` have been worked off. */
  function Pruned(m: Db, done: set<Key>): Db {
    m - PrunedKeys(m, done)
  }

  function PrunedKeys(m: Db, done: set<Key>): set<Key> {
    set k | k in m && (k in done || (k.ValueKey? && k.raw in RawsOf(done)))
  }

  function RawsOf(done: set<Key>): set<RawID> {
    set k | k in done && k.PruningKey? :: k.raw
  }

  // ---------- The lottery ----------

  datatype Draw = NoSpace | Foreign | Winner(info: SpaceInfo)

  /** Where the cursor of ApplyReward stops. The test for "still among the space records" is
      whether the key contains the two bytes of the record prefix anywhere, so a key of another
      family can pass it; parsing its value then fails. */
  ghost function DrawFrom(h: Hashes, m: Db, seed: seq<byte>): Draw {
    match FirstFrom(h, m, Head(3) + seed)
    case None => NoSpace
    case Some(k) =>
      if !Contains(Encode(h, k), Head(3)) then NoSpace
      else if m[k].InfoVal? then Winner(m[k].info)
      else Foreign
  }

  ghost function ApplyReward(h: Hashes, m: Db, bid: BlockID, tid: TxID, sender: Address, reward: uint64): Result<Db> {
    match DrawFrom(h, m, h.lottery(bid, tid))
    case NoSpace => Ok(m)
    case Foreign => Err(ErrCodec)
    case Winner(i) => if i.owner == sender then Ok(m) else ModifyBalance(m, i.owner, true, reward)
  }

  // ---------- Units ----------

  function ValueUnits(g: Genesis, size: uint64): uint64 {
    W(size / g.valueUnitSize + 1)
  }

  /** What one stored value adds to its space's units. */
  function ExpiryUnits(g: Genesis, size: uint64): uint64 {
    ValueUnits(g, size) / g.valueExpiryDiscount
  }

  function SpaceNameUnits(g: Genesis, s: Name): uint64 {
    var d := W(W(MAX_IDENTIFIER_SIZE - |s|) * g.spaceDesirabilityMultiplier);
    if d < g.minClaimFee then g.minClaimFee else d
  }

  function LoadUnits(g: Genesis, a: Action): uint64 {
    match a
    case Claim(_) => W(g.baseTxUnits * g.claimLoadMultiplier)
    case Lifeline(_, _) => W(g.baseTxUnits * g.claimLoadMultiplier)
    case Set(_, _, value) => W(g.baseTxUnits + ValueUnits(g, W(|value|)))
    case _ => g.baseTxUnits
  }

  function FeeUnits(g: Genesis, a: Action): uint64 {
    match a
    case Claim(s) => W(LoadUnits(g, a) + SpaceNameUnits(g, s))
    case Lifeline(s, units) => W(LoadUnits(g, a) + W(SpaceNameUnits(g, s) / g.spaceRenewalDiscount * units))
    case _ => LoadUnits(g, a)
  }

  // ---------- The six transactions ----------

  datatype TxContext = TxContext(blockTime: uint64, txID: TxID, sender: Address)

  function VerifySpace(m: Db, s: Name, t: TxContext): Result<SpaceInfo> {
    match GetInfo(m, s)
    case None => Err(ErrSpaceMissing)
    case Some(i) =>
      if i.owner != t.sender then Err(ErrUnauthorized)
      else if i.expiry < t.blockTime then Err(ErrSpaceExpired)
      else Ok(i)
  }

  function TimeRemaining(i: SpaceInfo): uint64 {
    W(W(i.expiry - i.updated) * i.units)
  }

  function UpdateSpace(m: Db, s: Name, t: TxContext, timeRemaining: uint64, i: SpaceInfo): Result<Db> {
    if i.units == 0 then Err(ErrDivideByZero)
    else
      var newExpiry := W(t.blockTime + timeRemaining / i.units);
      Ok(PutSpaceInfo(m, s, i.(updated := t.blockTime, expiry := newExpiry), i.expiry))
  }

  function ExecClaim(g: Genesis, m: Db, t: TxContext, s: Name): Result<Db> {
    if !CheckContents(s) then Err(ErrInvalidContents)
    else if |s| == 42 && LowerHex(t.sender) != s then Err(ErrAddressMismatch)
    else if InfoKey(s) in m then Err(ErrSpaceNotExpired)
    else Ok(PutSpaceInfo(m, s,
      SpaceInfo(t.sender, t.blockTime, t.blockTime, W(t.blockTime + g.claimReward / g.claimExpiryUnits),
        g.claimExpiryUnits, EmptyRaw), 0))
  }

  function ExecLifeline(g: Genesis, m: Db, s: Name, units: uint64): Result<Db> {
    if units == 0 then Err(ErrNonActionable)
    else if !CheckContents(s) then Err(ErrInvalidContents)
    else match GetInfo(m, s)
      case None => Err(ErrSpaceMissing)
      case Some(i) =>
        if i.units == 0 then Err(ErrDivideByZero)
        else Ok(PutSpaceInfo(m, s, i.(expiry := W(i.expiry + W(g.claimReward * units) / i.units)), i.expiry))
  }

  /** The units of the space once the value under a key changes size from `before` to `after`. */
  function Reunit(g: Genesis, units: uint64, before: Option<ValueMeta>, after: Option<uint64>): uint64 {
    var u := if before.Some? then W(units - ExpiryUnits(g, before.value.size)) else units;
    if after.Some? then W(u + ExpiryUnits(g, after.value)) else u
  }

  function ExecSet(h: Hashes, g: Genesis, m: Db, t: TxContext, s: Name, key: Name, value: seq<byte>): Result<Db> {
    if !CheckContents(s) || !CheckContents(key) then Err(ErrInvalidContents)
    else if |value| == 0 then Err(ErrValueEmpty)
    else if |value| > g.maxValueSize then Err(ErrValueTooBig)
    else match VerifySpace(m, s, t)
      case Err(e) => Err(e)
      case Ok(i) =>
        if |key| == 66 && key != h.valueHash(value) then Err(ErrInvalidKey)
        else
          UpdateSpace(m[ValueKey(i.raw, key) := MetaVal(SetMeta(m, t, i, key, |value|))], s, t, TimeRemaining(i),
            i.(units := Reunit(g, i.units, GetMeta(m, i.raw, key), Some(|value|))))
  }

  /** What is recorded of a value that is set: one that is overwritten keeps its time of creation. */
  function SetMeta(m: Db, t: TxContext, i: SpaceInfo, key: Name, size: uint64): ValueMeta {
    var v := GetMeta(m, i.raw, key);
    ValueMeta(size, t.txID, if v.Some? then v.value.created else t.blockTime, t.blockTime)
  }

  function ExecDelete(g: Genesis, m: Db, t: TxContext, s: Name, key: Name): Result<Db> {
    if !CheckContents(s) || !CheckContents(key) then Err(ErrInvalidContents)
    else match VerifySpace(m, s, t)
      case Err(e) => Err(e)
      case Ok(i) =>
        var v := GetMeta(m, i.raw, key);
        if v.None? then Err(ErrKeyMissing)
        else UpdateSpace(m - {ValueKey(i.raw, key)}, s, t, TimeRemaining(i), i.(units := Reunit(g, i.units, v, None)))
  }

  function ExecMove(m: Db, t: TxContext, s: Name, to: Address): Result<Db> {
    if !CheckContents(s) then Err(ErrInvalidContents)
    else if to == ZERO_ADDRESS || to == t.sender then Err(ErrNonActionable)
    else match VerifySpace(m, s, t)
      case Err(e) => Err(e)
      case Ok(i) => Ok(MoveSpaceInfo(m, t.sender, s, i.(owner := to)))
  }

  function ExecTransfer(m: Db, t: TxContext, to: Address, units: uint64): Result<Db> {
    if to == ZERO_ADDRESS || to == t.sender || units == 0 then Err(ErrNonActionable)
    else match ModifyBalance(m, t.sender, false, units)
      case Err(e) => Err(e)
      case Ok(m1) => ModifyBalance(m1, to, true, units)
  }

  function ExecAction(h: Hashes, g: Genesis, m: Db, t: TxContext, a: Action): Result<Db> {
    match a
    case Claim(s) => ExecClaim(g, m, t, s)
    case Lifeline(s, units) => ExecLifeline(g, m, s, units)
    case Set(s, key, value) => ExecSet(h, g, m, t, s, key, value)
    case Delete(s, key) => ExecDelete(g, m, t, s, key)
    case Move(s, to) => ExecMove(m, t, s, to)
    case Transfer(to, units) => ExecTransfer(m, t, to, units)
  }

  // ---------- Transaction.Execute ----------

  datatype Context = Context(
    recentBlockIDs: set<BlockID>,
    recentTxIDs: set<TxID>,
    nextCost: uint64,
    nextPrice: uint64)

  function ExecuteBase(g: Genesis, tx: Tx): Option<Error> {
    if tx.blockID == EmptyBlockID then Some(ErrInvalidBlockID)
    else if tx.magic != g.magic then Some(ErrInvalidMagic)
    else if tx.price < g.minPrice then Some(ErrInvalidPrice)
    else None
  }

  function Fee(g: Genesis, tx: Tx): uint64 {
    W(FeeUnits(g, tx.action) * tx.price)
  }

  function RewardAmount(g: Genesis, b: Block, tx: Tx): uint64 {
    W(W(FeeUnits(g, tx.action) * b.price) * g.lotteryRewardMultiplier) / LOTTERY_REWARD_DIVISOR
  }

  /** Everything up to the lottery. */
  function ExecCharge(h: Hashes, g: Genesis, m: Db, b: Block, c: Context, tx: Tx): Result<Db> {
    var base := ExecuteBase(g, tx);
    if base.Some? then Err(base.value)
    else if tx.blockID !in c.recentBlockIDs then Err(ErrInvalidBlockID)
    else if tx.ID() in c.recentTxIDs then Err(ErrDuplicateTx)
    else match ModifyBalance(m, tx.sender, false, Fee(g, tx))
      case Err(e) => Err(e)
      case Ok(m1) =>
        if tx.price < c.nextPrice then Err(ErrInsufficientPrice)
        else match ExecAction(h, g, m1, TxContext(W(b.tmstmp), tx.ID(), tx.sender), tx.action)
          case Err(e) => Err(e)
          case Ok(m2) => Ok(m2[TxKey(tx.ID()) := NilVal])
  }

  /** `bid` is what b.ID() returns, which is the empty ID while the block is being built. */
  ghost function ExecTx(h: Hashes, g: Genesis, m: Db, b: Block, bid: BlockID, c: Context, tx: Tx): Result<Db> {
    match ExecCharge(h, g, m, b, c, tx)
    case Err(e) => Err(e)
    case Ok(m1) =>
      if b.prnt == EmptyBlockID || RewardAmount(g, b, tx) == 0 then Ok(m1)
      else ApplyReward(h, m1, bid, tx.ID(), tx.sender, RewardAmount(g, b, tx))
  }
}

/** The values the chain is made of: machine words, addresses, transactions, blocks, and the
    parameters fixed at genesis.

    Hashes are free constructors: `BlockHash(b)`, `TxHash(t)` and `RawOf(space, created)` stand for
    the digests of what they carry, so hashing is injective by construction. */
module Types {
  const TWO63: int := 0x8000_0000_0000_0000
  const TWO64: int := 0x1_0000_0000_0000_0000

  type byte = b: int | 0 <= b < 256
  type uint64 = n: int | 0 <= n < TWO64
  type Name = seq<byte>

  const ZERO20: seq<byte> := [0, 0, 0, 0, 0, 0, 0, 0, 0, 0, 0, 0, 0, 0, 0, 0, 0, 0, 0, 0]
  type Address = a: seq<byte> | |a| == 20 witness ZERO20
  const ZERO_ADDRESS: Address := ZERO20

  /** What a 64-bit register holds after an operation whose exact result is `x`. */
  function W(x: int): (r: uint64)
    ensures 0 <= x < TWO64 ==> r == x
  {
    x % TWO64
  }

  predicate Fits(x: int) {
    0 <= x < TWO64
  }

  datatype Option<+T> = None | Some(value: T)

  datatype Result<+T> = Ok(value: T) | Err(error: Error)

  datatype Error =
    | ErrInvalidMagic
    | ErrTimestampTooEarly
    | ErrTimestampTooLate
    | ErrNoTxs
    | ErrInvalidCost
    | ErrInvalidPrice
    | ErrInsufficientSurplus
    | ErrParentBlockNotVerified
    | ErrParentNotFound
    | ErrInvalidBlockID
    | ErrDuplicateTx
    | ErrInsufficientPrice
    | ErrValueEmpty
    | ErrValueTooBig
    | ErrSpaceExpired
    | ErrKeyMissing
    | ErrInvalidKey
    | ErrAddressMismatch
    | ErrSpaceNotExpired
    | ErrSpaceMissing
    | ErrUnauthorized
    | ErrInvalidBalance
    | ErrNonActionable
    | ErrBlockTooBig
    | ErrInvalidContents
    | ErrCodec         // a stored value could not be parsed as the struct the caller asked for
    | ErrDivideByZero  // the Go program panics

  // ---------- Blocks and transactions ----------

  datatype BlockID = EmptyBlockID | BlockHash(blk: Block)

  datatype Block = Block(
    prnt: BlockID,
    tmstmp: int,
    hght: uint64,
    price: uint64,
    cost: uint64,
    txs: seq<Tx>)

  datatype TxID = TxHash(tx: Tx)

  datatype Tx = Tx(
    action: Action,
    blockID: BlockID,
    magic: uint64,
    price: uint64,
    sender: Address,
    signature: seq<byte>)
  {
    function ID(): TxID { TxHash(this) }
  }

  datatype Action =
    | Claim(space: Name)
    | Lifeline(space: Name, units: uint64)
    | Set(space: Name, key: Name, value: seq<byte>)
    | Delete(space: Name, key: Name)
    | Move(space: Name, to: Address)
    | Transfer(to: Address, units: uint64)

  // ---------- Stored records ----------

  datatype RawID = EmptyRaw | RawOf(space: Name, created: uint64)

  datatype SpaceInfo = SpaceInfo(
    owner: Address,
    created: uint64,
    updated: uint64,
    expiry: uint64,
    units: uint64,
    raw: RawID)

  datatype ValueMeta = ValueMeta(
    size: uint64,
    txID: TxID,
    created: uint64,
    updated: uint64)

  // ---------- Genesis parameters ----------

  const MIN_BLOCK_COST: uint64 := 0
  const LOTTERY_REWARD_DIVISOR: uint64 := 100

  datatype Params = Params(
    magic: uint64,
    baseTxUnits: uint64,
    valueUnitSize: uint64,
    maxValueSize: uint64,
    valueExpiryDiscount: uint64,
    claimLoadMultiplier: uint64,
    minClaimFee: uint64,
    spaceDesirabilityMultiplier: uint64,
    spaceRenewalDiscount: uint64,
    claimReward: uint64,
    claimExpiryUnits: uint64,
    lotteryRewardMultiplier: uint64,
    minPrice: uint64,
    lookbackWindow: int,
    targetBlockRate: int,
    targetBlockSize: uint64,
    maxBlockSize: uint64,
    blockCostEnabled: bool)

  /** What Genesis.Verify asks, and divisors that are not zero. */
  predicate Sensible(p: Params) {
    && p.magic != 0
    && 0 < p.valueUnitSize
    && 0 < p.valueExpiryDiscount
    && 0 < p.spaceRenewalDiscount
    && 0 < p.claimExpiryUnits
    && 0 < p.lookbackWindow < TWO63
    && 0 < p.targetBlockRate < TWO63
    && p.lotteryRewardMultiplier <= LOTTERY_REWARD_DIVISOR
  }

  const DEFAULT_PARAMS := Params(
    1, 1, 1024, 204800, 10, 5, 100, 5, 10, 2654208000, 100, 50, 1, 60, 1, 225, 246, true)

  type Genesis = p: Params | Sensible(p) witness DEFAULT_PARAMS

  // ---------- Identifiers ----------

  const MAX_IDENTIFIER_SIZE := 256
  const DELIMITER: byte := 47

  /** The regular expression ^[a-z0-9]{1,256}$. */
  predicate CheckContents(s: Name) {
    && 1 <= |s| <= MAX_IDENTIFIER_SIZE
    && forall i :: 0 <= i < |s| ==> 97 <= s[i] <= 122 || 48 <= s[i] <= 57
  }
}

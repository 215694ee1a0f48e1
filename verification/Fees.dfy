/** What the fee and price formulas are for (claim_tx.go, set_tx.go, lifeline_tx.go, tx.go, chain_vm.go). */
module Fees {
  import opened Types
  import opened Store
  import opened Chain
  import Budget

  /** Value units pay for every byte, and for less than one unit more. */
  lemma UnitsCoverSize(g: Genesis, size: uint64)
    requires Fits(size / g.valueUnitSize + 1)
    ensures (ValueUnits(g, size) - 1) * g.valueUnitSize <= size < ValueUnits(g, size) * g.valueUnitSize
  {
    var n := size / g.valueUnitSize;
    DivisionBrackets(size, g.valueUnitSize);
    assert ValueUnits(g, size) == n + 1;
  }

  lemma DivisionBrackets(a: nat, b: nat)
    requires b > 0
    ensures (a / b) * b <= a < (a / b + 1) * b
  {
  }

  // ---------- What each transaction costs ----------

  function Larger(a: int, b: int): int {
    if a > b then a else b
  }

  /** What the name of a space is worth: every character it is short of the longest counts. */
  function NameWorth(g: Genesis, s: Name): int {
    Larger(g.minClaimFee, (256 - |s|) * g.spaceDesirabilityMultiplier)
  }

  lemma NameCosts(g: Genesis, s: Name)
    requires |s| <= 256 && Fits((256 - |s|) * g.spaceDesirabilityMultiplier)
    ensures SpaceNameUnits(g, s) == NameWorth(g, s)
  {
    hide W;
    assert W(256 - |s|) == 256 - |s|;
    assert W((256 - |s|) * g.spaceDesirabilityMultiplier) == (256 - |s|) * g.spaceDesirabilityMultiplier;
  }

  /** A set pays the base, one unit, and one unit more for every full value unit, and it loads a block
      with as much. */
  lemma SetCosts(g: Genesis, s: Name, x: Name, value: seq<byte>)
    requires Fits(|value|) && Fits(g.baseTxUnits + |value| / g.valueUnitSize + 1)
    ensures var units := FeeUnits(g, Set(s, x, value));
      && (units - g.baseTxUnits - 1) * g.valueUnitSize <= |value| < (units - g.baseTxUnits) * g.valueUnitSize
      && LoadUnits(g, Set(s, x, value)) == units
  {
    Budget.QuotientSmaller(|value|, g.valueUnitSize);
    UnitsCoverSize(g, |value|);
    hide ValueUnits;
    assert ValueUnits(g, |value|) == |value| / g.valueUnitSize + 1 by {
      ValueUnitsAre(g, |value|);
    }
  }

  lemma ValueUnitsAre(g: Genesis, size: uint64)
    requires Fits(size / g.valueUnitSize + 1)
    ensures ValueUnits(g, size) == size / g.valueUnitSize + 1
  {
  }

  /** A claim loads a block with the base times the load multiplier, and pays for the name on top. */
  lemma ClaimCosts(g: Genesis, s: Name)
    requires |s| <= 256 && Fits((256 - |s|) * g.spaceDesirabilityMultiplier)
    requires Fits(g.baseTxUnits * g.claimLoadMultiplier + NameWorth(g, s))
    ensures LoadUnits(g, Claim(s)) == g.baseTxUnits * g.claimLoadMultiplier
    ensures FeeUnits(g, Claim(s)) == g.baseTxUnits * g.claimLoadMultiplier + NameWorth(g, s)
  {
    NameCosts(g, s);
    Budget.MulNonNegative(g.baseTxUnits, g.claimLoadMultiplier);
    hide SpaceNameUnits, NameWorth, W;
    assert W(g.baseTxUnits * g.claimLoadMultiplier) == g.baseTxUnits * g.claimLoadMultiplier;
  }

  /** A lifeline loads a block like a claim, and pays for the name at a discount, for every unit bought. */
  lemma LifelineCosts(g: Genesis, s: Name, bought: uint64)
    requires |s| <= 256 && Fits((256 - |s|) * g.spaceDesirabilityMultiplier)
    requires Fits(g.baseTxUnits * g.claimLoadMultiplier + NameWorth(g, s) / g.spaceRenewalDiscount * bought)
    ensures LoadUnits(g, Lifeline(s, bought)) == g.baseTxUnits * g.claimLoadMultiplier
    ensures FeeUnits(g, Lifeline(s, bought))
         == g.baseTxUnits * g.claimLoadMultiplier + NameWorth(g, s) / g.spaceRenewalDiscount * bought
  {
    NameCosts(g, s);
    Budget.MulNonNegative(g.baseTxUnits, g.claimLoadMultiplier);
    Budget.QuotientSmaller(NameWorth(g, s), g.spaceRenewalDiscount);
    Budget.MulNonNegative(NameWorth(g, s) / g.spaceRenewalDiscount, bought);
    hide SpaceNameUnits, NameWorth, W;
    assert W(g.baseTxUnits * g.claimLoadMultiplier) == g.baseTxUnits * g.claimLoadMultiplier;
    assert W(NameWorth(g, s) / g.spaceRenewalDiscount * bought) == NameWorth(g, s) / g.spaceRenewalDiscount * bought;
  }

  /** The others pay, and load a block with, the base. */
  lemma OthersCost(g: Genesis, a: Action)
    requires a.Delete? || a.Move? || a.Transfer?
    ensures FeeUnits(g, a) == g.baseTxUnits && LoadUnits(g, a) == g.baseTxUnits
  {
  }

  /** What is charged is the units times the price. */
  lemma FeeIsExact(g: Genesis, tx: Tx)
    requires Fits(FeeUnits(g, tx.action) * tx.price)
    ensures Fee(g, tx) == FeeUnits(g, tx.action) * tx.price
  {
    hide FeeUnits;
  }

  /** What a stored value adds to the units of its space: its value units, at a discount, rounded down. */
  lemma StoredCosts(g: Genesis, size: uint64)
    requires Fits(size / g.valueUnitSize + 1)
    ensures ExpiryUnits(g, size) * g.valueExpiryDiscount <= size / g.valueUnitSize + 1
         < (ExpiryUnits(g, size) + 1) * g.valueExpiryDiscount
  {
    ValueUnitsAre(g, size);
    DivisionBrackets(size / g.valueUnitSize + 1, g.valueExpiryDiscount);
  }

  // ---------- Names, prices and rewards ----------

  /** A shorter name never costs less, and no name less than the minimum. */
  lemma ShorterCostsMore(g: Genesis, s: Name, s': Name)
    requires |s| <= |s'| <= MAX_IDENTIFIER_SIZE && Fits(MAX_IDENTIFIER_SIZE * g.spaceDesirabilityMultiplier)
    ensures SpaceNameUnits(g, s) >= SpaceNameUnits(g, s') >= g.minClaimFee
  {
    hide W;
    var a: uint64, b: uint64 := MAX_IDENTIFIER_SIZE - |s|, MAX_IDENTIFIER_SIZE - |s'|;
    Budget.MulMonotone(b, a, g.spaceDesirabilityMultiplier);
    Budget.MulMonotone(a, MAX_IDENTIFIER_SIZE, g.spaceDesirabilityMultiplier);
    assert W(a) == a && W(b) == b;
    assert W(a * g.spaceDesirabilityMultiplier) == a * g.spaceDesirabilityMultiplier;
    assert W(b * g.spaceDesirabilityMultiplier) == b * g.spaceDesirabilityMultiplier;
  }

  /** The price rises by one when the window is busier than its target. When it is quieter it falls, by
      one for every window begun since the last block, but not below the minimum. */
  lemma PriceFollowsLoad(g: Genesis, last: Block, units: uint64, cur: int)
    requires g.minPrice <= last.price && Fits(last.price + 1)
    requires 0 <= last.tmstmp <= cur < TWO63
    ensures var next := NextPrice(g, last, units, cur);
      && (units > TargetRangeUnits(g) ==> next == last.price + 1)
      && (units == TargetRangeUnits(g) ==> next == last.price)
      && (units < TargetRangeUnits(g) ==>
        && g.minPrice <= next <= last.price
        && (last.price > g.minPrice ==> next < last.price)
        && (next > g.minPrice ==> last.price - next == (cur - last.tmstmp) / g.lookbackWindow + 1)
        && (next == g.minPrice ==> last.price - g.minPrice <= (cur - last.tmstmp) / g.lookbackWindow + 1))
  {
    hide TargetRangeUnits;
    Budget.QuotientSmaller(cur - last.tmstmp, g.lookbackWindow);
  }

  /** A reward is the given share of the transaction's fee units at the block's price, rounded down. */
  lemma RewardIsShare(g: Genesis, b: Block, tx: Tx)
    requires Fits(FeeUnits(g, tx.action) * b.price * g.lotteryRewardMultiplier)
    ensures RewardAmount(g, b, tx) * 100
      <= FeeUnits(g, tx.action) * b.price * g.lotteryRewardMultiplier
      < (RewardAmount(g, b, tx) + 1) * 100
  {
    hide FeeUnits;
    WrapTwice(FeeUnits(g, tx.action) * b.price, g.lotteryRewardMultiplier);
  }

  /** Wrapping around on the way does not change a product that fits in the end. */
  lemma WrapTwice(a: nat, b: nat)
    requires Fits(a * b)
    ensures W(W(a) * b) == a * b
  {
    var q := a / TWO64;
    assert a == q * TWO64 + W(a);
    Regroup(q, W(a), b);
    if b == 0 {
      assert W(a) * b == 0 && a * b == 0;
    } else {
      Small(q, W(a), b);
    }
  }

  lemma Regroup(q: nat, w: nat, b: nat)
    ensures (q * TWO64 + w) * b == q * b * TWO64 + w * b
  {
  }

  lemma Small(q: nat, w: nat, b: nat)
    requires b > 0 && q * b * TWO64 + w * b < TWO64
    ensures q == 0 && W(w * b) == w * b
  {
    Budget.MulMonotone(0, w, b);
    Budget.MulAtLeast(q, b);
  }
}

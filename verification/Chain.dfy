/** The chain behind a block and the execution context computed from it (helpers.go, chain_vm.go).

    A block ID determines its block, that block names its parent, and so on: a chain is read off
    the ID of its last block. */
module Chain {
  import opened Types
  import opened Store

  // ---------- lookback ----------

  predicate InWindow(g: Genesis, cur: int, id: BlockID, last: BlockID) {
    id.BlockHash? && (cur - id.blk.tmstmp <= g.lookbackWindow || id == last)
  }

  /** The blocks lookback visits from `id` on, newest first. */
  function Window(g: Genesis, cur: int, id: BlockID, last: BlockID): seq<BlockID>
    decreases id
  {
    if !InWindow(g, cur, id, last) then []
    else [id] + if id.blk.hght == 0 then [] else Window(g, cur, id.blk.prnt, last)
  }

  function IDsOf(ids: seq<BlockID>): set<BlockID> {
    set i | 0 <= i < |ids| :: ids[i]
  }

  function TxIDsIn(txs: seq<Tx>): set<TxID> {
    set i | 0 <= i < |txs| :: txs[i].ID()
  }

  function TxIDsOf(ids: seq<BlockID>): set<TxID> {
    if |ids| == 0 then {}
    else TxIDsOf(ids[..|ids| - 1]) + if ids[|ids| - 1].BlockHash? then TxIDsIn(ids[|ids| - 1].blk.txs) else {}
  }

  function LoadOf(g: Genesis, txs: seq<Tx>): uint64 {
    if |txs| == 0 then 0
    else W(LoadOf(g, txs[..|txs| - 1]) + LoadUnits(g, txs[|txs| - 1].action))
  }

  /** The load of a list of transactions, however large. */
  function TotalLoad(g: Genesis, txs: seq<Tx>): nat {
    if |txs| == 0 then 0 else TotalLoad(g, txs[..|txs| - 1]) + LoadUnits(g, txs[|txs| - 1].action)
  }

  function UnitsOf(g: Genesis, ids: seq<BlockID>): uint64 {
    if |ids| == 0 then 0
    else W(UnitsOf(g, ids[..|ids| - 1]) + if ids[|ids| - 1].BlockHash? then LoadOf(g, ids[|ids| - 1].blk.txs) else 0)
  }

  // ---------- Cost and price of the next block ----------

  function NextCost(g: Genesis, last: Block, cur: int): uint64 {
    var since := cur - last.tmstmp;
    if !g.blockCostEnabled then last.cost
    else if since < g.targetBlockRate then W(last.cost + W(g.targetBlockRate - since))
    else
      var possible := W(since - g.targetBlockRate);
      if last.cost >= MIN_BLOCK_COST && possible < last.cost - MIN_BLOCK_COST then last.cost - possible
      else MIN_BLOCK_COST
  }

  function TargetRangeUnits(g: Genesis): uint64 {
    W(g.targetBlockSize / W(g.targetBlockRate) * W(g.lookbackWindow))
  }

  /** Go's integer division, which truncates towards zero. */
  function Quotient(a: int, b: int): int
    requires b > 0
  {
    if a >= 0 then a / b else -(-a / b)
  }

  function NextPrice(g: Genesis, last: Block, units: uint64, cur: int): uint64 {
    if units > TargetRangeUnits(g) then W(last.price + 1)
    else if units < TargetRangeUnits(g) then
      var elapsed := W(W(Quotient(cur - last.tmstmp, g.lookbackWindow)) + 1);
      if last.price >= g.minPrice && elapsed < last.price - g.minPrice then last.price - elapsed
      else g.minPrice
    else last.price
  }

  function ExecutionContext(g: Genesis, cur: int, last: BlockID): Context
    requires last.BlockHash?
  {
    var w := Window(g, cur, last, last);
    Context(IDsOf(w), TxIDsOf(w), NextCost(g, last.blk, cur), NextPrice(g, last.blk, UnitsOf(g, w), cur))
  }

  // ---------- Ancestors ----------

  predicate Ancestor(a: BlockID, d: BlockID)
    decreases d
  {
    d.BlockHash? && (d.blk.prnt == a || Ancestor(a, d.blk.prnt))
  }

  /** A block is not its own ancestor. */
  lemma {:induction false} AncestorSmaller(a: BlockID, d: BlockID)
    requires Ancestor(a, d)
    ensures a != d
    ensures a < d
    decreases d
  {
    if d.blk.prnt != a {
      AncestorSmaller(a, d.blk.prnt);
    }
  }
}

/** Replay protection over whole chains, though only recent transaction IDs are remembered. */
module Replay {
  import opened Types
  import opened Chain

  /** The two replay checks of Transaction.Execute, for every transaction of a block. */
  ghost predicate Checked(g: Genesis, id: BlockID) {
    && id.BlockHash? && id.blk.prnt.BlockHash?
    && var c := ExecutionContext(g, id.blk.tmstmp, id.blk.prnt);
      forall i :: 0 <= i < |id.blk.txs| ==>
        id.blk.txs[i].blockID in c.recentBlockIDs && id.blk.txs[i].ID() !in c.recentTxIDs
  }

  /** Everything in the window is the starting block or one of its ancestors. */
  lemma {:induction false} WindowIsAncestral(g: Genesis, cur: int, id: BlockID, last: BlockID, k: BlockID)
    requires k in Window(g, cur, id, last)
    ensures k == id || Ancestor(k, id)
    decreases id
  {
    if k != id {
      WindowIsAncestral(g, cur, id.blk.prnt, last, k);
    }
  }

  /** The window has no holes: with a block it holds every block between that one and the start. */
  lemma {:induction false} WindowIsContiguous(g: Genesis, cur: int, id: BlockID, last: BlockID, k: BlockID, x: BlockID)
    requires k in Window(g, cur, id, last)
    requires x == id || Ancestor(x, id)
    requires k == x || Ancestor(k, x)
    ensures x in Window(g, cur, id, last)
    decreases id
  {
    if x != id {
      if k == id {
        AncestorSmaller(x, id);
        if k != x {
          AncestorSmaller(k, x);
        }
      } else {
        assert k in Window(g, cur, id.blk.prnt, last);
        WindowIsContiguous(g, cur, id.blk.prnt, last, k, x);
      }
    }
  }

  lemma {:induction false} RecentTxs(ids: seq<BlockID>, x: BlockID, tx: Tx)
    requires x in ids && x.BlockHash? && tx in x.blk.txs
    ensures tx.ID() in TxIDsOf(ids)
  {
    var n := |ids| - 1;
    if ids[n] == x {
      var i :| 0 <= i < |x.blk.txs| && x.blk.txs[i] == tx;
      assert x.blk.txs[i].ID() == tx.ID();
    } else {
      assert ids == ids[..n] + [ids[n]];
      RecentTxs(ids[..n], x, tx);
    }
  }

  /** No transaction ID is executed in two different blocks of one chain. The heights play no
      part: wherever the walk stops, what it has seen is an unbroken run ending at the parent. */
  lemma NoReplay(g: Genesis, a: BlockID, d: BlockID, tx: Tx, tx': Tx)
    requires Ancestor(a, d) && Checked(g, a) && Checked(g, d)
    requires tx in a.blk.txs && tx' in d.blk.txs
    ensures tx.ID() != tx'.ID()
  {
    if tx == tx' {
      var wa := Window(g, a.blk.tmstmp, a.blk.prnt, a.blk.prnt);
      var wd := Window(g, d.blk.tmstmp, d.blk.prnt, d.blk.prnt);
      var i :| 0 <= i < |a.blk.txs| && a.blk.txs[i] == tx;
      var k := tx.blockID;
      assert k in wa;
      WindowIsAncestral(g, a.blk.tmstmp, a.blk.prnt, a.blk.prnt, k);
      AncestorTransitive(k, a.blk.prnt, a);
      var j :| 0 <= j < |d.blk.txs| && d.blk.txs[j] == tx;
      assert k in wd && tx.ID() !in TxIDsOf(wd);
      WindowIsContiguous(g, d.blk.tmstmp, d.blk.prnt, d.blk.prnt, k, a);
      RecentTxs(wd, a, tx);
    }
  }

  lemma AncestorTransitive(k: BlockID, p: BlockID, a: BlockID)
    requires a.BlockHash? && a.blk.prnt == p && (k == p || Ancestor(k, p))
    ensures Ancestor(k, a)
  {
  }
}

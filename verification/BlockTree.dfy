/** The tree of processing blocks (block.go, chain_vm.go, vm.go, pruner.go). Each block holds a layer
    of writes over its parent's layer; accepting a block commits its layer to disk and re-bases
    its children.

    Block objects are identified by their block ID: `nodes` holds the mutable part of every block
    object the VM has verified, and a layer's reference to the database beneath it is the ID of
    the block that owns that database, or the disk. */
module BlockTree {
  import opened Types
  import opened Keys
  import opened VersionDB
  import S = Store
  import opened Spaces
  import opened Preservation
  import opened Chain
  import opened Blocks
  import opened BlockInvariants
  import opened Agreement
  import opened Archive
  import opened Replay
  import opened CostAndPrice
  import X = Execution

  datatype Status = Processing | Accepted | Rejected

  datatype Under = OnDisk | OnBlock(id: BlockID)

  datatype Node = Node(st: Status, mem: Mem, under: Under, children: seq<BlockID>)

  type Nodes = map<BlockID, Node>

  // ---------- Reading through the layers ----------

  /** What the database of a block reads as, following the layers down to the disk. */
  function ViewOf(disk: Db, nodes: Nodes, id: BlockID): Db
    decreases id
  {
    if id !in nodes then disk else Overlay(BelowOf(disk, nodes, id), nodes[id].mem)
  }

  /** What the database beneath a block's layer reads as. */
  function BelowOf(disk: Db, nodes: Nodes, id: BlockID): Db
    requires id in nodes
    decreases id, 0
  {
    if id.BlockHash? && nodes[id].under == OnBlock(id.blk.prnt) then ViewOf(disk, nodes, id.blk.prnt) else disk
  }

  /** The block is a verified descendant of the last accepted one, through verified blocks. */
  predicate Rooted(verified: set<BlockID>, last: BlockID, id: BlockID)
    decreases id
  {
    id in verified && id.BlockHash? && (id.blk.prnt == last || Rooted(verified, last, id.blk.prnt))
  }

  /** x is on the chain from the root to id, both included. */
  predicate OnChain(root: BlockID, id: BlockID, x: BlockID)
    decreases id
  {
    x == id || (id != root && id.BlockHash? && OnChain(root, id.blk.prnt, x))
  }

  /** The store names the last block of the chain, has exactly the blocks of the chain, and can give
      back every block after the root. */
  ghost predicate BlocksStored(h: Hashes, root: BlockID, id: BlockID, m: Db) {
    && LastAcceptedKey in m && m[LastAcceptedKey] == IDVal(id)
    && ValuesTrue(m)
    && (forall x :: BlockKey(x) in m <==> OnChain(root, id, x))
    && (forall x :: OnChain(root, id, x) && x != root ==> x.BlockHash? && Archived(h, m, x.blk))
  }

  /** Some run of verified blocks leads to a store that agrees with this one: each block was executed on
      whatever some node had at the time, pruned or not, bootstrapped or not. */
  ghost predicate Reaches(h: Hashes, g: Genesis, o: Origin, id: BlockID, m: Db)
    decreases id
  {
    if id == o.id then Agree(m, o.state)
    else
      && id.BlockHash?
      && exists m0: Db, boot: bool :: Reaches(h, g, o, id.blk.prnt, m0) && Leads(h, g, m0, id.blk, boot, m)
  }

  /** The block, executed on m0, leads to a store that agrees with m. */
  ghost predicate Leads(h: Hashes, g: Genesis, m0: Db, b: Block, boot: bool, m: Db) {
    && b.prnt.BlockHash? && Inv(g, m0, W(b.prnt.blk.tmstmp))
    && BlockGood(h, g, m0, b, boot)
    && ExecBlock(h, g, m0, b, boot).Ok? && Agree(m, ExecBlock(h, g, m0, b, boot).value)
  }

  ghost predicate StateOk(h: Hashes, g: Genesis, o: Origin, id: BlockID, m: Db) {
    && id.BlockHash? && 0 <= id.blk.tmstmp < TWO63
    && Inv(g, m, W(id.blk.tmstmp))
    && Reaches(h, g, o, id, m)
    && BlocksStored(h, o.id, id, m)
    && ChainVerified(g, o.id, id)
  }

  /** Every block after the root passed the checks of verify and the replay checks. */
  ghost predicate ChainVerified(g: Genesis, root: BlockID, id: BlockID)
    decreases id
  {
    id == root || (id.BlockHash? && PreVerify(g, id.blk).None? && Checked(g, id) && ChainVerified(g, root, id.blk.prnt))
  }

  predicate Linked(nodes: Nodes, last: BlockID, id: BlockID) {
    && id.BlockHash? && id in nodes
    && nodes[id].st == Processing
    && (id.blk.prnt != last ==> id.blk.prnt.BlockHash? && id.blk.prnt.blk.hght != 0)
    && nodes[id].under == (if id.blk.prnt == last then OnDisk else OnBlock(id.blk.prnt))
    && (id.blk.prnt != last ==> id.blk.prnt in nodes && id in nodes[id.blk.prnt].children)
  }

  ghost predicate LayerOk(disk: Db, nodes: Nodes, id: BlockID)
    requires id in nodes
  {
    && X.SparesQueue(BelowOf(disk, nodes, id), nodes[id].mem)
    && X.QueueKept(BelowOf(disk, nodes, id), ViewOf(disk, nodes, id))
    && FilesKept(BelowOf(disk, nodes, id), ViewOf(disk, nodes, id))
  }

  // ---------- Lemmas about the layers ----------

  /** Views do not depend on anything but the layers on the way down. */
  lemma {:induction false} ViewFrame(disk: Db, nodes: Nodes, nodes': Nodes, verified: set<BlockID>, last: BlockID,
                                     id: BlockID)
    requires Rooted(verified, last, id)
    requires forall x :: Rooted(verified, last, x) ==>
      Linked(nodes, last, x) && x in nodes' && nodes'[x].mem == nodes[x].mem && nodes'[x].under == nodes[x].under
    ensures id in nodes && id in nodes'
    ensures ViewOf(disk, nodes', id) == ViewOf(disk, nodes, id)
    ensures BelowOf(disk, nodes', id) == BelowOf(disk, nodes, id)
    decreases id
  {
    if id.blk.prnt != last {
      ViewFrame(disk, nodes, nodes', verified, last, id.blk.prnt);
    }
  }

  lemma {:induction false} RootedDescends(verified: set<BlockID>, last: BlockID, id: BlockID)
    requires Rooted(verified, last, id)
    ensures Ancestor(last, id) && last < id
    decreases id
  {
    if id.blk.prnt != last {
      RootedDescends(verified, last, id.blk.prnt);
    }
    AncestorSmaller(last, id);
  }

  lemma {:induction false} OnChainIsAncestral(root: BlockID, id: BlockID, x: BlockID)
    requires OnChain(root, id, x)
    ensures x == id || x < id
    decreases id
  {
    if x != id {
      OnChainIsAncestral(root, id.blk.prnt, x);
    }
  }

  /** Fewer verified blocks, fewer rooted ones. */
  lemma {:induction false} RootedMonotone(verified: set<BlockID>, verified': set<BlockID>, last: BlockID, id: BlockID)
    requires verified <= verified' && Rooted(verified, last, id)
    ensures Rooted(verified', last, id)
    decreases id
  {
    if id.blk.prnt != last {
      RootedMonotone(verified, verified', last, id.blk.prnt);
    }
  }

  /** What is rooted in an accepted child was rooted before, above that child. */
  lemma {:induction false} RootedInChild(verified: set<BlockID>, last: BlockID, child: BlockID, id: BlockID)
    requires child in verified && child.BlockHash? && child.blk.prnt == last
    requires Rooted(verified - {child}, child, id)
    ensures Rooted(verified, last, id) && Rooted(verified, last, child)
    ensures id.blk.prnt != last
    decreases id
  {
    if id.blk.prnt != child {
      RootedInChild(verified, last, child, id.blk.prnt);
      RootedDescends(verified - {child}, child, id.blk.prnt);
    }
    assert last < child;
  }

  /** Committing the lowest layer and re-basing what stood on it changes no view above. */
  lemma {:induction false} CommitKeepsViews(disk: Db, nodes: Nodes, nodes': Nodes, verified: set<BlockID>,
                                            last: BlockID, child: BlockID, id: BlockID)
    requires child in verified && child.BlockHash? && child.blk.prnt == last
    requires forall x :: Rooted(verified, last, x) ==> Linked(nodes, last, x)
    requires forall x :: Rooted(verified - {child}, child, x) ==>
      x in nodes && x in nodes' && nodes'[x].mem == nodes[x].mem
    requires forall x :: Rooted(verified - {child}, child, x) ==>
      nodes'[x].under == if x.blk.prnt == child then OnDisk else OnBlock(x.blk.prnt)
    requires Rooted(verified - {child}, child, id)
    ensures child in nodes && id in nodes && id in nodes'
    ensures ViewOf(ViewOf(disk, nodes, child), nodes', id) == ViewOf(disk, nodes, id)
    ensures BelowOf(ViewOf(disk, nodes, child), nodes', id) == BelowOf(disk, nodes, id)
    decreases id
  {
    RootedInChild(verified, last, child, id);
    if id.blk.prnt != child {
      CommitKeepsViews(disk, nodes, nodes', verified, last, child, id.blk.prnt);
    }
  }

  // ---------- Pruning under live layers ----------

  /** A layer that spares the queue lets pruning through. */
  lemma PruneThroughLayer(below: Db, mem: Mem, done: set<Key>)
    requires X.SparesQueue(below, mem)
    requires forall k :: k in done ==> k.PruningKey? && k in below
    ensures Overlay(S.Pruned(below, done), mem) == S.Pruned(Overlay(below, mem), done)
  {
    var gone := S.PrunedKeys(below, done);
    forall k | k in done || (k.ValueKey? && k.raw in S.RawsOf(done))
      ensures k !in mem
    {
      if k in done {
        assert k == PruningKey(k.ts, k.raw);
      } else {
        var d :| d in done && d.PruningKey? && d.raw == k.raw;
        assert d == PruningKey(d.ts, d.raw);
      }
      assert Waiting(below, k.raw);
    }
    OverlayMinus(below, mem, gone);
    assert gone == S.PrunedKeys(Overlay(below, mem), done);
  }

  /** Pruning the disk shows through every stack of layers as pruning the view: to the same
      entries, and to nothing else. */
  lemma {:induction false} PruneThrough(disk: Db, nodes: Nodes, verified: set<BlockID>, last: BlockID, id: BlockID,
                                        done: set<Key>)
    requires forall x :: Rooted(verified, last, x) ==> Linked(nodes, last, x) && LayerOk(disk, nodes, x)
    requires forall k :: k in done ==> k.PruningKey? && k in disk
    requires Rooted(verified, last, id)
    ensures id in nodes
    ensures ViewOf(S.Pruned(disk, done), nodes, id) == S.Pruned(ViewOf(disk, nodes, id), done)
    ensures BelowOf(S.Pruned(disk, done), nodes, id) == S.Pruned(BelowOf(disk, nodes, id), done)
    ensures forall k :: k in done ==> k in ViewOf(disk, nodes, id)
    decreases id
  {
    if id.blk.prnt != last {
      PruneThrough(disk, nodes, verified, last, id.blk.prnt, done);
    }
    var below, view := BelowOf(disk, nodes, id), ViewOf(disk, nodes, id);
    PruneThroughLayer(below, nodes[id].mem, done);
    forall k | k in done
      ensures k in view
    {
      assert k == PruningKey(k.ts, k.raw) && k in below;
    }
  }

  lemma PruneKeepsLayer(below: Db, view: Db, mem: Mem, done: set<Key>)
    requires X.SparesQueue(below, mem) && X.QueueKept(below, view) && FilesKept(below, view)
    requires forall k :: k in done ==> k.PruningKey?
    ensures X.SparesQueue(S.Pruned(below, done), mem) && X.QueueKept(S.Pruned(below, done), S.Pruned(view, done))
    ensures FilesKept(S.Pruned(below, done), S.Pruned(view, done))
  {
    forall k | k in mem && (k.ValueKey? || k.PruningKey?)
      ensures !Waiting(S.Pruned(below, done), k.raw)
    {
      assert !Waiting(below, k.raw);
    }
  }

  lemma PruneKeepsState(h: Hashes, g: Genesis, o: Origin, id: BlockID, m: Db, done: set<Key>)
    requires StateOk(h, g, o, id, m)
    requires forall k :: k in done ==> k.PruningKey? && k in m
    ensures StateOk(h, g, o, id, S.Pruned(m, done)) && Agree(m, S.Pruned(m, done))
  {
    hide Inv, Agree, ChainVerified, BlocksStored, Reaches;
    PruneKeepsFiles(h, o.id, id, m, done);
    PruneKeepsInv(g, m, W(id.blk.tmstmp), done);
    PruneAlike(g, m, W(id.blk.tmstmp), done);
    AgreeSymmetric(m, S.Pruned(m, done));
    ReachesAlike(h, g, o, id, m, S.Pruned(m, done));
  }

  // ---------- Whatever the nodes did on the way ----------

  lemma ReachesAlike(h: Hashes, g: Genesis, o: Origin, id: BlockID, m: Db, m': Db)
    requires Reaches(h, g, o, id, m) && Agree(m', m)
    ensures Reaches(h, g, o, id, m')
  {
    hide Agree, ExecBlock, BlockGood, Inv;
    if id == o.id {
      AgreeTransitive(m', m, o.state);
    } else {
      var m0: Db, boot: bool :| Reaches(h, g, o, id.blk.prnt, m0) && Leads(h, g, m0, id.blk, boot, m);
      AgreeTransitive(m', m, ExecBlock(h, g, m0, id.blk, boot).value);
      assert Leads(h, g, m0, id.blk, boot, m');
    }
  }

  /** All stores a chain leads to agree. */
  lemma {:induction false} ReachesOne(h: Hashes, g: Genesis, o: Origin, id: BlockID, m: Db, m': Db)
    requires Sound(h) && Reaches(h, g, o, id, m) && Reaches(h, g, o, id, m')
    ensures Agree(m, m')
    decreases id
  {
    hide Agree, ExecBlock, BlockGood, Inv;
    if id == o.id {
      AgreeSymmetric(m', o.state);
      AgreeTransitive(m, o.state, m');
    } else {
      var b := id.blk;
      var m0: Db, boot: bool :| Reaches(h, g, o, b.prnt, m0) && Leads(h, g, m0, b, boot, m);
      var m0': Db, boot': bool :| Reaches(h, g, o, b.prnt, m0') && Leads(h, g, m0', b, boot', m');
      ReachesOne(h, g, o, b.prnt, m0, m0');
      BlockAlike(h, g, m0, m0', b, boot, boot');
      var e, e' := ExecBlock(h, g, m0, b, boot).value, ExecBlock(h, g, m0', b, boot').value;
      AgreeTransitive(m, e, e');
      AgreeSymmetric(m', e');
      AgreeTransitive(m, e', m');
    }
  }

  lemma ReachesNext(h: Hashes, g: Genesis, o: Origin, m: Db, b: Block, boot: bool)
    requires Reaches(h, g, o, b.prnt, m) && b.prnt.BlockHash? && Inv(g, m, W(b.prnt.blk.tmstmp))
    requires BlockGood(h, g, m, b, boot) && ExecBlock(h, g, m, b, boot).Ok? && BlockHash(b) != o.id
    ensures Reaches(h, g, o, BlockHash(b), ExecBlock(h, g, m, b, boot).value)
  {
    hide ExecBlock, BlockGood, Inv;
    assert Leads(h, g, m, b, boot, ExecBlock(h, g, m, b, boot).value);
  }

  // ---------- Verifying a block ----------

  lemma NotTooEarly(h: Hashes, g: Genesis, m: Db, b: Block, bootstrapped: bool)
    requires ExecBlock(h, g, m, b, bootstrapped).Ok? && b.prnt.BlockHash?
    ensures b.prnt.blk.tmstmp <= b.tmstmp
  {
  }

  lemma BlockStoresItself(h: Hashes, g: Genesis, root: BlockID, m: Db, b: Block, bootstrapped: bool)
    requires BlocksStored(h, root, b.prnt, m) && BlockHash(b) != root && !OnChain(root, b.prnt, BlockHash(b))
    requires ExecBlock(h, g, m, b, bootstrapped).Ok?
    ensures BlocksStored(h, root, BlockHash(b), ExecBlock(h, g, m, b, bootstrapped).value)
  {
    hide ExecBlock, Archived, ValuesTrue;
    BlockFilesItself(h, g, m, b, bootstrapped);
    var m' := ExecBlock(h, g, m, b, bootstrapped).value;
    forall x | OnChain(root, BlockHash(b), x) && x != root
      ensures x.BlockHash? && Archived(h, m', x.blk)
    {
      if x != BlockHash(b) {
        StaysArchived(h, m, m', x.blk);
      }
    }
  }

  lemma PruneKeepsFiles(h: Hashes, root: BlockID, id: BlockID, m: Db, done: set<Key>)
    requires BlocksStored(h, root, id, m) && forall k :: k in done ==> k.PruningKey?
    ensures BlocksStored(h, root, id, S.Pruned(m, done))
  {
    hide Archived;
    assert SameFiles(m, S.Pruned(m, done));
    forall x | OnChain(root, id, x) && x != root
      ensures Archived(h, S.Pruned(m, done), x.blk)
    {
      StaysArchived(h, m, S.Pruned(m, done), x.blk);
    }
  }

  lemma {:induction false} TxsWereChecked(h: Hashes, g: Genesis, m: Db, b: Block, bid: BlockID, c: S.Context,
                                          txs: seq<Tx>)
    requires ExecTxs(h, g, m, b, bid, c, txs).Ok?
    ensures forall i :: 0 <= i < |txs| ==> txs[i].blockID in c.recentBlockIDs && txs[i].ID() !in c.recentTxIDs
  {
    hide S.ExecAction, S.ApplyReward, S.Fee, S.RewardAmount, S.ExecuteBase;
    if |txs| > 0 {
      var n := |txs| - 1;
      TxsWereChecked(h, g, m, b, bid, c, txs[..n]);
      forall i | 0 <= i < |txs|
        ensures txs[i].blockID in c.recentBlockIDs && txs[i].ID() !in c.recentTxIDs
      {
        if i < n {
          assert txs[i] == txs[..n][i];
        }
      }
    }
  }

  lemma BlockWasChecked(h: Hashes, g: Genesis, m: Db, b: Block, bootstrapped: bool)
    requires ExecBlock(h, g, m, b, bootstrapped).Ok?
    ensures PreVerify(g, b).None? && Checked(g, BlockHash(b))
  {
    hide ExecTxs, Surplus, SizeOk, Recorded, S.Expire;
    var c := ExecutionContext(g, b.tmstmp, b.prnt);
    TxsWereChecked(h, g, S.Expire(m, W(b.tmstmp), bootstrapped), b, BlockHash(b), c, b.txs);
  }

  /** On the chain of any block the VM may still accept, no transaction is executed twice. */
  lemma NoReplayOnChain(g: Genesis, root: BlockID, id: BlockID, a: BlockID, d: BlockID, tx: Tx, tx': Tx)
    requires ChainVerified(g, root, id) && OnChain(root, id, d) && OnChain(root, d, a)
    requires a != d && a != root && a.BlockHash? && d.BlockHash?
    requires tx in a.blk.txs && tx' in d.blk.txs
    ensures tx.ID() != tx'.ID()
  {
    hide PreVerify, Checked;
    VerifiedOnChain(g, root, id, d);
    VerifiedOnChain(g, root, d, a);
    OnChainIsAncestor(root, d, a);
    assert d != root;
    NoReplay(g, a, d, tx, tx');
  }

  lemma {:induction false} VerifiedOnChain(g: Genesis, root: BlockID, id: BlockID, x: BlockID)
    requires ChainVerified(g, root, id) && OnChain(root, id, x)
    ensures ChainVerified(g, root, x)
    decreases id
  {
    hide PreVerify, Checked;
    if x != id {
      VerifiedOnChain(g, root, id.blk.prnt, x);
    }
  }

  lemma {:induction false} OnChainIsAncestor(root: BlockID, id: BlockID, x: BlockID)
    requires OnChain(root, id, x) && x != id
    ensures Ancestor(x, id) && id != root
    decreases id
  {
    if x != id.blk.prnt {
      OnChainIsAncestor(root, id.blk.prnt, x);
    }
  }

  /** And the cost and price of each of its blocks follow the recurrences. */
  lemma {:induction false} VerifiedIsPriced(g: Genesis, root: BlockID, id: BlockID)
    requires ChainVerified(g, root, id) && root.BlockHash? && id.BlockHash?
    requires 0 <= root.blk.tmstmp && id.blk.tmstmp < TWO63
    ensures Priced(g, root, id)
    decreases id
  {
    hide ExecutionContext, Checked, SizeOk;
    if id != root {
      VerifiedIsPriced(g, root, id.blk.prnt);
      assert id.blk.tmstmp >= id.blk.prnt.blk.tmstmp;
    }
  }

  /** Executing a block on any state its parent may be in leads to a state the block may be in. */
  lemma BlockLeadsToState(h: Hashes, g: Genesis, o: Origin, m: Db, b: Block, bootstrapped: bool)
    requires Sound(h) && o.id.BlockHash? && o.id.blk.prnt == EmptyBlockID
    requires StateOk(h, g, o, b.prnt, m)
    requires BlockGood(h, g, m, b, bootstrapped) && ExecBlock(h, g, m, b, bootstrapped).Ok?
    ensures StateOk(h, g, o, BlockHash(b), ExecBlock(h, g, m, b, bootstrapped).value)
  {
    hide ExecBlock, BlockGood, Inv, Agree, BlocksStored, PreVerify, Checked, Reaches;
    var id := BlockHash(b);
    NotItsOwnAncestor(o.id, b);
    BlockKeepsInv(h, g, m, b, bootstrapped);
    BlockStoresItself(h, g, o.id, m, b, bootstrapped);
    BlockWasChecked(h, g, m, b, bootstrapped);
    ReachesNext(h, g, o, m, b, bootstrapped);
    GoodTimes(h, g, m, b, bootstrapped);
  }

  lemma NotItsOwnAncestor(root: BlockID, b: Block)
    ensures !OnChain(root, b.prnt, BlockHash(b))
  {
    if OnChain(root, b.prnt, BlockHash(b)) {
      OnChainIsAncestral(root, b.prnt, BlockHash(b));
    }
  }

  lemma GoodTimes(h: Hashes, g: Genesis, m: Db, b: Block, bootstrapped: bool)
    requires BlockGood(h, g, m, b, bootstrapped)
    ensures 1 <= b.tmstmp < TWO63
  {
  }
}

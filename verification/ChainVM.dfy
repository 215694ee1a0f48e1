/** The VM object: what Verify, Accept, Reject, pruning and cache eviction do to it, and what every
    run of them keeps (block.go, chain_vm.go, helpers.go, vm.go, pruner.go).

    Snowman calls Verify on children of the last accepted block or of verified descendants of it,
    and Accept on a verified child of the last accepted block. */
module ChainVM {
  import opened Types
  import opened Keys
  import opened VersionDB
  import S = Store
  import opened Spaces
  import opened Chain
  import opened Blocks
  import opened BlockInvariants
  import opened Agreement
  import opened Archive
  import P = Storage
  import X = Execution
  import opened BlockTree

  /** Adding with wrap-around is associative. */
  lemma WrapSum(a: nat, b: nat, c: nat)
    ensures W(W(a + b) + c) == W(a + W(b + c))
  {
    WrapOnce(a + b, c);
    WrapOnce(b + c, a);
  }

  lemma WrapOnce(a: nat, b: nat)
    ensures W(W(a) + b) == W(a + b)
  {
  }

  /** What holds of every block that may still be accepted. */
  ghost predicate TreeOk(h: Hashes, g: Genesis, o: Origin, disk: Db, nodes: Nodes, verified: set<BlockID>,
                         last: BlockID) {
    forall id :: Rooted(verified, last, id) ==>
      Linked(nodes, last, id) && LayerOk(disk, nodes, id) && StateOk(h, g, o, id, ViewOf(disk, nodes, id))
  }

  ghost predicate OriginOk(h: Hashes, g: Genesis, o: Origin) {
    && Sound(h) && OriginGood(g, o) && o.id.blk.hght == 0 && o.id.blk.prnt == EmptyBlockID
    && forall s :: InfoKey(s) !in o.state
  }

  ghost predicate DiskOk(h: Hashes, g: Genesis, o: Origin, disk: Db, cached: set<BlockID>, last: BlockID) {
    && StateOk(h, g, o, last, disk)
    && OnChain(o.id, last, o.id)
    && (forall id :: id in cached ==> OnChain(o.id, last, id))
  }

  ghost predicate NodesOk(root: BlockID, nodes: Nodes, verified: set<BlockID>, last: BlockID) {
    && (forall id :: id in verified ==> id in nodes && nodes[id].st == Processing && !OnChain(root, last, id))
    && (forall id :: id in verified ==> HasParent(root, nodes, last, id))
    && (forall id, c :: id in nodes && c in nodes[id].children ==> c in nodes && c.BlockHash? && c.blk.prnt == id)
  }

  ghost predicate HasParent(root: BlockID, nodes: Nodes, last: BlockID, id: BlockID) {
    id.BlockHash? && (id.blk.prnt in nodes || OnChain(root, last, id.blk.prnt))
  }

  predicate SameLayer(n: Node, n': Node) {
    n'.mem == n.mem && n'.under == n.under && n'.st == n.st
  }

  /** parent.addChild(b) and vm.Verified(b). */
  function WithNode(nodes: Nodes, id: BlockID, n: Node): Nodes
    requires id.BlockHash?
  {
    var p := id.blk.prnt;
    (if p in nodes then nodes[p := nodes[p].(children := nodes[p].children + [id])] else nodes)[id := n]
  }

  lemma VerifyKeepsNodes(root: BlockID, nodes: Nodes, verified: set<BlockID>, last: BlockID, id: BlockID, n: Node)
    requires NodesOk(root, nodes, verified, last)
    requires id.BlockHash? && id !in nodes && !OnChain(root, last, id) && n.st == Processing && n.children == []
    requires id.blk.prnt in nodes || OnChain(root, last, id.blk.prnt)
    ensures NodesOk(root, WithNode(nodes, id, n), verified + {id}, last)
    ensures forall y :: y in verified ==> y.BlockHash? && y.blk.prnt != id
  {
    forall y | y in verified
      ensures y.BlockHash? && y.blk.prnt != id
    {
      assert HasParent(root, nodes, last, y);
    }
    forall y | y in verified + {id}
      ensures HasParent(root, WithNode(nodes, id, n), last, y)
    {
      if y != id {
        assert HasParent(root, nodes, last, y);
      }
    }
  }

  // ---------- Accept, Reject and pruning on the tree ----------

  function Rebased(nodes: Nodes, children: seq<BlockID>): Nodes {
    map x | x in nodes :: if x in children then nodes[x].(under := OnDisk) else nodes[x]
  }

  function AcceptedNodes(nodes: Nodes, id: BlockID): Nodes
    requires id in nodes
  {
    Rebased(nodes[id := nodes[id].(mem := map[], st := Accepted)], nodes[id].children)
  }

  lemma AcceptKeepsTree(h: Hashes, g: Genesis, o: Origin, disk: Db, nodes: Nodes, verified: set<BlockID>,
                        last: BlockID, id: BlockID)
    requires TreeOk(h, g, o, disk, nodes, verified, last) && NodesOk(o.id, nodes, verified, last)
    requires id in verified && id.BlockHash? && id.blk.prnt == last
    ensures id in nodes && ViewOf(disk, nodes, id) == Overlay(disk, nodes[id].mem)
    ensures FilesKept(disk, ViewOf(disk, nodes, id))
    ensures TreeOk(h, g, o, ViewOf(disk, nodes, id), AcceptedNodes(nodes, id), verified - {id}, id)
    ensures forall x :: Rooted(verified - {id}, id, x) ==>
      Rooted(verified, last, x) && ViewOf(ViewOf(disk, nodes, id), AcceptedNodes(nodes, id), x)
        == ViewOf(disk, nodes, x)
    ensures forall x :: Rooted(verified, last, x) && x.blk.prnt == id ==> Rooted(verified - {id}, id, x)
  {
    hide StateOk, X.SparesQueue, X.QueueKept;
    var nodes' := AcceptedNodes(nodes, id);
    assert Rooted(verified, last, id) && Linked(nodes, last, id);
    forall x | Rooted(verified - {id}, id, x)
      ensures Rooted(verified, last, x) && Linked(nodes, last, x) && x.blk.prnt != last && x != id
      ensures Linked(nodes', id, x) && nodes'[x].mem == nodes[x].mem
    {
      RootedInChild(verified, last, id, x);
      assert Linked(nodes, last, x);
    }
    forall x | Rooted(verified - {id}, id, x)
      ensures ViewOf(ViewOf(disk, nodes, id), nodes', x) == ViewOf(disk, nodes, x)
      ensures LayerOk(ViewOf(disk, nodes, id), nodes', x)
      ensures StateOk(h, g, o, x, ViewOf(ViewOf(disk, nodes, id), nodes', x))
    {
      CommitKeepsViews(disk, nodes, nodes', verified, last, id, x);
      assert LayerOk(disk, nodes, x) && StateOk(h, g, o, x, ViewOf(disk, nodes, x));
    }
  }

  lemma AcceptKeepsNodes(root: BlockID, nodes: Nodes, verified: set<BlockID>, last: BlockID, id: BlockID)
    requires NodesOk(root, nodes, verified, last) && OnChain(root, last, root)
    requires id in verified && id.BlockHash? && id.blk.prnt == last
    ensures id in nodes && NodesOk(root, AcceptedNodes(nodes, id), verified - {id}, id)
    ensures forall c :: c in nodes[id].children ==> c in nodes
  {
    var nodes' := AcceptedNodes(nodes, id);
    assert id != root && OnChain(root, id, id);
    assert forall x :: OnChain(root, id, x) <==> x == id || OnChain(root, last, x);
    hide OnChain;
    forall x | x in verified - {id}
      ensures !OnChain(root, id, x) && HasParent(root, nodes', id, x)
    {
      assert !OnChain(root, last, x) && HasParent(root, nodes, last, x);
    }
  }

  lemma AcceptKeepsDisk(h: Hashes, g: Genesis, o: Origin, disk: Db, nodes: Nodes, verified: set<BlockID>,
                        cached: set<BlockID>, last: BlockID, id: BlockID)
    requires TreeOk(h, g, o, disk, nodes, verified, last) && NodesOk(o.id, nodes, verified, last)
    requires DiskOk(h, g, o, disk, cached, last)
    requires id in verified && id.BlockHash? && id.blk.prnt == last
    ensures DiskOk(h, g, o, ViewOf(disk, nodes, id), cached + {id}, id)
  {
    hide StateOk;
    assert Rooted(verified, last, id);
    assert id != o.id;
  }

  lemma RejectKeepsTree(h: Hashes, g: Genesis, o: Origin, disk: Db, nodes: Nodes, verified: set<BlockID>,
                        last: BlockID, id: BlockID)
    requires TreeOk(h, g, o, disk, nodes, verified, last) && id in nodes
    ensures TreeOk(h, g, o, disk, nodes[id := nodes[id].(st := Rejected)], verified - {id}, last)
    ensures forall x :: Rooted(verified - {id}, last, x) ==>
      Rooted(verified, last, x) && ViewOf(disk, nodes[id := nodes[id].(st := Rejected)], x) == ViewOf(disk, nodes, x)
  {
    hide StateOk, X.SparesQueue, X.QueueKept;
    var nodes' := nodes[id := nodes[id].(st := Rejected)];
    forall x | Rooted(verified - {id}, last, x)
      ensures Rooted(verified, last, x) && Linked(nodes', last, x) && LayerOk(disk, nodes', x)
      ensures ViewOf(disk, nodes', x) == ViewOf(disk, nodes, x)
    {
      RootedMonotone(verified - {id}, verified, last, x);
      ViewFrame(disk, nodes, nodes', verified, last, x);
      assert Linked(nodes, last, x) && LayerOk(disk, nodes, x);
    }
  }

  // ---------- Every key, in runs without pruning ----------

  /** The disk and the view of every block that may still be accepted are, at every key, what executing
      the chain of that block on a plain map gives. */
  ghost predicate TreeExact(h: Hashes, g: Genesis, o: Origin, boot: bool, disk: Db, nodes: Nodes,
                            verified: set<BlockID>, last: BlockID) {
    && Canon(h, g, o, boot, last) == Ok(disk)
    && forall id :: Rooted(verified, last, id) ==> Canon(h, g, o, boot, id) == Ok(ViewOf(disk, nodes, id))
  }

  lemma VerifyKeepsExact(h: Hashes, g: Genesis, o: Origin, boot: bool, disk: Db, nodes: Nodes, nodes': Nodes,
                         verified: set<BlockID>, last: BlockID, id: BlockID, state: Db)
    requires TreeExact(h, g, o, boot, disk, nodes, verified, last)
    requires id.BlockHash? && id != o.id && (id.blk.prnt == last || Rooted(verified, last, id.blk.prnt))
    requires state == if id.blk.prnt == last then disk else ViewOf(disk, nodes, id.blk.prnt)
    requires ExecBlock(h, g, state, id.blk, boot) == Ok(ViewOf(disk, nodes', id))
    requires forall y :: y in verified ==> y.BlockHash? && y.blk.prnt != id
    requires forall x :: Rooted(verified, last, x) ==> ViewOf(disk, nodes', x) == ViewOf(disk, nodes, x)
    ensures TreeExact(h, g, o, boot, disk, nodes', verified + {id}, last)
  {
    hide ExecBlock, ViewOf;
    forall x | Rooted(verified + {id}, last, x)
      ensures Canon(h, g, o, boot, x) == Ok(ViewOf(disk, nodes', x))
    {
      RootedAfter(verified, last, id, x);
    }
  }

  function PrunedNodes(nodes: Nodes, last: BlockID): Nodes {
    if last in nodes then Rebased(nodes, nodes[last].children) else nodes
  }

  lemma FilesStay(m: Db, done: set<Key>)
    requires forall k :: k in done ==> k.PruningKey?
    ensures FilesKept(m, S.Pruned(m, done))
  {
  }

  lemma NothingPrunedIsExact(h: Hashes, g: Genesis, o: Origin, boot: bool, disk: Db, nodes: Nodes,
                             verified: set<BlockID>, last: BlockID)
    requires TreeExact(h, g, o, boot, disk, nodes, verified, last)
    requires forall x :: Rooted(verified, last, x) ==>
      ViewOf(S.Pruned(disk, {}), PrunedNodes(nodes, last), x) == S.Pruned(ViewOf(disk, nodes, x), {})
    ensures TreeExact(h, g, o, boot, S.Pruned(disk, {}), PrunedNodes(nodes, last), verified, last)
  {
    assert forall m: Db :: S.PrunedKeys(m, {}) == {} && S.Pruned(m, {}) == m;
  }

  lemma PruneKeepsTree(h: Hashes, g: Genesis, o: Origin, disk: Db, nodes: Nodes, verified: set<BlockID>, last: BlockID,
                       done: set<Key>)
    requires TreeOk(h, g, o, disk, nodes, verified, last) && NodesOk(o.id, nodes, verified, last)
    requires forall k :: k in done ==> k.PruningKey? && k in disk
    ensures TreeOk(h, g, o, S.Pruned(disk, done), PrunedNodes(nodes, last), verified, last)
    ensures NodesOk(o.id, PrunedNodes(nodes, last), verified, last)
    ensures forall x :: Rooted(verified, last, x) ==>
      && ViewOf(S.Pruned(disk, done), PrunedNodes(nodes, last), x) == S.Pruned(ViewOf(disk, nodes, x), done)
      && Agree(ViewOf(disk, nodes, x), S.Pruned(ViewOf(disk, nodes, x), done))
  {
    hide StateOk, X.SparesQueue, X.QueueKept, Agree, S.Pruned;
    var nodes' := PrunedNodes(nodes, last);
    forall x | Rooted(verified, last, x)
      ensures Linked(nodes, last, x) && Linked(nodes', last, x) && SameLayer(nodes[x], nodes'[x])
    {
    }
    forall x | Rooted(verified, last, x)
      ensures ViewOf(S.Pruned(disk, done), nodes', x) == S.Pruned(ViewOf(disk, nodes, x), done)
      ensures Agree(ViewOf(disk, nodes, x), S.Pruned(ViewOf(disk, nodes, x), done))
      ensures LayerOk(S.Pruned(disk, done), nodes', x)
      ensures StateOk(h, g, o, x, ViewOf(S.Pruned(disk, done), nodes', x))
    {
      ViewFrame(S.Pruned(disk, done), nodes, nodes', verified, last, x);
      PruneThrough(disk, nodes, verified, last, x, done);
      PruneKeepsLayer(BelowOf(disk, nodes, x), ViewOf(disk, nodes, x), nodes[x].mem, done);
      PruneKeepsState(h, g, o, x, ViewOf(disk, nodes, x), done);
    }
    assert NodesOk(o.id, nodes', verified, last) by {
      forall y | y in verified
        ensures HasParent(o.id, nodes', last, y)
      {
        assert HasParent(o.id, nodes, last, y);
      }
    }
  }

  /** A new block is rooted, and makes nothing else rooted. */
  lemma {:induction false} RootedAfter(verified: set<BlockID>, last: BlockID, id: BlockID, x: BlockID)
    requires Rooted(verified + {id}, last, x)
    requires forall y :: y in verified ==> y.BlockHash? && y.blk.prnt != id
    ensures x == id || Rooted(verified, last, x)
    decreases x
  {
    if x != id && x.blk.prnt != last {
      RootedAfter(verified, last, id, x.blk.prnt);
    }
  }

  lemma VerifyKeepsViews(disk: Db, nodes: Nodes, verified: set<BlockID>, last: BlockID, id: BlockID, n: Node)
    requires forall x :: Rooted(verified, last, x) ==> Linked(nodes, last, x)
    requires id.BlockHash? && id !in nodes
    ensures forall x :: Rooted(verified, last, x) ==>
      && x in nodes && Rooted(verified + {id}, last, x) && Linked(WithNode(nodes, id, n), last, x)
      && ViewOf(disk, WithNode(nodes, id, n), x) == ViewOf(disk, nodes, x)
      && BelowOf(disk, WithNode(nodes, id, n), x) == BelowOf(disk, nodes, x)
      && WithNode(nodes, id, n)[x].mem == nodes[x].mem
  {
    var nodes' := WithNode(nodes, id, n);
    assert forall x :: x in nodes ==> x in nodes' && SameLayer(nodes[x], nodes'[x]);
    assert forall x, c :: x in nodes && c in nodes[x].children ==> c in nodes'[x].children;
    hide WithNode;
    forall x | Rooted(verified, last, x)
      ensures Rooted(verified + {id}, last, x) && Linked(nodes', last, x) && nodes'[x].mem == nodes[x].mem
      ensures ViewOf(disk, nodes', x) == ViewOf(disk, nodes, x) && BelowOf(disk, nodes', x) == BelowOf(disk, nodes, x)
    {
      assert Linked(nodes, last, x);
      RootedMonotone(verified, verified + {id}, last, x);
      ViewFrame(disk, nodes, nodes', verified, last, x);
    }
  }

  lemma VerifyKeepsTree(h: Hashes, g: Genesis, o: Origin, disk: Db, nodes: Nodes,
                        verified: set<BlockID>, last: BlockID, id: BlockID, state: Db, n: Node)
    requires TreeOk(h, g, o, disk, nodes, verified, last)
    requires id.BlockHash? && id !in nodes
    requires id.blk.prnt == last || (Rooted(verified, last, id.blk.prnt) && id.blk.prnt.blk.hght != 0)
    requires state == if id.blk.prnt == last then disk else ViewOf(disk, nodes, id.blk.prnt)
    requires forall y :: y in verified ==> y.BlockHash? && y.blk.prnt != id
    requires n.st == Processing && n.under == if id.blk.prnt == last then OnDisk else OnBlock(id.blk.prnt)
    requires X.SparesQueue(state, n.mem) && X.QueueKept(state, Overlay(state, n.mem))
    requires FilesKept(state, Overlay(state, n.mem))
    requires StateOk(h, g, o, id, Overlay(state, n.mem))
    ensures TreeOk(h, g, o, disk, WithNode(nodes, id, n), verified + {id}, last)
    ensures Rooted(verified + {id}, last, id) && ViewOf(disk, WithNode(nodes, id, n), id) == Overlay(state, n.mem)
    ensures forall x :: Rooted(verified, last, x) ==>
      Rooted(verified + {id}, last, x) && ViewOf(disk, WithNode(nodes, id, n), x) == ViewOf(disk, nodes, x)
  {
    hide StateOk, X.SparesQueue, X.QueueKept;
    var nodes' := WithNode(nodes, id, n);
    VerifyKeepsViews(disk, nodes, verified, last, id, n);
    assert BelowOf(disk, nodes', id) == state && Linked(nodes', last, id) by {
      if id.blk.prnt != last {
        assert Linked(nodes, last, id.blk.prnt);
        assert Rooted(verified, last, id.blk.prnt);
      }
    }
    hide WithNode, Linked;
    forall x | Rooted(verified + {id}, last, x)
      ensures Linked(nodes', last, x) && LayerOk(disk, nodes', x) && StateOk(h, g, o, x, ViewOf(disk, nodes', x))
    {
      RootedAfter(verified, last, id, x);
      if x != id {
        assert LayerOk(disk, nodes, x);
      }
    }
  }

  class VM {
    const h: Hashes
    const g: Genesis
    ghost const o: Origin
    var db: Db
    var nodes: Nodes
    var verifiedBlocks: set<BlockID>
    var blocks: set<BlockID>  // the LRU cache of accepted blocks
    var lastAccepted: BlockID
    var bootstrapped: bool

    ghost predicate Valid()
      reads this
    {
      && OriginOk(h, g, o)
      && DiskOk(h, g, o, db, blocks, lastAccepted)
      && NodesOk(o.id, nodes, verifiedBlocks, lastAccepted)
      && TreeOk(h, g, o, db, nodes, verifiedBlocks, lastAccepted)
    }

    predicate IsRooted(id: BlockID)
      reads this
    {
      Rooted(verifiedBlocks, lastAccepted, id)
    }

    /** The blocks a new block may extend. */
    predicate Extendable(id: BlockID)
      reads this
    {
      id == lastAccepted || IsRooted(id)
    }

    /** The state after a block: the disk for the last accepted one, else the block's layers. */
    function StateOf(id: BlockID): Db
      reads this
    {
      if id == lastAccepted then db else ViewOf(db, nodes, id)
    }

    /** What the VM reads is, at every key and for every block it may build on, what executing the chain
        of the block from genesis on one plain map gives. */
    ghost predicate Exact()
      reads this
    {
      TreeExact(h, g, o, bootstrapped, db, nodes, verifiedBlocks, lastAccepted)
    }

    /** The first start: the genesis balances, with the genesis block recorded as the last accepted. */
    constructor (h: Hashes, g: Genesis, allocations: Db, genesis: Block)
      requires Sound(h) && forall k :: k in allocations ==> k.BalanceKey? && WellTyped(k, allocations[k])
      requires genesis.prnt == EmptyBlockID && genesis.hght == 0 && genesis.txs == [] && 0 <= genesis.tmstmp < TWO63
      ensures Valid() && this.h == h && this.g == g
      ensures o == Origin(BlockHash(genesis), Recorded(h, allocations, genesis)) && db == o.state
      ensures lastAccepted == BlockHash(genesis) && verifiedBlocks == {} && nodes == map[] && !bootstrapped
      ensures Exact()
    {
      var state := Recorded(h, allocations, genesis);
      this.h, this.g, this.o := h, g, Origin(BlockHash(genesis), state);
      db, nodes, verifiedBlocks, blocks, lastAccepted, bootstrapped := state, map[], {}, {}, BlockHash(genesis), false;
      new;
      GenesisIsOk(h, g, allocations, genesis);
    }

    /** A start from a disk that names a last accepted block. */
    constructor FromDisk(h: Hashes, g: Genesis, ghost o: Origin, disk: Db)
      requires OriginOk(h, g, o) && LastAcceptedKey in disk && disk[LastAcceptedKey].IDVal?
      requires DiskOk(h, g, o, disk, {}, disk[LastAcceptedKey].bid)
      ensures Valid() && this.h == h && this.g == g && this.o == o
      ensures db == disk && lastAccepted == disk[LastAcceptedKey].bid && verifiedBlocks == {} && !bootstrapped
      ensures Canon(h, g, o, false, lastAccepted) == Ok(disk) ==> Exact()
    {
      this.h, this.g, this.o := h, g, o;
      db, nodes, verifiedBlocks, blocks, bootstrapped := disk, map[], {}, {}, false;
      lastAccepted := disk[LastAcceptedKey].bid;
    }

    /** At any time the disk names the last accepted block, and will do to start from. */
    lemma DiskWillDo()
      requires Valid()
      ensures LastAcceptedKey in db && db[LastAcceptedKey] == IDVal(lastAccepted)
      ensures OriginOk(h, g, o) && DiskOk(h, g, o, db, {}, lastAccepted)
    {
      hide OriginOk, TreeOk, NodesOk;
    }

    // ---------- Three-tier block lookup ----------

    /** The status under which a block is found: in the cache, among the verified blocks, on disk. */
    function GetStatelessBlock(id: BlockID): (r: Option<Status>)
      requires Valid()
      reads this
      ensures r == if OnChain(o.id, lastAccepted, id) then Some(Accepted)
                   else if id in verifiedBlocks then Some(Processing) else None
    {
      if id in blocks then Some(Accepted)
      else if id in verifiedBlocks then Some(nodes[id].st)
      else if BlockKey(id) in db then Some(Accepted)
      else None
    }

    /** Every accepted block but genesis can be read back from disk as it was verified, with the values
        its transactions carried, however long ago it was accepted. */
    lemma AcceptedBlocksReadBack(id: BlockID)
      requires Valid() && OnChain(o.id, lastAccepted, id) && id != o.id
      ensures id.BlockHash? && ReadBlock(h, db, id) == Ok(id.blk)
    {
      hide OnChain, Archived, Inv, TreeOk, NodesOk, ReadBlock;
      ReadsBack(h, db, id.blk);
    }

    /** The cache may forget any block at any time. */
    method Evict(id: BlockID)
      requires Valid()
      modifies this`blocks
      ensures Valid() && blocks == old(blocks) - {id}
      ensures forall x :: GetStatelessBlock(x) == old(GetStatelessBlock(x))
      ensures old(Exact()) ==> Exact()
    {
      blocks := blocks - {id};
    }

    // ---------- ExecutionContext ----------

    /** Accepted, or verified and still acceptable. */
    ghost predicate Known(id: BlockID)
      reads this
    {
      OnChain(o.id, lastAccepted, id) || IsRooted(id)
    }

    /** The parent of every known block but genesis can be looked up. */
    lemma ParentIsKnown(id: BlockID)
      requires Valid() && Known(id) && id != o.id
      ensures id.BlockHash? && Known(id.blk.prnt)
    {
      hide TreeOk, NodesOk, StateOk;
      if OnChain(o.id, lastAccepted, id) {
        ParentOnChain(o.id, lastAccepted, id);
      } else {
        assert id.blk.prnt == lastAccepted ==> OnChain(o.id, lastAccepted, id.blk.prnt);
      }
    }

    lemma GenesisIsLow(id: BlockID)
      requires Valid() && id.BlockHash? && id.blk.hght != 0
      ensures id != o.id
    {
    }

    lemma KnownIsFound(id: BlockID)
      requires Valid() && Known(id)
      ensures GetStatelessBlock(id).Some?
    {
      hide Valid, OnChain;
    }

    /** vm.GetStatelessBlock(curr.Prnt) for a block of positive height. */
    method Parent(id: BlockID) returns (p: Option<BlockID>)
      requires Valid() && Known(id) && id.BlockHash? && id.blk.hght != 0
      ensures p == Some(id.blk.prnt) && Known(id.blk.prnt)
    {
      hide Valid, OnChain;
      GenesisIsLow(id);
      ParentIsKnown(id);
      KnownIsFound(id.blk.prnt);
      var found := GetStatelessBlock(id.blk.prnt);
      return if found.Some? then Some(id.blk.prnt) else None;
    }

    /** The lookback walk, its sets and its running total. Every block it asks for is found, however
        much the cache has forgotten. */
    method ExecutionContext(cur: int, last: BlockID) returns (c: Option<S.Context>)
      requires Valid() && Known(last) && last.BlockHash?
      ensures c == Some(Chain.ExecutionContext(g, cur, last))
    {
      hide Valid, Known, NextCost, NextPrice, W, LoadOf, TxIDsIn, IDsOf, TxIDsOf, UnitsOf;
      NothingSeen(g);
      var ids: set<BlockID>, txIDs: set<TxID>, units: uint64 := {}, {}, 0;
      var curr := last;
      var more := true;
      ghost var seen: seq<BlockID> := [];
      while more && InWindow(g, cur, curr, last)
        invariant Known(curr)
        invariant seen + (if more then Window(g, cur, curr, last) else []) == Window(g, cur, last, last)
        invariant ids == IDsOf(seen) && txIDs == TxIDsOf(seen) && units == UnitsOf(g, seen)
        decreases more, curr
      {
        SeenStep(g, seen, curr);
        seen := seen + [curr];
        ids := ids + {curr};
        var newTxs, newUnits := AddTxs(curr.blk.txs, units);
        txIDs, units := txIDs + newTxs, newUnits;
        if curr.blk.hght == 0 {
          more := false;
        } else {
          var parent := Parent(curr);
          if parent.None? {
            return None;
          }
          curr := parent.value;
        }
      }
      assert seen == Window(g, cur, last, last);
      return Some(S.Context(ids, txIDs, NextCost(g, last.blk, cur), NextPrice(g, last.blk, units, cur)));
    }

    method AddTxs(txs: seq<Tx>, start: uint64) returns (ids: set<TxID>, units: uint64)
      ensures ids == TxIDsIn(txs) && units == W(start + LoadOf(g, txs))
    {
      hide W, S.LoadUnits, TxIDsIn;
      ids, units := {}, start;
      NoTxs(start);
      var i := 0;
      while i < |txs|
        invariant 0 <= i <= |txs|
        invariant ids == TxIDsIn(txs[..i]) && units == W(start + LoadOf(g, txs[..i]))
      {
        assert txs[..i + 1][..i] == txs[..i] && txs[..i + 1][i] == txs[i];
        TxIDsStep(txs, i);
        WrapSum(start, LoadOf(g, txs[..i]), S.LoadUnits(g, txs[i].action));
        ids := ids + {txs[i].ID()};
        units := W(units + S.LoadUnits(g, txs[i].action));
        i := i + 1;
      }
      assert txs[..i] == txs;
    }

    lemma NoTxs(start: uint64)
      ensures TxIDsIn([]) == {} && W(start + LoadOf(g, [])) == start
    {
    }

    // ---------- Verify ----------

    /** parent.onAccept() for a verified or accepted parent. */
    function OnAccept(p: BlockID): Db
      requires p.BlockHash?
      reads this
    {
      if p == lastAccepted || p.blk.hght == 0 then db else ViewOf(db, nodes, p)
    }

    /** onAccept answers for the block itself: it has been accepted, or its height is not zero. */
    predicate Answers(p: BlockID)
      reads this
    {
      p == lastAccepted || (p.BlockHash? && p.blk.hght != 0)
    }

    /** For a block that is verified and may still be accepted, onAccept gives the block's own state
        exactly if its height is not zero. Verify accepts blocks of any height. */
    lemma OnAcceptExact(b: Block)
      requires Valid() && IsRooted(BlockHash(b))
      ensures OnAccept(BlockHash(b)) == StateOf(BlockHash(b)) <==> b.hght != 0
    {
      var id := BlockHash(b);
      RootedDescends(verifiedBlocks, lastAccepted, id);
      hide ViewOf, OnChain, Inv, Archived, Agree, Reaches, ChainVerified, Linked, LayerOk, NodesOk;
      NewBlockIsNew(id);
      assert StateOk(h, g, o, id, ViewOf(db, nodes, id));
      assert OnChain(o.id, id, id) by {
        SelfOnChain(o.id, id);
      }
      assert BlockKey(id) in ViewOf(db, nodes, id) && BlockKey(id) !in db;
    }

    /** A verified block's layer reads as its execution on its parent's state; nothing any other
        block reads changes; a block that fails leaves no trace. */
    method Verify(b: Block, now: int) returns (err: Option<Error>)
      requires Valid() && Extendable(b.prnt) && BlockHash(b) !in nodes
      requires Answers(b.prnt)
      requires b.prnt.BlockHash? && b.prnt.blk.tmstmp <= b.tmstmp ==> BlockGood(h, g, StateOf(b.prnt), b, bootstrapped)
      modifies this`nodes, this`verifiedBlocks
      ensures Valid()
      ensures b.tmstmp < now + 10 ==> match ExecBlock(h, g, old(StateOf(b.prnt)), b, bootstrapped)
        case Ok(m) => err == None && ViewOf(db, nodes, BlockHash(b)) == m
        case Err(e) => err == Some(e)
      ensures b.tmstmp >= now + 10 ==> err.Some?
      ensures err.Some? ==> unchanged(this)
      ensures err.None? ==> verifiedBlocks == old(verifiedBlocks) + {BlockHash(b)} && IsRooted(BlockHash(b))
      ensures forall x :: old(IsRooted(x)) ==> IsRooted(x) && ViewOf(db, nodes, x) == old(ViewOf(db, nodes, x))
      ensures forall x :: x in nodes ==> x in old(nodes) || x == BlockHash(b)
      ensures old(Exact()) ==> Exact()
    {
      hide ExecBlock, BlockGood, StateOk, TreeOk, NodesOk, DiskOk, OriginOk, Inv, X.SparesQueue, X.QueueKept, OnChain,
        Rooted, OnAccept;
      ParentState(b.prnt);
      var c := ExecutionContext(b.tmstmp, b.prnt);
      var state := OnAccept(b.prnt);
      var layer;
      err, layer := X.VerifyBlock(h, g, state, b, c.value, bootstrapped, now);
      if err.Some? {
        return;
      }
      NotTooEarly(h, g, state, b, bootstrapped);
      var id := BlockHash(b);
      NewBlockIsNew(id);
      BlockLeadsToState(h, g, o, state, b, bootstrapped);
      FiledSoFar(h, g, o, state, b, bootstrapped);
      var n := Node(Processing, layer.mem, if b.prnt == lastAccepted then OnDisk else OnBlock(b.prnt), []);
      VerifyKeepsNodes(o.id, nodes, verifiedBlocks, lastAccepted, id, n);
      VerifyKeepsTree(h, g, o, db, nodes, verifiedBlocks, lastAccepted, id, state, n);
      if Exact() {
        VerifyKeepsExact(h, g, o, bootstrapped, db, nodes, WithNode(nodes, id, n), verifiedBlocks, lastAccepted, id,
          state);
      }
      nodes := WithNode(nodes, id, n);
      verifiedBlocks := verifiedBlocks + {id};
    }

    /** The parent is a known block, its state is what onAccept returns, and it is a good one. */
    lemma ParentState(p: BlockID)
      requires Valid() && Extendable(p)
      ensures p.BlockHash? && 0 <= p.blk.tmstmp && Known(p) && (p in nodes || OnChain(o.id, lastAccepted, p))
      ensures Sound(h) && o.id.BlockHash? && o.id.blk.prnt == EmptyBlockID && Inv(g, StateOf(p), W(p.blk.tmstmp))
      ensures StateOk(h, g, o, p, StateOf(p)) && (Answers(p) ==> OnAccept(p) == StateOf(p))
    {
      hide OnChain, Inv, Reaches, BlocksStored, ChainVerified, LayerOk, NodesOk, ViewOf, Sound;
      StateIsGood(p);
      if p != lastAccepted {
        assert Linked(nodes, lastAccepted, p);
      }
    }

    lemma StateIsGood(p: BlockID)
      requires Valid() && Extendable(p)
      ensures StateOk(h, g, o, p, StateOf(p)) && Known(p)
    {
      hide StateOk, NodesOk, LayerOk, ViewOf, Linked;
      assert p == lastAccepted ==> OnChain(o.id, lastAccepted, p);
    }

    // ---------- Accept and Reject ----------

    /** Commit the block's layer to disk and re-base its children onto the disk. The disk becomes the
        state the block's layers read as, and no block that may still be accepted reads anything
        else than before. */
    method Accept(id: BlockID)
      requires Valid() && id in verifiedBlocks && id.BlockHash? && id.blk.prnt == lastAccepted
      modifies this
      ensures Valid()
      ensures db == old(ViewOf(db, nodes, id)) && FilesKept(old(db), db)
      ensures lastAccepted == id && verifiedBlocks == old(verifiedBlocks) - {id}
      ensures forall x :: IsRooted(x) ==> old(IsRooted(x)) && ViewOf(db, nodes, x) == old(ViewOf(db, nodes, x))
      ensures forall x :: old(IsRooted(x)) && x.blk.prnt == id ==> IsRooted(x)
      ensures bootstrapped == old(bootstrapped) && nodes.Keys == old(nodes).Keys
      ensures old(Exact()) ==> Exact()
    {
      hide StateOk, TreeOk, NodesOk, OnChain;
      AcceptKeepsTree(h, g, o, db, nodes, verifiedBlocks, lastAccepted, id);
      AcceptKeepsNodes(o.id, nodes, verifiedBlocks, lastAccepted, id);
      AcceptKeepsDisk(h, g, o, db, nodes, verifiedBlocks, blocks, lastAccepted, id);
      var n := nodes[id];
      db := Overlay(db, n.mem);
      nodes := nodes[id := n.(mem := map[], st := Accepted)];
      Rebase(n.children);
      blocks := blocks + {id};
      verifiedBlocks := verifiedBlocks - {id};
      lastAccepted := id;
    }

    /** child.onAcceptDB.SetDatabase(vm.State()) for each child. */
    method Rebase(children: seq<BlockID>)
      requires forall c :: c in children ==> c in nodes
      modifies this`nodes
      ensures nodes == Rebased(old(nodes), children)
    {
      var i := 0;
      while i < |children|
        invariant 0 <= i <= |children|
        invariant nodes == Rebased(old(nodes), children[..i])
      {
        assert children[..i + 1] == children[..i] + [children[i]];
        nodes := nodes[children[i] := nodes[children[i]].(under := OnDisk)];
        i := i + 1;
      }
      assert children[..i] == children;
    }

    method Reject(id: BlockID)
      requires Valid() && id in verifiedBlocks
      modifies this`nodes, this`verifiedBlocks
      ensures Valid() && verifiedBlocks == old(verifiedBlocks) - {id}
      ensures forall x :: IsRooted(x) ==> old(IsRooted(x)) && ViewOf(db, nodes, x) == old(ViewOf(db, nodes, x))
      ensures old(Exact()) ==> Exact()
    {
      hide StateOk, TreeOk, OnChain;
      RejectKeepsTree(h, g, o, db, nodes, verifiedBlocks, lastAccepted, id);
      nodes := nodes[id := nodes[id].(st := Rejected)];
      verifiedBlocks := verifiedBlocks - {id};
    }

    // ---------- Pruning and bootstrapping ----------

    /** pruneCall. The disk loses queue entries and values of dead spaces, every block's view loses
        the same and nothing else, and nothing that can be read for a live space changes. */
    method PruneCall(limit: int) returns (again: bool, ghost done: set<Key>)
      requires Valid()
      modifies this`db, this`nodes
      ensures Valid()
      ensures db == S.Pruned(old(db), done) && Agree(old(db), db) && FilesKept(old(db), db)
      ensures forall x :: IsRooted(x) ==>
        && ViewOf(db, nodes, x) == S.Pruned(old(ViewOf(db, nodes, x)), done)
        && Agree(old(ViewOf(db, nodes, x)), ViewOf(db, nodes, x))
      ensures P.WorkedOff(old(db), done, limit) && (again <==> |done| == limit)
      ensures nodes.Keys == old(nodes).Keys
      ensures old(Exact()) && done == {} ==> Exact()
    {
      hide StateOk, TreeOk, OnChain, Agree, Inv, TimeKeyIn, TreeExact, S.Pruned, FilesKept;
      var layer := new Database(db);
      var removals;
      removals, done := P.PruneNext(h, layer, limit);
      P.AllWorkedOff(db, done, limit);
      PruneKeepsTree(h, g, o, db, nodes, verifiedBlocks, lastAccepted, done);
      PruneKeepsState(h, g, o, lastAccepted, db, done);
      FilesStay(db, done);
      if done == {} && Exact() {
        NothingPrunedIsExact(h, g, o, bootstrapped, db, nodes, verifiedBlocks, lastAccepted);
      }
      db := Overlay(db, layer.mem);
      if lastAccepted in nodes {
        Rebase(nodes[lastAccepted].children);
      }
      again := removals == limit;
    }

    method SetBootstrapped(value: bool)
      requires Valid()
      modifies this`bootstrapped
      ensures Valid() && bootstrapped == value
      ensures old(Exact()) && (value == old(bootstrapped) || (lastAccepted == o.id && verifiedBlocks == {})) ==> Exact()
    {
      bootstrapped := value;
    }

    /** A child of a block that can be extended is not on the accepted chain. */
    lemma NewBlockIsNew(id: BlockID)
      requires Valid() && id.BlockHash? && Extendable(id.blk.prnt)
      ensures !OnChain(o.id, lastAccepted, id) && id != o.id
    {
      if id.blk.prnt != lastAccepted {
        RootedDescends(verifiedBlocks, lastAccepted, id.blk.prnt);
      }
      if OnChain(o.id, lastAccepted, id) {
        OnChainIsAncestral(o.id, lastAccepted, id);
      }
      OnChainIsAncestral(o.id, lastAccepted, o.id);
    }
  }

  lemma SelfOnChain(root: BlockID, id: BlockID)
    ensures OnChain(root, id, id)
  {
  }

  lemma FiledSoFar(h: Hashes, g: Genesis, o: Origin, m: Db, b: Block, bootstrapped: bool)
    requires StateOk(h, g, o, b.prnt, m) && ExecBlock(h, g, m, b, bootstrapped).Ok?
    ensures FilesKept(m, ExecBlock(h, g, m, b, bootstrapped).value)
  {
    hide ExecBlock, Inv, Reaches, ChainVerified, FilesKept;
    NotItsOwnAncestor(o.id, b);
    BlockFilesItself(h, g, m, b, bootstrapped);
  }

  lemma {:induction false} ParentOnChain(root: BlockID, id: BlockID, x: BlockID)
    requires OnChain(root, id, x) && x != root && OnChain(root, id, root)
    ensures x.BlockHash? && OnChain(root, id, x.blk.prnt)
    decreases id
  {
    if x == id {
      assert OnChain(root, id, id.blk.prnt);
    } else {
      ParentOnChain(root, id.blk.prnt, x);
    }
  }

  lemma SeenStep(g: Genesis, seen: seq<BlockID>, curr: BlockID)
    requires curr.BlockHash?
    ensures IDsOf(seen + [curr]) == IDsOf(seen) + {curr}
    ensures TxIDsOf(seen + [curr]) == TxIDsOf(seen) + TxIDsIn(curr.blk.txs)
    ensures UnitsOf(g, seen + [curr]) == W(UnitsOf(g, seen) + LoadOf(g, curr.blk.txs))
  {
    assert (seen + [curr])[..|seen|] == seen && (seen + [curr])[|seen|] == curr;
  }

  lemma NothingSeen(g: Genesis)
    ensures IDsOf([]) == {} && TxIDsOf([]) == {} && UnitsOf(g, []) == 0
  {
  }

  lemma TxIDsStep(txs: seq<Tx>, i: nat)
    requires i < |txs|
    ensures TxIDsIn(txs[..i + 1]) == TxIDsIn(txs[..i]) + {txs[i].ID()}
  {
  }

  lemma AgreeSelf(m: Db)
    ensures Agree(m, m)
  {
  }

  /** Stopping at any time and starting from the disk loses the blocks that were only verified, and
      nothing else: the new VM is valid, in the same state, with the same last accepted block. */
  method Restart(vm: VM) returns (again: VM)
    requires vm.Valid()
    ensures fresh(again) && again.Valid() && again.h == vm.h && again.g == vm.g && again.o == vm.o
    ensures again.db == vm.db && again.lastAccepted == vm.lastAccepted && again.verifiedBlocks == {}
    ensures vm.Exact() && !vm.bootstrapped ==> again.Exact()
  {
    hide VM.Valid, DiskOk, OriginOk;
    vm.DiskWillDo();
    again := new VM.FromDisk(vm.h, vm.g, vm.o, vm.db);
  }

  lemma GenesisIsStored(h: Hashes, g: Genesis, allocations: Db, genesis: Block)
    requires forall k :: k in allocations ==> k.BalanceKey? && WellTyped(k, allocations[k])
    requires genesis.txs == []
    ensures var m := Recorded(h, allocations, genesis);
      BlocksStored(h, BlockHash(genesis), BlockHash(genesis), m) && forall now: uint64 :: Inv(g, m, now)
  {
    var m := Recorded(h, allocations, genesis);
    assert m == allocations[LastAcceptedKey := IDVal(BlockHash(genesis))]
      [BlockKey(BlockHash(genesis)) := BlockVal(genesis.(txs := []))];
    forall now: uint64
      ensures Inv(g, m, now)
    {
      AllocationsSatisfyInv(g, m, now);
    }
  }

  /** The state after genesis. */
  lemma GenesisIsOk(h: Hashes, g: Genesis, allocations: Db, genesis: Block)
    requires Sound(h) && forall k :: k in allocations ==> k.BalanceKey? && WellTyped(k, allocations[k])
    requires genesis.prnt == EmptyBlockID && genesis.hght == 0 && genesis.txs == [] && 0 <= genesis.tmstmp < TWO63
    ensures var o := Origin(BlockHash(genesis), Recorded(h, allocations, genesis));
      OriginOk(h, g, o) && StateOk(h, g, o, o.id, o.state)
  {
    AgreeSelf(Recorded(h, allocations, genesis));
    GenesisIsStored(h, g, allocations, genesis);
  }

  /** Two nodes on the same network agree about a block both may build on, whatever each of them has
      verified, accepted, rejected, pruned and bootstrapped on its way there. */
  lemma TwoNodesAgree(a: VM, b: VM, id: BlockID)
    requires a.Valid() && b.Valid() && a.h == b.h && a.g == b.g && a.o == b.o
    requires a.Extendable(id) && b.Extendable(id)
    ensures Agree(a.StateOf(id), b.StateOf(id))
  {
    hide Agree, Inv, VM.Valid, VM.Extendable, VM.StateOf, VM.OnAccept, VM.Known, Reaches, BlocksStored;
    a.ParentState(id);
    b.ParentState(id);
    ReachesOne(a.h, a.g, a.o, id, a.StateOf(id), b.StateOf(id));
  }
}

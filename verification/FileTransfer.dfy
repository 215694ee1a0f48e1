/** Uploading a file to the store and reading it back (anchorapp/tests/utils.ts). */
module FileTransfer {
  import T = Types
  import opened FileStore

  // ---------- Reading ----------

  datatype Inode = Inode(direct: seq<Key>, next: Option<Key>)

  function ReadInode(l: Ledger, k: Key): Outcome<Inode>
    requires Sane(l)
  {
    if k !in l then Failed(NoAccount)
    else if !l[k].isInode then Failed(NotAnInode)
    else
      var inodes := l[k].content.inodes;
      Done(Inode(seq(l[k].size, i requires 0 <= i < l[k].size => inodes[i + 1].value), inodes[0]))
  }

  function ReadData(l: Ledger, k: Key): Outcome<seq<byte>>
    requires Sane(l)
  {
    if k !in l then Failed(NoAccount)
    else if l[k].isInode then Failed(NotADataBlock)
    else Done(l[k].content.data[..l[k].size])
  }

  /** The data blocks' contents, one after the other. */
  function ReadAll(l: Ledger, keys: seq<Key>): Outcome<seq<byte>>
    requires Sane(l)
  {
    if |keys| == 0 then Done([])
    else match ReadAll(l, keys[..|keys| - 1])
      case Failed(e) => Failed(e)
      case Done(bytes) =>
        match ReadData(l, keys[|keys| - 1])
        case Failed(e) => Failed(e)
        case Done(more) => Done(bytes + more)
  }

  /** Inodes that follow one another, from `head` on. */
  predicate Path(l: Ledger, head: Key, path: seq<Key>)
    requires Sane(l)
  {
    && |path| > 0 && path[0] == head
    && forall i :: 0 <= i < |path| - 1 ==>
      ReadInode(l, path[i]).Done? && ReadInode(l, path[i]).value.next == T.Some(path[i + 1])
  }

  /** Nothing follows: the inode cannot be read, or has no next. */
  predicate Ends(l: Ledger, k: Key)
    requires Sane(l)
  {
    ReadInode(l, k).Failed? || ReadInode(l, k).value.next == T.None
  }

  /** The inodes met from `head` on, up to the one where the list ends. */
  predicate Walk(l: Ledger, head: Key, walk: seq<Key>)
    requires Sane(l)
  {
    Path(l, head, walk) && Ends(l, walk[|walk| - 1])
  }

  /** What has been read so far, and the data blocks of one more inode, or the first error. */
  function AndInode(l: Ledger, sofar: Outcome<seq<byte>>, k: Key): Outcome<seq<byte>>
    requires Sane(l)
  {
    if sofar.Failed? then sofar
    else match ReadInode(l, k)
      case Failed(e) => Failed(e)
      case Done(inode) =>
        match ReadAll(l, inode.direct)
        case Failed(e) => Failed(e)
        case Done(more) => Done(sofar.value + more)
  }

  /** The contents of the data blocks listed along a walk. */
  function Downloaded(l: Ledger, walk: seq<Key>): Outcome<seq<byte>>
    requires Sane(l)
  {
    if |walk| == 0 then Done([]) else AndInode(l, Downloaded(l, walk[..|walk| - 1]), walk[|walk| - 1])
  }

  lemma {:induction false} ReadMore(l: Ledger, keys: seq<Key>, more: seq<Key>)
    requires Sane(l)
    ensures ReadAll(l, keys + more) == match ReadAll(l, keys)
      case Failed(e) => Failed(e)
      case Done(a) => match ReadAll(l, more) case Failed(e) => Failed(e) case Done(b) => Done(a + b)
  {
    if |more| == 0 {
      assert keys + more == keys;
      if ReadAll(l, keys).Done? {
        assert ReadAll(l, keys).value + [] == ReadAll(l, keys).value;
      }
    } else {
      var n := |more| - 1;
      ReadMore(l, keys, more[..n]);
      assert (keys + more)[..|keys| + n] == keys + more[..n];
      if ReadAll(l, keys).Done? && ReadAll(l, more).Done? {
        var a, b, c := ReadAll(l, keys).value, ReadAll(l, more[..n]).value, ReadData(l, more[n]).value;
        assert (a + b) + c == a + (b + c);
      }
    }
  }

  /** downloadFile. The loop follows the list of inodes, which must have an end. */
  method DownloadFile(l: Ledger, inodeKey: Key, ghost walk: seq<Key>) returns (r: Outcome<seq<byte>>)
    requires Sane(l) && Walk(l, inodeKey, walk)
    ensures r == Downloaded(l, walk)
  {
    hide ReadInode, ReadAll, Downloaded;
    NothingDownloaded(l);
    var file: seq<byte> := [];
    var curr := inodeKey;
    ghost var i := 0;
    var more := true;
    while more
      invariant 0 <= i <= |walk|
      invariant more ==> i < |walk| && curr == walk[i]
      invariant !more ==> i == |walk|
      invariant Downloaded(l, walk[..i]) == Done(file)
      decreases |walk| - i
    {
      DownloadStep(l, walk, i);
      var currInode := ReadInode(l, curr);
      if currInode.Failed? {
        FailsLater(l, walk, i + 1);
        return Failed(currInode.error);
      }
      var data := ReadDirect(l, currInode.value.direct);
      if data.Failed? {
        FailsLater(l, walk, i + 1);
        return data;
      }
      file := file + data.value;
      WalkGoesOn(l, inodeKey, walk, i);
      i := i + 1;
      if currInode.value.next.None? {
        more := false;
      } else {
        curr := currInode.value.next.value;
      }
    }
    assert walk[..i] == walk;
    return Done(file);
  }

  lemma WalkGoesOn(l: Ledger, head: Key, walk: seq<Key>, i: nat)
    requires Sane(l) && Walk(l, head, walk) && i < |walk| && ReadInode(l, walk[i]).Done?
    ensures ReadInode(l, walk[i]).value.next == if i + 1 < |walk| then T.Some(walk[i + 1]) else T.None
  {
  }

  lemma NothingDownloaded(l: Ledger)
    requires Sane(l)
    ensures Downloaded(l, []) == Done([])
  {
  }

  lemma DownloadStep(l: Ledger, walk: seq<Key>, i: nat)
    requires Sane(l) && i < |walk|
    ensures Downloaded(l, walk[..i + 1]) == AndInode(l, Downloaded(l, walk[..i]), walk[i])
  {
    assert walk[..i + 1][..i] == walk[..i] && walk[..i + 1][i] == walk[i];
    hide AndInode;
  }

  method ReadDirect(l: Ledger, keys: seq<Key>) returns (r: Outcome<seq<byte>>)
    requires Sane(l)
    ensures r == ReadAll(l, keys)
  {
    var file: seq<byte> := [];
    var i := 0;
    while i < |keys|
      invariant 0 <= i <= |keys|
      invariant ReadAll(l, keys[..i]) == Done(file)
    {
      assert keys[..i + 1][..i] == keys[..i];
      var data := ReadData(l, keys[i]);
      if data.Failed? {
        assert keys == keys[..i + 1] + keys[i + 1..];
        ReadMore(l, keys[..i + 1], keys[i + 1..]);
        return data;
      }
      file := file + data.value;
      i := i + 1;
    }
    assert keys[..i] == keys;
    return Done(file);
  }

  lemma ReadNothing(l: Ledger)
    requires Sane(l)
    ensures ReadAll(l, []) == Done([])
  {
  }

  lemma {:induction false} FailsLater(l: Ledger, walk: seq<Key>, i: nat)
    requires Sane(l) && i <= |walk| && Downloaded(l, walk[..i]).Failed?
    ensures Downloaded(l, walk) == Downloaded(l, walk[..i])
    decreases |walk| - i
  {
    hide ReadInode, ReadAll, Downloaded;
    if i == |walk| {
      assert walk[..i] == walk;
    } else {
      DownloadStep(l, walk, i);
      FailsLater(l, walk, i + 1);
    }
  }

  // ---------- When a download comes to an end ----------

  /** The list leads back to an inode it has passed. */
  ghost predicate Cyclic(l: Ledger, head: Key)
    requires Sane(l)
  {
    exists path :: Path(l, head, path) && !Distinct(path)
  }

  predicate Distinct(keys: seq<Key>) {
    forall i, j :: 0 <= i < j < |keys| ==> keys[i] != keys[j]
  }

  /** There is one way to go only, and no way to go past the end. */
  lemma {:induction false} PathInWalk(l: Ledger, head: Key, path: seq<Key>, walk: seq<Key>)
    requires Sane(l) && Path(l, head, path) && Walk(l, head, walk)
    ensures |path| <= |walk| && path == walk[..|path|]
    decreases |path|
  {
    hide ReadInode;
    var n := |path| - 1;
    if n > 0 {
      PathInWalk(l, head, path[..n], walk);
      assert path[n - 1] == path[..n][n - 1] == walk[n - 1];
      assert ReadInode(l, path[n - 1]).value.next == T.Some(path[n]);
      assert |walk| > n && ReadInode(l, walk[n - 1]).value.next == T.Some(walk[n]);
      assert path == path[..n] + [path[n]];
    }
  }

  lemma WalkFrom(l: Ledger, head: Key, walk: seq<Key>, i: nat)
    requires Sane(l) && Walk(l, head, walk) && i < |walk|
    ensures Walk(l, walk[i], walk[i..])
  {
    hide ReadInode;
  }

  lemma CycleHasNoEnd(l: Ledger, head: Key, path: seq<Key>, walk: seq<Key>)
    requires Sane(l) && Path(l, head, path) && Walk(l, head, walk)
    ensures Distinct(path)
  {
    PathInWalk(l, head, path, walk);
    hide Path, Ends, ReadInode;
    forall i, j | 0 <= i < j < |path|
      ensures path[i] != path[j]
    {
      if walk[i] == walk[j] {
        WalkFrom(l, head, walk, i);
        WalkFrom(l, head, walk, j);
        WalkLength(l, walk[i], walk[i..], walk[j..]);
      }
    }
  }

  lemma WalkLength(l: Ledger, head: Key, walk: seq<Key>, walk': seq<Key>)
    requires Sane(l) && Walk(l, head, walk) && Walk(l, head, walk')
    ensures |walk| == |walk'|
  {
    PathInWalk(l, head, walk, walk');
    PathInWalk(l, head, walk', walk);
  }

  lemma {:induction false} NoMoreThan(keys: seq<Key>, all: set<Key>)
    requires Distinct(keys) && forall k :: k in keys ==> k in all
    ensures |keys| <= |all|
  {
    if |keys| > 0 {
      var n := |keys| - 1;
      NoMoreThan(keys[..n], all - {keys[n]});
    }
  }

  lemma {:induction false} EndOrCycle(l: Ledger, head: Key, path: seq<Key>)
    requires Sane(l) && Path(l, head, path) && Distinct(path)
    ensures Cyclic(l, head) || exists walk :: Walk(l, head, walk)
    decreases |l.Keys| + 1 - |path|
  {
    var last := path[|path| - 1];
    if Ends(l, last) {
      assert Walk(l, head, path);
    } else {
      var path' := path + [ReadInode(l, last).value.next.value];
      assert forall i :: 0 <= i < |path| ==> path[i] in l;
      NoMoreThan(path, l.Keys);
      hide ReadInode, Ends;
      if Distinct(path') {
        EndOrCycle(l, head, path');
      }
      assert Path(l, head, path');
    }
  }

  /** The list has an end, so that a download does, exactly if it never leads back to an inode it has
      passed. */
  lemma EndExact(l: Ledger, head: Key)
    requires Sane(l)
    ensures (exists walk :: Walk(l, head, walk)) <==> !Cyclic(l, head)
  {
    if walk :| Walk(l, head, walk) {
      forall path | Path(l, head, path)
        ensures Distinct(path)
      {
        CycleHasNoEnd(l, head, path, walk);
      }
    } else {
      EndOrCycle(l, head, [head]);
    }
  }

  // ---------- Uploading ----------

  /** What an asynchronous call will do once it is run. */
  datatype Promise =
    | CreateData(key: Key, chunk: seq<byte>)
    | CreateInode(key: Key, inode: Inode)

  /** Keypair.generate: every key is new. */
  class Keypairs {
    var next: Key

    constructor (first: Key)
      ensures next == first
    {
      next := first;
    }

    method Generate() returns (k: Key)
      modifies this
      ensures k == old(next) && next == k + 1
    {
      k := next;
      next := next + 1;
    }
  }

  /** Each chunk read from the file fills a data block at most and is not empty. */
  predicate Chunked(chunks: seq<seq<byte>>) {
    forall i :: 0 <= i < |chunks| ==> 1 <= |chunks[i]| <= DATA_SIZE
  }

  function Min(a: nat, b: nat): nat {
    if a <= b then a else b
  }

  /** The j-th inode lists the j-th run of at most 30 data blocks and points to the next inode. */
  function InodeAt(blockKeys: seq<Key>, inodeKeys: seq<Key>, j: nat): Inode
    requires j < |inodeKeys| && FANOUT * j <= |blockKeys|
  {
    Inode(blockKeys[FANOUT * j..Min(FANOUT * j + FANOUT, |blockKeys|)],
      if j + 1 < |inodeKeys| then T.Some(inodeKeys[j + 1]) else T.None)
  }

  predicate Ascending(keys: seq<Key>, first: Key, end: Key) {
    && (forall i :: 0 <= i < |keys| ==> first <= keys[i] < end)
    && forall i, j :: 0 <= i < j < |keys| ==> keys[i] < keys[j]
  }

  /** What uploadFile sets in motion: a data block for every chunk, and just enough inodes. */
  ghost predicate Planned(chunks: seq<seq<byte>>, blockKeys: seq<Key>, inodeKeys: seq<Key>, promises: seq<Promise>) {
    var n := |chunks|;
    && |blockKeys| == n && FANOUT * (|inodeKeys| - 1) < n <= FANOUT * |inodeKeys|
    && |promises| == n + |inodeKeys|
    && (forall i :: 0 <= i < n ==> promises[i] == CreateData(blockKeys[i], chunks[i]))
    && forall j :: 0 <= j < |inodeKeys| ==>
      promises[n + j] == CreateInode(inodeKeys[j], InodeAt(blockKeys, inodeKeys, j))
  }

  method UploadFile(chunks: seq<seq<byte>>, keypairs: Keypairs)
    returns (r: Outcome<Key>, promises: seq<Promise>, ghost blockKeys: seq<Key>, ghost inodeKeys: seq<Key>)
    modifies keypairs
    ensures chunks == [] ==> r == Failed(EmptyFile)
    ensures chunks != [] ==>
      && Planned(chunks, blockKeys, inodeKeys, promises) && r == Done(inodeKeys[0])
      && Ascending(blockKeys + inodeKeys, old(keypairs.next), keypairs.next)
  {
    var dataKeys;
    dataKeys, promises := UploadChunks(chunks, keypairs);
    if |dataKeys| == 0 {
      return Failed(EmptyFile), promises, [], [];
    }
    ghost var middle := keypairs.next;
    var head, more;
    head, more, inodeKeys := LinkInodes(dataKeys, keypairs);
    promises := promises + more;
    blockKeys := dataKeys;
    r := Done(head);
  }

  method UploadChunks(chunks: seq<seq<byte>>, keypairs: Keypairs) returns (blockKeys: seq<Key>, promises: seq<Promise>)
    modifies keypairs
    ensures |promises| == |blockKeys| == |chunks|
    ensures forall i :: 0 <= i < |chunks| ==> promises[i] == CreateData(blockKeys[i], chunks[i])
    ensures Ascending(blockKeys, old(keypairs.next), keypairs.next) && old(keypairs.next) <= keypairs.next
  {
    blockKeys, promises := [], [];
    var at := 0;
    while true
      invariant 0 <= at <= |chunks| && |promises| == |blockKeys| == at && old(keypairs.next) <= keypairs.next
      invariant forall i :: 0 <= i < at ==> promises[i] == CreateData(blockKeys[i], chunks[i])
      invariant Ascending(blockKeys, old(keypairs.next), keypairs.next)
      decreases |chunks| - at
    {
      var blockKey := keypairs.Generate();
      // End of file reached.
      if at == |chunks| {
        break;
      }
      promises := promises + [CreateData(blockKey, chunks[at])];
      blockKeys := blockKeys + [blockKey];
      at := at + 1;
    }
  }

  method LinkInodes(blockKeys: seq<Key>, keypairs: Keypairs)
    returns (head: Key, promises: seq<Promise>, ghost inodeKeys: seq<Key>)
    requires |blockKeys| > 0
    modifies keypairs
    ensures |promises| == |inodeKeys| && FANOUT * (|inodeKeys| - 1) < |blockKeys| <= FANOUT * |inodeKeys|
    ensures forall j :: 0 <= j < |inodeKeys| ==>
      promises[j] == CreateInode(inodeKeys[j], InodeAt(blockKeys, inodeKeys, j))
    ensures inodeKeys[0] == head
    ensures Ascending(inodeKeys, old(keypairs.next), keypairs.next) && old(keypairs.next) <= keypairs.next
  {
    hide Linked, InodeAt;
    promises := [];
    var first := keypairs.Generate();
    var headInodeKey: Option<Key> := T.None;
    var currInodeKey: Option<Key> := T.Some(first);
    inodeKeys := [first];
    ghost var j: nat := 0;
    NoneLinked(blockKeys, inodeKeys);
    var i := 0;
    while i < |blockKeys|
      invariant i == FANOUT * j && |promises| == j && old(keypairs.next) <= keypairs.next
      invariant |inodeKeys| == if i < |blockKeys| then j + 1 else j
      invariant |inodeKeys| > 0 && inodeKeys[0] == first && FANOUT * (|inodeKeys| - 1) < |blockKeys|
      invariant i < |blockKeys| ==> currInodeKey == T.Some(inodeKeys[j])
      invariant Linked(blockKeys, inodeKeys, promises)
      invariant Ascending(inodeKeys, old(keypairs.next), keypairs.next)
      invariant headInodeKey == if j == 0 then T.None else T.Some(first)
      decreases |blockKeys| - i
    {
      ghost var keys := inodeKeys;
      var nextInodeKey: Option<Key> := T.None;
      if i + FANOUT < |blockKeys| {
        var key := keypairs.Generate();
        nextInodeKey := T.Some(key);
        inodeKeys := inodeKeys + [key];
      }
      var inode := Inode(blockKeys[i..Min(i + FANOUT, |blockKeys|)], nextInodeKey);
      LinkMore(blockKeys, keys, inodeKeys, promises);
      promises := promises + [CreateInode(currInodeKey.value, inode)];
      if headInodeKey.None? {
        headInodeKey := currInodeKey;
      }
      currInodeKey := nextInodeKey;
      i := i + FANOUT;
      j := j + 1;
    }
    head := headInodeKey.value;
    AllLinked(blockKeys, inodeKeys, promises);
  }

  /** The first promises are for the first inodes. */
  predicate Linked(blockKeys: seq<Key>, inodeKeys: seq<Key>, promises: seq<Promise>) {
    forall j :: 0 <= j < |promises| ==>
      && j < |inodeKeys| && FANOUT * j <= |blockKeys|
      && promises[j] == CreateInode(inodeKeys[j], InodeAt(blockKeys, inodeKeys, j))
  }

  lemma NoneLinked(blockKeys: seq<Key>, inodeKeys: seq<Key>)
    ensures Linked(blockKeys, inodeKeys, [])
  {
  }

  lemma AllLinked(blockKeys: seq<Key>, inodeKeys: seq<Key>, promises: seq<Promise>)
    requires Linked(blockKeys, inodeKeys, promises) && |promises| == |inodeKeys|
    ensures forall j :: 0 <= j < |inodeKeys| ==>
      FANOUT * j <= |blockKeys| && promises[j] == CreateInode(inodeKeys[j], InodeAt(blockKeys, inodeKeys, j))
  {
  }

  /** The inode for the last key, once it is known whether there is another. */
  lemma LinkMore(blockKeys: seq<Key>, keys: seq<Key>, inodeKeys: seq<Key>, promises: seq<Promise>)
    requires Linked(blockKeys, keys, promises) && |keys| == |promises| + 1 && FANOUT * |promises| <= |blockKeys|
    requires inodeKeys == keys || (|inodeKeys| == |keys| + 1 && inodeKeys[..|keys|] == keys)
    ensures var j := |promises|;
      var next := if |inodeKeys| == |keys| then T.None else T.Some(inodeKeys[|keys|]);
      var inode := Inode(blockKeys[FANOUT * j..Min(FANOUT * j + FANOUT, |blockKeys|)], next);
      Linked(blockKeys, inodeKeys, promises + [CreateInode(keys[j], inode)])
  {
    assert forall k :: 0 <= k < |keys| ==> inodeKeys[k] == inodeKeys[..|keys|][k];
  }

  // ---------- What has landed ----------

  /** The instructions of an upload that have landed on one account. The calls of one promise are made
      one after the other, except that set_direct_blocks is not waited for: it can come before or
      after set_next_inode_block, or still be missing. */
  predicate LandedOn(p: Promise, user: Key, s: seq<Instr>, missing: bool) {
    match p
    case CreateData(k, chunk) => s == [CreateDataBlock(k, user, user), SetData(k, user, chunk)]
    case CreateInode(k, inode) =>
      var create, next := CreateInodeBlock(k, user, user), SetNextInodeBlock(k, user, inode.next);
      var direct := SetDirectBlocks(k, user, inode.direct);
      if missing then s == [create, next] else s == [create, direct, next] || s == [create, next, direct]
  }

  /** The schedule interleaves the calls of all promises, and all have landed but for setting the direct
      blocks of the inodes in `late`. */
  ghost predicate Landed(promises: seq<Promise>, user: Key, s: seq<Instr>, late: set<Key>) {
    forall i :: 0 <= i < |promises| ==> LandedOn(promises[i], user, On(s, promises[i].key), promises[i].key in late)
  }

  lemma DataLands(l: Ledger, s: seq<Instr>, user: Key, k: Key, chunk: seq<byte>, missing: bool)
    requires Sane(l) && k !in l && |chunk| <= DATA_SIZE
    requires LandedOn(CreateData(k, chunk), user, On(s, k), missing)
    ensures ReadData(Run(l, s), k) == Done(chunk)
  {
    RunIsLocal(l, s, k);
    RunTwo(T.None, CreateDataBlock(k, user, user), SetData(k, user, chunk));
  }

  lemma InodeLands(l: Ledger, s: seq<Instr>, user: Key, k: Key, inode: Inode, missing: bool)
    requires Sane(l) && k !in l && |inode.direct| <= FANOUT
    requires LandedOn(CreateInode(k, inode), user, On(s, k), missing)
    ensures ReadInode(Run(l, s), k) == Done(if missing then Inode([], inode.next) else inode)
  {
    RunIsLocal(l, s, k);
    var create, next := CreateInodeBlock(k, user, user), SetNextInodeBlock(k, user, inode.next);
    var direct := SetDirectBlocks(k, user, inode.direct);
    RunTwo(T.None, create, next);
    RunThree(T.None, create, direct, next);
    RunThree(T.None, create, next, direct);
    if !missing {
      var a := RunOn(T.None, [create, direct, next]);
      RunTwo(T.Some(Created(user, true)), direct, next);
      RunTwo(T.Some(Created(user, true)), next, direct);
      SettersCommute(T.Some(Created(user, true)), k, user, user, inode.direct, inode.next);
      assert At(Run(l, s), k) == a;
      assert ReadInode(Run(l, s), k).value.direct == inode.direct;
    }
  }

  // ---------- The round trip ----------

  function Flatten(chunks: seq<seq<byte>>): seq<byte> {
    if |chunks| == 0 then [] else Flatten(chunks[..|chunks| - 1]) + chunks[|chunks| - 1]
  }

  lemma {:induction false} FlattenMore(a: seq<seq<byte>>, b: seq<seq<byte>>)
    ensures Flatten(a + b) == Flatten(a) + Flatten(b)
  {
    if |b| == 0 {
      assert a + b == a;
    } else {
      var n := |b| - 1;
      FlattenMore(a, b[..n]);
      assert (a + b)[..|a| + n] == a + b[..n];
    }
  }

  lemma {:induction false} FlattenGrows(chunks: seq<seq<byte>>)
    requires Chunked(chunks)
    ensures |Flatten(chunks)| >= |chunks|
  {
    if |chunks| > 0 {
      FlattenGrows(chunks[..|chunks| - 1]);
    }
  }

  /** The chunks listed by the j-th inode. */
  function RunOf(chunks: seq<seq<byte>>, j: nat): seq<seq<byte>>
    requires FANOUT * j <= |chunks|
  {
    chunks[FANOUT * j..Min(FANOUT * j + FANOUT, |chunks|)]
  }

  /** The bytes that can be read through the first m inodes, when those in `late` list nothing yet. */
  ghost function Readable(chunks: seq<seq<byte>>, inodeKeys: seq<Key>, late: set<Key>, m: nat): seq<byte>
    requires m <= |inodeKeys| && FANOUT * (m - 1) <= |chunks|
  {
    if m == 0 then []
    else
      var run := if inodeKeys[m - 1] in late then [] else Flatten(RunOf(chunks, m - 1));
      Readable(chunks, inodeKeys, late, m - 1) + run
  }

  /** Everything can be read exactly if none of the inodes is late. */
  lemma {:induction false} ReadableWhole(chunks: seq<seq<byte>>, inodeKeys: seq<Key>, late: set<Key>, m: nat)
    requires Chunked(chunks) && m <= |inodeKeys| && FANOUT * (m - 1) < |chunks|
    ensures var whole := Flatten(chunks[..Min(FANOUT * m, |chunks|)]);
      if forall j :: 0 <= j < m ==> inodeKeys[j] !in late then Readable(chunks, inodeKeys, late, m) == whole
      else |Readable(chunks, inodeKeys, late, m)| < |whole|
  {
    hide Flatten, Chunked, RunOf;
    if m == 0 {
      FlattenNone();
      assert chunks[..0] == [];
    } else {
      ReadableWhole(chunks, inodeKeys, late, m - 1);
      RunSplits(chunks, m);
    }
  }

  lemma FlattenNone()
    ensures Flatten([]) == []
  {
  }

  lemma RunSplits(chunks: seq<seq<byte>>, m: nat)
    requires Chunked(chunks) && m > 0 && FANOUT * (m - 1) < |chunks|
    ensures Flatten(chunks[..Min(FANOUT * m, |chunks|)])
      == Flatten(chunks[..FANOUT * (m - 1)]) + Flatten(RunOf(chunks, m - 1))
    ensures |Flatten(RunOf(chunks, m - 1))| > 0
  {
    hide Flatten;
    var before, run := chunks[..FANOUT * (m - 1)], RunOf(chunks, m - 1);
    assert chunks[..Min(FANOUT * m, |chunks|)] == before + run;
    FlattenMore(before, run);
    FlattenGrows(run);
  }

  /** What an upload leaves in the ledger, read by readInode and readData. */
  ghost predicate Uploaded(l: Ledger, chunks: seq<seq<byte>>, blockKeys: seq<Key>, inodeKeys: seq<Key>, late: set<Key>)
    requires Sane(l)
  {
    && |blockKeys| == |chunks| && FANOUT * (|inodeKeys| - 1) < |chunks| <= FANOUT * |inodeKeys|
    && (forall i :: 0 <= i < |chunks| ==> ReadData(l, blockKeys[i]) == Done(chunks[i]))
    && forall j :: 0 <= j < |inodeKeys| ==> FANOUT * j <= |chunks| && InodeRead(l, blockKeys, inodeKeys, late, j)
  }

  ghost predicate InodeRead(l: Ledger, blockKeys: seq<Key>, inodeKeys: seq<Key>, late: set<Key>, j: nat)
    requires Sane(l) && j < |inodeKeys| && FANOUT * j <= |blockKeys|
  {
    var inode := InodeAt(blockKeys, inodeKeys, j);
    ReadInode(l, inodeKeys[j]) == Done(if inodeKeys[j] in late then Inode([], inode.next) else inode)
  }

  lemma UploadLands(l: Ledger, user: Key, chunks: seq<seq<byte>>, blockKeys: seq<Key>, inodeKeys: seq<Key>,
                    promises: seq<Promise>, s: seq<Instr>, late: set<Key>)
    requires Sane(l) && forall k :: k in blockKeys || k in inodeKeys ==> k !in l
    requires Chunked(chunks) && Planned(chunks, blockKeys, inodeKeys, promises) && Landed(promises, user, s, late)
    ensures Uploaded(Run(l, s), chunks, blockKeys, inodeKeys, late)
  {
    hide Landed, InodeAt;
    forall i | 0 <= i < |chunks|
      ensures ReadData(Run(l, s), blockKeys[i]) == Done(chunks[i])
    {
      BlockLands(l, user, chunks, blockKeys, inodeKeys, promises, s, late, i);
    }
    forall j | 0 <= j < |inodeKeys|
      ensures FANOUT * j <= |chunks| && InodeRead(Run(l, s), blockKeys, inodeKeys, late, j)
    {
      InodeAtLands(l, user, chunks, blockKeys, inodeKeys, promises, s, late, j);
    }
  }

  lemma BlockLands(l: Ledger, user: Key, chunks: seq<seq<byte>>, blockKeys: seq<Key>, inodeKeys: seq<Key>,
                   promises: seq<Promise>, s: seq<Instr>, late: set<Key>, i: nat)
    requires Sane(l) && forall k :: k in blockKeys || k in inodeKeys ==> k !in l
    requires Chunked(chunks) && Planned(chunks, blockKeys, inodeKeys, promises) && Landed(promises, user, s, late)
    requires i < |chunks|
    ensures ReadData(Run(l, s), blockKeys[i]) == Done(chunks[i])
  {
    hide LandedOn, ReadData, ReadInode, Run, On, InodeAt, Sane;
    assert promises[i] == CreateData(blockKeys[i], chunks[i]);
    DataLands(l, s, user, blockKeys[i], chunks[i], blockKeys[i] in late);
  }

  lemma InodeAtLands(l: Ledger, user: Key, chunks: seq<seq<byte>>, blockKeys: seq<Key>, inodeKeys: seq<Key>,
                     promises: seq<Promise>, s: seq<Instr>, late: set<Key>, j: nat)
    requires Sane(l) && forall k :: k in blockKeys || k in inodeKeys ==> k !in l
    requires Planned(chunks, blockKeys, inodeKeys, promises) && Landed(promises, user, s, late)
    requires j < |inodeKeys|
    ensures FANOUT * j <= |blockKeys| && InodeRead(Run(l, s), blockKeys, inodeKeys, late, j)
  {
    hide LandedOn, ReadData, ReadInode, Run, On, Sane;
    var p := promises[|chunks| + j];
    assert p == CreateInode(inodeKeys[j], InodeAt(blockKeys, inodeKeys, j));
    InodeLands(l, s, user, inodeKeys[j], p.inode, inodeKeys[j] in late);
  }

  lemma {:induction false} ReadRun(l: Ledger, chunks: seq<seq<byte>>, keys: seq<Key>)
    requires Sane(l) && |keys| == |chunks| && forall i :: 0 <= i < |chunks| ==> ReadData(l, keys[i]) == Done(chunks[i])
    ensures ReadAll(l, keys) == Done(Flatten(chunks))
  {
    if |keys| > 0 {
      ReadRun(l, chunks[..|chunks| - 1], keys[..|chunks| - 1]);
    }
  }

  lemma {:induction false} ReadInodes(l: Ledger, chunks: seq<seq<byte>>, blockKeys: seq<Key>, inodeKeys: seq<Key>,
                                      late: set<Key>, m: nat)
    requires Sane(l) && Uploaded(l, chunks, blockKeys, inodeKeys, late) && m <= |inodeKeys|
    ensures Downloaded(l, inodeKeys[..m]) == Done(Readable(chunks, inodeKeys, late, m))
  {
    hide ReadInode, ReadData, ReadAll, Uploaded, Flatten, RunOf, Downloaded;
    if m == 0 {
      NothingDownloaded(l);
    } else {
      ReadInodes(l, chunks, blockKeys, inodeKeys, late, m - 1);
      ReadInodeRun(l, chunks, blockKeys, inodeKeys, late, m - 1);
      DownloadStep(l, inodeKeys, m - 1);
    }
  }

  lemma ReadInodeRun(l: Ledger, chunks: seq<seq<byte>>, blockKeys: seq<Key>, inodeKeys: seq<Key>, late: set<Key>,
                     j: nat)
    requires Sane(l) && Uploaded(l, chunks, blockKeys, inodeKeys, late) && j < |inodeKeys|
    ensures FANOUT * j < |chunks| && ReadInode(l, inodeKeys[j]).Done?
    ensures ReadAll(l, ReadInode(l, inodeKeys[j]).value.direct)
         == Done(if inodeKeys[j] in late then [] else Flatten(RunOf(chunks, j)))
  {
    hide ReadInode, ReadData, Flatten, Sane, ReadAll;
    assert InodeRead(l, blockKeys, inodeKeys, late, j);
    var direct := ReadInode(l, inodeKeys[j]).value.direct;
    if inodeKeys[j] in late {
      ReadNothing(l);
    } else {
      ReadRun(l, RunOf(chunks, j), direct);
    }
  }

  /** However the calls of an upload are interleaved, once they have landed a download reads back the
      file. The call that is not waited for matters: while it is missing for any inode, the download
      succeeds and comes out short. */
  lemma RoundTrip(l: Ledger, user: Key, chunks: seq<seq<byte>>, blockKeys: seq<Key>, inodeKeys: seq<Key>,
                  promises: seq<Promise>, s: seq<Instr>, late: set<Key>)
    requires Sane(l) && forall k :: k in blockKeys || k in inodeKeys ==> k !in l
    requires chunks != [] && Chunked(chunks) && Planned(chunks, blockKeys, inodeKeys, promises)
    requires Landed(promises, user, s, late)
    ensures Walk(Run(l, s), inodeKeys[0], inodeKeys)
    ensures Downloaded(Run(l, s), inodeKeys) == Done(Readable(chunks, inodeKeys, late, |inodeKeys|))
    ensures Downloaded(Run(l, s), inodeKeys) == Done(Flatten(chunks))
      <==> forall k :: k in inodeKeys ==> k !in late
  {
    hide Landed, Planned, Run, Downloaded, Readable, ReadData, Flatten, Chunked, Uploaded, Walk, Sane;
    var l', m := Run(l, s), |inodeKeys|;
    UploadLands(l, user, chunks, blockKeys, inodeKeys, promises, s, late);
    UploadedWalk(l', chunks, blockKeys, inodeKeys, late);
    assert inodeKeys[..m] == inodeKeys && chunks[..Min(FANOUT * m, |chunks|)] == chunks;
    ReadInodes(l', chunks, blockKeys, inodeKeys, late, m);
    ReadableWhole(chunks, inodeKeys, late, m);
    assert (forall j :: 0 <= j < m ==> inodeKeys[j] !in late) <==> forall k :: k in inodeKeys ==> k !in late;
  }

  lemma UploadedWalk(l: Ledger, chunks: seq<seq<byte>>, blockKeys: seq<Key>, inodeKeys: seq<Key>, late: set<Key>)
    requires Sane(l) && Uploaded(l, chunks, blockKeys, inodeKeys, late) && chunks != []
    ensures |inodeKeys| > 0 && FANOUT * (|inodeKeys| - 1) < |chunks| <= FANOUT * |inodeKeys|
    ensures Walk(l, inodeKeys[0], inodeKeys)
  {
    hide ReadInode, ReadData, Sane;
    forall j | 0 <= j < |inodeKeys|
      ensures ReadInode(l, inodeKeys[j]).Done?
      ensures ReadInode(l, inodeKeys[j]).value.next == if j + 1 < |inodeKeys| then T.Some(inodeKeys[j + 1]) else T.None
    {
      assert InodeRead(l, blockKeys, inodeKeys, late, j);
    }
  }

  // ---------- Such schedules exist ----------

  /** The calls of a promise, in the order they are made. */
  function Calls(p: Promise, user: Key): seq<Instr> {
    match p
    case CreateData(k, chunk) => [CreateDataBlock(k, user, user), SetData(k, user, chunk)]
    case CreateInode(k, inode) =>
      [CreateInodeBlock(k, user, user), SetDirectBlocks(k, user, inode.direct), SetNextInodeBlock(k, user, inode.next)]
  }

  function InTurn(promises: seq<Promise>, user: Key): seq<Instr> {
    if |promises| == 0 then [] else InTurn(promises[..|promises| - 1], user) + Calls(promises[|promises| - 1], user)
  }

  lemma {:induction false} OnMore(s: seq<Instr>, more: seq<Instr>, k: Key)
    ensures On(s + more, k) == On(s, k) + On(more, k)
  {
    if |more| == 0 {
      assert s + more == s;
    } else {
      var n := |more| - 1;
      var all := s + more;
      OnMore(s, more[..n], k);
      assert all[..|all| - 1] == s + more[..n] && all[|all| - 1] == more[n];
      var last := if more[n].key == k then [more[n]] else [];
      assert (On(s, k) + On(more[..n], k)) + last == On(s, k) + (On(more[..n], k) + last);
    }
  }

  lemma OnOne(i: Instr, k: Key)
    ensures On([i], k) == if k == i.key then [i] else []
  {
    assert [i][..0] == [];
  }

  lemma CallsOn(p: Promise, user: Key, k: Key)
    ensures On(Calls(p, user), k) == if k == p.key then Calls(p, user) else []
  {
    hide On;
    var s := Calls(p, user);
    OnOne(s[0], k);
    OnOne(s[1], k);
    OnMore([s[0]], [s[1]], k);
    if |s| == 3 {
      OnOne(s[2], k);
      OnMore([s[0], s[1]], [s[2]], k);
      assert [s[0]] + [s[1]] == [s[0], s[1]] && [s[0], s[1]] + [s[2]] == s;
    } else {
      assert [s[0]] + [s[1]] == s;
    }
  }

  predicate OneEach(promises: seq<Promise>) {
    forall a, b :: 0 <= a < b < |promises| ==> promises[a].key != promises[b].key
  }

  lemma OneEachBefore(promises: seq<Promise>)
    requires OneEach(promises) && |promises| > 0
    ensures var n := |promises| - 1;
      OneEach(promises[..n]) && forall a :: 0 <= a < n ==> promises[..n][a].key != promises[n].key
  {
  }

  lemma {:induction false} InTurnCalls(promises: seq<Promise>, user: Key, i: nat)
    requires OneEach(promises) && i < |promises|
    ensures On(InTurn(promises, user), promises[i].key) == Calls(promises[i], user)
  {
    hide On, Calls, OneEach;
    var n := |promises| - 1;
    OneEachBefore(promises);
    OnMore(InTurn(promises[..n], user), Calls(promises[n], user), promises[i].key);
    CallsOn(promises[n], user, promises[i].key);
    if i < n {
      InTurnCalls(promises[..n], user, i);
    } else {
      NotYetOn(promises[..n], user, promises[i].key);
    }
  }

  /** Run one after the other, the promises of an upload land, with no call missing. */
  lemma InTurnLands(chunks: seq<seq<byte>>, blockKeys: seq<Key>, inodeKeys: seq<Key>, promises: seq<Promise>,
                    user: Key, first: Key, end: Key)
    requires Planned(chunks, blockKeys, inodeKeys, promises) && Ascending(blockKeys + inodeKeys, first, end)
    ensures Landed(promises, user, InTurn(promises, user), {})
  {
    hide On, InTurn, InodeAt;
    assert forall a :: 0 <= a < |promises| ==> promises[a].key == (blockKeys + inodeKeys)[a] by {
      assert forall j :: 0 <= j < |inodeKeys| ==> promises[|chunks| + j].key == inodeKeys[j];
      forall a | 0 <= a < |promises|
        ensures promises[a].key == (blockKeys + inodeKeys)[a]
      {
        if a >= |chunks| {
          assert promises[|chunks| + (a - |chunks|)].key == inodeKeys[a - |chunks|];
        }
      }
    }
    forall i | 0 <= i < |promises|
      ensures LandedOn(promises[i], user, On(InTurn(promises, user), promises[i].key), false)
    {
      InTurnCalls(promises, user, i);
    }
  }

  lemma {:induction false} NotYetOn(promises: seq<Promise>, user: Key, k: Key)
    requires forall a :: 0 <= a < |promises| ==> promises[a].key != k
    ensures On(InTurn(promises, user), k) == []
  {
    if |promises| > 0 {
      var n := |promises| - 1;
      OnMore(InTurn(promises[..n], user), Calls(promises[n], user), k);
      CallsOn(promises[n], user, k);
      NotYetOn(promises[..n], user, k);
    }
  }
}

/** The file store on accounts (anchorapp/programs/anchorapp/src/lib.rs, anchorapp/tests/utils.ts): a
    file is cut into data blocks, and the keys of the data blocks are kept in a list of inodes. */
module FileStore {
  import T = Types

  type byte = T.byte
  type Key = nat
  type Option<+A> = T.Option<A>

  const DATA_SIZE := 992
  const NUM_INODES := 31
  const FANOUT := NUM_INODES - 1

  datatype SpaceError =
    | NoPermission | TooMuchData | TooManyInodes | NoProxyUser | NotDataBlock | NotInodeBlock
    | NoAccount | AccountInUse        // raised by the runtime
    | NotAnInode | NotADataBlock | EmptyFile  // raised by the client

  datatype Outcome<+A> = Done(value: A) | Failed(error: SpaceError)

  // ---------- Blocks ----------

  datatype Content = DATA(data: seq<byte>) | INODE(inodes: seq<Option<Key>>)

  datatype Account = Account(owner: Key, isInode: bool, size: nat, content: Content)

  /** The fixed array lengths, the size never past them, and the flag that says what the content is. */
  predicate WellFormed(a: Account) {
    match a.content
    case DATA(data) => !a.isInode && |data| == DATA_SIZE && a.size <= DATA_SIZE
    case INODE(inodes) =>
      && a.isInode && |inodes| == NUM_INODES && a.size <= FANOUT
      && forall i :: 1 <= i <= a.size ==> inodes[i].Some?
  }

  function Zeros(n: nat): (r: seq<byte>)
    ensures |r| == n && forall i :: 0 <= i < n ==> r[i] == 0
  {
    seq(n, _ => 0)
  }

  function Nones(n: nat): (r: seq<Option<Key>>)
    ensures |r| == n && forall i :: 0 <= i < n ==> r[i] == T.None
  {
    seq(n, _ => T.None)
  }

  function Somes(keys: seq<Key>): (r: seq<Option<Key>>)
    ensures |r| == |keys| && forall i :: 0 <= i < |keys| ==> r[i] == T.Some(keys[i])
  {
    seq(|keys|, i requires 0 <= i < |keys| => T.Some(keys[i]))
  }

  function Created(owner: Key, isInode: bool): Account {
    Account(owner, isInode, 0, if isInode then INODE(Nones(NUM_INODES)) else DATA(Zeros(DATA_SIZE)))
  }

  function DataSet(a: Account, data: seq<byte>): Outcome<Account> {
    if a.isInode then Failed(NotDataBlock)
    else if |data| > DATA_SIZE then Failed(TooMuchData)
    else Done(a.(content := DATA(data + Zeros(DATA_SIZE - |data|)), size := |data|))
  }

  function DirectSet(a: Account, direct: seq<Key>): Outcome<Account>
    requires WellFormed(a)
  {
    if !a.isInode then Failed(NotInodeBlock)
    else if |direct| > FANOUT then Failed(TooManyInodes)
    else Done(a.(content := INODE([a.content.inodes[0]] + Somes(direct) + Nones(FANOUT - |direct|)), size := |direct|))
  }

  function NextSet(a: Account, next: Option<Key>): Outcome<Account>
    requires WellFormed(a)
  {
    if !a.isInode then Failed(NotInodeBlock)
    else Done(a.(content := INODE(a.content.inodes[0 := next])))
  }

  ghost predicate Carries(r: Outcome<Account>, err: Option<SpaceError>, before: Account, after: Account) {
    match r
    case Done(a) => err == T.None && after == a
    case Failed(e) => err == T.Some(e) && after == before
  }

  class Block {
    var owner: Key
    var isInode: bool
    var size: nat
    var content: Content

    function Value(): Account
      reads this
    {
      Account(owner, isInode, size, content)
    }

    /** An account read back from the ledger. */
    constructor (a: Account)
      ensures Value() == a
    {
      owner, isInode, size, content := a.owner, a.isInode, a.size, a.content;
    }

    method CreateBlock(owner: Key, isInode: bool)
      modifies this
      ensures Value() == Created(owner, isInode) && WellFormed(Value())
    {
      this.owner := owner;
      size := 0;
      this.isInode := isInode;
      if isInode {
        content := INODE(Nones(NUM_INODES));
      } else {
        content := DATA(Zeros(DATA_SIZE));
      }
    }

    method SetData(newData: seq<byte>) returns (err: Option<SpaceError>)
      requires WellFormed(Value())
      modifies this
      ensures Carries(DataSet(old(Value()), newData), err, old(Value()), Value()) && WellFormed(Value())
    {
      if isInode {
        return T.Some(NotDataBlock);
      }
      if DATA_SIZE < |newData| {
        return T.Some(TooMuchData);
      }
      var result := new byte[DATA_SIZE](_ => 0);
      forall i | 0 <= i < |newData| {
        result[i] := newData[i];
      }
      assert result[..] == newData + Zeros(DATA_SIZE - |newData|);
      content := DATA(result[..]);
      size := |newData|;
      err := T.None;
    }

    method SetDirectBlocks(newInodes: seq<Key>) returns (err: Option<SpaceError>)
      requires WellFormed(Value())
      modifies this
      ensures Carries(DirectSet(old(Value()), newInodes), err, old(Value()), Value()) && WellFormed(Value())
    {
      if !isInode {
        return T.Some(NotInodeBlock);
      }
      if FANOUT < |newInodes| {
        return T.Some(TooManyInodes);
      }
      var result := new Option<Key>[NUM_INODES](_ => T.None);
      size := |newInodes|;
      // The pointer to the next block is kept.
      result[0] := content.inodes[0];
      forall i | 0 <= i < |newInodes| {
        result[i + 1] := T.Some(newInodes[i]);
      }
      assert result[..] == [content.inodes[0]] + Somes(newInodes) + Nones(FANOUT - |newInodes|);
      content := INODE(result[..]);
      err := T.None;
    }

    method SetNextInodeBlock(inode: Option<Key>) returns (err: Option<SpaceError>)
      requires WellFormed(Value())
      modifies this
      ensures Carries(NextSet(old(Value()), inode), err, old(Value()), Value()) && WellFormed(Value())
    {
      if !isInode {
        return T.Some(NotInodeBlock);
      }
      var newInodes := new Option<Key>[NUM_INODES](_ => T.None);
      newInodes[0] := inode;
      forall i | 1 <= i < NUM_INODES {
        newInodes[i] := content.inodes[i];
      }
      assert newInodes[..] == content.inodes[0 := inode];
      content := INODE(newInodes[..]);
      err := T.None;
    }
  }

  // ---------- The program's instructions ----------

  type Ledger = map<Key, Account>

  datatype Instr =
    | CreateDataBlock(key: Key, user: Key, claimer: Key)
    | CreateInodeBlock(key: Key, user: Key, claimer: Key)
    | SetData(key: Key, user: Key, data: seq<byte>)
    | SetDirectBlocks(key: Key, user: Key, direct: seq<Key>)
    | SetNextInodeBlock(key: Key, user: Key, next: Option<Key>)

  function Exec(a: Option<Account>, i: Instr): (r: Outcome<Account>)
    requires a.Some? ==> WellFormed(a.value)
    ensures r.Done? ==> WellFormed(r.value)
  {
    if i.CreateDataBlock? || i.CreateInodeBlock? then
      if a.Some? then Failed(AccountInUse)
      else if i.user != i.claimer then Failed(NoProxyUser)
      else Done(Created(i.claimer, i.CreateInodeBlock?))
    else if a.None? then Failed(NoAccount)
    else if a.value.owner != i.user then Failed(NoPermission)
    else match i
      case SetData(_, _, data) => if |data| > DATA_SIZE then Failed(TooMuchData) else DataSet(a.value, data)
      case SetDirectBlocks(_, _, direct) =>
        if |direct| > FANOUT then Failed(TooManyInodes) else DirectSet(a.value, direct)
      case SetNextInodeBlock(_, _, next) => NextSet(a.value, next)
  }

  predicate Sane(l: Ledger) {
    forall k :: k in l ==> WellFormed(l[k])
  }

  function At(l: Ledger, k: Key): Option<Account> {
    if k in l then T.Some(l[k]) else T.None
  }

  /** An instruction that fails leaves the ledger as it was. */
  function Apply(l: Ledger, i: Instr): (r: Ledger)
    requires Sane(l)
    ensures Sane(r)
  {
    match Exec(At(l, i.key), i)
    case Done(a) => l[i.key := a]
    case Failed(_) => l
  }

  // ---------- What an instruction may do ----------

  /** Whom an instruction is signed by, and that it is of the kind the account was made for. */
  predicate Permitted(a: Option<Account>, i: Instr) {
    match i
    case CreateDataBlock(_, user, claimer) => a.None? && user == claimer
    case CreateInodeBlock(_, user, claimer) => a.None? && user == claimer
    case SetData(_, user, data) => a.Some? && a.value.owner == user && !a.value.isInode && |data| <= 992
    case SetDirectBlocks(_, user, direct) => a.Some? && a.value.owner == user && a.value.isInode && |direct| <= 30
    case SetNextInodeBlock(_, user, _) => a.Some? && a.value.owner == user && a.value.isInode
  }

  /** An instruction succeeds exactly if it is permitted; nothing that succeeds changes owner or kind. */
  lemma ExecExact(a: Option<Account>, i: Instr)
    requires a.Some? ==> WellFormed(a.value)
    ensures Exec(a, i).Done? <==> Permitted(a, i)
    ensures Exec(a, i).Done? ==> var a' := Exec(a, i).value;
      && (a.None? ==> a'.owner == i.user && a'.isInode == i.CreateInodeBlock? && a'.size == 0)
      && (a.Some? ==> a'.owner == a.value.owner && a'.isInode == a.value.isInode)
  {
  }

  /** And the content afterwards is what the instruction says, slot by slot. */
  lemma ContentExact(a: Option<Account>, i: Instr)
    requires (a.Some? ==> WellFormed(a.value)) && Permitted(a, i)
    ensures Exec(a, i).Done?
    ensures var a' := Exec(a, i).value;
      match i
      case CreateDataBlock(_, _, _) => a'.content.DATA? && forall k :: 0 <= k < 992 ==> a'.content.data[k] == 0
      case CreateInodeBlock(_, _, _) =>
        a'.content.INODE? && forall k :: 0 <= k < 31 ==> a'.content.inodes[k] == T.None
      case SetData(_, _, data) =>
        && a'.content.DATA? && a'.size == |data|
        && forall k :: 0 <= k < 992 ==> a'.content.data[k] == if k < |data| then data[k] else 0
      case SetDirectBlocks(_, _, direct) =>
        && a'.content.INODE? && a'.size == |direct|
        && a'.content.inodes[0] == a.value.content.inodes[0]
        && forall k :: 1 <= k < 31 ==>
          a'.content.inodes[k] == if k <= |direct| then T.Some(direct[k - 1]) else T.None
      case SetNextInodeBlock(_, _, next) =>
        && a'.content.INODE? && a'.size == a.value.size && a'.content.inodes[0] == next
        && forall k :: 1 <= k < 31 ==> a'.content.inodes[k] == a.value.content.inodes[k]
  {
  }

  ghost predicate Untouched(l: Ledger, k: Key, instrs: seq<Instr>)
    requires k in l
  {
    forall i :: i in instrs && i.key == k ==> i.user != l[k].owner
  }

  /** Whatever others send, the account of a user who sends nothing to it stays as it is. */
  lemma {:induction false} OthersCannotWrite(l: Ledger, k: Key, instrs: seq<Instr>)
    requires Sane(l) && k in l && Untouched(l, k, instrs)
    ensures var l' := Run(l, instrs); k in l' && l'[k] == l[k]
  {
    if |instrs| > 0 {
      var rest, last := instrs[..|instrs| - 1], instrs[|instrs| - 1];
      assert last in instrs && forall i :: i in rest ==> i in instrs;
      OthersCannotWrite(l, k, rest);
      var l1 := Run(l, rest);
      ExecExact(At(l1, last.key), last);
    }
  }

  class Cluster {
    var accounts: Ledger

    constructor ()
      ensures accounts == map[]
    {
      accounts := map[];
    }

    /** Load the account, run the instruction on it, and store it if that succeeds. */
    method Send(i: Instr) returns (err: Option<SpaceError>)
      requires Sane(accounts)
      modifies this
      ensures accounts == Apply(old(accounts), i) && Sane(accounts)
      ensures err == match Exec(At(old(accounts), i.key), i) case Done(_) => T.None case Failed(e) => T.Some(e)
    {
      if i.CreateDataBlock? || i.CreateInodeBlock? {
        if i.key in accounts {
          return T.Some(AccountInUse);
        }
        if i.user != i.claimer {
          return T.Some(NoProxyUser);
        }
        var space := new Block(Created(0, false));
        space.CreateBlock(i.claimer, i.CreateInodeBlock?);
        accounts := accounts[i.key := space.Value()];
        return T.None;
      }
      if i.key !in accounts {
        return T.Some(NoAccount);
      }
      var space := new Block(accounts[i.key]);
      if space.owner != i.user {
        return T.Some(NoPermission);
      }
      match i {
        case SetData(_, _, data) =>
          if DATA_SIZE < |data| {
            return T.Some(TooMuchData);
          }
          err := space.SetData(data);
        case SetDirectBlocks(_, _, direct) =>
          if FANOUT < |direct| {
            return T.Some(TooManyInodes);
          }
          err := space.SetDirectBlocks(direct);
        case SetNextInodeBlock(_, _, next) =>
          err := space.SetNextInodeBlock(next);
      }
      if err.None? {
        accounts := accounts[i.key := space.Value()];
      }
    }
  }

  // ---------- Schedules ----------

  function Run(l: Ledger, s: seq<Instr>): (r: Ledger)
    requires Sane(l)
    ensures Sane(r)
  {
    if |s| == 0 then l else Apply(Run(l, s[..|s| - 1]), s[|s| - 1])
  }

  /** What a schedule does to one account. */
  function RunOn(a: Option<Account>, s: seq<Instr>): (r: Option<Account>)
    requires a.Some? ==> WellFormed(a.value)
    ensures r.Some? ==> WellFormed(r.value)
  {
    if |s| == 0 then a
    else
      var before := RunOn(a, s[..|s| - 1]);
      match Exec(before, s[|s| - 1])
      case Done(v) => T.Some(v)
      case Failed(_) => before
  }

  /** The instructions on one account, in the order they land. */
  function On(s: seq<Instr>, k: Key): seq<Instr> {
    if |s| == 0 then []
    else On(s[..|s| - 1], k) + if s[|s| - 1].key == k then [s[|s| - 1]] else []
  }

  /** An account depends on its own instructions alone, however others are interleaved. */
  lemma {:induction false} RunIsLocal(l: Ledger, s: seq<Instr>, k: Key)
    requires Sane(l)
    ensures At(Run(l, s), k) == RunOn(At(l, k), On(s, k))
  {
    if |s| > 0 {
      var last := s[|s| - 1];
      RunIsLocal(l, s[..|s| - 1], k);
      var before := On(s[..|s| - 1], k);
      if last.key == k {
        assert On(s, k)[..|before|] == before;
      } else {
        assert On(s, k) == before;
      }
    }
  }

  lemma RunTwo(a: Option<Account>, i: Instr, j: Instr)
    requires a.Some? ==> WellFormed(a.value)
    ensures RunOn(a, [i, j]) == RunOn(RunOn(a, [i]), [j])
  {
    assert [i, j][..1] == [i] && [j][..0] == [] && [i][..0] == [];
  }

  lemma RunThree(a: Option<Account>, i: Instr, j: Instr, k: Instr)
    requires a.Some? ==> WellFormed(a.value)
    ensures RunOn(a, [i, j, k]) == RunOn(RunOn(RunOn(a, [i]), [j]), [k])
  {
    RunTwo(a, i, j);
    assert [i, j, k][..2] == [i, j] && [k][..0] == [];
  }

  /** set_direct_blocks and set_next_inode_block commute, on any account and for any users. */
  lemma SettersCommute(a: Option<Account>, k: Key, user: Key, user': Key, direct: seq<Key>, next: Option<Key>)
    requires a.Some? ==> WellFormed(a.value)
    ensures RunOn(a, [SetDirectBlocks(k, user, direct), SetNextInodeBlock(k, user', next)])
         == RunOn(a, [SetNextInodeBlock(k, user', next), SetDirectBlocks(k, user, direct)])
  {
    var d, n := SetDirectBlocks(k, user, direct), SetNextInodeBlock(k, user', next);
    RunTwo(a, d, n);
    RunTwo(a, n, d);
    if a.Some? && a.value.isInode && |direct| <= FANOUT {
      var inodes := a.value.content.inodes;
      assert ([inodes[0]] + Somes(direct) + Nones(FANOUT - |direct|))[0 := next]
          == [inodes[0 := next][0]] + Somes(direct) + Nones(FANOUT - |direct|);
    }
  }
}

/** The key families of the store and their byte encodings (storage.go).

    The digests that stand inside keys are given by a `Hashes` record. `Sound` asks of them what
    fixed-length collision-free digests provide: none is empty and none is a prefix of another. */
module Keys {
  import opened Types
  import opened Bytes

  datatype Key =
    | LastAcceptedKey
    | BlockKey(bid: BlockID)
    | TxKey(tid: TxID)
    | TxValueKey(tid: TxID)
    | InfoKey(space: Name)
    | ValueKey(raw: RawID, key: Name)
    | ExpiryKey(ts: uint64, raw: RawID)
    | PruningKey(ts: uint64, raw: RawID)
    | BalanceKey(addr: Address)
    | OwnedKey(addr: Address, space: Name)

  datatype Val =
    | NilVal
    | IDVal(bid: BlockID)
    | BlockVal(blk: Block)
    | BytesVal(bytes: seq<byte>)
    | InfoVal(info: SpaceInfo)
    | MetaVal(meta: ValueMeta)
    | ExpiryVal(owner: Address, space: Name)
    | BalanceVal(bal: uint64)

  type Db = map<Key, Val>

  datatype Hashes = Hashes(
    raw: RawID -> seq<byte>,
    block: BlockID -> seq<byte>,
    tx: TxID -> seq<byte>,
    lottery: (BlockID, TxID) -> seq<byte>,
    valueHash: seq<byte> -> seq<byte>)

  ghost predicate Sound(h: Hashes) {
    && (forall r :: |h.raw(r)| > 0)
    && (forall r, r' :: IsPrefix(h.raw(r), h.raw(r')) ==> r == r')
    && (forall b, b' :: IsPrefix(h.block(b), h.block(b')) ==> b == b')
    && (forall t, t' :: IsPrefix(h.tx(t), h.tx(t')) ==> t == t')
  }

  // ---------- Encodings ----------

  const LAST_ACCEPTED: seq<byte> := [108, 97, 115, 116, 95, 97, 99, 99, 101, 112, 116, 101, 100]

  /** The first byte of a key, which tells the families apart. */
  function Tag(k: Key): byte {
    match k
    case LastAcceptedKey => 108
    case BlockKey(_) => 0
    case TxKey(_) => 1
    case TxValueKey(_) => 2
    case InfoKey(_) => 3
    case ValueKey(_, _) => 4
    case ExpiryKey(_, _) => 5
    case PruningKey(_, _) => 6
    case BalanceKey(_) => 7
    case OwnedKey(_, _) => 8
  }

  function Head(p: byte): seq<byte> {
    [p, DELIMITER]
  }

  function RangeTimeKey(p: byte, t: uint64): seq<byte> {
    Head(p) + (BE8(t) + [DELIMITER])
  }

  function SpecificTimeKey(h: Hashes, p: byte, t: uint64, raw: RawID): seq<byte> {
    RangeTimeKey(p, t) + h.raw(raw)
  }

  function Encode(h: Hashes, k: Key): (s: seq<byte>)
    ensures |s| > 0 && s[0] == Tag(k)
  {
    match k
    case LastAcceptedKey => LAST_ACCEPTED
    case BlockKey(bid) => Head(0) + h.block(bid)
    case TxKey(tid) => Head(1) + h.tx(tid)
    case TxValueKey(tid) => Head(2) + h.tx(tid)
    case InfoKey(space) => Head(3) + space
    case ValueKey(raw, key) => Head(4) + (h.raw(raw) + [DELIMITER] + key)
    case ExpiryKey(t, raw) => SpecificTimeKey(h, 5, t, raw)
    case PruningKey(t, raw) => SpecificTimeKey(h, 6, t, raw)
    case BalanceKey(addr) => Head(7) + addr
    case OwnedKey(addr, space) => Head(8) + (addr + [DELIMITER] + space)
  }

  // ---------- Different keys have different bytes ----------

  lemma CancelHead(p: byte, a: seq<byte>, b: seq<byte>)
    requires Head(p) + a == Head(p) + b
    ensures a == b
  {
    assert (Head(p) + a)[2..] == a && (Head(p) + b)[2..] == b;
  }

  lemma EqualIsPrefix(a: seq<byte>, b: seq<byte>)
    requires a == b
    ensures IsPrefix(a, b)
  {
  }

  /** Two strings that start the same string are prefixes of each other, one way or the other. */
  lemma SplitPrefix(a: seq<byte>, x: seq<byte>, b: seq<byte>, y: seq<byte>)
    requires a + x == b + y
    ensures IsPrefix(a, b) || IsPrefix(b, a)
  {
    var s := a + x;
    assert a == s[..|a|] && b == s[..|b|];
    if |a| <= |b| {
      assert b[..|a|] == a;
    } else {
      assert a[..|b|] == b;
    }
  }

  lemma SpecificTimeKeyInjective(h: Hashes, p: byte, t: uint64, r: RawID, t': uint64, r': RawID)
    requires Sound(h)
    requires SpecificTimeKey(h, p, t, r) == SpecificTimeKey(h, p, t', r')
    ensures t == t' && r == r'
  {
    var a, b := SpecificTimeKey(h, p, t, r), SpecificTimeKey(h, p, t', r');
    assert BE8(t) == a[2..10] && BE8(t') == b[2..10];
    BE8Injective(t, t');
    assert h.raw(r) == a[11..] && h.raw(r') == b[11..];
    EqualIsPrefix(h.raw(r), h.raw(r'));
  }

  lemma ValueKeyInjective(h: Hashes, r: RawID, k: Name, r': RawID, k': Name)
    requires Sound(h)
    requires h.raw(r) + [DELIMITER] + k == h.raw(r') + [DELIMITER] + k'
    ensures r == r' && k == k'
  {
    assert h.raw(r) + ([DELIMITER] + k) == h.raw(r) + [DELIMITER] + k
        == h.raw(r') + ([DELIMITER] + k');
    SplitPrefix(h.raw(r), [DELIMITER] + k, h.raw(r'), [DELIMITER] + k');
    var n := |h.raw(r)| + 1;
    assert k == (h.raw(r) + [DELIMITER] + k)[n..] && k' == (h.raw(r') + [DELIMITER] + k')[n..];
  }

  lemma OwnedKeyInjective(a: Address, s: Name, a': Address, s': Name)
    requires a + [DELIMITER] + s == a' + [DELIMITER] + s'
    ensures a == a' && s == s'
  {
    assert a == (a + [DELIMITER] + s)[..20] && a' == (a' + [DELIMITER] + s')[..20];
    assert s == (a + [DELIMITER] + s)[21..] && s' == (a' + [DELIMITER] + s')[21..];
  }

  lemma EncodeInjective(h: Hashes, k: Key, k': Key)
    requires Sound(h)
    requires Encode(h, k) == Encode(h, k')
    ensures k == k'
  {
    assert Tag(k) == Encode(h, k)[0] == Tag(k');
    match k
    case LastAcceptedKey =>
    case BlockKey(bid) => CancelHead(0, h.block(bid), h.block(k'.bid)); EqualIsPrefix(h.block(bid), h.block(k'.bid));
    case TxKey(tid) => CancelHead(1, h.tx(tid), h.tx(k'.tid)); EqualIsPrefix(h.tx(tid), h.tx(k'.tid));
    case TxValueKey(tid) => CancelHead(2, h.tx(tid), h.tx(k'.tid)); EqualIsPrefix(h.tx(tid), h.tx(k'.tid));
    case InfoKey(space) => CancelHead(3, space, k'.space);
    case ValueKey(r, key) =>
      CancelHead(4, h.raw(r) + [DELIMITER] + key, h.raw(k'.raw) + [DELIMITER] + k'.key);
      ValueKeyInjective(h, r, key, k'.raw, k'.key);
    case ExpiryKey(t, r) => SpecificTimeKeyInjective(h, 5, t, r, k'.ts, k'.raw);
    case PruningKey(t, r) => SpecificTimeKeyInjective(h, 6, t, r, k'.ts, k'.raw);
    case BalanceKey(addr) => CancelHead(7, addr, k'.addr);
    case OwnedKey(addr, space) =>
      CancelHead(8, addr + [DELIMITER] + space, k'.addr + [DELIMITER] + k'.space);
      OwnedKeyInjective(addr, space, k'.addr, k'.space);
  }

  // ---------- What a byte scan selects ----------

  predicate TimeKeyIn(k: Key, p: byte, lo: uint64, hi: uint64) {
    && Tag(k) == p
    && (k.ExpiryKey? || k.PruningKey?)
    && lo <= k.ts < hi
  }

  lemma TimeKeyOrder(h: Hashes, p: byte, t: uint64, r: RawID, bound: uint64)
    requires Sound(h)
    ensures Less(SpecificTimeKey(h, p, t, r), RangeTimeKey(p, bound)) <==> t < bound
    ensures Less(RangeTimeKey(p, bound), SpecificTimeKey(h, p, t, r)) <==> bound <= t
  {
    var x, y := [DELIMITER] + h.raw(r), [DELIMITER];
    assert SpecificTimeKey(h, p, t, r) == Head(p) + (BE8(t) + x);
    assert RangeTimeKey(p, bound) == Head(p) + (BE8(bound) + y);
    LessSamePrefix(Head(p), BE8(t) + x, BE8(bound) + y);
    LessSamePrefix(Head(p), BE8(bound) + y, BE8(t) + x);
    LessTotal(BE8(t) + x, BE8(bound) + y);
    if t < bound {
      BE8Order(t, bound, x, y);
    } else if bound < t {
      BE8Order(bound, t, y, x);
    } else {
      LessSamePrefix(BE8(t), x, y);
      LessSamePrefix(BE8(t), y, x);
      assert x[1..] == h.raw(r) && y[1..] == [];
    }
  }

  /** The scan of ExpireNext and PruneNext: from RangeTimeKey(p, lo) up to and not past
      RangeTimeKey(p, hi), compared as bytes, meets exactly the entries of family p whose
      time stamp lies in lo <= ts < hi, and no key of any other family. */
  lemma TimeWindow(h: Hashes, p: byte, lo: uint64, hi: uint64, k: Key)
    requires Sound(h) && (p == 5 || p == 6)
    ensures Leq(RangeTimeKey(p, lo), Encode(h, k)) && Leq(Encode(h, k), RangeTimeKey(p, hi))
       <==> TimeKeyIn(k, p, lo, hi)
  {
    var s := Encode(h, k);
    if Tag(k) == p {
      TimeKeyOrder(h, p, k.ts, k.raw, lo);
      TimeKeyOrder(h, p, k.ts, k.raw, hi);
    } else {
      assert RangeTimeKey(p, lo)[0] == p == RangeTimeKey(p, hi)[0];
    }
  }

  lemma PrefixTail(head: seq<byte>, a: seq<byte>, b: seq<byte>)
    requires IsPrefix(head + a, head + b)
    ensures IsPrefix(a, b)
  {
    var n := |head|;
    assert a == (head + a)[n..];
    assert b[..|a|] == (head + b)[..n + |a|][n..];
  }

  lemma RawPrefix(h: Hashes, r: RawID, r': RawID, key: Name)
    requires Sound(h) && IsPrefix(h.raw(r) + [DELIMITER], h.raw(r') + ([DELIMITER] + key))
    ensures r == r'
  {
    var body, n := h.raw(r') + ([DELIMITER] + key), |h.raw(r)|;
    assert h.raw(r) == body[..n + 1][..n] == body[..n];
    assert h.raw(r) + body[n..] == body;
    SplitPrefix(h.raw(r), body[n..], h.raw(r'), [DELIMITER] + key);
  }

  /** database.ClearPrefix on SpaceValueKey(raw, nil) selects the values of `raw` and nothing else. */
  lemma ValuePrefix(h: Hashes, r: RawID, k: Key)
    requires Sound(h)
    ensures IsPrefix(Encode(h, ValueKey(r, [])), Encode(h, k)) <==> k.ValueKey? && k.raw == r
  {
    var p, s := Encode(h, ValueKey(r, [])), Encode(h, k);
    if k.ValueKey? {
      var body := h.raw(k.raw) + ([DELIMITER] + k.key);
      assert s == Head(4) + body;
      assert p == Head(4) + (h.raw(r) + [DELIMITER]);
      if IsPrefix(p, s) {
        PrefixTail(Head(4), h.raw(r) + [DELIMITER], body);
        RawPrefix(h, r, k.raw, k.key);
      }
      if k.raw == r {
        assert s[..|p|] == p;
      }
    } else if |p| <= |s| {
      assert s[..|p|][0] == s[0] != p[0];
    }
  }

  // ---------- The first key at or after a position ----------

  predicate IsFirst(h: Hashes, m: Db, start: seq<byte>, k: Key) {
    && k in m
    && Leq(start, Encode(h, k))
    && forall k' :: k' in m && Leq(start, Encode(h, k')) ==> Leq(Encode(h, k), Encode(h, k'))
  }

  lemma FirstExists(h: Hashes, m: Db, start: seq<byte>, after: set<Key>)
    requires after != {}
    requires forall k :: k in after <==> k in m && Leq(start, Encode(h, k))
    ensures exists k :: IsFirst(h, m, start, k)
  {
    var codes := set k | k in after :: Encode(h, k);
    var k0 :| k0 in after;
    assert Encode(h, k0) in codes;
    LeastExists(codes);
    var b :| IsLeast(codes, b);
    var k :| k in after && Encode(h, k) == b;
    assert IsFirst(h, m, start, k);
  }

  /** cursor := db.NewIteratorWithStart(start); cursor.Next(); cursor.Key(). */
  ghost function FirstFrom(h: Hashes, m: Db, start: seq<byte>): (r: Option<Key>)
    ensures r.Some? ==> IsFirst(h, m, start, r.value)
    ensures r.None? ==> forall k :: k in m ==> Less(Encode(h, k), start)
  {
    var after := set k | k in m && Leq(start, Encode(h, k));
    if after == {} then
      assert forall k :: k in m && !Less(Encode(h, k), start) ==> k in after;
      None
    else
      FirstExists(h, m, start, after);
      var first :| IsFirst(h, m, start, first);
      Some(first)
  }

  lemma FirstUnique(h: Hashes, m: Db, start: seq<byte>, k: Key, k': Key)
    requires Sound(h) && IsFirst(h, m, start, k) && IsFirst(h, m, start, k')
    ensures k == k'
  {
    LessTotal(Encode(h, k), Encode(h, k'));
    EncodeInjective(h, k, k');
  }
}

/** Byte strings in the order the database keeps them. */
module Bytes {
  import opened Types

  /** bytes.Compare(a, b) < 0. */
  predicate Less(a: seq<byte>, b: seq<byte>) {
    if |b| == 0 then false
    else if |a| == 0 then true
    else if a[0] != b[0] then a[0] < b[0]
    else Less(a[1..], b[1..])
  }

  predicate Leq(a: seq<byte>, b: seq<byte>) {
    !Less(b, a)
  }

  predicate IsPrefix(p: seq<byte>, s: seq<byte>) {
    |p| <= |s| && s[..|p|] == p
  }

  /** bytes.Contains(s, sub). */
  predicate Contains(s: seq<byte>, sub: seq<byte>) {
    exists i :: 0 <= i <= |s| && IsPrefix(sub, s[i..])
  }

  /** Exactly one of a < b, b < a, a == b. */
  lemma {:induction false} LessTotal(a: seq<byte>, b: seq<byte>)
    ensures Less(a, b) || Less(b, a) || a == b
    ensures !(Less(a, b) && Less(b, a))
    ensures a == b ==> !Less(a, b)
  {
    if |a| > 0 && |b| > 0 {
      LessTotal(a[1..], b[1..]);
      if a[0] == b[0] && a[1..] == b[1..] {
        assert a == [a[0]] + a[1..] && b == [b[0]] + b[1..];
      }
    }
  }

  lemma {:induction false} LessTransitive(a: seq<byte>, b: seq<byte>, c: seq<byte>)
    requires Leq(a, b) && Leq(b, c)
    ensures Leq(a, c)
    decreases |a| + |b| + |c|
  {
    LessTotal(a, b);
    LessTotal(b, c);
    if |a| > 0 && |b| > 0 && |c| > 0 && a[0] == b[0] == c[0] {
      LessTransitive(a[1..], b[1..], c[1..]);
    }
  }

  /** A shared first part decides nothing. */
  lemma {:induction false} LessSamePrefix(p: seq<byte>, a: seq<byte>, b: seq<byte>)
    ensures Less(p + a, p + b) == Less(a, b)
    decreases |p|
  {
    if |p| == 0 {
      assert p + a == a && p + b == b;
    } else {
      assert (p + a)[1..] == p[1..] + a && (p + b)[1..] == p[1..] + b;
      LessSamePrefix(p[1..], a, b);
    }
  }

  predicate IsLeast(s: set<seq<byte>>, b: seq<byte>) {
    b in s && forall c :: c in s ==> Leq(b, c)
  }

  lemma {:induction false} LeastExists(s: set<seq<byte>>)
    requires s != {}
    ensures exists b :: IsLeast(s, b)
  {
    var a :| a in s;
    LessTotal(a, a);
    if s == {a} {
      assert IsLeast(s, a);
    } else {
      LeastExists(s - {a});
      var l :| IsLeast(s - {a}, l);
      LessTotal(a, l);
      var least := if Less(l, a) then l else a;
      forall c | c in s
        ensures Leq(least, c)
      {
        if c != a && least == a {
          LessTransitive(a, l, c);
        }
      }
      assert IsLeast(s, least);
    }
  }

  // ---------- Big-endian words ----------

  function Pow256(k: nat): (r: int)
    ensures r > 0
  {
    if k == 0 then 1 else 256 * Pow256(k - 1)
  }

  function High(n: nat, p: int): (r: nat)
    requires p > 0 && n < 256 * p
    ensures r < 256
  {
    DivModBound(n, p);
    n / p
  }

  function Low(n: nat, p: int): (r: nat)
    requires p > 0 && n < 256 * p
    ensures r < p
  {
    DivModBound(n, p);
    n % p
  }

  /** The k low bytes of n, most significant first. */
  function BigEndian(n: nat, k: nat): (s: seq<byte>)
    requires n < Pow256(k)
    ensures |s| == k
  {
    if k == 0 then []
    else [High(n, Pow256(k - 1))] + BigEndian(Low(n, Pow256(k - 1)), k - 1)
  }

  lemma DivModBound(n: nat, p: int)
    requires p > 0 && n < 256 * p
    ensures 0 <= n / p < 256 && 0 <= n % p < p
    ensures n == (n / p) * p + n % p
  {
    MulMonotone(256, n / p, p);
  }

  lemma Distribute(a: int, b: int, c: int)
    ensures (a + b) * c == a * c + b * c
  {
  }

  lemma MulMonotone(a: int, b: int, c: int)
    ensures a <= b && 0 <= c ==> a * c <= b * c
  {
  }

  lemma Pow8()
    ensures Pow256(8) == TWO64
  {
    assert Pow256(2) == 0x1_0000;
    assert Pow256(4) == 0x1_0000_0000;
    assert Pow256(6) == 0x1_0000_0000_0000;
  }

  /** binary.BigEndian.PutUint64. */
  function BE8(n: uint64): (s: seq<byte>)
    ensures |s| == 8
  {
    Pow8();
    BigEndian(n, 8)
  }

  /** Whatever follows, the smaller word comes first. */
  lemma {:induction false} BigEndianOrder(a: nat, b: nat, k: nat, x: seq<byte>, y: seq<byte>)
    requires a < b < Pow256(k)
    ensures Less(BigEndian(a, k) + x, BigEndian(b, k) + y)
    decreases k
  {
    var p := Pow256(k - 1);
    HighLowOrder(a, b, p);
    var sa, sb := BigEndian(a, k) + x, BigEndian(b, k) + y;
    assert sa[0] == High(a, p) && sa[1..] == BigEndian(Low(a, p), k - 1) + x;
    assert sb[0] == High(b, p) && sb[1..] == BigEndian(Low(b, p), k - 1) + y;
    if High(a, p) == High(b, p) {
      BigEndianOrder(Low(a, p), Low(b, p), k - 1, x, y);
    }
  }

  lemma HighLowOrder(a: nat, b: nat, p: int)
    requires p > 0 && a < b < 256 * p
    ensures High(a, p) <= High(b, p)
    ensures High(a, p) == High(b, p) ==> Low(a, p) < Low(b, p)
  {
    DivModBound(a, p);
    DivModBound(b, p);
    MulMonotone(b / p + 1, a / p, p);
    Distribute(b / p, 1, p);
  }

  lemma BE8Order(a: uint64, b: uint64, x: seq<byte>, y: seq<byte>)
    requires a < b
    ensures Less(BE8(a) + x, BE8(b) + y)
  {
    Pow8();
    BigEndianOrder(a, b, 8, x, y);
  }

  /** Equal words have equal bytes and different words different ones. */
  lemma BE8Injective(a: uint64, b: uint64)
    requires BE8(a) == BE8(b)
    ensures a == b
  {
    if a < b {
      BE8Order(a, b, [], []);
      LessTotal(BE8(a) + [], BE8(b) + []);
    } else if b < a {
      BE8Order(b, a, [], []);
      LessTotal(BE8(a) + [], BE8(b) + []);
    }
  }

  // ---------- Hexadecimal ----------

  function HexDigit(d: int): (r: byte)
    requires 0 <= d < 16
  {
    if d < 10 then 48 + d else 87 + d
  }

  function HexDigits(s: seq<byte>): seq<byte> {
    if |s| == 0 then [] else [HexDigit(s[0] / 16), HexDigit(s[0] % 16)] + HexDigits(s[1..])
  }

  /** strings.ToLower of the 0x form. */
  function LowerHex(s: seq<byte>): seq<byte> {
    [48, 120] + HexDigits(s)
  }
}

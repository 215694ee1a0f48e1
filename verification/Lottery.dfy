/** Whom the lottery rewards (storage.go), exactly. */
module Lottery {
  import opened Types
  import opened Bytes
  import opened Keys
  import S = Store
  import opened Spaces
  import opened Agreement

  /** The record of `s` is the first one at or after the place drawn. */
  ghost predicate FirstRecord(h: Hashes, m: Db, seed: seq<byte>, s: Name) {
    && InfoKey(s) in m && Leq(Head(3) + seed, Encode(h, InfoKey(s)))
    && forall s' :: InfoKey(s') in m && Leq(Head(3) + seed, Encode(h, InfoKey(s'))) ==>
      Leq(Encode(h, InfoKey(s)), Encode(h, InfoKey(s')))
  }

  ghost predicate RecordAhead(h: Hashes, m: Db, seed: seq<byte>) {
    exists s :: InfoKey(s) in m && Leq(Head(3) + seed, Encode(h, InfoKey(s)))
  }

  lemma RecordIsAhead(h: Hashes, m: Db, seed: seq<byte>, k: Key)
    requires k.InfoKey? && k in m && Leq(Head(3) + seed, Encode(h, k))
    ensures RecordAhead(h, m, seed)
  {
    assert k == InfoKey(k.space);
  }

  /** A key that comes before a record, at or after the place drawn, is of a record too. */
  lemma NoneBetween(h: Hashes, m: Db, seed: seq<byte>, k: Key)
    requires IsFirst(h, m, Head(3) + seed, k) && RecordAhead(h, m, seed)
    ensures k.InfoKey?
  {
    hide Less, Encode;
    var s :| InfoKey(s) in m && Leq(Head(3) + seed, Encode(h, InfoKey(s)));
    BetweenRecords(h, seed, k, s);
  }

  /** The owner of the first record at or after the place drawn wins, if there is one. Otherwise nobody
      wins, and if the key that follows happens to contain the two bytes of the record prefix the
      transaction fails. */
  lemma DrawExact(h: Hashes, m: Db, seed: seq<byte>)
    requires Typed(m)
    ensures var d := S.DrawFrom(h, m, seed);
      if RecordAhead(h, m, seed)
      then d.Winner? && exists s :: FirstRecord(h, m, seed, s) && S.GetInfo(m, s) == Some(d.info)
      else
        var next := FirstFrom(h, m, Head(3) + seed);
        d == if next.Some? && Contains(Encode(h, next.value), Head(3)) then S.Foreign else S.NoSpace
  {
    hide Less, Contains, Encode;
    var next := FirstFrom(h, m, Head(3) + seed);
    if next.Some? {
      var k := next.value;
      assert WellTyped(k, m[k]);
      if k.InfoKey? {
        RecordIsAhead(h, m, seed, k);
        RecordContainsHead(h, k.space);
        assert k == InfoKey(k.space) && FirstRecord(h, m, seed, k.space);
      } else if RecordAhead(h, m, seed) {
        NoneBetween(h, m, seed, k);
      }
    }
  }

  /** The entry of a space whose last second ends in the byte 3 contains the record prefix: if it is the
      next key after the place drawn, with no record in between, the transaction fails. */
  lemma DueSpaceFoulsTheDraw(h: Hashes, m: Db, seed: seq<byte>, k: Key)
    requires Sound(h) && Typed(m) && k.ExpiryKey? && k.ts % 256 == 3
    requires IsFirst(h, m, Head(3) + seed, k)
    ensures S.DrawFrom(h, m, seed) == S.Foreign
  {
    FirstUnique(h, m, Head(3) + seed, k, FirstFrom(h, m, Head(3) + seed).value);
    TimeKeyContains(h, 5, k.ts, k.raw);
    assert WellTyped(k, m[k]);
    hide Contains, Less;
  }

  lemma TimeKeyContains(h: Hashes, p: byte, ts: uint64, raw: RawID)
    requires ts % 256 == 3
    ensures Contains(SpecificTimeKey(h, p, ts, raw), Head(3))
  {
    LastByte(ts);
    var e := SpecificTimeKey(h, p, ts, raw);
    assert e[9] == 3 && e[10] == DELIMITER;
    assert IsPrefix(Head(3), e[9..]);
  }

  lemma LastByte(n: uint64)
    ensures BE8(n)[7] == n % 256
  {
    Pow8();
    LastOfBigEndian(n, 8);
  }

  lemma {:induction false} LastOfBigEndian(n: nat, k: nat)
    requires k > 0 && n < Pow256(k)
    ensures BigEndian(n, k)[k - 1] == n % 256
  {
    if k == 1 {
      assert Pow256(0) == 1;
      FirstOfBigEndian(n);
    } else {
      var low := Low(n, Pow256(k - 1));
      ModPow(n, k - 1);
      hide Low;
      LastOfBigEndian(low, k - 1);
      assert BigEndian(n, k)[1..] == BigEndian(low, k - 1);
    }
  }

  lemma FirstOfBigEndian(n: nat)
    requires n < 256 && Pow256(0) == 1 && Pow256(1) == 256
    ensures BigEndian(n, 1)[0] == n
  {
  }

  lemma ModPow(n: nat, k: nat)
    requires k > 0
    ensures n % Pow256(k) % 256 == n % 256
  {
    var p := Pow256(k - 1);
    var q, r := Divide(n, 256 * p);
    SameLow(n, p, q, r);
  }

  lemma Divide(n: nat, p: nat) returns (q: nat, r: nat)
    requires p > 0
    ensures n == p * q + r && r == n % p
  {
    q, r := n / p, n % p;
  }

  lemma SameLow(n: nat, p: nat, q: nat, r: nat)
    requires n == (256 * p) * q + r
    ensures n % 256 == r % 256
  {
    Regroup(256, p, q);
    MulMod(p * q, r);
  }

  lemma Regroup(a: int, b: int, c: int)
    ensures (a * b) * c == a * (b * c)
  {
  }

  lemma MulMod(a: nat, b: nat)
    ensures (256 * a + b) % 256 == b % 256
  {
  }
}

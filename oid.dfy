/**
 * MongoDB object ids (`MongoDb::Oid`): twelve raw bytes, compared as `memcmp` compares them,
 * that is lexicographically on unsigned bytes.
 */
module MongoOid {
  import opened Common

  const OID_SIZE: nat := 12

  type OidBytes = s: Bytes | |s| == OID_SIZE witness [0, 0, 0, 0, 0, 0, 0, 0, 0, 0, 0, 0]

  datatype Oid = Oid(bytes: OidBytes)

  /** The default constructor: all twelve bytes zero. */
  function Default(): (o: Oid)
    ensures forall i :: 0 <= i < OID_SIZE ==> o.bytes[i] == 0
  {
    Oid(seq(OID_SIZE, _ => 0))
  }

  /** The constructors from a C array or a `boost::array` of twelve bytes copy them all. */
  function FromBytes(bytes: OidBytes): (o: Oid)
    ensures forall i :: 0 <= i < OID_SIZE ==> o.bytes[i] == bytes[i]
  {
    Oid(bytes)
  }

  /** `size()`: the storage always spans twelve bytes. */
  function Size(o: Oid): (n: nat)
    ensures n == |o.bytes| == 12
  {
    OID_SIZE
  }

  /** `operator[]` for reading; there is no bounds check, so callers must stay below twelve. */
  function At(o: Oid, index: nat): (b: byte)
    requires index < OID_SIZE
  {
    o.bytes[index]
  }

  /** Writing through `operator[]`: only byte `index` changes. */
  function Set(o: Oid, index: nat, b: byte): (o': Oid)
    requires index < OID_SIZE
    ensures At(o', index) == b
    ensures forall j :: 0 <= j < OID_SIZE && j != index ==> At(o', j) == At(o, j)
  {
    Oid(o.bytes[index := b])
  }

  /** Reading back what was written yields it; writing what is already there changes nothing. */
  lemma {:induction false} SetAt(o: Oid, index: nat)
    requires index < OID_SIZE
    ensures Set(o, index, At(o, index)) == o
  {
    assert Set(o, index, At(o, index)).bytes == o.bytes;
  }

  /** The sign of `memcmp` over two equally long byte strings: -1, 0 or 1. */
  function Memcmp(a: Bytes, b: Bytes): (r: int)
    requires |a| == |b|
    ensures -1 <= r <= 1
  {
    if a == [] then 0
    else if a[0] < b[0] then -1
    else if a[0] > b[0] then 1
    else Memcmp(a[1..], b[1..])
  }

  /** `k` is the first position where `a` and `b` differ. */
  ghost predicate FirstDifference(a: Bytes, b: Bytes, k: nat)
  {
    k < |a| && k < |b| && a[..k] == b[..k] && a[k] != b[k]
  }

  /** Lexicographic order on unsigned bytes: `a` is smaller at the first position where they differ. */
  ghost predicate LexLess(a: Bytes, b: Bytes)
  {
    exists k: nat :: FirstDifference(a, b, k) && a[k] < b[k]
  }

  lemma {:induction false} MemcmpZeroIffEqual(a: Bytes, b: Bytes)
    requires |a| == |b|
    ensures Memcmp(a, b) == 0 <==> a == b
    decreases |a|
  {
    if a != [] {
      MemcmpZeroIffEqual(a[1..], b[1..]);
      if a[0] == b[0] && a[1..] == b[1..] {
        assert a == [a[0]] + a[1..] && b == [b[0]] + b[1..];
      }
    }
  }

  lemma {:induction false} MemcmpAntisymmetric(a: Bytes, b: Bytes)
    requires |a| == |b|
    ensures Memcmp(b, a) == -Memcmp(a, b)
    decreases |a|
  {
    if a != [] && a[0] == b[0] {
      MemcmpAntisymmetric(a[1..], b[1..]);
    }
  }

  /** A negative `memcmp` is exactly the lexicographic order. */
  lemma {:induction false} MemcmpNegativeIffLexLess(a: Bytes, b: Bytes)
    requires |a| == |b|
    ensures Memcmp(a, b) < 0 <==> LexLess(a, b)
    decreases |a|
  {
    if a == [] {
      assert forall k: nat :: !FirstDifference(a, b, k);
    } else {
      MemcmpNegativeIffLexLess(a[1..], b[1..]);
      if Memcmp(a, b) < 0 {
        if a[0] < b[0] {
          assert FirstDifference(a, b, 0);
        } else {
          var k: nat :| FirstDifference(a[1..], b[1..], k) && a[1..][k] < b[1..][k];
          assert a[..k + 1] == [a[0]] + a[1..][..k] && b[..k + 1] == [b[0]] + b[1..][..k];
          assert FirstDifference(a, b, k + 1);
        }
      }
      if LexLess(a, b) {
        var k: nat :| FirstDifference(a, b, k) && a[k] < b[k];
        if k > 0 {
          assert a[0] == a[..k][0] == b[..k][0] == b[0];
          assert a[1..][..k - 1] == a[..k][1..] && b[1..][..k - 1] == b[..k][1..];
          assert FirstDifference(a[1..], b[1..], k - 1);
        }
      }
    }
  }

  lemma {:induction false} MemcmpTransitive(a: Bytes, b: Bytes, c: Bytes)
    requires |a| == |b| == |c|
    requires Memcmp(a, b) < 0 && Memcmp(b, c) < 0
    ensures Memcmp(a, c) < 0
    decreases |a|
  {
    if a[0] == b[0] == c[0] {
      MemcmpTransitive(a[1..], b[1..], c[1..]);
    }
  }

  function Equal(lhs: Oid, rhs: Oid): (r: bool)
    ensures r <==> lhs == rhs
  {
    MemcmpZeroIffEqual(lhs.bytes, rhs.bytes);
    Memcmp(lhs.bytes, rhs.bytes) == 0
  }

  function NotEqual(lhs: Oid, rhs: Oid): (r: bool)
    ensures r <==> !Equal(lhs, rhs)
  {
    Memcmp(lhs.bytes, rhs.bytes) != 0
  }

  function Less(lhs: Oid, rhs: Oid): (r: bool)
    ensures r <==> LexLess(lhs.bytes, rhs.bytes)
  {
    MemcmpNegativeIffLexLess(lhs.bytes, rhs.bytes);
    Memcmp(lhs.bytes, rhs.bytes) < 0
  }

  function Greater(lhs: Oid, rhs: Oid): (r: bool)
    ensures r <==> Less(rhs, lhs)
  {
    MemcmpAntisymmetric(lhs.bytes, rhs.bytes);
    Memcmp(lhs.bytes, rhs.bytes) > 0
  }

  function LessEqual(lhs: Oid, rhs: Oid): (r: bool)
    ensures r <==> Less(lhs, rhs) || lhs == rhs
  {
    MemcmpZeroIffEqual(lhs.bytes, rhs.bytes);
    Memcmp(lhs.bytes, rhs.bytes) <= 0
  }

  function GreaterEqual(lhs: Oid, rhs: Oid): (r: bool)
    ensures r <==> Less(rhs, lhs) || lhs == rhs
  {
    MemcmpZeroIffEqual(lhs.bytes, rhs.bytes);
    MemcmpAntisymmetric(lhs.bytes, rhs.bytes);
    Memcmp(lhs.bytes, rhs.bytes) >= 0
  }

  /** Exactly one of `<`, `==` and `>` holds between any two ids. */
  lemma Trichotomy(lhs: Oid, rhs: Oid)
    ensures Less(lhs, rhs) || Equal(lhs, rhs) || Greater(lhs, rhs)
    ensures !(Less(lhs, rhs) && Equal(lhs, rhs))
    ensures !(Less(lhs, rhs) && Greater(lhs, rhs))
    ensures !(Equal(lhs, rhs) && Greater(lhs, rhs))
  {
    MemcmpAntisymmetric(lhs.bytes, rhs.bytes);
    MemcmpZeroIffEqual(lhs.bytes, rhs.bytes);
  }

  /** `<` is a strict order: irreflexive and transitive. */
  lemma LessStrictOrder(a: Oid, b: Oid, c: Oid)
    ensures !Less(a, a)
    ensures Less(a, b) && Less(b, c) ==> Less(a, c)
  {
    MemcmpZeroIffEqual(a.bytes, a.bytes);
    if Less(a, b) && Less(b, c) {
      MemcmpTransitive(a.bytes, b.bytes, c.bytes);
    }
  }
}

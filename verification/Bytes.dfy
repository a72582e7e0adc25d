/** Byte strings, big-endian numbers, and the order a key-value store keeps its keys in. */
module Bytes {
  newtype byte = x: int | 0 <= x < 256
  type Bytes = seq<byte>

  /** The last `n` bytes of a number, most significant first. */
  function BigEndian(v: nat, n: nat): (b: Bytes)
    ensures |b| == n
  {
    if n == 0 then [] else BigEndian(v / 256, n - 1) + [(v % 256) as byte]
  }

  function Power256(n: nat): nat { if n == 0 then 1 else 256 * Power256(n - 1) }

  /** Eight bytes hold exactly the 64-bit numbers. */
  lemma EightBytes()
    ensures Power256(8) == 0x1_0000_0000_0000_0000
  {
    assert Power256(4) == 0x1_0000_0000;
    assert Power256(8) == 256 * (256 * (256 * (256 * Power256(4))));
  }

  /** Byte strings compared the way the store compares keys. */
  predicate Below(a: Bytes, b: Bytes) {
    b != [] && (a == [] || a[0] < b[0] || (a[0] == b[0] && Below(a[1..], b[1..])))
  }

  lemma {:induction false} BelowPrefix(p: Bytes, a: Bytes, b: Bytes)
    ensures Below(p + a, p + b) <==> Below(a, b)
  {
    if p == [] {
      assert p + a == a && p + b == b;
    } else {
      assert (p + a)[1..] == p[1..] + a && (p + b)[1..] == p[1..] + b;
      BelowPrefix(p[1..], a, b);
    }
  }

  /** A difference before the ends decides, whatever follows. */
  lemma {:induction false} BelowAppend(a: Bytes, b: Bytes, x: Bytes, y: Bytes)
    requires |a| == |b| && a != b
    ensures Below(a + x, b + y) <==> Below(a, b)
  {
    if a[0] == b[0] {
      assert (a + x)[1..] == a[1..] + x && (b + y)[1..] == b[1..] + y;
      assert a == [a[0]] + a[1..] && b == [b[0]] + b[1..];
      BelowAppend(a[1..], b[1..], x, y);
    }
  }

  /** Big-endian numbers sort as keys the way they sort as numbers. */
  lemma {:induction false} BigEndianOrder(v: nat, w: nat, n: nat)
    requires v < Power256(n) && w < Power256(n)
    ensures Below(BigEndian(v, n), BigEndian(w, n)) <==> v < w
    ensures BigEndian(v, n) == BigEndian(w, n) ==> v == w
  {
    if n > 0 {
      var a, b := BigEndian(v / 256, n - 1), BigEndian(w / 256, n - 1);
      var x, y := [(v % 256) as byte], [(w % 256) as byte];
      BigEndianOrder(v / 256, w / 256, n - 1);
      if a == b {
        BelowPrefix(a, x, y);
        assert x[1..] == [] && y[1..] == [];
      } else {
        BelowAppend(a, b, x, y);
      }
      if a + x == b + y {
        assert a == (a + x)[..n - 1] && b == (b + y)[..n - 1];
        assert x[0] == (a + x)[n - 1] && y[0] == (b + y)[n - 1];
      }
    }
  }

  lemma {:induction false} BelowTotal(a: Bytes, b: Bytes)
    ensures Below(a, b) || Below(b, a) || a == b
    ensures Below(a, b) ==> !Below(b, a) && a != b
  {
    if a != [] && b != [] && a[0] == b[0] {
      BelowTotal(a[1..], b[1..]);
      assert a == [a[0]] + a[1..] && b == [b[0]] + b[1..];
    }
  }

  lemma {:induction false} BelowTransitive(a: Bytes, b: Bytes, c: Bytes)
    requires Below(a, b) && Below(b, c)
    ensures Below(a, c)
  {
    if a != [] && a[0] == b[0] == c[0] { BelowTransitive(a[1..], b[1..], c[1..]); }
  }

  /** The next key after `k` is `k` with a zero byte: nothing lies between them. */
  lemma {:induction false} NextKey(k: Bytes, x: Bytes)
    ensures Below(x, k + [0]) <==> Below(x, k) || x == k
  {
    if k == [] {
      assert x != [] ==> !Below(x, [0]) by { if x != [] { assert [0 as byte][1..] == []; } }
    } else if x != [] {
      assert (k + [0])[1..] == k[1..] + [0];
      assert x == [x[0]] + x[1..] && k == [k[0]] + k[1..];
      if x[0] == k[0] { NextKey(k[1..], x[1..]); }
    }
  }
}

/**
 The browser's proof checker: `decodeProof`, `bitAt`, `commonPrefixBits` and `verifyProof` of
 internal/api/web/verify.js.

 Hashing is ideal: a digest is the term it was computed from, so equal digests come from equal
 parts. On the wire a digest is 32 bytes; `read` is the (arbitrary) digest a string stands for.
 */
module Merkle {
  import opened Bytes
  import opened Model

  datatype Digest = LeafHash(path: Bytes, vh: Bytes) | NodeHash(left: Digest, right: Digest) | Placeholder | Junk(id: nat)

  datatype Leaf = Leaf(path: Bytes, vh: Bytes)
  datatype Proof = Proof(leaf: Option<Leaf>, siblings: seq<Bytes>)

  datatype Fault = EmptyProof | TruncatedLeaf | UnknownFlags | Truncated | LengthMismatch | NotCovered | WrongRoot
  datatype Result<T> = Ok(value: T) | Err(error: Fault)

  const HASH_BYTES := 32
  const PATH_BITS := 256

  // ----- the wire format -----

  function Flatten(parts: seq<Bytes>): Bytes {
    if parts == [] then [] else Flatten(parts[..|parts| - 1]) + parts[|parts| - 1]
  }

  predicate WellSized(p: Proof) {
    && (p.leaf.Some? ==> |p.leaf.value.path| == HASH_BYTES && |p.leaf.value.vh| == HASH_BYTES)
    && |p.siblings| <= 0xFFFF
    && forall i | 0 <= i < |p.siblings| :: |p.siblings[i]| == HASH_BYTES
  }

  /** One byte that says whether a leaf follows, the leaf, the number of siblings low byte first, the siblings. */
  function Encode(p: Proof): Bytes
    requires WellSized(p)
  {
    Head(p.leaf) + Count(|p.siblings|) + Flatten(p.siblings)
  }

  function Head(leaf: Option<Leaf>): Bytes {
    if leaf.Some? then [1] + leaf.value.path + leaf.value.vh else [0]
  }

  function Count(n: nat): Bytes
    requires n <= 0xFFFF
  {
    [(n % 256) as byte, (n / 256) as byte]
  }

  function CountOf(low: byte, high: byte): nat { low as nat + 256 * (high as nat) }

  lemma CountReadsBack(n: nat)
    requires n <= 0xFFFF
    ensures CountOf(Count(n)[0], Count(n)[1]) == n
  {}

  lemma CountWritesBack(low: byte, high: byte)
    ensures CountOf(low, high) <= 0xFFFF && Count(CountOf(low, high)) == [low, high]
  {}

  lemma {:induction false} FlattenLength(parts: seq<Bytes>)
    requires forall i | 0 <= i < |parts| :: |parts[i]| == HASH_BYTES
    ensures |Flatten(parts)| == |parts| * HASH_BYTES
  {
    if parts != [] { FlattenLength(parts[..|parts| - 1]); }
  }

  /** Cutting a string into hashes and joining them gives the string back. */
  lemma {:induction false} FlattenSlices(data: Bytes, from: nat, parts: seq<Bytes>)
    requires from + |parts| * HASH_BYTES <= |data|
    requires forall i | 0 <= i < |parts| :: parts[i] == data[from + i * HASH_BYTES..from + (i + 1) * HASH_BYTES]
    ensures Flatten(parts) == data[from..from + |parts| * HASH_BYTES]
  {
    if parts != [] {
      var n := |parts| - 1;
      FlattenSlices(data, from, parts[..n]);
      assert data[from..from + n * HASH_BYTES] + data[from + n * HASH_BYTES..from + (n + 1) * HASH_BYTES]
          == data[from..from + (n + 1) * HASH_BYTES];
    }
  }

  /** What an encoded proof looks like to the reader of the bytes. */
  lemma EncodedShape(p: Proof)
    requires WellSized(p)
    ensures var data := Encode(p);
            var off := if p.leaf.Some? then 65 else 1;
            && |data| == off + 2 + |p.siblings| * HASH_BYTES
            && data[0] == (if p.leaf.Some? then 1 else 0)
            && CountOf(data[off], data[off + 1]) == |p.siblings|
  {
    FlattenLength(p.siblings);
    CountReadsBack(|p.siblings|);
    assert Encode(p)[..|Head(p.leaf)|] == Head(p.leaf);
  }

  /** Decoding accepts exactly the encodings, and returns what was encoded. */
  method DecodeProof(data: Bytes) returns (r: Result<Proof>)
    ensures r.Ok? ==> WellSized(r.value) && Encode(r.value) == data
    ensures r.Err? ==> forall p | WellSized(p) :: Encode(p) != data
    ensures r == Err(EmptyProof) <==> data == []
    ensures r == Err(UnknownFlags) <==> data != [] && data[0] != 0 && data[0] != 1
    ensures r == Err(TruncatedLeaf) <==> data != [] && data[0] == 1 && |data| < 65
    ensures r.Err? ==> r.error != NotCovered && r.error != WrongRoot
  {
    hide Encode, CountOf, Flatten;
    forall p | WellSized(p) ensures Encode(p) != [] && EncodedAs(p, Encode(p)) { EncodedShape(p); }
    if |data| == 0 {
      return Err(EmptyProof);
    }
    var off := 1;
    var leaf: Option<Leaf> := None;
    if data[0] == 1 {
      if |data| < 65 {
        return Err(TruncatedLeaf);
      }
      leaf := Some(Leaf(data[1..33], data[33..65]));
      off := 65;
    } else if data[0] != 0 {
      return Err(UnknownFlags);
    }
    if |data| < off + 2 {
      return Err(Truncated);
    }
    var count := CountOf(data[off], data[off + 1]);
    CountWritesBack(data[off], data[off + 1]);
    off := off + 2;
    if |data| != off + count * HASH_BYTES {
      return Err(LengthMismatch);
    }
    var siblings: seq<Bytes> := [];
    for i := 0 to count
      invariant |siblings| == i
      invariant forall k | 0 <= k < i :: siblings[k] == data[off + k * HASH_BYTES..off + (k + 1) * HASH_BYTES]
    {
      siblings := siblings + [data[off + i * HASH_BYTES..off + (i + 1) * HASH_BYTES]];
    }
    var p := Proof(leaf, siblings);
    FlattenSlices(data, off, siblings);
    Reassembled(data, p);
    return Ok(p);
  }

  predicate EncodedAs(p: Proof, data: Bytes) {
    var off := if p.leaf.Some? then 65 else 1;
    && |data| == off + 2 + |p.siblings| * HASH_BYTES
    && data[0] == (if p.leaf.Some? then 1 else 0)
    && CountOf(data[off], data[off + 1]) == |p.siblings|
  }

  lemma Reassembled(data: Bytes, p: Proof)
    requires WellSized(p)
    requires var off := if p.leaf.Some? then 65 else 1;
             && |data| == off + 2 + |p.siblings| * HASH_BYTES
             && Head(p.leaf) == data[..off]
             && Count(|p.siblings|) == [data[off], data[off + 1]]
             && Flatten(p.siblings) == data[off + 2..]
    ensures Encode(p) == data
  {
    hide Head, Count, Flatten;
    var off := if p.leaf.Some? then 65 else 1;
    assert data == data[..off] + [data[off], data[off + 1]] + data[off + 2..];
  }

  // ----- bits -----

  /** `0x80 >> k` */
  function Mask(k: nat): bv8 {
    match k
    case 0 => 0x80
    case 1 => 0x40
    case 2 => 0x20
    case 3 => 0x10
    case 4 => 0x08
    case 5 => 0x04
    case 6 => 0x02
    case 7 => 0x01
    case _ => 0
  }

  predicate Bit(b: bv8, k: nat) { b & Mask(k) != 0 }

  /** A byte past the end of the path reads as zero. */
  function ByteAt(p: Bytes, i: nat): bv8 { if i < |p| then p[i] as bv8 else 0 }

  predicate BitAt(p: Bytes, i: nat) { Bit(ByteAt(p, i / 8), i % 8) }

  ghost predicate Agree(a: Bytes, b: Bytes, n: nat) { forall i: nat | i < n :: BitAt(a, i) == BitAt(b, i) }

  lemma XorMask(x: bv8, y: bv8, m: bv8)
    requires (x & m == 0 || x & m == m) && (y & m == 0 || y & m == m) && m != 0
    ensures ((x ^ y) & m != 0) == ((x & m != 0) != (y & m != 0))
  {}

  lemma OneBit(x: bv8, k: nat)
    requires k < 8
    ensures Mask(k) != 0 && (x & Mask(k) == 0 || x & Mask(k) == Mask(k))
  {}

  lemma XorBit(x: bv8, y: bv8, k: nat)
    requires k < 8
    ensures Bit(x ^ y, k) == (Bit(x, k) != Bit(y, k))
  {
    hide Mask;
    OneBit(x, k);
    OneBit(y, k);
    XorMask(x, y, Mask(k));
  }

  lemma ShiftBit(x: bv8, k: nat)
    requires k < 7
    ensures Bit(x << 1, k) == Bit(x, k + 1)
  {}

  lemma NoBits(x: bv8)
    requires forall k: nat | k < 8 :: !Bit(x, k)
    ensures x == 0
  {
    assert !Bit(x, 0) && !Bit(x, 1) && !Bit(x, 2) && !Bit(x, 3) && !Bit(x, 4) && !Bit(x, 5) && !Bit(x, 6) && !Bit(x, 7);
  }

  /** `x` is `x0` shifted left by `n` places, and nothing was shifted out. */
  ghost predicate Shifted(x0: bv8, x: bv8, n: nat) {
    && (forall k: nat | n <= k < 8 :: Bit(x0, k) == Bit(x, k - n))
    && (forall k: nat | k < n :: !Bit(x0, k))
  }

  lemma ShiftOne(x0: bv8, x: bv8, n: nat)
    requires x0 != 0 && n < 8 && Shifted(x0, x, n) && !Bit(x, 0)
    ensures n < 7 && Shifted(x0, x << 1, n + 1)
  {
    hide Bit;
    if n == 7 {
      NoBits(x0);
    }
    forall k: nat | n < k < 8 ensures Bit(x0, k) == Bit(x << 1, k - (n + 1)) { ShiftBit(x, k - n - 1); }
  }

  /** The first bit of a byte that is set. */
  method LeadingZeros(x0: bv8) returns (n: nat)
    requires x0 != 0
    ensures n < 8 && Bit(x0, n) && forall k: nat | k < n :: !Bit(x0, k)
  {
    hide Bit;
    n := 0;
    var x := x0;
    while x & 0x80 == 0
      invariant n < 8 && Shifted(x0, x, n)
      decreases 8 - n
    {
      TopBit(x);
      ShiftOne(x0, x, n);
      x := x << 1;
      n := n + 1;
    }
    TopBit(x);
  }

  lemma TopBit(x: bv8)
    ensures (x & 0x80 == 0) == !Bit(x, 0)
  {}

  /** The length of the common prefix of two paths, in bits. */
  method CommonPrefixBits(a: Bytes, b: Bytes) returns (n: nat)
    ensures n <= PATH_BITS && Agree(a, b, n)
    ensures n < PATH_BITS ==> BitAt(a, n) != BitAt(b, n)
  {
    hide Bit;
    for i := 0 to HASH_BYTES
      invariant Agree(a, b, i * 8)
    {
      var x := ByteAt(a, i) ^ ByteAt(b, i);
      forall k: nat | k < 8 ensures Bit(x, k) == (BitAt(a, i * 8 + k) != BitAt(b, i * 8 + k)) {
        XorBit(ByteAt(a, i), ByteAt(b, i), k);
        assert (i * 8 + k) / 8 == i && (i * 8 + k) % 8 == k;
      }
      if x != 0 {
        var m := LeadingZeros(x);
        forall j: nat | j < i * 8 + m ensures BitAt(a, j) == BitAt(b, j) {
          if j >= i * 8 { assert !Bit(x, j - i * 8); }
        }
        return i * 8 + m;
      }
      ZeroHasNoBits();
      forall j: nat | j < (i + 1) * 8 ensures BitAt(a, j) == BitAt(b, j) {
        if j >= i * 8 { assert !Bit(x, j - i * 8); }
      }
    }
    return PATH_BITS;
  }

  lemma ZeroHasNoBits()
    ensures forall k: nat | k < 8 :: !Bit(0, k)
  {}

  // ----- the check -----

  datatype Verdict = Accepted(present: bool, vh: Option<Bytes>) | Rejected(why: Fault)

  function Start(leaf: Option<Leaf>): Digest {
    if leaf.Some? then LeafHash(leaf.value.path, leaf.value.vh) else Placeholder
  }

  /** The digest at depth `d` of the position a path leads to, siblings listed deepest first. */
  function Fold(path: Bytes, d: nat, siblings: seq<Digest>, bottom: Digest): Digest
    decreases |siblings|
  {
    if siblings == [] then bottom
    else
      var n := |siblings| - 1;
      var below := Fold(path, d + 1, siblings[..n], bottom);
      if BitAt(path, d) then NodeHash(siblings[n], below) else NodeHash(below, siblings[n])
  }

  function Digests(siblings: seq<Bytes>, read: Bytes -> Digest): seq<Digest> {
    seq(|siblings|, i requires 0 <= i < |siblings| => read(siblings[i]))
  }

  /** Whether the leaf may stand for the position `n` levels down the path. */
  ghost predicate Covers(leaf: Leaf, path: Bytes, n: nat) {
    leaf.path == path || (n <= PATH_BITS && Agree(leaf.path, path, n))
  }

  ghost function Check(root: Digest, path: Bytes, p: Proof, read: Bytes -> Digest): Verdict {
    if p.leaf.Some? && !Covers(p.leaf.value, path, |p.siblings|) then Rejected(NotCovered)
    else if Fold(path, 0, Digests(p.siblings, read), Start(p.leaf)) != root then Rejected(WrongRoot)
    else Accepted(p.leaf.Some? && p.leaf.value.path == path, if p.leaf.Some? then Some(p.leaf.value.vh) else None)
  }

  method VerifyProof(root: Bytes, path: Bytes, data: Bytes, read: Bytes -> Digest) returns (v: Verdict)
    ensures forall p | WellSized(p) && Encode(p) == data :: v == Check(read(root), path, p, read)
    ensures (forall p | WellSized(p) :: Encode(p) != data) ==> v.Rejected?
  {
    hide Encode, WellSized, Agree, BitAt;
    var decoded := DecodeProof(data);
    if decoded.Err? {
      return Rejected(decoded.error);
    }
    var p := decoded.value;
    forall q | WellSized(q) && Encode(q) == data ensures q == p { EncodeInjective(p, q); }
    var n := |p.siblings|;
    var acc := Start(p.leaf);
    var present := false;
    if p.leaf.Some? {
      if p.leaf.value.path == path {
        present := true;
      } else {
        var common := CommonPrefixBits(p.leaf.value.path, path);
        PrefixDecides(p.leaf.value.path, path, common, n);
        if common < n {
          return Rejected(NotCovered);
        }
      }
    }
    ghost var siblings := Digests(p.siblings, read);
    for i := 0 to n
      invariant acc == Fold(path, n - i, siblings[..i], Start(p.leaf))
    {
      var depth := n - 1 - i;
      var sib := read(p.siblings[i]);
      assert siblings[..i + 1][..i] == siblings[..i];
      acc := if BitAt(path, depth) then NodeHash(sib, acc) else NodeHash(acc, sib);
    }
    assert siblings[..n] == siblings;
    if acc != read(root) {
      return Rejected(WrongRoot);
    }
    return Accepted(present, if p.leaf.Some? then Some(p.leaf.value.vh) else None);
  }

  lemma PrefixDecides(a: Bytes, b: Bytes, common: nat, n: nat)
    requires common <= PATH_BITS && Agree(a, b, common)
    requires common < PATH_BITS ==> BitAt(a, common) != BitAt(b, common)
    ensures common < n <==> !(n <= PATH_BITS && Agree(a, b, n))
  {
    hide BitAt;
  }

  lemma EncodeInjective(p: Proof, q: Proof)
    requires WellSized(p) && WellSized(q) && Encode(p) == Encode(q)
    ensures p == q
  {
    hide CountOf, Flatten;
    var data := Encode(p);
    EncodedShape(p);
    EncodedShape(q);
    var off := if p.leaf.Some? then 65 else 1;
    assert data[..off] == Head(p.leaf) && data[..off] == Head(q.leaf);
    if p.leaf.Some? {
      assert data[1..33] == p.leaf.value.path && data[1..33] == q.leaf.value.path;
      assert data[33..65] == p.leaf.value.vh && data[33..65] == q.leaf.value.vh;
    }
    assert Flatten(p.siblings) == data[off + 2..] && Flatten(q.siblings) == data[off + 2..];
    FlattenInjective(p.siblings, q.siblings);
  }

  lemma {:induction false} FlattenInjective(a: seq<Bytes>, b: seq<Bytes>)
    requires |a| == |b| && Flatten(a) == Flatten(b)
    requires forall i | 0 <= i < |a| :: |a[i]| == HASH_BYTES && |b[i]| == HASH_BYTES
    ensures a == b
  {
    if a != [] {
      var n := |a| - 1;
      FlattenLength(a[..n]);
      FlattenLength(b[..n]);
      var data := Flatten(a);
      assert data[..n * HASH_BYTES] == Flatten(a[..n]) && data[..n * HASH_BYTES] == Flatten(b[..n]);
      assert data[n * HASH_BYTES..] == a[n] && data[n * HASH_BYTES..] == b[n];
      FlattenInjective(a[..n], b[..n]);
      assert a == a[..n] + [a[n]] && b == b[..n] + [b[n]];
    }
  }

  // ----- the trie -----

  datatype Trie = Empty | Entry(leaf: Leaf) | Branch(left: Trie, right: Trie)

  function RootOf(t: Trie): Digest {
    match t
    case Empty => Placeholder
    case Entry(leaf) => LeafHash(leaf.path, leaf.vh)
    case Branch(l, r) => NodeHash(RootOf(l), RootOf(r))
  }

  /** Every leaf sits under its own path: below `prefix`, at most one level per path bit. */
  ghost predicate WellFormed(t: Trie, prefix: seq<bool>) {
    match t
    case Empty => true
    case Entry(leaf) =>
      && |leaf.path| == HASH_BYTES && |leaf.vh| == HASH_BYTES && |prefix| <= PATH_BITS
      && forall i | 0 <= i < |prefix| :: prefix[i] == BitAt(leaf.path, i)
    case Branch(l, r) => |prefix| < PATH_BITS && WellFormed(l, prefix + [false]) && WellFormed(r, prefix + [true])
  }

  predicate Holds(t: Trie, leaf: Leaf) {
    match t
    case Empty => false
    case Entry(e) => e == leaf
    case Branch(l, r) => Holds(l, leaf) || Holds(r, leaf)
  }

  /** The position a path leads to, and the siblings on the way, deepest first. */
  function EndOf(t: Trie, path: Bytes, d: nat): Option<Leaf> {
    match t
    case Empty => None
    case Entry(leaf) => Some(leaf)
    case Branch(l, r) => EndOf(if BitAt(path, d) then r else l, path, d + 1)
  }

  function SiblingsOf(t: Trie, path: Bytes, d: nat): seq<Digest> {
    match t
    case Empty => []
    case Entry(_) => []
    case Branch(l, r) =>
      if BitAt(path, d) then SiblingsOf(r, path, d + 1) + [RootOf(l)] else SiblingsOf(l, path, d + 1) + [RootOf(r)]
  }

  /** A fold meets the root of a trie only with the trie's own siblings and end. */
  lemma {:induction false} FoldExactly(t: Trie, path: Bytes, d: nat, siblings: seq<Digest>, leaf: Option<Leaf>)
    ensures Fold(path, d, siblings, Start(leaf)) == RootOf(t)
            <==> siblings == SiblingsOf(t, path, d) && leaf == EndOf(t, path, d)
    decreases t
  {
    hide BitAt;
    if t.Branch? {
      var next := if BitAt(path, d) then t.right else t.left;
      if siblings != [] {
        var n := |siblings| - 1;
        FoldExactly(next, path, d + 1, siblings[..n], leaf);
        assert siblings == siblings[..n] + [siblings[n]];
        assert SiblingsOf(t, path, d)[..|SiblingsOf(next, path, d + 1)|] == SiblingsOf(next, path, d + 1);
      }
    }
  }

  ghost function PrefixOf(path: Bytes, d: nat): seq<bool> { seq(d, i requires 0 <= i < d => BitAt(path, i)) }

  lemma PrefixNext(path: Bytes, d: nat)
    ensures PrefixOf(path, d + 1) == PrefixOf(path, d) + [BitAt(path, d)]
  {
    hide BitAt;
  }

  lemma {:induction false} SiblingsBounded(t: Trie, path: Bytes, d: nat)
    requires WellFormed(t, PrefixOf(path, d)) && d <= PATH_BITS
    ensures d + |SiblingsOf(t, path, d)| <= PATH_BITS
    decreases t
  {
    hide BitAt;
    if t.Branch? {
      PrefixNext(path, d);
      SiblingsBounded(if BitAt(path, d) then t.right else t.left, path, d + 1);
    }
  }

  /** The leaf at the end of a path lies under the path's own first bits. */
  lemma {:induction false} EndCovered(t: Trie, path: Bytes, d: nat)
    requires WellFormed(t, PrefixOf(path, d)) && EndOf(t, path, d).Some?
    ensures var leaf := EndOf(t, path, d).value;
            var n := d + |SiblingsOf(t, path, d)|;
            n <= PATH_BITS && Agree(leaf.path, path, n) && |leaf.path| == HASH_BYTES && |leaf.vh| == HASH_BYTES
            && Holds(t, leaf)
    decreases t
  {
    hide BitAt;
    if t.Entry? {
      forall i: nat | i < d ensures BitAt(t.leaf.path, i) == BitAt(path, i) {
        assert PrefixOf(path, d)[i] == BitAt(path, i);
      }
    } else {
      PrefixNext(path, d);
      EndCovered(if BitAt(path, d) then t.right else t.left, path, d + 1);
    }
  }

  /** Under a prefix only leaves with that prefix are held. */
  lemma {:induction false} HeldUnderPrefix(t: Trie, prefix: seq<bool>, leaf: Leaf)
    requires WellFormed(t, prefix) && Holds(t, leaf)
    ensures forall i | 0 <= i < |prefix| :: prefix[i] == BitAt(leaf.path, i)
    decreases t
  {
    hide BitAt;
    if t.Branch? {
      var side := Holds(t.right, leaf);
      HeldUnderPrefix(if side then t.right else t.left, prefix + [side], leaf);
      forall i | 0 <= i < |prefix| ensures prefix[i] == BitAt(leaf.path, i) {
        assert (prefix + [side])[i] == prefix[i];
      }
    }
  }

  lemma NotHeldAside(other: Trie, path: Bytes, d: nat, vh: Bytes)
    requires WellFormed(other, PrefixOf(path, d) + [!BitAt(path, d)])
    ensures !Holds(other, Leaf(path, vh))
  {
    hide BitAt, WellFormed, Holds;
    var aside := PrefixOf(path, d) + [!BitAt(path, d)];
    assert aside[d] != BitAt(path, d);
    if Holds(other, Leaf(path, vh)) { HeldUnderPrefix(other, aside, Leaf(path, vh)); }
  }

  /** A path is held exactly when it is the path of the leaf it leads to. */
  lemma {:induction false} HeldExactly(t: Trie, path: Bytes, d: nat, vh: Bytes)
    requires WellFormed(t, PrefixOf(path, d))
    ensures Holds(t, Leaf(path, vh)) <==> EndOf(t, path, d) == Some(Leaf(path, vh))
    decreases t
  {
    hide BitAt;
    if t.Branch? {
      PrefixNext(path, d);
      var bit := BitAt(path, d);
      HeldExactly(if bit then t.right else t.left, path, d + 1, vh);
      NotHeldAside(if bit then t.left else t.right, path, d, vh);
    }
  }

  // ----- what an accepted proof establishes -----

  /** The checker accepts exactly the trie's own proof of the position. */
  lemma AcceptedExactly(t: Trie, path: Bytes, p: Proof, read: Bytes -> Digest)
    requires WellFormed(t, []) && WellSized(p)
    ensures Check(RootOf(t), path, p, read).Accepted?
            <==> Digests(p.siblings, read) == SiblingsOf(t, path, 0) && p.leaf == EndOf(t, path, 0)
  {
    hide BitAt;
    FoldExactly(t, path, 0, Digests(p.siblings, read), p.leaf);
    assert PrefixOf(path, 0) == [];
    if EndOf(t, path, 0).Some? { EndCovered(t, path, 0); }
  }

  /**
   Soundness: an accepted proof says "present" exactly when the trie holds the path, with the
   value commitment the proof shows, and "absent" exactly when the trie holds no such path.
   */
  lemma Sound(t: Trie, path: Bytes, p: Proof, read: Bytes -> Digest)
    requires WellFormed(t, []) && WellSized(p) && Check(RootOf(t), path, p, read).Accepted?
    ensures var v := Check(RootOf(t), path, p, read);
            && (v.present ==> v.vh.Some? && Holds(t, Leaf(path, v.vh.value)))
            && (v.present <==> exists vh :: Holds(t, Leaf(path, vh)))
            && forall vh | v.present && Holds(t, Leaf(path, vh)) :: v.vh == Some(vh)
  {
    hide Fold, Covers;
    AcceptedExactly(t, path, p, read);
    assert PrefixOf(path, 0) == [];
    forall vh ensures Holds(t, Leaf(path, vh)) <==> p.leaf == Some(Leaf(path, vh)) {
      HeldExactly(t, path, 0, vh);
    }
    if p.leaf.Some? { assert p.leaf.value == Leaf(p.leaf.value.path, p.leaf.value.vh); }
  }

  /** Completeness: every path, held or not, has a proof the checker accepts. */
  lemma Complete(t: Trie, path: Bytes, read: Bytes -> Digest, write: Digest -> Bytes) returns (p: Proof)
    requires WellFormed(t, [])
    requires forall h | h in SiblingsOf(t, path, 0) :: |write(h)| == HASH_BYTES && read(write(h)) == h
    ensures WellSized(p) && Check(RootOf(t), path, p, read).Accepted?
  {
    hide Check;
    var hashes := SiblingsOf(t, path, 0);
    var siblings := seq(|hashes|, i requires 0 <= i < |hashes| => write(hashes[i]));
    p := Proof(EndOf(t, path, 0), siblings);
    assert PrefixOf(path, 0) == [];
    SiblingsBounded(t, path, 0);
    if EndOf(t, path, 0).Some? { EndCovered(t, path, 0); }
    forall i | 0 <= i < |hashes| ensures |siblings[i]| == HASH_BYTES && read(siblings[i]) == hashes[i] {
      assert hashes[i] in hashes;
    }
    assert Digests(siblings, read) == hashes;
    AcceptedExactly(t, path, p, read);
  }

  /** The root commits to the whole trie. */
  lemma {:induction false} RootBinds(a: Trie, b: Trie)
    requires RootOf(a) == RootOf(b)
    ensures a == b
  {
    if a.Branch? {
      RootBinds(a.left, b.left);
      RootBinds(a.right, b.right);
    }
  }
}

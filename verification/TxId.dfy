/**
 The transaction identifier: `TxID` and `putUint64` of internal/model/envelope.go.

 The hash is ideal, so an identifier is the byte string that was hashed. What is proved is that
 the framing makes that string determine both parts.
 */
module TxId {
  import opened Bytes

  const TAG_TEXT := "privasys-monitor/txid/v1"
  const MAX_LENGTH := 0x1_0000_0000_0000_0000

  function Ascii(s: string): (b: Bytes)
    requires forall i | 0 <= i < |s| :: s[i] as int < 128
    ensures |b| == |s|
  {
    seq(|s|, i requires 0 <= i < |s| => s[i] as int as byte)
  }

  function Tag(): Bytes { Ascii(TAG_TEXT) }

  function Framed(envelope: Bytes, writeSet: Bytes): Bytes {
    Tag() + BigEndian(|envelope|, 8) + envelope + BigEndian(|writeSet|, 8) + writeSet
  }

  /** Fills the eight bytes from the last to the first. */
  method PutUint64(b: array<byte>, v0: nat)
    requires b.Length == 8
    modifies b
    ensures b[..] == BigEndian(v0, 8)
  {
    var v := v0;
    var i := 8;
    while i > 0
      invariant 0 <= i <= 8
      invariant BigEndian(v, i) + b[i..] == BigEndian(v0, 8)
    {
      i := i - 1;
      ghost var filled := b[i + 1..];
      b[i] := (v % 256) as byte;
      assert b[i..] == [(v % 256) as byte] + filled;
      assert BigEndian(v, i + 1) + filled == BigEndian(v / 256, i) + b[i..];
      v := v / 256;
    }
    assert b[0..] == b[..] && BigEndian(v, 0) + b[0..] == b[..];
  }

  /** What has been written to the hasher. */
  class Hasher {
    var written: Bytes

    constructor ()
      ensures written == []
    {
      written := [];
    }

    method Write(b: Bytes)
      modifies this
      ensures written == old(written) + b
    {
      written := written + b;
    }
  }

  method TxID(envelope: Bytes, writeSet: Bytes) returns (preimage: Bytes)
    ensures preimage == Framed(envelope, writeSet)
  {
    hide BigEndian, Tag;
    var h := new Hasher();
    h.Write(Tag());
    var size := new byte[8];
    PutUint64(size, |envelope|);
    h.Write(size[..]);
    h.Write(envelope);
    PutUint64(size, |writeSet|);
    h.Write(size[..]);
    h.Write(writeSet);
    preimage := h.written;
  }

  lemma Parts(envelope: Bytes, writeSet: Bytes)
    ensures var all, n := Framed(envelope, writeSet), |Tag()|;
            && |all| == n + 16 + |envelope| + |writeSet|
            && all[n..n + 8] == BigEndian(|envelope|, 8)
            && all[n + 8..n + 8 + |envelope|] == envelope
            && all[n + 16 + |envelope|..] == writeSet
  {
    hide BigEndian, Tag;
  }

  /** One identifier stands for one envelope and one write set. */
  lemma Injective(e1: Bytes, w1: Bytes, e2: Bytes, w2: Bytes)
    requires |e1| < MAX_LENGTH && |e2| < MAX_LENGTH
    requires Framed(e1, w1) == Framed(e2, w2)
    ensures e1 == e2 && w1 == w2
  {
    hide BigEndian, Framed, Tag;
    Parts(e1, w1);
    Parts(e2, w2);
    EightBytes();
    BigEndianOrder(|e1|, |e2|, 8);
  }
}

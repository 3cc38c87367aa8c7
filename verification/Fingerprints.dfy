/** Length-framed content fingerprints. */
module Fingerprints {
  import opened Wrappers

  type byte = n: int | 0 <= n < 256
  type Bytes = seq<byte>

  const U64_LIMIT := 0x1_0000_0000_0000_0000

  /** The text encoding and the digest, taken as given. */
  datatype Hashing = Hashing(utf8: string -> Bytes, sha256: Bytes -> string)

  ghost predicate Injective<A(!new), B>(f: A -> B) {
    forall x, y :: f(x) == f(y) ==> x == y
  }

  ghost predicate Faithful(h: Hashing) {
    Injective(h.utf8) && Injective(h.sha256)
  }

  function Pow256(width: nat): (p: nat)
    ensures p > 0
  {
    if width == 0 then 1 else 256 * Pow256(width - 1)
  }

  /** `n` as `width` little-endian bytes, higher digits dropped. */
  function LittleEndian(n: nat, width: nat): (r: Bytes)
    ensures |r| == width
  {
    if width == 0 then [] else [n % 256] + LittleEndian(n / 256, width - 1)
  }

  function FromLittleEndian(b: Bytes): nat {
    if b == [] then 0 else b[0] + 256 * FromLittleEndian(b[1..])
  }

  lemma {:induction false} LittleEndianRoundTrip(n: nat, width: nat)
    requires n < Pow256(width)
    ensures FromLittleEndian(LittleEndian(n, width)) == n
  {
    if width > 0 {
      var b := LittleEndian(n, width);
      assert b[1..] == LittleEndian(n / 256, width - 1);
      LittleEndianRoundTrip(n / 256, width - 1);
    }
  }

  lemma EightBytesHoldU64()
    ensures Pow256(8) == U64_LIMIT
  {
    assert Pow256(1) == 256;
    assert Pow256(2) == 256 * Pow256(1);
    assert Pow256(3) == 256 * Pow256(2);
    assert Pow256(4) == 256 * Pow256(3);
    assert Pow256(5) == 256 * Pow256(4);
    assert Pow256(6) == 256 * Pow256(5);
    assert Pow256(7) == 256 * Pow256(6);
    assert Pow256(8) == 256 * Pow256(7);
  }

  /** One call of `add_bytes`: the length cast to 64 bits, then the bytes. */
  function Frame(part: Bytes): Bytes {
    LittleEndian(|part| % U64_LIMIT, 8) + part
  }

  function Stream(parts: seq<Bytes>): Bytes {
    if parts == [] then [] else Frame(parts[0]) + Stream(parts[1..])
  }

  /** Reads a framed stream back; `None` when the stream is cut short. */
  function Unframe(stream: Bytes): Option<seq<Bytes>>
    decreases |stream|
  {
    if stream == [] then Some([])
    else if |stream| < 8 then None
    else
      var length := FromLittleEndian(stream[..8]);
      if |stream| < 8 + length then None
      else match Unframe(stream[8 + length..])
        case None => None
        case Some(rest) => Some([stream[8..8 + length]] + rest)
  }

  predicate Short(parts: seq<Bytes>) {
    forall n :: 0 <= n < |parts| ==> |parts[n]| < U64_LIMIT
  }

  lemma Slices<T>(a: seq<T>, b: seq<T>, c: seq<T>)
    ensures (a + b + c)[..|a|] == a
    ensures (a + b + c)[|a|..|a| + |b|] == b
    ensures (a + b + c)[|a| + |b|..] == c
  {
  }

  lemma UnframeReadsOneFrame(head: Bytes, part: Bytes, rest: Bytes)
    requires |head| == 8 && FromLittleEndian(head) == |part| && Unframe(rest).Some?
    ensures Unframe(head + part + rest) == Some([part] + Unframe(rest).value)
  {
    Slices(head, part, rest);
  }

  lemma FrameOfShortPart(part: Bytes) returns (head: Bytes)
    requires |part| < U64_LIMIT
    ensures |head| == 8 && FromLittleEndian(head) == |part| && Frame(part) == head + part
  {
    EightBytesHoldU64();
    head := LittleEndian(|part|, 8);
    LittleEndianRoundTrip(|part|, 8);
    assert |part| % U64_LIMIT == |part|;
  }

  lemma {:induction false} UnframeUndoesStream(parts: seq<Bytes>)
    requires Short(parts)
    ensures Unframe(Stream(parts)) == Some(parts)
  {
    if parts != [] {
      var rest := parts[1..];
      UnframeUndoesStream(rest);
      var head := FrameOfShortPart(parts[0]);
      UnframeReadsOneFrame(head, parts[0], Stream(rest));
      assert parts == [parts[0]] + rest;
    }
  }

  /** Framing makes the parts recoverable: no two part lists share a stream. */
  lemma StreamIsInjective(ps: seq<Bytes>, qs: seq<Bytes>)
    requires Short(ps) && Short(qs)
    requires Stream(ps) == Stream(qs)
    ensures ps == qs
  {
    UnframeUndoesStream(ps);
    UnframeUndoesStream(qs);
  }

  lemma {:induction false} StreamAppend(parts: seq<Bytes>, part: Bytes)
    ensures Stream(parts + [part]) == Stream(parts) + Frame(part)
  {
    if parts == [] {
      assert parts + [part] == [part];
      assert Stream([part][1..]) == [];
    } else {
      assert (parts + [part])[1..] == parts[1..] + [part];
      StreamAppend(parts[1..], part);
    }
  }

  lemma StreamAppendPieces(parts: seq<Bytes>, part: Bytes, stream: Bytes)
    requires stream == Stream(parts)
    ensures stream + LittleEndian(|part| % U64_LIMIT, 8) + part == Stream(parts + [part])
  {
    StreamAppend(parts, part);
    var length := LittleEndian(|part| % U64_LIMIT, 8);
    assert stream + (length + part) == stream + length + part;
  }

  /** The digest state is the bytes it has been fed. */
  class FingerprintBuilder {
    var hasher: Bytes
    ghost var parts: seq<Bytes>

    ghost predicate Valid()
      reads this
    {
      hasher == Stream(parts)
    }

    constructor ()
      ensures Valid() && parts == []
    {
      hasher, parts := [], [];
    }

    method AddBytes(bytes: Bytes)
      requires Valid()
      modifies this
      ensures Valid() && parts == old(parts) + [bytes]
    {
      StreamAppendPieces(parts, bytes, hasher);
      hasher := hasher + LittleEndian(|bytes| % U64_LIMIT, 8);
      hasher := hasher + bytes;
      parts := parts + [bytes];
    }

    method Finish(h: Hashing) returns (fingerprint: string)
      requires Valid()
      ensures fingerprint == "sha256:" + h.sha256(Stream(parts))
    {
      fingerprint := "sha256:" + h.sha256(hasher);
    }
  }
}

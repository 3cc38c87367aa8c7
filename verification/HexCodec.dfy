/** Hexadecimal text of cached values. */
module HexCodec {
  import opened Wrappers
  import opened Fingerprints

  const HEX := "0123456789abcdef"

  function Digits(bytes: Bytes): string {
    if bytes == [] then "" else [HEX[bytes[0] / 16], HEX[bytes[0] % 16]] + Digits(bytes[1..])
  }

  lemma {:induction false} DigitsAppend(bytes: Bytes, b: byte)
    ensures Digits(bytes + [b]) == Digits(bytes) + [HEX[b / 16], HEX[b % 16]]
  {
    if bytes == [] {
      assert bytes + [b] == [b];
      assert Digits([b][1..]) == "";
    } else {
      assert (bytes + [b])[1..] == bytes[1..] + [b];
      DigitsAppend(bytes[1..], b);
    }
  }

  method EncodeHex(bytes: Bytes) returns (encoded: string)
    ensures encoded == Digits(bytes)
  {
    encoded := "";
    for n := 0 to |bytes|
      invariant encoded == Digits(bytes[..n])
    {
      assert bytes[..n + 1] == bytes[..n] + [bytes[n]];
      DigitsAppend(bytes[..n], bytes[n]);
      encoded := encoded + [HEX[bytes[n] / 16]];
      encoded := encoded + [HEX[bytes[n] % 16]];
    }
    assert bytes[..|bytes|] == bytes;
  }

  function DecodeHexDigit(digit: char): (r: Option<nat>)
    ensures r.Some? ==> r.value < 16
  {
    if '0' <= digit <= '9' then Some((digit - '0') as nat)
    else if 'a' <= digit <= 'f' then Some((digit - 'a') as nat + 10)
    else if 'A' <= digit <= 'F' then Some((digit - 'A') as nat + 10)
    else None
  }

  function DecodeHex(encoded: string): Option<Bytes> {
    if |encoded| % 2 != 0 then None
    else if encoded == [] then Some([])
    else match (DecodeHexDigit(encoded[0]), DecodeHexDigit(encoded[1]), DecodeHex(encoded[2..]))
      case (Some(high), Some(low), Some(rest)) => Some([16 * high + low] + rest)
      case _ => None
  }

  function LowerDigit(c: char): char {
    if 'A' <= c <= 'F' then c - 'A' + 'a' else c
  }

  function Lower(s: string): string {
    if s == [] then [] else [LowerDigit(s[0])] + Lower(s[1..])
  }

  lemma DecodePair(high: char, low: char, rest: string)
    requires DecodeHexDigit(high).Some? && DecodeHexDigit(low).Some? && DecodeHex(rest).Some?
    ensures DecodeHex([high, low] + rest)
         == Some([16 * DecodeHexDigit(high).value + DecodeHexDigit(low).value] + DecodeHex(rest).value)
  {
    var s := [high, low] + rest;
    assert s[0] == high && s[1] == low && s[2..] == rest;
    assert |rest| % 2 == 0;
    assert |s| % 2 == 0 && s != [];
  }

  lemma DigitRoundTrip(n: nat)
    requires n < 16
    ensures DecodeHexDigit(HEX[n]) == Some(n)
  {
  }

  /** Every byte string survives the trip through text. */
  lemma {:induction false} DecodeUndoesEncode(bytes: Bytes)
    ensures DecodeHex(Digits(bytes)) == Some(bytes)
  {
    if bytes != [] {
      var b := bytes[0];
      DigitRoundTrip(b / 16);
      DigitRoundTrip(b % 16);
      DecodeUndoesEncode(bytes[1..]);
      DecodePair(HEX[b / 16], HEX[b % 16], Digits(bytes[1..]));
      assert 16 * (b / 16) + b % 16 == b;
      assert bytes == [b] + bytes[1..];
    }
  }

  lemma DecodedDigit(digit: char)
    requires DecodeHexDigit(digit).Some?
    ensures HEX[DecodeHexDigit(digit).value] == LowerDigit(digit)
  {
  }

  lemma DigitsOfByte(high: nat, low: nat, rest: Bytes)
    requires high < 16 && low < 16
    ensures Digits([16 * high + low] + rest) == [HEX[high], HEX[low]] + Digits(rest)
  {
    var b := 16 * high + low;
    assert b / 16 == high && b % 16 == low;
    assert ([b] + rest)[1..] == rest;
  }

  lemma DecodedParts(encoded: string) returns (high: nat, low: nat, rest: Bytes)
    requires encoded != [] && DecodeHex(encoded).Some?
    ensures |encoded| >= 2 && high < 16 && low < 16
    ensures DecodeHexDigit(encoded[0]) == Some(high) && DecodeHexDigit(encoded[1]) == Some(low)
    ensures DecodeHex(encoded[2..]) == Some(rest)
    ensures DecodeHex(encoded).value == [16 * high + low] + rest
  {
    high, low := DecodeHexDigit(encoded[0]).value, DecodeHexDigit(encoded[1]).value;
    rest := DecodeHex(encoded[2..]).value;
  }

  lemma LowerParts(encoded: string)
    requires |encoded| >= 2
    ensures Lower(encoded) == [LowerDigit(encoded[0]), LowerDigit(encoded[1])] + Lower(encoded[2..])
  {
    assert encoded[1..][1..] == encoded[2..];
  }

  /** Decoding forgets nothing but the case of the digits. */
  lemma {:induction false} EncodeUndoesDecode(encoded: string)
    requires DecodeHex(encoded).Some?
    ensures Digits(DecodeHex(encoded).value) == Lower(encoded)
  {
    if encoded != [] {
      var high, low, rest := DecodedParts(encoded);
      EncodeUndoesDecode(encoded[2..]);
      DecodedDigit(encoded[0]);
      DecodedDigit(encoded[1]);
      DigitsOfByte(high, low, rest);
      LowerParts(encoded);
    }
  }
}

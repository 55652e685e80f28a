/** The fingerprint of the decision inputs: every value is serialised, the results are
    concatenated in argument order, digested with a 256-bit hash and hex-encoded. */
module Hashing {
  import opened Types

  /** A SHA-256 digest: always 32 bytes. */
  type Digest = s: seq<byte> | |s| == 32 witness seq(32, _ => 0 as byte)

  /** The four kinds of value the reconciler fingerprints. */
  datatype Value =
    | Text(text: string)
    | Flag(flag: bool)
    | Strings(strings: StringMap)
    | Bytes(bytes: SecretData)

  /** The JSON serialiser and the digest. Both are library code outside this model; a map
      is serialised as a function of its contents, so the order in which its entries were
      inserted cannot change the result. */
  datatype Codec = Codec(marshal: Value -> seq<byte>, sha256: seq<byte> -> Digest)

  /** The serialisations of `values`, concatenated in order. */
  function Serialise(marshal: Value -> seq<byte>, values: seq<Value>): seq<byte>
  {
    if values == [] then []
    else Serialise(marshal, values[..|values| - 1]) + marshal(values[|values| - 1])
  }

  /** Serialising a concatenation serialises each part in turn. */
  lemma {:induction false} SerialiseConcat(marshal: Value -> seq<byte>, a: seq<Value>, b: seq<Value>)
    ensures Serialise(marshal, a + b) == Serialise(marshal, a) + Serialise(marshal, b)
    decreases |b|
  {
    if b == [] {
      assert a + b == a;
    } else {
      var last := |b| - 1;
      assert (a + b)[..|a + b| - 1] == a + b[..last];
      assert (a + b)[|a + b| - 1] == b[last];
      SerialiseConcat(marshal, a, b[..last]);
    }
  }

  /** Lower-case hexadecimal digit of a value below 16. */
  function HexDigit(n: nat): (c: char)
    requires n < 16
    ensures '0' <= c <= '9' || 'a' <= c <= 'f'
  {
    if n < 10 then ('0' as int + n) as char else ('a' as int + n - 10) as char
  }

  /** The value of a lower-case hexadecimal digit, if `c` is one. */
  function DigitValue(c: char): (r: Option<nat>)
    ensures r.Some? ==> r.value < 16 && HexDigit(r.value) == c
  {
    if '0' <= c <= '9' then Some(c as int - '0' as int)
    else if 'a' <= c <= 'f' then Some(c as int - 'a' as int + 10)
    else None
  }

  /** Two lower-case hexadecimal digits per byte, most significant first. */
  function HexEncode(bytes: seq<byte>): (s: string)
    ensures |s| == 2 * |bytes|
  {
    if bytes == [] then []
    else
      var v := bytes[0] as int;
      [HexDigit(v / 16), HexDigit(v % 16)] + HexEncode(bytes[1..])
  }

  /** Every character of an encoding is a lower-case hex digit. */
  lemma {:induction false} HexEncodeDigits(bytes: seq<byte>)
    ensures forall i :: 0 <= i < |HexEncode(bytes)| ==> DigitValue(HexEncode(bytes)[i]).Some?
  {
    if bytes != [] {
      var v := bytes[0] as int;
      HexEncodeDigits(bytes[1..]);
      DigitValueOfHexDigit(v / 16);
      DigitValueOfHexDigit(v % 16);
      var s := HexEncode(bytes);
      forall i | 0 <= i < |s|
        ensures DigitValue(s[i]).Some?
      {
        if i >= 2 {
          assert s[i] == HexEncode(bytes[1..])[i - 2];
        }
      }
    }
  }

  /** The inverse of HexEncode: None unless `s` is an even number of lower-case hex digits. */
  function HexDecode(s: string): (r: Option<seq<byte>>)
    ensures r.Some? ==> |s| == 2 * |r.value|
    decreases |s|
  {
    if s == [] then Some([])
    else if |s| == 1 then None
    else
      match (DigitValue(s[0]), DigitValue(s[1]), HexDecode(s[2..]))
      case (Some(hi), Some(lo), Some(rest)) => Some([(hi * 16 + lo) as byte] + rest)
      case _ => None
  }

  lemma DigitValueOfHexDigit(n: nat)
    requires n < 16
    ensures DigitValue(HexDigit(n)) == Some(n)
  {
  }

  /** Decoding an encoding gives back the bytes. */
  lemma {:induction false} HexRoundTrip(bytes: seq<byte>)
    ensures HexDecode(HexEncode(bytes)) == Some(bytes)
  {
    if bytes != [] {
      var v := bytes[0] as int;
      var s := HexEncode(bytes);
      assert s == [HexDigit(v / 16), HexDigit(v % 16)] + HexEncode(bytes[1..]);
      assert s[2..] == HexEncode(bytes[1..]);
      DigitValueOfHexDigit(v / 16);
      DigitValueOfHexDigit(v % 16);
      HexRoundTrip(bytes[1..]);
      assert [(v / 16 * 16 + v % 16) as byte] + bytes[1..] == bytes;
    }
  }

  /** Different byte strings never share a hex encoding. */
  lemma HexEncodeInjective(a: seq<byte>, b: seq<byte>)
    ensures HexEncode(a) == HexEncode(b) <==> a == b
  {
    HexRoundTrip(a);
    HexRoundTrip(b);
  }

  /** The fingerprint of `values`, as hashValues returns it. */
  function Fingerprint(codec: Codec, values: seq<Value>): (h: string)
    ensures |h| == 64
    ensures h != EmptyHash
  {
    HexEncode(codec.sha256(Serialise(codec.marshal, values)))
  }

  /** Two fingerprints agree exactly when the digests of the serialisations agree: the hex
      step neither merges nor splits digests. */
  lemma FingerprintsAgree(codec: Codec, a: seq<Value>, b: seq<Value>)
    ensures Fingerprint(codec, a) == Fingerprint(codec, b)
        <==> codec.sha256(Serialise(codec.marshal, a)) == codec.sha256(Serialise(codec.marshal, b))
  {
    HexEncodeInjective(codec.sha256(Serialise(codec.marshal, a)), codec.sha256(Serialise(codec.marshal, b)));
  }

  /** hashValues: serialise each value in turn, append it to the combined data, then digest
      and hex-encode the whole. */
  method HashValues(codec: Codec, values: seq<Value>) returns (h: string)
    ensures h == Fingerprint(codec, values)
  {
    var combined: seq<byte> := [];
    for i := 0 to |values|
      invariant combined == Serialise(codec.marshal, values[..i])
    {
      assert values[..i + 1][..i] == values[..i];
      combined := combined + codec.marshal(values[i]);
    }
    assert values[..|values|] == values;
    var digest := codec.sha256(combined);
    h := HexEncode(digest);
  }
}

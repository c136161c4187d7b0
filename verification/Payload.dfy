/**
 * bounded_provider_payload of agent_connection.rs: cutting a payload's JSON text to a bound without
 * splitting a character. Text is a sequence of Unicode scalar values; its bytes are their UTF-8
 * form (RFC 3629, section 3).
 */
module Payload {
  import opened Prelude

  type Scalar = c: nat | c < 0xD800 || 0xE000 <= c < 0x110000

  type Byte = b: nat | b < 256

  const PROVIDER_PAYLOAD_LIMIT: nat := 64 * 1024

  predicate Continuation(b: Byte) {
    0x80 <= b < 0xC0
  }

  /** One character: a first byte that is no continuation, then at most three that are. */
  function Encode(c: Scalar): (bytes: seq<Byte>)
    ensures 1 <= |bytes| <= 4 && !Continuation(bytes[0])
    ensures forall i :: 1 <= i < |bytes| ==> Continuation(bytes[i])
  {
    if c < 0x80 then [c]
    else if c < 0x800 then [0xC0 + c / 0x40, 0x80 + c % 0x40]
    else if c < 0x10000 then [0xE0 + c / 0x1000, 0x80 + c / 0x40 % 0x40, 0x80 + c % 0x40]
    else [0xF0 + c / 0x40000, 0x80 + c / 0x1000 % 0x40, 0x80 + c / 0x40 % 0x40, 0x80 + c % 0x40]
  }

  function Utf8(text: seq<Scalar>): seq<Byte> {
    if text == [] then [] else Utf8(text[..|text| - 1]) + Encode(text[|text| - 1])
  }

  /** Where the character in place k starts. */
  function Offset(text: seq<Scalar>, k: nat): nat
    requires k <= |text|
  {
    |Utf8(text[..k])|
  }

  predicate IsCharBoundary(bytes: seq<Byte>, i: nat) {
    i == 0 || i == |bytes| || (i < |bytes| && !Continuation(bytes[i]))
  }

  lemma {:induction false} PrefixBytes(text: seq<Scalar>, k: nat)
    requires k <= |text|
    ensures Utf8(text[..k]) <= Utf8(text)
    ensures k < |text| ==> Utf8(text[..k]) + Encode(text[k]) <= Utf8(text)
  {
    if k == |text| {
      assert text[..k] == text;
    } else {
      var n := |text| - 1;
      assert text[..n][..k] == text[..k];
      PrefixBytes(text[..n], k);
    }
  }

  /** Every byte belongs to one character. */
  lemma {:induction false} CharacterAt(text: seq<Scalar>, i: nat) returns (k: nat)
    requires i < |Utf8(text)|
    ensures k < |text| && Offset(text, k) <= i < Offset(text, k) + |Encode(text[k])|
    ensures Utf8(text)[i] == Encode(text[k])[i - Offset(text, k)]
  {
    var n := |text| - 1;
    if i < |Utf8(text[..n])| {
      k := CharacterAt(text[..n], i);
      assert text[..n][..k] == text[..k];
    } else {
      k := n;
    }
  }

  /** The boundaries of the bytes are exactly where characters start, and the end. */
  lemma BoundariesAreOffsets(text: seq<Scalar>, i: nat)
    requires i <= |Utf8(text)|
    ensures IsCharBoundary(Utf8(text), i) <==> exists k :: 0 <= k <= |text| && Offset(text, k) == i
  {
    assert text[..|text|] == text;
    assert Offset(text, 0) == 0 && Offset(text, |text|) == |Utf8(text)|;
    if i < |Utf8(text)| {
      var at := CharacterAt(text, i);
      assert Offset(text, at) < i ==> Continuation(Utf8(text)[i]);
      if k :| 0 <= k <= |text| && Offset(text, k) == i {
        if k < |text| {
          PrefixBytes(text, k);
          assert Utf8(text)[i] == (Utf8(text[..k]) + Encode(text[k]))[i];
        }
      }
    }
  }

  /** What a cut at `end` keeps: as many whole characters as fit. */
  ghost predicate LongestFit(text: seq<Scalar>, kept: seq<Byte>, limit: nat) {
    exists k :: 0 <= k < |text| && kept == Utf8(text[..k]) && |kept| <= limit && limit < Offset(text, k + 1)
  }

  /** The payload's own text when it fits; past the bound, the longest run of whole characters that
      does, which is at most three bytes short of the bound, and the true size. */
  method BoundedProviderPayload(text: seq<Scalar>) returns (kept: seq<Byte>, full: Option<nat>)
    ensures full.None? <==> |Utf8(text)| <= PROVIDER_PAYLOAD_LIMIT
    ensures full.None? ==> kept == Utf8(text)
    ensures full.Some? ==> full.value == |Utf8(text)| && LongestFit(text, kept, PROVIDER_PAYLOAD_LIMIT)
    ensures full.Some? ==> PROVIDER_PAYLOAD_LIMIT - 4 < |kept| <= PROVIDER_PAYLOAD_LIMIT
  {
    var bytes := Utf8(text);
    if |bytes| <= PROVIDER_PAYLOAD_LIMIT {
      return bytes, None;
    }
    var end := PROVIDER_PAYLOAD_LIMIT;
    while !IsCharBoundary(bytes, end)
      invariant 0 <= end <= PROVIDER_PAYLOAD_LIMIT
      invariant forall i :: end < i <= PROVIDER_PAYLOAD_LIMIT ==> !IsCharBoundary(bytes, i)
      decreases end
    {
      end := end - 1;
    }
    CutIsLongestFit(text, end, PROVIDER_PAYLOAD_LIMIT);
    kept, full := bytes[..end], Some(|bytes|);
  }

  lemma CutIsLongestFit(text: seq<Scalar>, end: nat, limit: nat)
    requires end <= limit < |Utf8(text)| && IsCharBoundary(Utf8(text), end)
    requires forall i :: end < i <= limit ==> !IsCharBoundary(Utf8(text), i)
    ensures LongestFit(text, Utf8(text)[..end], limit) && limit < end + 4
  {
    BoundariesAreOffsets(text, end);
    var k :| 0 <= k <= |text| && Offset(text, k) == end;
    assert text[..|text|] == text;
    PrefixBytes(text, k);
    assert text[..k + 1][..k] == text[..k];
    var next := Offset(text, k + 1);
    assert next == end + |Encode(text[k])|;
    PrefixBytes(text, k + 1);
    BoundariesAreOffsets(text, next);
    assert Utf8(text)[..end] == Utf8(text[..k]);
  }
}

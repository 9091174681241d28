/** The canonical compact-size integer code (codec/varint.go). */
module CompactSize {
  import opened Wrappers
  import opened Bytes

  datatype CodecError =
    | ShortBuffer
    | NonCanonical
    | VarintRange
    | TruncatedTLV
    | NotCoinNews
    | UnknownTypeTag
    | Malformed

  /** The bytes written for `n`. The five-byte form keeps only the low 32 bits of `n`. */
  function CompactSizeBytes(n: nat): (r: seq<Byte>)
    ensures |r| in {1, 3, 5}
  {
    if n <= 0xfc then [n]
    else if n <= 0xffff then [0xfd] + LE16(n)
    else [0xfe] + LE32(n % U32_LIMIT)
  }

  /** The value at the front of `b` and the number of bytes it takes. */
  function ReadCompactSize(b: seq<Byte>): (r: Result<(nat, nat), CodecError>)
    ensures r.Success? ==> 1 <= r.value.1 <= |b|
  {
    if |b| < 1 then Failure(ShortBuffer)
    else if b[0] == 0xff then Failure(VarintRange)
    else if b[0] == 0xfe then
      if |b| < 5 then Failure(ShortBuffer)
      else
        var v := FromLE32(b[1..5]);
        if v <= 0xffff then Failure(NonCanonical) else Success((v, 5))
    else if b[0] == 0xfd then
      if |b| < 3 then Failure(ShortBuffer)
      else
        var v := FromLE16(b[1..3]);
        if v <= 0xfc then Failure(NonCanonical) else Success((v, 3))
    else Success((b[0], 1))
  }

  lemma ShortFormReadsBack(n: nat, rest: seq<Byte>)
    requires 0xfc < n <= 0xffff
    ensures ReadCompactSize(CompactSizeBytes(n) + rest) == Success((n, 3))
  {
    hide FromLE32;
    var b := CompactSizeBytes(n) + rest;
    assert b[0] == 0xfd && b[1..3] == LE16(n);
  }

  lemma LongFormReadsLow32(n: nat, rest: seq<Byte>)
    requires n > 0xffff
    ensures var v := n % U32_LIMIT;
            ReadCompactSize(CompactSizeBytes(n) + rest) ==
              if v <= 0xffff then Failure(NonCanonical) else Success((v, 5))
  {
    hide FromLE32, LE32, FromLE16;
    var b := CompactSizeBytes(n) + rest;
    assert b[0] == 0xfe && b[1..5] == LE32(n % U32_LIMIT);
    LE32RoundTrip(n % U32_LIMIT, LE32(n % U32_LIMIT));
  }

  /** A written size reads back, with anything behind it left alone, exactly when it fits in 32 bits. */
  lemma SizeReadsBack(n: nat, rest: seq<Byte>)
    ensures ReadCompactSize(CompactSizeBytes(n) + rest) == Success((n, |CompactSizeBytes(n)|)) <==> n < U32_LIMIT
  {
    hide FromLE32, LE32, FromLE16, LE16;
    if n > 0xffff {
      LongFormReadsLow32(n, rest);
    } else if n > 0xfc {
      ShortFormReadsBack(n, rest);
    }
  }

  /** The only bytes that read as a value are the ones written for it. */
  lemma SizeIsCanonical(b: seq<Byte>)
    requires ReadCompactSize(b).Success?
    ensures var (n, used) := ReadCompactSize(b).value; n < U32_LIMIT && b[..used] == CompactSizeBytes(n)
  {
    if b[0] == 0xfe {
      LE32RoundTrip(0, b[1..5]);
    }
  }

  method PutCompactSize(dst: seq<Byte>, n: nat) returns (out: seq<Byte>)
    ensures out == dst + CompactSizeBytes(n)
    ensures n < U32_LIMIT ==> ReadCompactSize(out[|dst|..]) == Success((n, |out| - |dst|))
  {
    if n <= 0xfc {
      out := dst + [n];
    } else if n <= 0xffff {
      var b := new Byte[3];
      b[0], b[1], b[2] := 0xfd, n % 256, n / 256;
      out := dst + b[..];
    } else {
      var b := new Byte[5];
      var v: Uint32 := n % U32_LIMIT;
      var lo, hi := v % 0x1_0000, v / 0x1_0000;
      b[0], b[1], b[2], b[3], b[4] := 0xfe, lo % 256, lo / 256, hi % 256, hi / 256;
      out := dst + b[..];
    }
    assert out[|dst|..] == CompactSizeBytes(n) + [];
    SizeReadsBack(n, []);
  }
}

/** Tag-length-value tuples (codec/tlv.go). */
module Tlv {
  import opened Wrappers
  import opened Bytes
  import opened CompactSize

  datatype TLV = TLV(tag: Byte, value: seq<Byte>)

  function TlvBytes(t: TLV): seq<Byte> {
    [t.tag] + CompactSizeBytes(|t.value|) + t.value
  }

  function TlvsBytes(tlvs: seq<TLV>): seq<Byte> {
    if tlvs == [] then [] else TlvBytes(tlvs[0]) + TlvsBytes(tlvs[1..])
  }

  function ParseTlvs(b: seq<Byte>): Result<seq<TLV>, CodecError>
    decreases |b|
  {
    if b == [] then Success([])
    else
      var (n, used) :- ReadCompactSize(b[1..]);
      var rest := b[1..][used..];
      if |rest| < n then Failure(TruncatedTLV)
      else
        var more :- ParseTlvs(rest[n..]);
        Success([TLV(b[0], rest[..n])] + more)
  }

  function Prepended(front: seq<TLV>, r: Result<seq<TLV>, CodecError>): Result<seq<TLV>, CodecError> {
    match r
    case Success(more) => Success(front + more)
    case Failure(e) => r
  }

  /** Every length fits the 32 bits the encoder writes. */
  predicate AllShort(tlvs: seq<TLV>) {
    forall i :: 0 <= i < |tlvs| ==> |tlvs[i].value| < U32_LIMIT
  }

  /** What parsing does with one whole tuple at the front. */
  lemma ParseHead(t: TLV, rest: seq<Byte>)
    requires |t.value| < U32_LIMIT
    ensures ParseTlvs(TlvBytes(t) + rest) == Prepended([t], ParseTlvs(rest))
  {
    var b := TlvBytes(t) + rest;
    var tail := t.value + rest;
    var size := CompactSizeBytes(|t.value|);
    assert b[1..] == size + tail;
    SizeReadsBack(|t.value|, tail);
  }

  /** Bytes that start with a readable, complete tuple are that tuple's encoding and a remainder. */
  lemma SplitHead(b: seq<Byte>) returns (t: TLV, rest: seq<Byte>)
    requires b != [] && ReadCompactSize(b[1..]).Success?
    requires var (n, used) := ReadCompactSize(b[1..]).value; n <= |b| - 1 - used
    ensures b == TlvBytes(t) + rest && |t.value| < U32_LIMIT
    ensures var (n, used) := ReadCompactSize(b[1..]).value;
            t == TLV(b[0], b[1..][used..][..n]) && rest == b[1..][used..][n..]
  {
    var w := b[1..];
    SizeIsCanonical(w);
    var (n, used) := ReadCompactSize(w).value;
    t, rest := TLV(b[0], w[used..][..n]), w[used..][n..];
  }

  lemma {:induction false} TlvsAreCanonical(b: seq<Byte>)
    requires ParseTlvs(b).Success?
    ensures TlvsBytes(ParseTlvs(b).value) == b && AllShort(ParseTlvs(b).value)
    decreases |b|
  {
    if b != [] {
      var t, rest := SplitHead(b);
      TlvsAreCanonical(rest);
      ParseHead(t, rest);
    }
  }

  lemma {:induction false} ShortTlvsParseBack(tlvs: seq<TLV>)
    requires AllShort(tlvs)
    ensures ParseTlvs(TlvsBytes(tlvs)) == Success(tlvs)
  {
    if tlvs != [] {
      ShortTlvsParseBack(tlvs[1..]);
      ParseHead(tlvs[0], TlvsBytes(tlvs[1..]));
      assert [tlvs[0]] + tlvs[1..] == tlvs;
    }
  }

  /** Tuple lists survive a round trip exactly when every length fits 32 bits. */
  lemma TlvRoundTrip(tlvs: seq<TLV>)
    ensures ParseTlvs(TlvsBytes(tlvs)) == Success(tlvs) <==> AllShort(tlvs)
  {
    if AllShort(tlvs) {
      ShortTlvsParseBack(tlvs);
    } else if ParseTlvs(TlvsBytes(tlvs)).Success? {
      TlvsAreCanonical(TlvsBytes(tlvs));
    }
  }

  lemma NextTlv(tlvs: seq<TLV>, i: nat, before: seq<Byte>, out: seq<Byte>)
    requires i < |tlvs|
    requires out == before + [tlvs[i].tag] + CompactSizeBytes(|tlvs[i].value|) + tlvs[i].value
    ensures out + TlvsBytes(tlvs[i + 1..]) == before + TlvsBytes(tlvs[i..])
  {
  }

  method EncodeTLVs(tlvs: seq<TLV>) returns (out: seq<Byte>)
    ensures out == TlvsBytes(tlvs)
    ensures ParseTlvs(out) == Success(tlvs) <==> AllShort(tlvs)
  {
    out := [];
    for i := 0 to |tlvs|
      invariant out + TlvsBytes(tlvs[i..]) == TlvsBytes(tlvs)
    {
      var t := tlvs[i];
      ghost var before := out;
      out := out + [t.tag];
      out := PutCompactSize(out, |t.value|);
      out := out + t.value;
      NextTlv(tlvs, i, before, out);
    }
    TlvRoundTrip(tlvs);
  }

  method DecodeTLVs(data: seq<Byte>) returns (r: Result<seq<TLV>, CodecError>)
    ensures r == ParseTlvs(data)
    ensures r.Success? ==> TlvsBytes(r.value) == data
  {
    var b, out := data, [];
    assert forall more: seq<TLV> :: [] + more == more;
    while |b| > 0
      invariant ParseTlvs(data) == Prepended(out, ParseTlvs(b))
      decreases |b|
    {
      var tag := b[0];
      var size := ReadCompactSize(b[1..]);
      if size.Failure? {
        return Failure(size.error);
      }
      var (n, used) := size.value;
      ghost var whole := b;
      b := b[1..][used..];
      if |b| < n {
        return Failure(TruncatedTLV);
      }
      ghost var t, rest := SplitHead(whole);
      var val := b[..n];
      b := b[n..];
      ghost var before := out;
      out := out + [TLV(tag, val)];
      assert forall more :: before + ([t] + more) == out + more;
    }
    r := Success(out);
    assert out + [] == out;
    TlvsAreCanonical(data);
  }

  /** The value of the first tuple that carries `tag`. */
  function FirstValue(tlvs: seq<TLV>, tag: Byte): Option<seq<Byte>> {
    if tlvs == [] then None
    else if tlvs[0].tag == tag then Some(tlvs[0].value)
    else FirstValue(tlvs[1..], tag)
  }

  lemma {:induction false} FirstValueAt(tlvs: seq<TLV>, tag: Byte, i: nat)
    requires i < |tlvs| && tlvs[i].tag == tag
    requires forall j :: 0 <= j < i ==> tlvs[j].tag != tag
    ensures FirstValue(tlvs, tag) == Some(tlvs[i].value)
  {
    if i > 0 {
      FirstValueAt(tlvs[1..], tag, i - 1);
    }
  }

  lemma {:induction false} FirstValueAbsent(tlvs: seq<TLV>, tag: Byte)
    requires forall t :: t in tlvs ==> t.tag != tag
    ensures FirstValue(tlvs, tag) == None
  {
    if tlvs != [] {
      FirstValueAbsent(tlvs[1..], tag);
    }
  }

  predicate IsFirst(tlvs: seq<TLV>, tag: Byte, i: nat) {
    i < |tlvs| && tlvs[i].tag == tag && forall j :: 0 <= j < i ==> tlvs[j].tag != tag
  }

  /** `v` is the value of the first tuple that carries `tag`, or empty when none does. */
  ghost predicate HoldsFirst(tlvs: seq<TLV>, tag: Byte, v: seq<Byte>) {
    || (exists i: nat :: IsFirst(tlvs, tag, i) && tlvs[i].value == v)
    || (v == [] && forall t :: t in tlvs ==> t.tag != tag)
  }

  lemma {:induction false} FirstValueExactly(tlvs: seq<TLV>, tag: Byte)
    ensures FirstValue(tlvs, tag).None? <==> forall t :: t in tlvs ==> t.tag != tag
    ensures FirstValue(tlvs, tag).Some? ==>
      exists i: nat :: IsFirst(tlvs, tag, i) && tlvs[i].value == FirstValue(tlvs, tag).value
  {
    if tlvs == [] {
    } else if tlvs[0].tag == tag {
      assert IsFirst(tlvs, tag, 0);
    } else {
      var rest := tlvs[1..];
      FirstValueExactly(rest, tag);
      assert tlvs == [tlvs[0]] + rest;
      if i: nat :| IsFirst(rest, tag, i) && rest[i].value == FirstValue(rest, tag).value {
        assert forall j :: 0 <= j < i ==> rest[j] == tlvs[j + 1];
        assert IsFirst(tlvs, tag, i + 1);
      }
    }
  }

  method FindFirst(tlvs: seq<TLV>, tag: Byte) returns (r: Option<seq<Byte>>)
    ensures r == FirstValue(tlvs, tag)
    ensures r == None <==> forall t :: t in tlvs ==> t.tag != tag
    ensures r.Some? ==> exists i :: 0 <= i < |tlvs| && tlvs[i] == TLV(tag, r.value)
                                    && forall j :: 0 <= j < i ==> tlvs[j].tag != tag
  {
    for i := 0 to |tlvs|
      invariant forall j :: 0 <= j < i ==> tlvs[j].tag != tag
    {
      if tlvs[i].tag == tag {
        FirstValueAt(tlvs, tag, i);
        return Some(tlvs[i].value);
      }
    }
    FirstValueAbsent(tlvs, tag);
    r := None;
  }
}

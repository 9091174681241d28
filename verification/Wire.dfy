/**
 * The wire format in bytes and offsets, as the protocol writes it down, and that the parser reads
 * exactly that (codec/constants.go, codec/message.go, codec/tlv.go, codec/varint.go).
 */
module Wire {
  import opened Wrappers
  import opened Bytes
  import opened CompactSize
  import opened Tlv
  import opened Messages

  // ---------- Sizes ----------

  /** The first `used` bytes of `b` are the size `n`: one, three or five bytes, the least form there is. */
  predicate SizeIs(b: seq<Byte>, n: nat, used: nat) {
    || (used == 1 && |b| >= 1 && b[0] == n && n <= 252)
    || (used == 3 && |b| >= 3 && b[0] == 253 && n == b[1] as int + 256 * b[2] as int && n > 252)
    || (used == 5 && |b| >= 5 && b[0] == 254 && n > 65535
        && n == b[1] as int + 256 * b[2] as int + 65536 * b[3] as int + 16777216 * b[4] as int)
  }

  lemma SizeReadExactly(b: seq<Byte>, n: nat, used: nat)
    ensures ReadCompactSize(b) == Success((n, used)) <==> SizeIs(b, n, used)
  {
  }

  // ---------- Tuples ----------

  /** `b` is the tuple `t`, whose size takes `used` bytes, and `rest`: tag, size, value, rest. */
  predicate IsTuple(b: seq<Byte>, t: TLV, used: nat, rest: seq<Byte>) {
    && |b| >= 1 + used + |t.value|
    && b[0] == t.tag && SizeIs(b[1..], |t.value|, used) && b[1 + used..1 + used + |t.value|] == t.value
    && b[1 + used + |t.value|..] == rest
  }

  /** `b` is these tuples, one behind the other. */
  ghost predicate TuplesAt(b: seq<Byte>, tlvs: seq<TLV>)
    decreases |tlvs|
  {
    if tlvs == [] then b == []
    else exists used: nat, rest: seq<Byte> :: IsTuple(b, tlvs[0], used, rest) && TuplesAt(rest, tlvs[1..])
  }

  /** Parsing a tuple at the front. */
  lemma TupleIsRead(b: seq<Byte>, t: TLV, used: nat, rest: seq<Byte>)
    requires IsTuple(b, t, used, rest)
    ensures |rest| < |b| && ParseTlvs(b) == Prepended([t], ParseTlvs(rest))
  {
    hide SizeIs, ReadCompactSize;
    SizeReadExactly(b[1..], |t.value|, used);
    var tail := b[1..][used..];
    assert tail[|t.value|..] == rest && tail[..|t.value|] == t.value;
  }

  lemma ReadIsTuple(b: seq<Byte>) returns (used: nat, rest: seq<Byte>)
    requires b != [] && ParseTlvs(b).Success?
    ensures var tlvs := ParseTlvs(b).value;
            && |rest| < |b| && tlvs != [] && IsTuple(b, tlvs[0], used, rest)
            && ParseTlvs(rest) == Success(tlvs[1..])
  {
    hide SizeIs, ReadCompactSize;
    var n := ReadCompactSize(b[1..]).value.0;
    used := ReadCompactSize(b[1..]).value.1;
    SizeReadExactly(b[1..], n, used);
    var tail := b[1..][used..];
    rest := tail[n..];
    assert rest == b[1 + used + n..] && tail[..n] == b[1 + used..1 + used + n];
    var more := ParseTlvs(rest).value;
    assert ([TLV(b[0], tail[..n])] + more)[1..] == more;
  }

  lemma {:induction false} TuplesReadExactly(b: seq<Byte>, tlvs: seq<TLV>)
    ensures ParseTlvs(b) == Success(tlvs) <==> TuplesAt(b, tlvs)
    decreases |b|
  {
    hide IsTuple, ParseTlvs;
    if b == [] || tlvs == [] {
      NoTuples(b, tlvs);
    } else {
      if ParseTlvs(b) == Success(tlvs) {
        var used, rest := ReadIsTuple(b);
        TuplesReadExactly(rest, tlvs[1..]);
      }
      if TuplesAt(b, tlvs) {
        var used: nat, rest: seq<Byte> :| IsTuple(b, tlvs[0], used, rest) && TuplesAt(rest, tlvs[1..]);
        TupleIsRead(b, tlvs[0], used, rest);
        TuplesReadExactly(rest, tlvs[1..]);
        assert [tlvs[0]] + tlvs[1..] == tlvs;
      }
    }
  }

  lemma NoTuples(b: seq<Byte>, tlvs: seq<TLV>)
    requires b == [] || tlvs == []
    ensures ParseTlvs(b) == Success(tlvs) <==> TuplesAt(b, tlvs)
  {
  }

  // ---------- Messages ----------

  /** The payload `data` is the message `m`. */
  ghost predicate LaidOut(data: seq<Byte>, m: Message) {
    && |data| >= 3 && data[0] == 0x43 && data[1] == 0x4e
    && match m
       case TopicCreation(topic, retention, name) =>
         && data[2] == 1 && |data| >= 8 && data[3..7] == topic && data[7] == retention
         && exists used: nat :: SizeIs(data[8..], |name|, used) && data[8..][used..] == name
       case Story(topic, headline, tlvs) =>
         && data[2] == 2 && |data| >= 8 + |headline| && data[3..7] == topic
         && data[7] == |headline| <= 252 && data[8..8 + |headline|] == headline
         && TuplesAt(data[8 + |headline|..], tlvs)
       case Comment(parent, author, sig, blob, tlvs) =>
         && data[2] == 3 && |data| >= 111 && data[3..15] == parent && data[15..47] == author
         && data[47..111] == sig && data[111..] == blob && TuplesAt(blob, tlvs)
       case Vote(kind, target, voter, sig) =>
         && (data[2] == 4 || data[2] == 5) && kind == data[2]
         && |data| == 111 && data[3..15] == target && data[15..47] == voter && data[47..111] == sig
       case Continuation(head, seqNo, chunk) =>
         && data[2] == 6 && |data| >= 16 && data[3..15] == head && data[15] == seqNo
         && data[16..] == chunk && 1 <= |chunk| <= 63
  }

  lemma TopicLaidOut(data: seq<Byte>, m: Message)
    requires |data| >= 3 && data[0] == 0x43 && data[1] == 0x4e && data[2] == 1
    ensures DecodeTopicCreation(data[3..]) == Success(m) <==> LaidOut(data, m)
  {
    hide ReadCompactSize, SizeIs;
    var b := data[3..];
    if |b| >= 5 {
      assert b[..4] == data[3..7] && b[5..] == data[8..];
      if ReadCompactSize(b[5..]).Success? {
        var (n, used) := ReadCompactSize(b[5..]).value;
        SizeReadExactly(b[5..], n, used);
      }
      if m.TopicCreation? && exists used: nat :: SizeIs(data[8..], |m.name|, used) {
        var used: nat :| SizeIs(data[8..], |m.name|, used);
        SizeReadExactly(b[5..], |m.name|, used);
        forall other: nat | SizeIs(data[8..], |m.name|, other)
          ensures other == used
        {
          SizeReadExactly(b[5..], |m.name|, other);
        }
      }
    }
  }

  lemma StoryLaidOut(data: seq<Byte>, m: Message)
    requires |data| >= 3 && data[0] == 0x43 && data[1] == 0x4e && data[2] == 2
    ensures DecodeStory(data[3..]) == Success(m) <==> LaidOut(data, m)
  {
    hide ReadCompactSize, TuplesAt, ParseTlvs;
    var b := data[3..];
    if |b| >= 5 && b[4] <= 252 {
      var n: nat := b[4];
      SizeReadExactly(b[4..], n, 1);
      var tail := b[4..][1..];
      assert tail == data[8..] && b[..4] == data[3..7];
      if |tail| >= n {
        assert tail[n..] == data[8 + n..] && tail[..n] == data[8..8 + n];
        if m.Story? {
          TuplesReadExactly(tail[n..], m.tlvs);
        }
        if ParseTlvs(tail[n..]).Success? {
          TuplesReadExactly(tail[n..], ParseTlvs(tail[n..]).value);
        }
      }
    } else if |b| >= 4 && ReadCompactSize(b[4..]).Success? {
      var (n, used) := ReadCompactSize(b[4..]).value;
      SizeReadExactly(b[4..], n, used);
    }
  }

  lemma CommentLaidOut(data: seq<Byte>, m: Message)
    requires |data| >= 3 && data[0] == 0x43 && data[1] == 0x4e && data[2] == 3
    ensures DecodeComment(data[3..]) == Success(m) <==> LaidOut(data, m)
  {
    hide TuplesAt, ParseTlvs;
    var b := data[3..];
    if |b| >= 108 {
      SignedParts(data);
      if m.Comment? {
        TuplesReadExactly(b[108..], m.replyTlvs);
      }
      if ParseTlvs(b[108..]).Success? {
        TuplesReadExactly(b[108..], ParseTlvs(b[108..]).value);
      }
    }
  }

  lemma SignedParts(data: seq<Byte>)
    requires |data| >= 111
    ensures var b := data[3..];
            && b[..12] == data[3..15] && b[12..44] == data[15..47]
            && b[44..108] == data[47..111] && b[108..] == data[111..]
  {
  }

  /** The parser accepts a payload as a message exactly when the payload is that message on the wire. */
  lemma {:induction false} DecodesExactly(data: seq<Byte>, m: Message)
    ensures DecodeMessage(data) == Success(m) <==> LaidOut(data, m)
  {
    hide TuplesAt, DecodeTopicCreation, DecodeStory, DecodeComment;
    if |data| >= 3 && data[0] == 0x43 && data[1] == 0x4e {
      if data[2] == 1 {
        TopicLaidOut(data, m);
      } else if data[2] == 2 {
        StoryLaidOut(data, m);
      } else if data[2] == 3 {
        CommentLaidOut(data, m);
      } else if |data| >= 111 {
        SignedParts(data);
      }
      if |data| >= 16 {
        assert data[3..][..12] == data[3..15] && data[3..][13..] == data[16..];
      }
    }
  }

  lemma {:induction false} TupleErrors(b: seq<Byte>)
    ensures ParseTlvs(b).Failure? ==> ParseTlvs(b).error in {ShortBuffer, NonCanonical, VarintRange, TruncatedTLV}
    decreases |b|
  {
    if b != [] && ReadCompactSize(b[1..]).Success? {
      var (n, used) := ReadCompactSize(b[1..]).value;
      var rest := b[1..][used..];
      if |rest| >= n {
        TupleErrors(rest[n..]);
      }
    }
  }

  /** Which payloads are refused as not of this protocol, and which for their type. */
  lemma RefusedExactly(data: seq<Byte>)
    ensures DecodeMessage(data) == Failure(NotCoinNews) <==> |data| < 3 || data[0] != 0x43 || data[1] != 0x4e
    ensures DecodeMessage(data) == Failure(UnknownTypeTag) <==>
      |data| >= 3 && data[0] == 0x43 && data[1] == 0x4e && !(1 <= data[2] <= 6)
  {
    if |data| >= 3 {
      var b := data[3..];
      if |b| >= 108 {
        TupleErrors(b[108..]);
      }
      if |b| >= 4 && ReadCompactSize(b[4..]).Success? {
        var (n, used) := ReadCompactSize(b[4..]).value;
        if |b[4..][used..]| >= n {
          TupleErrors(b[4..][used..][n..]);
        }
      }
    }
  }

  /** The printers write the wire format exactly for messages within its limits. */
  lemma PrintsExactly(m: Message)
    ensures LaidOut(MessageBytes(m), m) <==> WellFormed(m)
  {
    hide LaidOut, MessageBytes, WellFormed;
    MessageRoundTrip(m);
    DecodesExactly(MessageBytes(m), m);
  }
}

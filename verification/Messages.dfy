/** CoinNews messages: data model, parser and printers (codec/message.go, codec/encode.go, codec/constants.go). */
module Messages {
  import opened Wrappers
  import opened Bytes
  import opened CompactSize
  import opened Tlv

  const HEADLINE_MAX := 252
  const CONTINUATION_CHUNK := 63

  const TYPE_TOPIC_CREATION: Byte := 1
  const TYPE_STORY: Byte := 2
  const TYPE_COMMENT: Byte := 3
  const TYPE_UPVOTE: Byte := 4
  const TYPE_DOWNVOTE: Byte := 5
  const TYPE_CONTINUATION: Byte := 6

  const TLV_URL: Byte := 1
  const TLV_BODY: Byte := 2
  const TLV_LANG: Byte := 3
  const TLV_NSFW: Byte := 4
  const TLV_SUBTYPE: Byte := 5
  const TLV_MEDIA_HASH: Byte := 6
  const TLV_REPLY_QUOTE: Byte := 7

  type Topic = s: seq<Byte> | |s| == 4 witness [0, 0, 0, 0]
  type ItemID = s: seq<Byte> | |s| == 12 witness seq(12, _ => 0)
  type XOnlyPubKey = s: seq<Byte> | |s| == 32 witness seq(32, _ => 0)
  type SchnorrSig = s: seq<Byte> | |s| == 64 witness seq(64, _ => 0)

  datatype Message =
    | TopicCreation(topic: Topic, retentionDays: Byte, name: seq<Byte>)
    | Story(storyTopic: Topic, headline: seq<Byte>, tlvs: seq<TLV>)
    | Comment(parentID: ItemID, author: XOnlyPubKey, sig: SchnorrSig, tlvBlob: seq<Byte>, replyTlvs: seq<TLV>)
    | Vote(kind: Byte, targetID: ItemID, voter: XOnlyPubKey, voteSig: SchnorrSig)
    | Continuation(headID: ItemID, seqNo: Byte, chunk: seq<Byte>)
  {
    function Type(): Byte {
      match this
      case TopicCreation(_, _, _) => TYPE_TOPIC_CREATION
      case Story(_, _, _) => TYPE_STORY
      case Comment(_, _, _, _, _) => TYPE_COMMENT
      case Vote(kind, _, _, _) => kind
      case Continuation(_, _, _) => TYPE_CONTINUATION
    }
  }

  type ParsedMessage = Result<Message, CodecError>

  // ---------- Parser ----------

  function DecodeMessage(data: seq<Byte>): ParsedMessage {
    if |data| < 3 then Failure(NotCoinNews)
    else if data[0] != 0x43 || data[1] != 0x4e then Failure(NotCoinNews)
    else
      DecodeBody(data[2], data[3..])
  }

  function DecodeBody(tag: Byte, body: seq<Byte>): ParsedMessage {
    if tag == TYPE_TOPIC_CREATION then DecodeTopicCreation(body)
    else if tag == TYPE_STORY then DecodeStory(body)
    else if tag == TYPE_COMMENT then DecodeComment(body)
    else if tag == TYPE_UPVOTE || tag == TYPE_DOWNVOTE then DecodeVote(tag, body)
    else if tag == TYPE_CONTINUATION then DecodeContinuation(body)
    else Failure(UnknownTypeTag)
  }

  function DecodeTopicCreation(b: seq<Byte>): ParsedMessage {
    if |b| < 5 then Failure(Malformed)
    else
      var topic: Topic, retention, rest := b[..4], b[4], b[5..];
      var (nameLen, used) :- ReadCompactSize(rest);
      var name := rest[used..];
      if |name| != nameLen then Failure(Malformed) else Success(TopicCreation(topic, retention, name))
  }

  function DecodeStory(b: seq<Byte>): ParsedMessage {
    if |b| < 4 then Failure(Malformed)
    else
      var topic: Topic, rest := b[..4], b[4..];
      var (hLen, used) :- ReadCompactSize(rest);
      var tail := rest[used..];
      if hLen > HEADLINE_MAX || |tail| < hLen then Failure(Malformed)
      else
        var tlvs :- ParseTlvs(tail[hLen..]);
        Success(Story(topic, tail[..hLen], tlvs))
  }

  function DecodeComment(b: seq<Byte>): ParsedMessage {
    if |b| < 108 then Failure(Malformed)
    else
      var parent: ItemID, author: XOnlyPubKey, sig: SchnorrSig := b[..12], b[12..44], b[44..108];
      var tlvs :- ParseTlvs(b[108..]);
      Success(Comment(parent, author, sig, b[108..], tlvs))
  }

  function DecodeVote(tag: Byte, b: seq<Byte>): ParsedMessage {
    if |b| != 108 then Failure(Malformed)
    else
      var target: ItemID, voter: XOnlyPubKey, sig: SchnorrSig := b[..12], b[12..44], b[44..108];
      Success(Vote(tag, target, voter, sig))
  }

  function DecodeContinuation(b: seq<Byte>): ParsedMessage {
    if |b| < 13 then Failure(Malformed)
    else
      var head: ItemID, seqNo, chunk := b[..12], b[12], b[13..];
      if |chunk| < 1 || |chunk| > CONTINUATION_CHUNK then Failure(Malformed)
      else Success(Continuation(head, seqNo, chunk))
  }

  // ---------- Printers ----------

  function Header(tag: Byte): seq<Byte> {
    [0x43, 0x4e, tag]
  }

  function BodyBytes(m: Message): seq<Byte> {
    match m
    case TopicCreation(topic, retention, name) =>
      topic + ([retention] + (CompactSizeBytes(|name|) + name))
    case Story(topic, headline, tlvs) =>
      topic + (CompactSizeBytes(|headline|) + (headline + TlvsBytes(tlvs)))
    case Comment(parent, author, sig, _, tlvs) =>
      parent + (author + (sig + TlvsBytes(tlvs)))
    case Vote(_, target, voter, sig) =>
      target + (voter + sig)
    case Continuation(head, seqNo, chunk) =>
      head + ([seqNo] + chunk)
  }

  /** The payload the printer of each message type writes. */
  function MessageBytes(m: Message): seq<Byte> {
    Header(m.Type()) + BodyBytes(m)
  }

  /**
   * The limits the wire format puts on a message. The printers check none of them, so a message
   * outside these limits is printed but does not come back.
   */
  predicate WellFormed(m: Message) {
    match m
    case TopicCreation(_, _, name) => |name| < U32_LIMIT
    case Story(_, headline, tlvs) => |headline| <= HEADLINE_MAX && AllShort(tlvs)
    case Comment(_, _, _, blob, tlvs) => blob == TlvsBytes(tlvs) && AllShort(tlvs)
    case Vote(kind, _, _, _) => kind == TYPE_UPVOTE || kind == TYPE_DOWNVOTE
    case Continuation(_, _, chunk) => 1 <= |chunk| <= CONTINUATION_CHUNK
  }

  // ---------- Every accepted payload is canonical ----------

  lemma TopicCreationIsCanonical(b: seq<Byte>)
    requires DecodeTopicCreation(b).Success?
    ensures WellFormed(DecodeTopicCreation(b).value) && BodyBytes(DecodeTopicCreation(b).value) == b
  {
    var rest := b[5..];
    SizeIsCanonical(rest);
    var (n, used) := ReadCompactSize(rest).value;
    assert rest == rest[..used] + rest[used..];
    assert b == b[..4] + ([b[4]] + rest);
  }

  lemma SplitStory(b: seq<Byte>, used: nat, n: nat)
    requires 4 + used + n <= |b|
    ensures var tail := b[4..][used..]; b == b[..4] + (b[4..][..used] + (tail[..n] + tail[n..]))
  {
    assert b[4..] == b[4..][..used] + b[4..][used..];
    assert b == b[..4] + b[4..];
  }

  lemma StoryIsCanonical(b: seq<Byte>)
    requires DecodeStory(b).Success?
    ensures WellFormed(DecodeStory(b).value) && BodyBytes(DecodeStory(b).value) == b
  {
    hide ReadCompactSize, CompactSizeBytes, ParseTlvs, TlvsBytes, AllShort;
    SizeIsCanonical(b[4..]);
    var (n, used) := ReadCompactSize(b[4..]).value;
    var tail := b[4..][used..];
    TlvsAreCanonical(tail[n..]);
    SplitStory(b, used, n);
    var m := DecodeStory(b).value;
    assert m.headline == tail[..n] && TlvsBytes(m.tlvs) == tail[n..];
    assert CompactSizeBytes(|m.headline|) == b[4..][..used];
  }

  lemma SplitSigned(b: seq<Byte>)
    requires |b| >= 108
    ensures b == b[..12] + (b[12..44] + (b[44..108] + b[108..]))
  {
    assert b[44..] == b[44..108] + b[108..];
    assert b[12..] == b[12..44] + b[44..];
    assert b == b[..12] + b[12..];
  }

  lemma CommentIsCanonical(b: seq<Byte>)
    requires DecodeComment(b).Success?
    ensures WellFormed(DecodeComment(b).value) && BodyBytes(DecodeComment(b).value) == b
  {
    TlvsAreCanonical(b[108..]);
    SplitSigned(b);
  }

  /**
   * The printer restores every accepted payload byte for byte, and what the parser accepts is
   * always within the limits.
   */
  lemma AcceptedPayloadIsCanonical(data: seq<Byte>)
    requires DecodeMessage(data).Success?
    ensures MessageBytes(DecodeMessage(data).value) == data
    ensures WellFormed(DecodeMessage(data).value)
  {
    var tag, body := data[2], data[3..];
    assert data == Header(tag) + body;
    if tag == TYPE_TOPIC_CREATION {
      TopicCreationIsCanonical(body);
    } else if tag == TYPE_STORY {
      StoryIsCanonical(body);
    } else if tag == TYPE_COMMENT {
      CommentIsCanonical(body);
    } else if tag == TYPE_CONTINUATION {
      assert body == body[..12] + ([body[12]] + body[13..]);
    } else {
      SplitSigned(body);
      assert body[44..108] + body[108..] == body[44..108];
    }
  }

  // ---------- Every well-formed message comes back ----------

  lemma TopicCreationDecodes(m: Message)
    requires m.TopicCreation? && WellFormed(m)
    ensures DecodeBody(TYPE_TOPIC_CREATION, BodyBytes(m)) == Success(m)
  {
    var b, size := BodyBytes(m), CompactSizeBytes(|m.name|);
    assert b[..4] == m.topic && b[5..] == size + m.name;
    SizeReadsBack(|m.name|, m.name);
    assert b[5..][|size|..] == m.name;
  }

  lemma StoryDecodes(m: Message)
    requires m.Story? && WellFormed(m)
    ensures DecodeBody(TYPE_STORY, BodyBytes(m)) == Success(m)
  {
    var b, size := BodyBytes(m), CompactSizeBytes(|m.headline|);
    var tail := m.headline + TlvsBytes(m.tlvs);
    assert b[..4] == m.storyTopic && b[4..] == size + tail;
    SizeReadsBack(|m.headline|, tail);
    assert b[4..][|size|..] == tail;
    assert tail[..|m.headline|] == m.headline && tail[|m.headline|..] == TlvsBytes(m.tlvs);
    TlvRoundTrip(m.tlvs);
  }

  lemma JoinSigned(id: ItemID, key: XOnlyPubKey, sig: SchnorrSig, tail: seq<Byte>)
    ensures var b := id + (key + (sig + tail));
            |b| >= 108 && b[..12] == id && b[12..44] == key && b[44..108] == sig && b[108..] == tail
  {
  }

  lemma CommentDecodes(m: Message)
    requires m.Comment? && WellFormed(m)
    ensures DecodeBody(TYPE_COMMENT, BodyBytes(m)) == Success(m)
  {
    JoinSigned(m.parentID, m.author, m.sig, m.tlvBlob);
    TlvRoundTrip(m.replyTlvs);
  }

  lemma VoteDecodes(m: Message)
    requires m.Vote? && WellFormed(m)
    ensures DecodeBody(m.kind, BodyBytes(m)) == Success(m)
  {
    JoinSigned(m.targetID, m.voter, m.voteSig, []);
    assert m.voteSig + [] == m.voteSig;
  }

  lemma ContinuationDecodes(m: Message)
    requires m.Continuation? && WellFormed(m)
    ensures DecodeBody(TYPE_CONTINUATION, BodyBytes(m)) == Success(m)
  {
    var b := BodyBytes(m);
    assert b[..12] == m.headID && b[13..] == m.chunk;
  }

  lemma BodyDecodes(m: Message)
    requires WellFormed(m)
    ensures DecodeBody(m.Type(), BodyBytes(m)) == Success(m)
  {
    match m
    case TopicCreation(_, _, _) => TopicCreationDecodes(m);
    case Story(_, _, _) => StoryDecodes(m);
    case Comment(_, _, _, _, _) => CommentDecodes(m);
    case Vote(_, _, _, _) => VoteDecodes(m);
    case Continuation(_, _, _) => ContinuationDecodes(m);
  }

  /** A message comes back from its own payload exactly when it is within the limits of the format. */
  lemma MessageRoundTrip(m: Message)
    ensures DecodeMessage(MessageBytes(m)) == Success(m) <==> WellFormed(m)
  {
    var data := MessageBytes(m);
    assert data[3..] == BodyBytes(m);
    if WellFormed(m) {
      BodyDecodes(m);
    } else if DecodeMessage(data) == Success(m) {
      AcceptedPayloadIsCanonical(data);
    }
  }

  /** No two accepted payloads mean the same message. */
  lemma DecodingIsInjective(a: seq<Byte>, b: seq<Byte>)
    requires DecodeMessage(a).Success? && DecodeMessage(a) == DecodeMessage(b)
    ensures a == b
  {
    AcceptedPayloadIsCanonical(a);
    AcceptedPayloadIsCanonical(b);
  }

  lemma AppendedInTurn(a: seq<Byte>, b: seq<Byte>, c: seq<Byte>, d: seq<Byte>, e: seq<Byte>)
    ensures a + b + c + d + e == a + (b + (c + (d + e)))
  {
  }

  method EncodeTopicCreation(m: Message) returns (out: seq<Byte>)
    requires m.TopicCreation?
    ensures out == MessageBytes(m)
    ensures DecodeMessage(out) == Success(m) <==> WellFormed(m)
  {
    out := Header(TYPE_TOPIC_CREATION);
    out := out + m.topic;
    out := out + [m.retentionDays];
    out := PutCompactSize(out, |m.name|);
    out := out + m.name;
    AppendedInTurn(Header(TYPE_TOPIC_CREATION), m.topic, [m.retentionDays], CompactSizeBytes(|m.name|), m.name);
    MessageRoundTrip(m);
  }

  method EncodeStory(m: Message) returns (out: seq<Byte>)
    requires m.Story?
    ensures out == MessageBytes(m)
    ensures DecodeMessage(out) == Success(m) <==> WellFormed(m)
  {
    out := Header(TYPE_STORY);
    out := out + m.storyTopic;
    out := PutCompactSize(out, |m.headline|);
    out := out + m.headline;
    var tail := EncodeTLVs(m.tlvs);
    out := out + tail;
    AppendedInTurn(Header(TYPE_STORY), m.storyTopic, CompactSizeBytes(|m.headline|), m.headline, tail);
    MessageRoundTrip(m);
  }

  method EncodeComment(m: Message) returns (out: seq<Byte>)
    requires m.Comment?
    ensures out == MessageBytes(m)
    ensures DecodeMessage(out) == Success(m) <==> WellFormed(m)
  {
    out := Header(TYPE_COMMENT);
    out := out + m.parentID;
    out := out + m.author;
    out := out + m.sig;
    var tail := EncodeTLVs(m.replyTlvs);
    out := out + tail;
    AppendedInTurn(Header(TYPE_COMMENT), m.parentID, m.author, m.sig, tail);
    MessageRoundTrip(m);
  }

  method EncodeVote(m: Message) returns (out: seq<Byte>)
    requires m.Vote?
    ensures out == MessageBytes(m)
    ensures DecodeMessage(out) == Success(m) <==> WellFormed(m)
  {
    out := Header(m.kind);
    out := out + m.targetID;
    out := out + m.voter;
    out := out + m.voteSig;
    assert out == MessageBytes(m);
    MessageRoundTrip(m);
  }

  method EncodeContinuation(m: Message) returns (out: seq<Byte>)
    requires m.Continuation?
    ensures out == MessageBytes(m)
    ensures DecodeMessage(out) == Success(m) <==> WellFormed(m)
  {
    out := Header(TYPE_CONTINUATION);
    out := out + m.headID;
    out := out + [m.seqNo];
    out := out + m.chunk;
    assert out == MessageBytes(m);
    MessageRoundTrip(m);
  }
}

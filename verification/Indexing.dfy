/**
 * From a block to the index: which outputs are messages, and what each message writes
 * (scanner/scanner.go: ProcessBlock, persist, storyFromMsg, commentFromMsg).
 */
module Indexing {
  import opened Wrappers
  import opened Bytes
  import opened CompactSize
  import opened Tlv
  import opened Messages
  import opened Wire
  import opened Script
  import opened Crypto
  import opened IndexState

  type Hash = string

  datatype Vout = Vout(n: Uint32, scriptType: string, hex: string)

  datatype Tx = Tx(txid: string, vouts: seq<Vout>)

  datatype Block = Block(hash: Hash, height: nat, time: int, prev: Hash, txs: seq<Tx>)

  /** An output that decodes to a message, with the item row it would get. */
  datatype Output = Output(base: Item, msg: Message)

  /** The message in output `j` of transaction `i`: one or none. */
  function OutputAt(p: Primitives, b: Block, i: nat, j: nat): seq<Output>
    requires i < |b.txs| && j < |b.txs[i].vouts|
  {
    var tx, vout := b.txs[i], b.txs[i].vouts[j];
    if vout.scriptType != "nulldata" then []
    else
      match OpReturnPayload(vout.hex)
      case None => []
      case Some(payload) =>
        match DecodeMessage(payload)
        case Failure(_) => []
        case Success(msg) =>
          match ItemIDFromRPC(p, tx.txid, vout.n)
          case None => []
          case Some(id) =>
            [Output(Item(id, tx.txid, vout.n, b.height, i, vout.n, msg.Type(), b.time), msg)]
  }

  function TxOutputs(p: Primitives, b: Block, i: nat, j: nat): seq<Output>
    requires i < |b.txs| && j <= |b.txs[i].vouts|
    decreases |b.txs[i].vouts| - j
  {
    if j == |b.txs[i].vouts| then [] else OutputAt(p, b, i, j) + TxOutputs(p, b, i, j + 1)
  }

  function OutputsFrom(p: Primitives, b: Block, i: nat): seq<Output>
    requires i <= |b.txs|
    decreases |b.txs| - i
  {
    if i == |b.txs| then [] else TxOutputs(p, b, i, 0) + OutputsFrom(p, b, i + 1)
  }

  /** The messages of a block in canonical order. */
  function Outputs(p: Primitives, b: Block): seq<Output> {
    OutputsFrom(p, b, 0)
  }

  lemma {:induction false} TxOutputsHold(p: Primitives, b: Block, i: nat, j: nat, k: nat, o: Output)
    requires i < |b.txs| && j <= k < |b.txs[i].vouts| && o in OutputAt(p, b, i, k)
    ensures o in TxOutputs(p, b, i, j)
    decreases k - j
  {
    hide OutputAt;
    if j < k {
      TxOutputsHold(p, b, i, j + 1, k, o);
    }
  }

  lemma {:induction false} OutputsHold(p: Primitives, b: Block, i: nat, j: nat, k: nat, o: Output)
    requires j <= i < |b.txs| && k < |b.txs[i].vouts| && o in OutputAt(p, b, i, k)
    ensures o in OutputsFrom(p, b, j)
    decreases i - j
  {
    hide OutputAt, TxOutputs;
    if j < i {
      OutputsHold(p, b, i, j + 1, k, o);
    } else {
      TxOutputsHold(p, b, i, 0, k, o);
    }
  }

  /** `o` is the message in output `j` of transaction `i`, with the place and the id of that output. */
  ghost predicate ComesFrom(p: Primitives, b: Block, i: nat, j: nat, o: Output) {
    && i < |b.txs| && j < |b.txs[i].vouts|
    && var tx, vout := b.txs[i], b.txs[i].vouts[j];
       && vout.scriptType == "nulldata"
       && (exists payload ::
             && OpReturnPayload(vout.hex) == Some(payload) && LaidOut(payload, o.msg) && o.base.typeTag == payload[2])
       && ItemIDFromRPC(p, tx.txid, vout.n) == Some(o.base.id)
       && o.base.txid == tx.txid && o.base.vout == vout.n && o.base.height == b.height
       && o.base.txIndex == i && o.base.voutIndex == vout.n && o.base.blockTime == b.time
  }

  lemma OutputAtExactly(p: Primitives, b: Block, i: nat, j: nat, o: Output)
    requires i < |b.txs| && j < |b.txs[i].vouts|
    ensures o in OutputAt(p, b, i, j) <==> ComesFrom(p, b, i, j, o)
  {
    hide OpReturnPayload, DecodeMessage, LaidOut, ItemIDFromRPC;
    var tx, vout := b.txs[i], b.txs[i].vouts[j];
    match OpReturnPayload(vout.hex)
    case None =>
    case Some(payload) =>
      DecodesExactly(payload, o.msg);
      if DecodeMessage(payload).Success? {
        DecodesExactly(payload, DecodeMessage(payload).value);
        TypeIsThirdByte(payload, DecodeMessage(payload).value);
      }
  }

  lemma TypeIsThirdByte(payload: seq<Byte>, m: Message)
    requires LaidOut(payload, m)
    ensures |payload| >= 3 && m.Type() == payload[2]
  {
  }

  lemma {:induction false} TxOutputsComeFrom(p: Primitives, b: Block, i: nat, j: nat, o: Output)
    requires i < |b.txs| && j <= |b.txs[i].vouts| && o in TxOutputs(p, b, i, j)
    ensures exists k :: j <= k < |b.txs[i].vouts| && o in OutputAt(p, b, i, k)
    decreases |b.txs[i].vouts| - j
  {
    hide OutputAt;
    if o !in OutputAt(p, b, i, j) {
      TxOutputsComeFrom(p, b, i, j + 1, o);
    }
  }

  lemma {:induction false} OutputsFromComeFrom(p: Primitives, b: Block, i: nat, o: Output)
    requires i <= |b.txs| && o in OutputsFrom(p, b, i)
    ensures exists k, j :: i <= k < |b.txs| && 0 <= j < |b.txs[k].vouts| && o in OutputAt(p, b, k, j)
    decreases |b.txs| - i
  {
    hide OutputAt, TxOutputs;
    if o in TxOutputs(p, b, i, 0) {
      TxOutputsComeFrom(p, b, i, 0, o);
    } else {
      OutputsFromComeFrom(p, b, i + 1, o);
    }
  }

  /** The messages of a block are exactly those that come from its outputs. */
  lemma {:induction false} OutputsExactly(p: Primitives, b: Block, o: Output)
    ensures o in Outputs(p, b) <==> exists i: nat, j: nat :: ComesFrom(p, b, i, j, o)
  {
    hide ComesFrom, OutputAt, TxOutputs, OutputsFrom;
    if o in Outputs(p, b) {
      OutputsFromComeFrom(p, b, 0, o);
      var i, j :| 0 <= i < |b.txs| && 0 <= j < |b.txs[i].vouts| && o in OutputAt(p, b, i, j);
      OutputAtExactly(p, b, i, j, o);
    }
    if i: nat, j: nat :| ComesFrom(p, b, i, j, o) {
      PlaceExists(p, b, i, j, o);
      OutputAtExactly(p, b, i, j, o);
      OutputsHold(p, b, i, 0, j, o);
    }
  }

  lemma PlaceExists(p: Primitives, b: Block, i: nat, j: nat, o: Output)
    requires ComesFrom(p, b, i, j, o)
    ensures i < |b.txs| && j < |b.txs[i].vouts|
  {
  }

  /** A message printed into an OP_RETURN output is seen in its block, at its place, under its id. */
  lemma PublishedMessageIsSeen(
      p: Primitives, b: Block, i: nat, j: nat, m: Message, prefix: seq<Byte>, rest: seq<Byte>, id: ItemID)
    requires i < |b.txs| && j < |b.txs[i].vouts| && b.txs[i].vouts[j].scriptType == "nulldata"
    requires WellFormed(m) && AnnouncesPush(prefix, |MessageBytes(m)|)
    requires b.txs[i].vouts[j].hex == EncodeHex([OP_RETURN] + (prefix + MessageBytes(m) + rest))
    requires ItemIDFromRPC(p, b.txs[i].txid, b.txs[i].vouts[j].n) == Some(id)
    ensures var n := b.txs[i].vouts[j].n;
            Output(Item(id, b.txs[i].txid, n, b.height, i, n, m.Type(), b.time), m) in Outputs(p, b)
  {
    hide OpReturnPayload, DecodeMessage, MessageBytes, EncodeHex, WellFormed, ItemIDFromRPC, OutputsFrom, AnnouncesPush;
    ScriptCarriesMessage(m, prefix, rest);
    var n := b.txs[i].vouts[j].n;
    OutputsHold(p, b, i, 0, j, Output(Item(id, b.txs[i].txid, n, b.height, i, n, m.Type(), b.time), m));
  }

  function ValueOr(tlvs: seq<TLV>, tag: Byte): seq<Byte> {
    match FirstValue(tlvs, tag)
    case None => []
    case Some(v) => v
  }

  lemma ValueOrHolds(tlvs: seq<TLV>, tag: Byte)
    ensures HoldsFirst(tlvs, tag, ValueOr(tlvs, tag))
  {
    FirstValueExactly(tlvs, tag);
  }

  /** What a story row holds, tag by tag: url 1, body 2, language 3, content flag 4, subtype 5, media hash 6. */
  ghost predicate IsStoryRow(row: StoryRow, id: ItemID, m: Message)
    requires m.Story?
  {
    && row.id == id && row.topic == m.storyTopic && row.headline == m.headline && row.rawTLV == TlvsBytes(m.tlvs)
    && HoldsFirst(m.tlvs, 1, row.url) && HoldsFirst(m.tlvs, 2, row.body) && HoldsFirst(m.tlvs, 3, row.lang)
    && (row.nsfw <==> exists t :: t in m.tlvs && t.tag == 4)
    && (exists v :: HoldsFirst(m.tlvs, 5, v) && row.subtype == if |v| >= 1 then v[0] else 0)
    && HoldsFirst(m.tlvs, 6, row.mediaHash)
  }

  /** What a comment row holds: body 2, url 1, language 3, reply quote 7. */
  ghost predicate IsCommentRow(row: CommentRow, id: ItemID, m: Message)
    requires m.Comment?
  {
    && row.id == id && row.parent == m.parentID && row.author == m.author && row.rawTLV == m.tlvBlob
    && HoldsFirst(m.replyTlvs, 2, row.body) && HoldsFirst(m.replyTlvs, 1, row.url)
    && HoldsFirst(m.replyTlvs, 3, row.lang) && HoldsFirst(m.replyTlvs, 7, row.replyQuote)
  }

  function StoryRecord(id: ItemID, m: Message): StoryRow
    requires m.Story?
  {
    var sub := ValueOr(m.tlvs, TLV_SUBTYPE);
    StoryRow(
      id, m.storyTopic, m.headline, if |sub| >= 1 then sub[0] else 0,
      ValueOr(m.tlvs, TLV_URL), ValueOr(m.tlvs, TLV_BODY), ValueOr(m.tlvs, TLV_LANG),
      FirstValue(m.tlvs, TLV_NSFW).Some?, ValueOr(m.tlvs, TLV_MEDIA_HASH), TlvsBytes(m.tlvs))
  }

  function CommentRecord(id: ItemID, m: Message): CommentRow
    requires m.Comment?
  {
    CommentRow(
      id, m.parentID, m.author, ValueOr(m.replyTlvs, TLV_BODY), ValueOr(m.replyTlvs, TLV_URL),
      ValueOr(m.replyTlvs, TLV_LANG), ValueOr(m.replyTlvs, TLV_REPLY_QUOTE), m.tlvBlob)
  }

  lemma StoryEndsInTlvs(m: Message)
    requires m.Story?
    ensures var k := 7 + |CompactSizeBytes(|m.headline|)| + |m.headline|;
            k <= |MessageBytes(m)| && MessageBytes(m)[k..] == TlvsBytes(m.tlvs)
  {
    hide CompactSizeBytes, TlvsBytes;
    var front := Header(TYPE_STORY) + (m.storyTopic + (CompactSizeBytes(|m.headline|) + m.headline));
    assert MessageBytes(m) == front + TlvsBytes(m.tlvs);
  }

  lemma CommentEndsInTlvs(m: Message)
    requires m.Comment?
    ensures |MessageBytes(m)| >= 111 && MessageBytes(m)[111..] == TlvsBytes(m.replyTlvs)
  {
    hide TlvsBytes;
    var front := Header(TYPE_COMMENT) + (m.parentID + (m.author + m.sig));
    assert MessageBytes(m) == front + TlvsBytes(m.replyTlvs);
  }

  lemma StoryRecordHolds(id: ItemID, m: Message)
    requires m.Story?
    ensures IsStoryRow(StoryRecord(id, m), id, m)
  {
    hide HoldsFirst, TlvsBytes, FirstValue;
    ValueOrHolds(m.tlvs, 1);
    ValueOrHolds(m.tlvs, 2);
    ValueOrHolds(m.tlvs, 3);
    FirstValueExactly(m.tlvs, 4);
    ValueOrHolds(m.tlvs, 5);
    ValueOrHolds(m.tlvs, 6);
  }

  lemma CommentRecordHolds(id: ItemID, m: Message)
    requires m.Comment?
    ensures IsCommentRow(CommentRecord(id, m), id, m)
  {
    hide HoldsFirst, FirstValue;
    ValueOrHolds(m.replyTlvs, 1);
    ValueOrHolds(m.replyTlvs, 2);
    ValueOrHolds(m.replyTlvs, 3);
    ValueOrHolds(m.replyTlvs, 7);
  }

  /** The raw TLV bytes a row stores are the bytes that end the payload on the chain. */
  lemma RawTlvIsOnChain(payload: seq<Byte>, id: ItemID)
    requires DecodeMessage(payload).Success?
    ensures var m := DecodeMessage(payload).value;
            && (m.Story? ==> var k := 7 + |CompactSizeBytes(|m.headline|)| + |m.headline|;
                             k <= |payload| && StoryRecord(id, m).rawTLV == payload[k..])
            && (m.Comment? ==>
                 |payload| >= 111 && CommentRecord(id, m).rawTLV == payload[111..] == TlvsBytes(m.replyTlvs))
  {
    hide DecodeMessage, CompactSizeBytes, TlvsBytes, MessageBytes, AllShort, FirstValue;
    AcceptedPayloadIsCanonical(payload);
    var m := DecodeMessage(payload).value;
    if m.Story? {
      StoryEndsInTlvs(m);
    } else if m.Comment? {
      CommentEndsInTlvs(m);
    }
  }

  // ---------- What one message writes ----------

  function Ref(o: Output): Option<ItemID> {
    match o.msg
    case Comment(parent, _, _, _, _) => Some(parent)
    case Vote(_, target, _, _) => Some(target)
    case _ => None
  }

  predicate Signed(p: Primitives, o: Output) {
    match o.msg
    case Comment(_, _, _, _, _) => VerifyComment(p, o.msg)
    case Vote(_, _, _, _) => VerifyVote(p, o.msg)
    case _ => true
  }

  /** The protocol rules: signatures verify and the referenced item is already stored. */
  predicate Accepts(p: Primitives, idx: Index, o: Output) {
    Signed(p, o) && (Ref(o).Some? ==> Ref(o).value in idx.items)
  }

  function VoteRecord(o: Output): VoteRow
    requires o.msg.Vote?
  {
    VoteRow(o.msg.targetID, o.msg.voter, o.msg.kind, o.base.height, o.base.txIndex, o.base.voutIndex, o.base.blockTime)
  }

  /** A vote row is its own message and its place. */
  ghost predicate IsVoteRow(row: VoteRow, o: Output)
    requires o.msg.Vote?
  {
    && row.target == o.msg.targetID && row.author == o.msg.voter && row.kind == o.msg.kind
    && row.height == o.base.height && row.txIndex == o.base.txIndex && row.voutIndex == o.base.voutIndex
    && row.blockTime == o.base.blockTime
  }

  /** The row written after the item row. */
  function RowOf(o: Output): Row {
    match o.msg
    case TopicCreation(topic, retention, name) =>
      TopicOf(TopicRow(topic, name, retention, o.base.height, o.base.txid))
    case Story(_, _, _) => StoryOf(StoryRecord(o.base.id, o.msg))
    case Comment(_, _, _, _, _) => CommentOf(CommentRecord(o.base.id, o.msg))
    case Vote(_, _, _, _) => VoteOf(VoteRecord(o))
    case Continuation(_, _, _) => NoRow
  }

  function Persist(p: Primitives, idx: Index, o: Output): Index {
    if Accepts(p, idx, o) then idx.PutItem(o.base).PutRow(RowOf(o)) else idx
  }

  /** The plain fold of `Persist` over a list of messages. */
  function Process(p: Primitives, idx: Index, outs: seq<Output>): Index
    decreases |outs|
  {
    if outs == [] then idx else Process(p, Persist(p, idx, outs[0]), outs[1..])
  }

  // ---------- The same with a store that may fail ----------

  /** Where a pass got to: the index it left, the store calls it still had, and whether it finished. */
  datatype Attempt = Attempt(index: Index, left: nat, ok: bool)

  /** One message, when exactly the next `calls` store calls succeed. A failing call writes nothing. */
  function PersistWithin(p: Primitives, idx: Index, o: Output, calls: nat): Attempt {
    if !Signed(p, o) then Attempt(idx, calls, true)
    else if Ref(o).Some? && calls == 0 then Attempt(idx, 0, false)
    else
      var calls := if Ref(o).Some? then calls - 1 else calls;
      if Ref(o).Some? && Ref(o).value !in idx.items then Attempt(idx, calls, true)
      else if calls == 0 then Attempt(idx, 0, false)
      else if calls == 1 then Attempt(idx.PutItem(o.base), 0, false)
      else Attempt(idx.PutItem(o.base).PutRow(RowOf(o)), calls - 2, true)
  }

  /**
   * A refused signature costs no store call; a comment or a vote costs one to look up what it names and
   * two more if that is there; every other message costs two. Fewer calls than that stop the pass.
   */
  lemma CallsExactly(p: Primitives, idx: Index, o: Output, calls: nat)
    ensures var a := PersistWithin(p, idx, o, calls);
            var needed :=
              if !Signed(p, o) then 0
              else if o.msg.Comment? || o.msg.Vote? then (if Accepts(p, idx, o) then 3 else 1) else 2;
            (a.ok <==> calls >= needed) && (if a.ok then a.left + needed == calls else a.left == 0)
  {
    hide VerifyComment, VerifyVote, RowOf;
  }

  function ProcessWithin(p: Primitives, idx: Index, outs: seq<Output>, calls: nat): Attempt
    decreases |outs|
  {
    if outs == [] then Attempt(idx, calls, true)
    else
      var a := PersistWithin(p, idx, outs[0], calls);
      if a.ok then ProcessWithin(p, a.index, outs[1..], a.left) else a
  }

  lemma {:induction false} EnoughCalls(p: Primitives, idx: Index, outs: seq<Output>, calls: nat)
    requires calls >= 3 * |outs|
    ensures var a := ProcessWithin(p, idx, outs, calls);
            a.ok && a.index == Process(p, idx, outs) && a.left + 3 * |outs| >= calls
    decreases |outs|
  {
    if outs != [] {
      var a := PersistWithin(p, idx, outs[0], calls);
      EnoughCalls(p, a.index, outs[1..], a.left);
    }
  }

  lemma {:induction false} FinishedIsProcessed(p: Primitives, idx: Index, outs: seq<Output>, calls: nat)
    requires ProcessWithin(p, idx, outs, calls).ok
    ensures ProcessWithin(p, idx, outs, calls).index == Process(p, idx, outs)
    decreases |outs|
  {
    if outs != [] {
      var a := PersistWithin(p, idx, outs[0], calls);
      FinishedIsProcessed(p, a.index, outs[1..], a.left);
    }
  }

  // ---------- Folding ----------

  lemma {:induction false} ProcessAppend(p: Primitives, idx: Index, a: seq<Output>, b: seq<Output>)
    ensures Process(p, idx, a + b) == Process(p, Process(p, idx, a), b)
    decreases |a|
  {
    hide Persist;
    if a == [] {
      assert a + b == b;
    } else {
      ProcessAppend(p, Persist(p, idx, a[0]), a[1..], b);
      assert (a + b)[1..] == a[1..] + b;
    }
  }

  /** The index after the first `i` messages. */
  function After(p: Primitives, idx: Index, outs: seq<Output>, i: nat): Index
    requires i <= |outs|
  {
    Process(p, idx, outs[..i])
  }

  lemma AfterNext(p: Primitives, idx: Index, outs: seq<Output>, i: nat)
    requires i < |outs|
    ensures After(p, idx, outs, i + 1) == Persist(p, After(p, idx, outs, i), outs[i])
  {
    ProcessAppend(p, idx, outs[..i], [outs[i]]);
    assert outs[..i + 1] == outs[..i] + [outs[i]];
  }

  lemma AfterRest(p: Primitives, idx: Index, outs: seq<Output>, i: nat)
    requires i <= |outs|
    ensures Process(p, After(p, idx, outs, i), outs[i..]) == Process(p, idx, outs)
  {
    ProcessAppend(p, idx, outs[..i], outs[i..]);
    assert outs == outs[..i] + outs[i..];
  }

  // ---------- Indexing only adds ----------

  lemma PersistGrows(p: Primitives, idx: Index, o: Output)
    ensures Grows(idx, Persist(p, idx, o))
  {
    var mid := idx.PutItem(o.base);
    PutItemGrows(idx, o.base);
    PutRowGrows(mid, RowOf(o));
    GrowsTransitive(idx, mid, mid.PutRow(RowOf(o)));
  }

  lemma AcceptedIsStored(p: Primitives, idx: Index, o: Output)
    requires Accepts(p, idx, o)
    ensures o.base.id in Persist(p, idx, o).items
  {
  }

  lemma {:induction false} ProcessGrows(p: Primitives, idx: Index, outs: seq<Output>)
    ensures Grows(idx, Process(p, idx, outs))
    decreases |outs|
  {
    if outs != [] {
      PersistGrows(p, idx, outs[0]);
      ProcessGrows(p, Persist(p, idx, outs[0]), outs[1..]);
      GrowsTransitive(idx, Persist(p, idx, outs[0]), Process(p, idx, outs));
    }
  }

  lemma AfterGrows(p: Primitives, idx: Index, outs: seq<Output>, i: nat, j: nat)
    requires i <= j <= |outs|
    ensures Grows(After(p, idx, outs, i), After(p, idx, outs, j))
  {
    AfterRest(p, idx, outs[..j], i);
    assert outs[..j][..i] == outs[..i];
    ProcessGrows(p, After(p, idx, outs, i), outs[..j][i..]);
  }

  /** An id that no message carries does not appear. */
  lemma {:induction false} IdStaysOut(p: Primitives, idx: Index, outs: seq<Output>, id: ItemID)
    requires id !in idx.items && forall o :: o in outs ==> o.base.id != id
    ensures id !in Process(p, idx, outs).items
    decreases |outs|
  {
    if outs != [] {
      IdStaysOut(p, Persist(p, idx, outs[0]), outs[1..], id);
    }
  }
}

/** The push parser in front of the codec (scanner/script.go). */
module Script {
  import opened Wrappers
  import opened Bytes
  import opened Messages

  const OP_RETURN: Byte := 0x6a
  const OP_PUSHDATA1: Byte := 0x4c
  const OP_PUSHDATA2: Byte := 0x4d

  /** The data of the first push in `b`. OP_PUSHDATA4 and every other opcode are refused. */
  function ParsePush(b: seq<Byte>): Option<seq<Byte>> {
    if |b| < 1 then None
    else
      var op, b := b[0], b[1..];
      if 0x01 <= op <= 0x4b then Taken(op, b)
      else if op == OP_PUSHDATA1 then
        if |b| < 1 then None else Taken(b[0], b[1..])
      else if op == OP_PUSHDATA2 then
        if |b| < 2 then None else Taken(FromLE16(b[..2]), b[2..])
      else None
  }

  function Taken(n: nat, b: seq<Byte>): Option<seq<Byte>> {
    if |b| < n then None else Some(b[..n])
  }

  /** The payload of a single-push OP_RETURN script given as hexadecimal text. */
  function OpReturnPayload(scriptHex: string): Option<seq<Byte>> {
    match DecodeHex(scriptHex)
    case None => None
    case Some(b) => if |b| < 1 || b[0] != OP_RETURN then None else ParsePush(b[1..])
  }

  /** `prefix` announces a push of `n` bytes, in any of the three accepted forms. */
  predicate AnnouncesPush(prefix: seq<Byte>, n: nat) {
    || (1 <= n <= 0x4b && prefix == [n])
    || (n < 0x100 && prefix == [OP_PUSHDATA1, n])
    || (n < 0x1_0000 && prefix == [OP_PUSHDATA2] + LE16(n))
  }

  /** The three forms in bytes. */
  lemma PushForms(prefix: seq<Byte>, n: nat)
    ensures AnnouncesPush(prefix, n) <==>
      || (1 <= n <= 75 && prefix == [n])
      || (n <= 255 && prefix == [76, n])
      || (n <= 65535 && prefix == [77, n % 256, n / 256])
  {
    if n < 0x1_0000 {
      assert [OP_PUSHDATA2] + LE16(n) == [77, n % 256, n / 256];
    }
  }

  ghost predicate StartsWithPush(b: seq<Byte>, data: seq<Byte>) {
    exists prefix: seq<Byte>, rest: seq<Byte> :: AnnouncesPush(prefix, |data|) && b == prefix + data + rest
  }

  lemma PushIsTaken(prefix: seq<Byte>, data: seq<Byte>, rest: seq<Byte>)
    requires AnnouncesPush(prefix, |data|)
    ensures ParsePush(prefix + data + rest) == Some(data)
  {
    var b := prefix + data + rest;
    if |prefix| == 3 {
      assert b[1..][2..] == data + rest;
    } else if |prefix| == 2 {
      assert b[1..][1..] == data + rest;
    } else {
      assert b[1..] == data + rest;
    }
  }

  lemma TakenIsPush(b: seq<Byte>)
    requires ParsePush(b).Some?
    ensures StartsWithPush(b, ParsePush(b).value)
  {
    var data := ParsePush(b).value;
    var n := |data|;
    var skip := if b[0] == OP_PUSHDATA1 then 2 else if b[0] == OP_PUSHDATA2 then 3 else 1;
    assert b == b[..skip] + data + b[skip..][n..];
  }

  /** Parsing succeeds with `data` exactly when the bytes are an announced push of `data` and a remainder. */
  lemma ParsePushExactly(b: seq<Byte>, data: seq<Byte>)
    ensures ParsePush(b) == Some(data) <==> StartsWithPush(b, data)
  {
    if ParsePush(b) == Some(data) {
      TakenIsPush(b);
    }
    if StartsWithPush(b, data) {
      var prefix: seq<Byte>, rest: seq<Byte> :| AnnouncesPush(prefix, |data|) && b == prefix + data + rest;
      PushIsTaken(prefix, data, rest);
    }
  }

  /** A script holds some data exactly when it is the byte 106 and a push of the data. */
  lemma OpReturnExactly(scriptHex: string, data: seq<Byte>)
    ensures OpReturnPayload(scriptHex) == Some(data) <==>
      exists b :: DecodeHex(scriptHex) == Some([106] + b) && StartsWithPush(b, data)
  {
    hide StartsWithPush, ParsePush, DecodeHex;
    match DecodeHex(scriptHex)
    case None =>
    case Some(all) =>
      if all != [] {
        ParsePushExactly(all[1..], data);
        assert all == [all[0]] + all[1..];
      }
      forall b: seq<Byte> | all == [106] + b
        ensures all[1..] == b
      {
      }
  }

  /**
   * A message pushed by any accepted form behind OP_RETURN is what the scanner reads out of the
   * script text, whatever follows the push.
   */
  lemma ScriptCarriesMessage(m: Message, prefix: seq<Byte>, rest: seq<Byte>)
    requires WellFormed(m) && AnnouncesPush(prefix, |MessageBytes(m)|)
    ensures var payload := OpReturnPayload(EncodeHex([OP_RETURN] + (prefix + MessageBytes(m) + rest)));
            payload.Some? && DecodeMessage(payload.value) == Success(m)
  {
    var push := prefix + MessageBytes(m) + rest;
    HexRoundTrip([OP_RETURN] + push);
    assert ([OP_RETURN] + push)[1..] == push;
    PushIsTaken(prefix, MessageBytes(m), rest);
    MessageRoundTrip(m);
  }

  /** Every payload of up to 65535 bytes has a push form, so the hypothesis above can always be met. */
  lemma PushFormExists(n: nat)
    ensures (exists prefix: seq<Byte> :: AnnouncesPush(prefix, n)) <==> n < 0x1_0000
  {
    if n < 0x1_0000 {
      assert AnnouncesPush([OP_PUSHDATA2] + LE16(n), n);
    }
  }
}

/** Item ids and signature checks over an abstract hash and an abstract verifier (codec/itemid.go, codec/sign.go). */
module Crypto {
  import opened Wrappers
  import opened Bytes
  import opened Messages

  type Digest = s: seq<Byte> | |s| == 32 witness seq(32, _ => 0)

  /** SHA-256 and BIP-340 verification, left uninterpreted. */
  datatype Primitives = Primitives(
    sha256: seq<Byte> -> Digest,
    verify: (XOnlyPubKey, SchnorrSig, Digest) -> bool
  )

  /** The id of the output `vout` of the transaction with this display-order id; None for a bad id. */
  function ItemIDFromRPC(p: Primitives, txid: string, vout: Uint32): Option<ItemID> {
    match DecodeHex(txid)
    case None => None
    case Some(raw) =>
      if |raw| != 32 then None else Some(p.sha256(Reverse(raw) + LE32(vout))[..12])
  }

  /** An id exists exactly for 64 hexadecimal digits, and is cut from the hash of the outpoint. */
  lemma ItemIDExactly(p: Primitives, txid: string, vout: Uint32, id: ItemID)
    ensures ItemIDFromRPC(p, txid, vout) == Some(id) <==>
      exists raw :: DecodeHex(txid) == Some(raw) && |raw| == 32 && id == IDOfOutpoint(p, raw, vout)
  {
    hide DecodeHex, Reverse, LE32, IDOfOutpoint;
    match DecodeHex(txid)
    case None =>
    case Some(raw) =>
      if |raw| == 32 {
        OutpointInBytes(p, raw, vout);
      }
  }

  lemma OutpointInBytes(p: Primitives, raw: seq<Byte>, vout: Uint32)
    requires |raw| == 32
    ensures p.sha256(Reverse(raw) + LE32(vout))[..12] == IDOfOutpoint(p, raw, vout)
  {
    hide Reverse, LE32;
    var internal: seq<Byte> := seq(32, i requires 0 <= i < 32 => raw[31 - i]);
    assert Reverse(raw) == internal;
    LE32InBytes(vout);
  }

  lemma LE32InBytes(n: Uint32)
    ensures LE32(n) == [n % 256, n / 256 % 256, n / 65536 % 256, n / 16777216]
  {
    var lo, hi := n % 65536, n / 65536;
    BytesOf(n, lo % 256, lo / 256, hi % 256, hi / 256);
  }

  lemma BytesOf(n: nat, a: Byte, b: Byte, c: Byte, d: Byte)
    requires n == a as int + 256 * b as int + 65536 * c as int + 16777216 * d as int
    ensures n % 256 == a && n / 256 % 256 == b && n / 65536 % 256 == c && n / 16777216 == d
  {
    assert n / 256 == b as int + 256 * c as int + 65536 * d as int;
    assert n / 65536 == c as int + 256 * d as int;
  }

  /** The bytes of the transaction id last to first, then the output number, least byte first. */
  ghost function IDOfOutpoint(p: Primitives, raw: seq<Byte>, vout: Uint32): ItemID
    requires |raw| == 32
  {
    var internal: seq<Byte> := seq(32, i requires 0 <= i < 32 => raw[31 - i]);
    p.sha256(internal + [vout % 256, vout / 256 % 256, vout / 65536 % 256, vout / 16777216])[..12]
  }

  function TaggedHash(p: Primitives, tag: string, message: seq<Byte>): Digest {
    p.sha256(p.sha256(Ascii(tag)) + p.sha256(Ascii(tag)) + message)
  }

  /** What a comment signature commits to: the hashed tag "CoinNews/Comment" twice, the parent and the tuples. */
  ghost function CommentDigest(p: Primitives, parent: ItemID, blob: seq<Byte>): Digest {
    var tag := p.sha256(
      [0x43, 0x6f, 0x69, 0x6e, 0x4e, 0x65, 0x77, 0x73, 0x2f, 0x43, 0x6f, 0x6d, 0x6d, 0x65, 0x6e, 0x74]);
    p.sha256(tag + tag + (parent + blob))
  }

  /** And a vote signature: the hashed tag "CoinNews/Vote" twice, the kind and the target. */
  ghost function VoteDigest(p: Primitives, kind: Byte, target: ItemID): Digest {
    var tag := p.sha256([0x43, 0x6f, 0x69, 0x6e, 0x4e, 0x65, 0x77, 0x73, 0x2f, 0x56, 0x6f, 0x74, 0x65]);
    p.sha256(tag + tag + ([kind] + target))
  }

  /** The signature checks, over the author's key and the digest in bytes. */
  lemma SignaturesExactly(p: Primitives, m: Message)
    ensures m.Comment? ==> (VerifyComment(p, m) <==> p.verify(m.author, m.sig, CommentDigest(p, m.parentID, m.tlvBlob)))
    ensures m.Vote? ==> (VerifyVote(p, m) <==> p.verify(m.voter, m.voteSig, VoteDigest(p, m.kind, m.targetID)))
  {
    assert Ascii("CoinNews/Comment")
        == [0x43, 0x6f, 0x69, 0x6e, 0x4e, 0x65, 0x77, 0x73, 0x2f, 0x43, 0x6f, 0x6d, 0x6d, 0x65, 0x6e, 0x74];
    assert Ascii("CoinNews/Vote")
        == [0x43, 0x6f, 0x69, 0x6e, 0x4e, 0x65, 0x77, 0x73, 0x2f, 0x56, 0x6f, 0x74, 0x65];
  }

  predicate VerifyComment(p: Primitives, m: Message)
    requires m.Comment?
  {
    p.verify(m.author, m.sig, TaggedHash(p, "CoinNews/Comment", m.parentID + m.tlvBlob))
  }

  predicate VerifyVote(p: Primitives, m: Message)
    requires m.Vote?
  {
    p.verify(m.voter, m.voteSig, TaggedHash(p, "CoinNews/Vote", [m.kind] + m.targetID))
  }
}

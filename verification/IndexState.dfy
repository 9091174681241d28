/** The outpoint key of the reverse index and its decimal printer (store/memory.go). */
module OutpointKey {
  import opened Bytes

  function DigitChar(d: nat): (c: char)
    requires d < 10
    ensures '0' <= c <= '9'
  {
    '0' + (d as char)
  }

  function Decimal(v: nat): (s: string)
    ensures |s| >= 1 && forall c :: c in s ==> '0' <= c <= '9'
  {
    if v < 10 then [DigitChar(v)] else Decimal(v / 10) + [DigitChar(v % 10)]
  }

  /** The number a string of digits denotes. */
  function ParseDecimal(s: string): int {
    if s == [] then 0 else 10 * ParseDecimal(s[..|s| - 1]) + (s[|s| - 1] as int - '0' as int)
  }

  lemma {:induction false} DecimalParsesBack(v: nat)
    ensures ParseDecimal(Decimal(v)) == v
  {
    if v >= 10 {
      DecimalParsesBack(v / 10);
    }
  }

  function OutKey(txid: string, vout: nat): string {
    txid + ":" + Decimal(vout)
  }

  lemma LastColon(txid: string, vout: nat)
    ensures var k := OutKey(txid, vout);
            k[|txid|] == ':' && forall j :: |txid| < j < |k| ==> k[j] != ':'
  {
    var k := OutKey(txid, vout);
    forall j | |txid| < j < |k|
      ensures k[j] != ':'
    {
      assert k[j] in Decimal(vout);
    }
  }

  /** The last colon of a key separates the transaction id from the output number, whatever the id holds. */
  lemma OutKeyIsInjective(txid1: string, vout1: nat, txid2: string, vout2: nat)
    requires OutKey(txid1, vout1) == OutKey(txid2, vout2)
    ensures txid1 == txid2 && vout1 == vout2
  {
    var k := OutKey(txid1, vout1);
    LastColon(txid1, vout1);
    LastColon(txid2, vout2);
    assert k[..|txid1|] == txid1 && k[..|txid2|] == txid2;
    assert k[|txid1| + 1..] == Decimal(vout1) && k[|txid2| + 1..] == Decimal(vout2);
    DecimalParsesBack(vout1);
    DecimalParsesBack(vout2);
  }

  /** Room for as many digits as any value below this bound can have. */
  function Power10(n: nat): (p: nat)
    ensures p >= 1
  {
    if n == 0 then 1 else 10 * Power10(n - 1)
  }

  /** Ten cells are enough for every 32-bit number, so the index never runs below zero. */
  method Itoa(v: Uint32) returns (s: string)
    ensures s == Decimal(v)
  {
    if v == 0 {
      return "0";
    }
    var b := new char[10];
    var i := b.Length;
    var rest: nat := v;
    assert rest < Power10(i) by {
      assert Power10(10) == 10 * (10 * Power10(8)) && Power10(8) == 10 * (10 * Power10(6));
    }
    while rest > 0
      invariant 0 <= i <= b.Length && rest < Power10(i)
      invariant Decimal(v) == if rest == 0 then b[i..] else Decimal(rest) + b[i..]
    {
      ghost var tail := b[i..];
      i := i - 1;
      b[i] := DigitChar(rest % 10);
      assert b[i..] == [DigitChar(rest % 10)] + tail;
      rest := rest / 10;
      assert rest < Power10(i);
    }
    s := b[i..];
  }

  method MakeOutKey(txid: string, vout: Uint32) returns (key: string)
    ensures key == OutKey(txid, vout)
  {
    var digits := Itoa(vout);
    key := txid + ":" + digits;
  }
}

/**
 * The rows of the store and the index they make up, with each write and the reorg cut as a
 * function on the whole index (store/store.go, store/memory.go).
 */
module IndexState {
  import opened Bytes
  import opened Messages
  import opened OutpointKey

  /** A place in canonical scan order. */
  datatype Position = Position(height: nat, txIndex: nat, voutIndex: nat)

  predicate Before(a: Position, b: Position) {
    if a.height != b.height then a.height < b.height
    else if a.txIndex != b.txIndex then a.txIndex < b.txIndex
    else a.voutIndex < b.voutIndex
  }

  datatype Item = Item(
    id: ItemID, txid: string, vout: Uint32, height: nat, txIndex: nat, voutIndex: nat,
    typeTag: Byte, blockTime: int)
  {
    function Pos(): Position {
      Position(height, txIndex, voutIndex)
    }

    function Key(): string {
      OutKey(txid, vout)
    }
  }

  datatype TopicRow = TopicRow(topic: Topic, name: seq<Byte>, retentionDays: Byte, createdHeight: nat, txid: string)

  datatype StoryRow = StoryRow(
    id: ItemID, topic: Topic, headline: seq<Byte>, subtype: Byte, url: seq<Byte>, body: seq<Byte>,
    lang: seq<Byte>, nsfw: bool, mediaHash: seq<Byte>, rawTLV: seq<Byte>)

  datatype CommentRow = CommentRow(
    id: ItemID, parent: ItemID, author: XOnlyPubKey, body: seq<Byte>, url: seq<Byte>,
    lang: seq<Byte>, replyQuote: seq<Byte>, rawTLV: seq<Byte>)

  datatype VoteRow = VoteRow(
    target: ItemID, author: XOnlyPubKey, kind: Byte, height: nat, txIndex: nat, voutIndex: nat, blockTime: int)
  {
    function Pos(): Position {
      Position(height, txIndex, voutIndex)
    }

    function Key(): VoteKey {
      VoteKey(target, author)
    }
  }

  datatype VoteKey = VoteKey(target: ItemID, author: XOnlyPubKey)

  type VoteMap = map<VoteKey, VoteRow>

  predicate LaterThan(a: VoteRow, b: VoteRow) {
    Before(b.Pos(), a.Pos())
  }

  /** The guard of the SQL upsert of a vote (store/sqlite.go). */
  predicate SqlReplaces(a: VoteRow, b: VoteRow) {
    || a.height > b.height
    || (a.height == b.height && a.txIndex > b.txIndex)
    || (a.height == b.height && a.txIndex == b.txIndex && a.voutIndex > b.voutIndex)
  }

  lemma BackendsAgreeOnLater(a: VoteRow, b: VoteRow)
    ensures LaterThan(a, b) <==> SqlReplaces(a, b)
  {
  }

  /** Keep the stored vote unless the new one is later. */
  function PutVote(votes: VoteMap, v: VoteRow): VoteMap {
    if v.Key() in votes && !LaterThan(v, votes[v.Key()]) then votes else votes[v.Key() := v]
  }

  /** The row a message writes besides its item row. */
  datatype Row = TopicOf(t: TopicRow) | StoryOf(s: StoryRow) | CommentOf(c: CommentRow) | VoteOf(v: VoteRow) | NoRow

  ghost predicate Inverse(items: map<ItemID, Item>, byOut: map<string, ItemID>) {
    && (forall id :: id in items ==>
          items[id].id == id && items[id].Key() in byOut && byOut[items[id].Key()] == id)
    && (forall k :: k in byOut ==> byOut[k] in items && items[byOut[k]].Key() == k)
  }

  /** The outpoints of some of the items. */
  function KeysOf(items: map<ItemID, Item>, ids: set<ItemID>): set<string> {
    set id | id in ids && id in items :: items[id].Key()
  }

  datatype Index = Index(
    items: map<ItemID, Item>,
    byOut: map<string, ItemID>,
    topics: map<Topic, TopicRow>,
    stories: map<ItemID, StoryRow>,
    comments: map<ItemID, CommentRow>,
    votes: VoteMap)
  {
    function PutItem(it: Item): Index {
      if it.id in items then this
      else this.(items := items[it.id := it], byOut := byOut[it.Key() := it.id])
    }

    /** First write wins for topics, stories and comments; the latest wins for votes. */
    function PutRow(row: Row): Index {
      Index(
        items, byOut,
        if row.TopicOf? && row.t.topic !in topics then topics[row.t.topic := row.t] else topics,
        if row.StoryOf? && row.s.id !in stories then stories[row.s.id := row.s] else stories,
        if row.CommentOf? && row.c.id !in comments then comments[row.c.id := row.c] else comments,
        if row.VoteOf? then PutVote(votes, row.v) else votes)
    }

    /** Items whose height is at or above `h`. */
    function ItemsFrom(h: int): set<ItemID> {
      set id | id in items && items[id].height >= h
    }

    function TopicsFrom(h: int): set<Topic> {
      set t | t in topics && topics[t].createdHeight >= h
    }

    function VotesFrom(h: int): set<VoteKey> {
      set k | k in votes && votes[k].height >= h
    }

    /** What a reorg rewind to height `h` leaves. */
    function DeleteFromHeight(h: int): Index {
      var gone := ItemsFrom(h);
      Index(
        items - gone, byOut - KeysOf(items, gone), topics - TopicsFrom(h),
        stories - gone, comments - gone, votes - VotesFrom(h))
    }

    /** What that rewind deletes. */
    function RowsFrom(h: int): Index {
      var gone := ItemsFrom(h);
      Index(
        items - (items.Keys - gone), byOut - (byOut.Keys - KeysOf(items, gone)), topics - (topics.Keys - TopicsFrom(h)),
        stories - (stories.Keys - gone), comments - (comments.Keys - gone), votes - (votes.Keys - VotesFrom(h)))
    }

    /** `byOut` and `items` are inverses of each other. */
    ghost predicate OutpointInverse() {
      Inverse(items, byOut)
    }

    /** No two items share a canonical position. */
    ghost predicate DistinctPositions() {
      forall id1, id2 :: id1 in items && id2 in items && items[id1].Pos() == items[id2].Pos() ==> id1 == id2
    }
  }

  const EMPTY := Index(map[], map[], map[], map[], map[], map[])

  /** Adding an item keeps the inverse exactly when the item is a repeat or its outpoint is new. */
  lemma PutItemKeepsInverse(idx: Index, it: Item)
    requires idx.OutpointInverse()
    ensures idx.PutItem(it).OutpointInverse() <==> it.id in idx.items || it.Key() !in idx.byOut
  {
    var after := idx.PutItem(it);
    if it.id !in idx.items && it.Key() in idx.byOut {
      var other := idx.byOut[it.Key()];
      assert other in after.items && after.items[other].Key() == it.Key();
    }
  }

  lemma CutKeepsInverse(idx: Index, h: int)
    requires idx.OutpointInverse()
    ensures idx.DeleteFromHeight(h).OutpointInverse()
    ensures forall id :: id in idx.DeleteFromHeight(h).items <==> id in idx.items && idx.items[id].height < h
  {
  }

  /** A write to the item tables. */
  datatype ItemOp = Put(it: Item) | Cut(h: int)

  function ApplyOps(idx: Index, ops: seq<ItemOp>): Index {
    if ops == [] then idx
    else
      var before := ApplyOps(idx, ops[..|ops| - 1]);
      match ops[|ops| - 1]
      case Put(it) => before.PutItem(it)
      case Cut(h) => before.DeleteFromHeight(h)
  }

  /** Over all the items written, an id and an outpoint determine each other. */
  ghost predicate IdsMatchOutpoints(ops: seq<ItemOp>) {
    forall a, b :: a in ops && b in ops && a.Put? && b.Put? ==>
      (a.it.id == b.it.id <==> a.it.txid == b.it.txid && a.it.vout == b.it.vout)
  }

  /** `byOut` and `items` stay inverses through every sequence of writes and cuts. */
  lemma {:induction false} InverseThroughWrites(ops: seq<ItemOp>)
    requires IdsMatchOutpoints(ops)
    ensures ApplyOps(EMPTY, ops).OutpointInverse()
    ensures forall id :: id in ApplyOps(EMPTY, ops).items ==> Put(ApplyOps(EMPTY, ops).items[id]) in ops
  {
    if ops != [] {
      var init, last := ops[..|ops| - 1], ops[|ops| - 1];
      InverseThroughWrites(init);
      var before := ApplyOps(EMPTY, init);
      match last
      case Cut(h) => CutKeepsInverse(before, h);
      case Put(it) =>
        if it.Key() in before.byOut {
          var other := before.items[before.byOut[it.Key()]];
          OutKeyIsInjective(it.txid, it.vout, other.txid, other.vout);
        }
        PutItemKeepsInverse(before, it);
    }
  }

  // ---------- Writes only add ----------

  ghost predicate Extends<K, V>(a: map<K, V>, b: map<K, V>) {
    forall k :: k in a ==> k in b && b[k] == a[k]
  }

  ghost predicate VotesAdvance(a: VoteMap, b: VoteMap) {
    forall k :: k in a ==> k in b && !LaterThan(a[k], b[k])
  }

  /** Rows stay, except that a vote may be replaced by one that is not earlier. */
  ghost predicate Grows(a: Index, b: Index) {
    && Extends(a.items, b.items)
    && Extends(a.topics, b.topics)
    && Extends(a.stories, b.stories)
    && Extends(a.comments, b.comments)
    && VotesAdvance(a.votes, b.votes)
  }

  lemma GrowsTransitive(a: Index, b: Index, c: Index)
    requires Grows(a, b) && Grows(b, c)
    ensures Grows(a, c)
  {
  }

  lemma PutItemGrows(idx: Index, it: Item)
    ensures Grows(idx, idx.PutItem(it)) && it.id in idx.PutItem(it).items
  {
  }

  lemma PutRowGrows(idx: Index, row: Row)
    ensures Grows(idx, idx.PutRow(row)) && idx.PutRow(row).items == idx.items
  {
  }

  /** A row that has been written changes nothing in any later state. */
  lemma RowIsAbsorbed(x: Index, row: Row, later: Index)
    requires Grows(x.PutRow(row), later)
    ensures later.PutRow(row) == later
  {
  }

  // ---------- Votes ----------

  function PutVotes(votes: VoteMap, vs: seq<VoteRow>): VoteMap {
    if vs == [] then votes else PutVote(PutVotes(votes, vs[..|vs| - 1]), vs[|vs| - 1])
  }

  /** A canonical position holds one vote. */
  ghost predicate PositionIdentifiesVote(vs: seq<VoteRow>) {
    forall i, j :: 0 <= i < |vs| && 0 <= j < |vs| && vs[i].Pos() == vs[j].Pos() ==> vs[i] == vs[j]
  }

  /** `v` is cast in `vs` and no vote of the same author on the same target is later. */
  ghost predicate IsLatest(vs: seq<VoteRow>, v: VoteRow) {
    v in vs && forall w :: w in vs && w.Key() == v.Key() ==> !LaterThan(w, v)
  }

  /** The votes kept are the latest of those cast. */
  ghost predicate HoldsLatest(votes: VoteMap, vs: seq<VoteRow>) {
    && (forall v :: v in vs ==> v.Key() in votes)
    && (forall k :: k in votes ==> votes[k].Key() == k && IsLatest(vs, votes[k]))
  }

  lemma PutVoteHoldsLatest(votes: VoteMap, vs: seq<VoteRow>, v: VoteRow)
    requires HoldsLatest(votes, vs)
    ensures HoldsLatest(PutVote(votes, v), vs + [v])
  {
  }

  lemma {:induction false} PutVotesKeepsLatest(vs: seq<VoteRow>)
    ensures forall v :: v in vs ==> v.Key() in PutVotes(map[], vs)
    ensures forall k :: k in PutVotes(map[], vs) ==>
      PutVotes(map[], vs)[k].Key() == k && IsLatest(vs, PutVotes(map[], vs)[k])
  {
    hide IsLatest;
    if vs != [] {
      var init, last := vs[..|vs| - 1], vs[|vs| - 1];
      PutVotesKeepsLatest(init);
      PutVoteHoldsLatest(PutVotes(map[], init), init, last);
      assert vs == init + [last];
    }
  }

  /**
   * The votes kept do not depend on the order in which votes arrive or on repeats: two lists with
   * the same votes leave the same map, and it holds the latest vote of every target and author.
   */
  lemma {:induction false} LatestVoteJoin(vs: seq<VoteRow>, ws: seq<VoteRow>)
    requires forall v :: v in vs <==> v in ws
    requires PositionIdentifiesVote(vs)
    ensures PutVotes(map[], vs) == PutVotes(map[], ws)
    ensures forall v :: v in vs ==>
      (IsLatest(vs, v) <==> v.Key() in PutVotes(map[], vs) && PutVotes(map[], vs)[v.Key()] == v)
  {
    PutVotesKeepsLatest(vs);
    PutVotesKeepsLatest(ws);
    var a, b := PutVotes(map[], vs), PutVotes(map[], ws);
    forall v, w | v in vs && w in vs && v.Key() == w.Key() && IsLatest(vs, v) && IsLatest(vs, w)
      ensures v == w
    {
    }
    forall k | k in a
      ensures k in b && a[k] == b[k]
    {
      assert IsLatest(vs, b[k]);
    }
    forall k | k in b
      ensures k in a
    {
    }
  }
}

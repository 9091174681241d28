/** What the read queries return, as properties of the index (store/memory.go, store/store.go). */
module Queries {
  import opened Wrappers
  import opened Bytes
  import opened Messages
  import opened IndexState
  import opened Sorting

  // ---------- Tallies ----------

  /** The votes of one kind on a target. A key holds one author, so no author counts twice. */
  function Cast(votes: VoteMap, target: ItemID, kind: Byte): set<VoteKey> {
    set k | k in votes && k.target == target && votes[k].kind == kind
  }

  function TallyOf(votes: VoteMap, target: ItemID): int {
    |Cast(votes, target, TYPE_UPVOTE)| - |Cast(votes, target, TYPE_DOWNVOTE)|
  }

  /** Upvotes are the votes of kind 4 and downvotes those of kind 5. */
  lemma TallyExactly(votes: VoteMap, target: ItemID)
    ensures TallyOf(votes, target) ==
      |set k | k in votes && k.target == target && votes[k].kind == 4|
      - |set k | k in votes && k.target == target && votes[k].kind == 5|
  {
  }

  function Weight(kind: Byte): int {
    if kind == TYPE_UPVOTE then 1 else if kind == TYPE_DOWNVOTE then -1 else 0
  }

  function WeightAt(votes: VoteMap, k: VoteKey): int {
    if k in votes then Weight(votes[k].kind) else 0
  }

  lemma CastAfter(votes: VoteMap, v: VoteRow, target: ItemID, kind: Byte)
    ensures Cast(votes[v.Key() := v], target, kind) ==
      if target == v.target && kind == v.kind then Cast(votes, target, kind) + {v.Key()}
      else Cast(votes, target, kind) - {v.Key()}
  {
  }

  lemma SizeAfter(votes: VoteMap, v: VoteRow, target: ItemID, kind: Byte)
    ensures |Cast(votes[v.Key() := v], target, kind)| - |Cast(votes, target, kind)| ==
      (if target == v.target && kind == v.kind then 1 else 0) -
      (if target == v.target && v.Key() in votes && kind == votes[v.Key()].kind then 1 else 0)
  {
    var before, k := Cast(votes, target, kind), v.Key();
    CastAfter(votes, v, target, kind);
    assert k in before <==> target == v.target && k in votes && kind == votes[k].kind;
    SizeWith(before, k);
    SizeWithout(before, k);
  }

  lemma SizeWith<T>(s: set<T>, x: T)
    ensures |s + {x}| == |s| + (if x in s then 0 else 1)
  {
    if x in s {
      assert s + {x} == s;
    }
  }

  lemma SizeWithout<T>(s: set<T>, x: T)
    ensures |s - {x}| == |s| - (if x in s then 1 else 0)
  {
    if x !in s {
      assert s - {x} == s;
    }
  }

  /** A vote moves the tally of its own target by the weight it puts in the place of the old one, and no other. */
  lemma TallyIsConserved(votes: VoteMap, v: VoteRow, target: ItemID)
    ensures var after := PutVote(votes, v);
            TallyOf(after, target) - TallyOf(votes, target) ==
              if target == v.target then WeightAt(after, v.Key()) - WeightAt(votes, v.Key()) else 0
  {
    hide Cast;
    if PutVote(votes, v) != votes {
      SizeAfter(votes, v, target, TYPE_UPVOTE);
      SizeAfter(votes, v, target, TYPE_DOWNVOTE);
    }
  }

  /** Counting a set while walking `left` in any order: taking `x` out of `left` counts it if it is in `s`. */
  lemma CountOneMore<T>(s: set<T>, left: set<T>, x: T)
    requires x in left
    ensures |s - (left - {x})| == |s - left| + (if x in s then 1 else 0)
  {
    if x in s {
      assert s - (left - {x}) == (s - left) + {x};
    } else {
      assert s - (left - {x}) == s - left;
    }
  }

  // ---------- The author of the earliest direct comment ----------

  const ZERO_KEY: XOnlyPubKey := [0, 0, 0, 0, 0, 0, 0, 0, 0, 0, 0, 0, 0, 0, 0, 0,
                                  0, 0, 0, 0, 0, 0, 0, 0, 0, 0, 0, 0, 0, 0, 0, 0]
  const ZERO_ID: ItemID := [0, 0, 0, 0, 0, 0, 0, 0, 0, 0, 0, 0]
  const ZERO_ITEM := Item(ZERO_ID, "", 0, 0, 0, 0, 0, 0)

  /** A missing row reads as the zero item. */
  function ItemAt(items: map<ItemID, Item>, id: ItemID): Item {
    if id in items then items[id] else ZERO_ITEM
  }

  function Replies(comments: map<ItemID, CommentRow>, parent: ItemID): set<ItemID> {
    set id | id in comments && comments[id].parent == parent
  }

  lemma RepliesExactly(comments: map<ItemID, CommentRow>, parent: ItemID)
    ensures |Replies(comments, parent)| == |set id | id in comments && comments[id].parent == parent|
  {
    assert Replies(comments, parent) == set id | id in comments && comments[id].parent == parent;
  }

  /** `id` is a direct comment on `parent` and none is earlier. */
  ghost predicate IsFirstComment(idx: Index, parent: ItemID, id: ItemID) {
    && id in Replies(idx.comments, parent)
    && forall other :: other in Replies(idx.comments, parent) ==>
         !Before(ItemAt(idx.items, other).Pos(), ItemAt(idx.items, id).Pos())
  }

  ghost predicate IsFirstAuthor(idx: Index, parent: ItemID, author: XOnlyPubKey) {
    if Replies(idx.comments, parent) == {} then author == ZERO_KEY
    else exists id :: IsFirstComment(idx, parent, id) && idx.comments[id].author == author
  }

  /** With item rows at distinct places, the author does not depend on the order of the walk. */
  lemma FirstAuthorIsUnique(idx: Index, parent: ItemID, a: XOnlyPubKey, b: XOnlyPubKey)
    requires idx.comments.Keys <= idx.items.Keys && idx.DistinctPositions()
    requires IsFirstAuthor(idx, parent, a) && IsFirstAuthor(idx, parent, b)
    ensures a == b
  {
  }

  /** A later comment does not take over authorship. */
  lemma AuthorIsKept(before: Index, after: Index, parent: ItemID, author: XOnlyPubKey)
    requires Extends(before.items, after.items) && Extends(before.comments, after.comments)
    requires before.comments.Keys <= before.items.Keys && after.comments.Keys <= after.items.Keys
    requires forall prior, id :: prior in before.comments && id in after.comments && id !in before.comments ==>
               Before(after.items[prior].Pos(), after.items[id].Pos())
    requires Replies(before.comments, parent) != {} && IsFirstAuthor(before, parent, author)
    ensures IsFirstAuthor(after, parent, author)
  {
    var first :| IsFirstComment(before, parent, first) && before.comments[first].author == author;
    forall other | other in Replies(after.comments, parent)
      ensures !Before(ItemAt(after.items, other).Pos(), ItemAt(after.items, first).Pos())
    {
      if other in before.comments {
        assert other in Replies(before.comments, parent);
      }
    }
  }

  /**
   * The rank of an entry with these points and this block time, at the time of the query. The source
   * divides the points by a power of the age, in floating point.
   */
  type Ranking = (int, int) -> real

  // ---------- Threads ----------

  /** The parent chain of `id` reaches `root` in `n` steps through stored comments. */
  predicate Reaches(comments: map<ItemID, CommentRow>, id: ItemID, root: ItemID, n: nat)
    decreases n
  {
    if n == 0 then id == root else id in comments && Reaches(comments, comments[id].parent, root, n - 1)
  }

  ghost predicate Descends(comments: map<ItemID, CommentRow>, id: ItemID, root: ItemID) {
    exists n :: Reaches(comments, id, root, n)
  }

  /** The comments under `root`. */
  ghost function Members(comments: map<ItemID, CommentRow>, root: ItemID): set<ItemID> {
    set id | id in comments && id != root && Descends(comments, id, root)
  }

  datatype ThreadComment = ThreadComment(
    id: ItemID, parent: ItemID, author: XOnlyPubKey, body: seq<Byte>, url: seq<Byte>, lang: seq<Byte>,
    replyQuote: seq<Byte>, height: nat, blockTime: int, points: int, score: real)

  /** A comment as a thread shows it. */
  function CommentView(idx: Index, rank: Ranking, c: CommentRow): ThreadComment {
    var it, points := ItemAt(idx.items, c.id), TallyOf(idx.votes, c.id);
    ThreadComment(c.id, c.parent, c.author, c.body, c.url, c.lang, c.replyQuote,
                  it.height, it.blockTime, points, rank(points, it.blockTime))
  }

  function CommentID(c: ThreadComment): ItemID {
    c.id
  }

  /** `out` shows each of these comments once, and nothing else. */
  ghost predicate Shows(idx: Index, rank: Ranking, ids: set<ItemID>, out: seq<ThreadComment>) {
    && (forall v :: v in out ==>
          v.id in ids && v.id in idx.comments && v == CommentView(idx, rank, idx.comments[v.id]))
    && (forall id :: id in ids ==> exists v :: v in out && v.id == id)
    && DistinctBy(CommentID, out)
  }

  lemma NothingShown(idx: Index, rank: Ranking)
    ensures Shows(idx, rank, {}, [])
  {
  }

  lemma ShowsOneMore(idx: Index, rank: Ranking, ids: set<ItemID>, out: seq<ThreadComment>, view: ThreadComment)
    requires Shows(idx, rank, ids, out) && view.id !in ids
    requires view.id in idx.comments && view == CommentView(idx, rank, idx.comments[view.id])
    ensures Shows(idx, rank, ids + {view.id}, out + [view])
  {
    hide CommentView;
    var more := out + [view];
    assert view in more && forall v :: v in out ==> v in more;
    forall id | id in ids
      ensures exists v :: v in more && v.id == id
    {
      var v :| v in out && v.id == id;
    }
  }

  /** By height, and at one height by the hexadecimal text of the ids. */
  predicate EarlierInThread(a: ThreadComment, b: ThreadComment) {
    a.height < b.height || (a.height == b.height && StringLess(EncodeHex(a.id), EncodeHex(b.id)))
  }

  predicate StringLess(a: string, b: string) {
    if b == [] then false
    else if a == [] then true
    else a[0] < b[0] || (a[0] == b[0] && StringLess(a[1..], b[1..]))
  }

  lemma {:induction false} StringLessIsTotal(a: string, b: string)
    ensures !StringLess(a, b) && !StringLess(b, a) <==> a == b
    ensures StringLess(a, b) ==> !StringLess(b, a)
  {
    if a != [] && b != [] {
      StringLessIsTotal(a[1..], b[1..]);
      assert a == [a[0]] + a[1..] && b == [b[0]] + b[1..];
    }
  }

  lemma {:induction false} StringLessIsTransitive(a: string, b: string, c: string)
    requires StringLess(a, b) && StringLess(b, c)
    ensures StringLess(a, c)
  {
    if a != [] && a[0] == b[0] == c[0] {
      StringLessIsTransitive(a[1..], b[1..], c[1..]);
    }
  }

  lemma ThreadOrder()
    ensures IsOrder(EarlierInThread)
  {
    hide EncodeHex, StringLess;
    forall a: ThreadComment, b: ThreadComment
      ensures EarlierInThread(a, b) ==> !EarlierInThread(b, a)
    {
      StringLessIsTotal(EncodeHex(a.id), EncodeHex(b.id));
    }
    forall a: ThreadComment, b: ThreadComment, c: ThreadComment | !EarlierInThread(a, b) && !EarlierInThread(b, c)
      ensures !EarlierInThread(a, c)
    {
      if a.height == b.height == c.height {
        NotLessIsTransitive(EncodeHex(a.id), EncodeHex(b.id), EncodeHex(c.id));
      }
    }
  }

  lemma NotLessIsTransitive(a: string, b: string, c: string)
    requires !StringLess(a, b) && !StringLess(b, c)
    ensures !StringLess(a, c)
  {
    StringLessIsTotal(a, b);
    StringLessIsTotal(b, c);
    StringLessIsTotal(a, c);
    if a != b && b != c {
      StringLessIsTransitive(c, b, a);
    }
  }

  /** The thread of a root: these comments, in that order. */
  ghost predicate IsThread(idx: Index, rank: Ranking, root: ItemID, out: seq<ThreadComment>) {
    Shows(idx, rank, Members(idx.comments, root), out) && Ordered(EarlierInThread, out)
  }

  /** The first bytes that differ decide. */
  ghost predicate BytesLess(a: seq<Byte>, b: seq<Byte>) {
    exists k: nat :: FirstDiffers(a, b, k)
  }

  predicate FirstDiffers(a: seq<Byte>, b: seq<Byte>, k: nat) {
    k < |a| && k < |b| && a[..k] == b[..k] && a[k] < b[k]
  }

  /** Ids are ordered by their texts as by their bytes. */
  lemma {:induction false} TextKeepsOrder(a: seq<Byte>, b: seq<Byte>)
    requires |a| == |b|
    ensures StringLess(EncodeHex(a), EncodeHex(b)) <==> BytesLess(a, b)
  {
    if a != [] {
      TextKeepsOrder(a[1..], b[1..]);
      FirstByteDecides(a, b);
      FirstDigitsDecide(a, b);
    }
  }

  lemma FirstByteDecides(a: seq<Byte>, b: seq<Byte>)
    requires a != [] && b != []
    ensures BytesLess(a, b) <==> a[0] < b[0] || (a[0] == b[0] && BytesLess(a[1..], b[1..]))
  {
    if a[0] < b[0] {
      assert FirstDiffers(a, b, 0);
    }
    if k: nat :| FirstDiffers(a, b, k) && k > 0 {
      assert a[..k][0] == b[..k][0] && a[1..][..k - 1] == a[..k][1..] && b[1..][..k - 1] == b[..k][1..];
      assert FirstDiffers(a[1..], b[1..], k - 1);
    }
    if k: nat :| FirstDiffers(a[1..], b[1..], k) && a[0] == b[0] {
      assert a[..k + 1] == [a[0]] + a[1..][..k] && b[..k + 1] == [b[0]] + b[1..][..k];
      assert FirstDiffers(a, b, k + 1);
    }
  }

  lemma FirstDigitsDecide(a: seq<Byte>, b: seq<Byte>)
    requires a != [] && b != []
    ensures StringLess(EncodeHex(a), EncodeHex(b)) <==>
      a[0] < b[0] || (a[0] == b[0] && StringLess(EncodeHex(a[1..]), EncodeHex(b[1..])))
  {
    var s, t := EncodeHex(a), EncodeHex(b);
    assert s[1..][1..] == EncodeHex(a[1..]) && t[1..][1..] == EncodeHex(b[1..]);
    DigitsInOrder(a[0] / 16, b[0] / 16);
    DigitsInOrder(a[0] % 16, b[0] % 16);
  }

  lemma DigitsInOrder(v: int, w: int)
    requires 0 <= v < 16 && 0 <= w < 16
    ensures (HexDigit(v) < HexDigit(w) <==> v < w) && (HexDigit(v) == HexDigit(w) <==> v == w)
  {
  }

  /** Greater heights come later, and at one height greater ids. */
  ghost predicate InThreadOrder(out: seq<ThreadComment>) {
    forall i, j :: 0 <= i < j < |out| ==>
      out[i].height < out[j].height || (out[i].height == out[j].height && BytesLess(out[i].id, out[j].id))
  }

  lemma ThreadOrderExactly(out: seq<ThreadComment>)
    requires DistinctBy(CommentID, out)
    ensures Ordered(EarlierInThread, out) <==> InThreadOrder(out)
  {
    hide EncodeHex, StringLess, BytesLess;
    forall i, j | 0 <= i < j < |out|
      ensures !EarlierInThread(out[j], out[i]) <==>
        out[i].height < out[j].height || (out[i].height == out[j].height && BytesLess(out[i].id, out[j].id))
    {
      var a, b := out[i].id, out[j].id;
      assert CommentID(out[i]) != CommentID(out[j]);
      HexRoundTrip(a);
      HexRoundTrip(b);
      StringLessIsTotal(EncodeHex(a), EncodeHex(b));
      TextKeepsOrder(a, b);
    }
  }

  /** A row of a thread, field by field: its comment, the place of its item, and its votes. */
  ghost predicate IsThreadRow(idx: Index, rank: Ranking, v: ThreadComment) {
    && v.id in idx.comments
    && var c, it := idx.comments[v.id], ItemAt(idx.items, v.id);
       && v.parent == c.parent && v.author == c.author && v.body == c.body && v.url == c.url && v.lang == c.lang
       && v.replyQuote == c.replyQuote && v.height == it.height && v.blockTime == it.blockTime
       && v.points == TallyOf(idx.votes, v.id) && v.score == rank(v.points, it.blockTime)
  }

  /** A thread holds a row for every comment whose parents lead to the root, once, and in that order. */
  lemma ThreadHolds(idx: Index, rank: Ranking, root: ItemID, out: seq<ThreadComment>)
    requires IsThread(idx, rank, root, out)
    ensures InThreadOrder(out) && forall v :: v in out ==> IsThreadRow(idx, rank, v)
    ensures forall id ::
      (exists v :: v in out && v.id == id) <==> id in idx.comments && id != root && Descends(idx.comments, id, root)
  {
    hide InThreadOrder, EarlierInThread, Descends, Ordered, DistinctBy, TallyOf, CommentView;
    ThreadOrderExactly(out);
    forall id
      ensures id in Members(idx.comments, root) <==>
        id in idx.comments && id != root && Descends(idx.comments, id, root)
    {
    }
    forall v | v in out
      ensures IsThreadRow(idx, rank, v)
    {
      ViewIsRow(idx, rank, v);
    }
  }

  lemma ViewIsRow(idx: Index, rank: Ranking, v: ThreadComment)
    requires v.id in idx.comments && v == CommentView(idx, rank, idx.comments[v.id])
    ensures IsThreadRow(idx, rank, v)
  {
  }

  /** Sorting what is shown gives the thread. */
  lemma SortedIsThread(idx: Index, rank: Ranking, root: ItemID, shown: seq<ThreadComment>)
    requires Shows(idx, rank, Members(idx.comments, root), shown)
    ensures IsThread(idx, rank, root, Sort(EarlierInThread, shown))
  {
    hide Members, Shows, Ordered, IsOrder, Sort, Ties, EarlierInThread;
    ThreadOrder();
    SortSorts(EarlierInThread, shown);
    PermutedShows(idx, rank, Members(idx.comments, root), shown, Sort(EarlierInThread, shown));
  }

  lemma PermutedShows(idx: Index, rank: Ranking, ids: set<ItemID>, a: seq<ThreadComment>, b: seq<ThreadComment>)
    requires Shows(idx, rank, ids, a) && multiset(a) == multiset(b)
    ensures Shows(idx, rank, ids, b)
  {
    hide CommentView, DistinctBy;
    PermutedStaysDistinct(CommentID, a, b);
    SameSize(a, b);
  }

  /** The answer does not depend on the order of any walk over the comments. */
  lemma {:induction false} ThreadIsUnique(
      idx: Index, rank: Ranking, root: ItemID, a: seq<ThreadComment>, b: seq<ThreadComment>)
    requires IsThread(idx, rank, root, a) && IsThread(idx, rank, root, b)
    ensures a == b
  {
    hide Members, CommentView, Ordered, EarlierInThread;
    SameEntriesPermute(CommentID, a, b);
    assert NoTies(EarlierInThread, a) by {
      forall x, y | x in a && y in a && Tied(EarlierInThread, x, y)
        ensures x == y
      {
        TiedInThread(x, y);
      }
    }
    OrderedIsUnique(EarlierInThread, a, b);
  }

  lemma TiedInThread(x: ThreadComment, y: ThreadComment)
    requires Tied(EarlierInThread, x, y)
    ensures x.id == y.id
  {
    StringLessIsTotal(EncodeHex(x.id), EncodeHex(y.id));
    HexRoundTrip(x.id);
    HexRoundTrip(y.id);
  }

  function PlaceOf(idx: Index, v: ThreadComment): Position {
    ItemAt(idx.items, v.id).Pos()
  }

  ghost predicate InScanOrder(idx: Index, out: seq<ThreadComment>) {
    forall i, j :: 0 <= i < j < |out| ==> !Before(PlaceOf(idx, out[j]), PlaceOf(idx, out[i]))
  }

  /** A thread is in scan order exactly when, within each block, the texts of the ids are in that order. */
  lemma {:induction false} ThreadInScanOrderExactly(idx: Index, rank: Ranking, root: ItemID, out: seq<ThreadComment>)
    requires IsThread(idx, rank, root, out)
    ensures InScanOrder(idx, out) <==>
      forall x, y :: x in out && y in out && x.height == y.height && Before(PlaceOf(idx, x), PlaceOf(idx, y)) ==>
        StringLess(EncodeHex(x.id), EncodeHex(y.id))
  {
    hide Members, StringLess, EncodeHex;
    if InScanOrder(idx, out) {
      forall x, y | x in out && y in out && x.height == y.height && Before(PlaceOf(idx, x), PlaceOf(idx, y))
        ensures StringLess(EncodeHex(x.id), EncodeHex(y.id))
      {
        var i :| 0 <= i < |out| && out[i] == x;
        var j :| 0 <= j < |out| && out[j] == y;
        assert i < j && !EarlierInThread(y, x);
        StringLessIsTotal(EncodeHex(x.id), EncodeHex(y.id));
        HexRoundTrip(x.id);
        HexRoundTrip(y.id);
        assert CommentID(x) != CommentID(y);
      }
    }
    forall i, j | 0 <= i < j < |out| && Before(PlaceOf(idx, out[j]), PlaceOf(idx, out[i]))
      ensures out[j].height == out[i].height && !StringLess(EncodeHex(out[j].id), EncodeHex(out[i].id))
    {
      assert !EarlierInThread(out[j], out[i]);
      ShownHeight(idx, rank, Members(idx.comments, root), out, out[i]);
      ShownHeight(idx, rank, Members(idx.comments, root), out, out[j]);
    }
  }

  function IdOf(k: Byte): ItemID {
    seq(12, _ => k)
  }

  /** Two comments on one root, in one block: the first in the block has the greater id. */
  function TwoComments(): Index {
    var first, second := IdOf(2), IdOf(1);
    Index(
      map[first := Item(first, "", 0, 7, 0, 0, 3, 0), second := Item(second, "", 0, 7, 1, 0, 3, 0)],
      map[], map[], map[],
      map[first := CommentRow(first, ZERO_ID, ZERO_KEY, [], [], [], [], []),
          second := CommentRow(second, ZERO_ID, ZERO_KEY, [], [], [], [], [])],
      map[])
  }

  /** The condition can fail: these two are shown against the order of the scan. */
  lemma {:induction false} ThreadLeavesScanOrder(rank: Ranking) returns (out: seq<ThreadComment>)
    ensures IsThread(TwoComments(), rank, ZERO_ID, out) && !InScanOrder(TwoComments(), out)
  {
    hide EncodeHex;
    var idx, first, second := TwoComments(), IdOf(2), IdOf(1);
    assert first[0] == 2 && second[0] == 1;
    var a, b := CommentView(idx, rank, idx.comments[first]), CommentView(idx, rank, idx.comments[second]);
    assert Reaches(idx.comments, first, ZERO_ID, 1) && Reaches(idx.comments, second, ZERO_ID, 1);
    assert Members(idx.comments, ZERO_ID) == {first, second};
    out := [b, a];
    assert StringLess(EncodeHex(second), EncodeHex(first)) by { SmallerFirst(second, first); }
    StringLessIsTotal(EncodeHex(second), EncodeHex(first));
    assert a in out && b in out;
    assert !InScanOrder(idx, out) by {
      assert Before(PlaceOf(idx, out[1]), PlaceOf(idx, out[0]));
    }
  }

  lemma SmallerFirst(a: seq<Byte>, b: seq<Byte>)
    requires a != [] && b != [] && a[0] == 1 && b[0] == 2
    ensures StringLess(EncodeHex(a), EncodeHex(b))
  {
    hide StringLess;
    var s, t := EncodeHex(a[1..]), EncodeHex(b[1..]);
    assert EncodeHex(a) == "01" + s && EncodeHex(b) == "02" + t;
    SecondDecides("01" + s, "02" + t);
  }

  lemma SecondDecides(s: string, t: string)
    requires |s| >= 2 && |t| >= 2 && s[0] == t[0] && s[1] < t[1]
    ensures StringLess(s, t)
  {
    assert s[1..][0] < t[1..][0];
  }

  lemma ShownHeight(idx: Index, rank: Ranking, ids: set<ItemID>, out: seq<ThreadComment>, v: ThreadComment)
    requires Shows(idx, rank, ids, out) && v in out
    ensures v.id in idx.comments ==> v.height == ItemAt(idx.items, idx.comments[v.id].id).height
  {
  }

  /** A set that holds the root and every comment whose parent it holds, holds every descendant. */
  lemma {:induction false} ClosedHoldsDescendants(
      comments: map<ItemID, CommentRow>, want: set<ItemID>, id: ItemID, root: ItemID, n: nat)
    requires root in want && forall c :: c in comments && comments[c].parent in want ==> c in want
    requires Reaches(comments, id, root, n)
    ensures id in want
    decreases n
  {
    if n > 0 {
      ClosedHoldsDescendants(comments, want, comments[id].parent, root, n - 1);
    }
  }

  // ---------- Feeds ----------

  datatype FeedItem = FeedItem(
    item: Item, topic: Topic, headline: seq<Byte>, url: seq<Byte>, body: seq<Byte>, lang: seq<Byte>,
    subtype: Byte, nsfw: bool, author: XOnlyPubKey, points: int, commentCount: nat, score: real)

  datatype FeedQuery = FeedQuery(
    topic: Option<Topic>, subtype: Option<Byte>, includeNSFW: bool, limit: int, offset: int)

  predicate Matches(q: FeedQuery, topic: Topic, subtype: Byte, nsfw: bool) {
    && (q.topic.Some? ==> topic == q.topic.value)
    && (q.subtype.Some? ==> subtype == q.subtype.value)
    && (q.includeNSFW || !nsfw)
  }

  predicate Wanted(q: FeedQuery, f: FeedItem) {
    Matches(q, f.topic, f.subtype, f.nsfw)
  }

  /** `f` is the feed entry of the story `id`. */
  ghost predicate IsEntry(idx: Index, rank: Ranking, id: ItemID, f: FeedItem) {
    && id in idx.stories && id in idx.items
    && var s, points := idx.stories[id], TallyOf(idx.votes, id);
       && f == FeedItem(idx.items[id], s.topic, s.headline, s.url, s.body, s.lang, s.subtype, s.nsfw,
                        f.author, points, |Replies(idx.comments, id)|, rank(points, idx.items[id].blockTime))
       && IsFirstAuthor(idx, id, f.author)
  }

  /** A feed entry, field by field: its story, its item, and what others made of it. */
  ghost predicate IsFeedRow(idx: Index, rank: Ranking, f: FeedItem) {
    && f.item.id in idx.stories && f.item.id in idx.items
    && var s, it := idx.stories[f.item.id], idx.items[f.item.id];
       && f.item == it && f.topic == s.topic && f.headline == s.headline && f.url == s.url && f.body == s.body
       && f.lang == s.lang && f.subtype == s.subtype && f.nsfw == s.nsfw
       && f.points == TallyOf(idx.votes, it.id) && f.score == rank(f.points, it.blockTime)
       && f.commentCount == |set id | id in idx.comments && idx.comments[id].parent == it.id|
       && IsFirstAuthor(idx, it.id, f.author)
  }

  lemma EntryIsRow(idx: Index, rank: Ranking, f: FeedItem)
    requires IsEntry(idx, rank, f.item.id, f)
    ensures IsFeedRow(idx, rank, f)
  {
    RepliesExactly(idx.comments, f.item.id);
  }

  function EntryID(f: FeedItem): ItemID {
    f.item.id
  }

  /** Every story with an item row has one entry, and nothing else has. */
  ghost predicate IsFullFeed(idx: Index, rank: Ranking, all: seq<FeedItem>) {
    IsFeedSoFar(idx, rank, {}, all)
  }

  /** The part of a full feed that covers the stories outside `left`. */
  ghost predicate IsFeedSoFar(idx: Index, rank: Ranking, left: set<ItemID>, out: seq<FeedItem>) {
    && (forall f :: f in out ==> f.item.id !in left && IsEntry(idx, rank, f.item.id, f))
    && DistinctBy(EntryID, out)
    && (forall id :: id in idx.stories && id in idx.items && id !in left ==> exists f :: f in out && f.item.id == id)
  }

  lemma FeedGrows(idx: Index, rank: Ranking, left: set<ItemID>, out: seq<FeedItem>, id: ItemID, f: FeedItem)
    requires IsFeedSoFar(idx, rank, left, out) && id in left && IsEntry(idx, rank, id, f) && f.item.id == id
    ensures IsFeedSoFar(idx, rank, left - {id}, out + [f])
  {
    hide IsEntry;
    var more := out + [f];
    assert f in more && forall g :: g in out ==> g in more;
    forall other | other in idx.stories && other in idx.items && other !in left - {id}
      ensures exists g :: g in more && g.item.id == other
    {
      if other != id {
        var g :| g in out && g.item.id == other;
      }
    }
  }

  /** The entries that match a query, in the order they stand. */
  function Selected(q: FeedQuery, all: seq<FeedItem>): seq<FeedItem> {
    if all == [] then []
    else Selected(q, all[..|all| - 1]) + (if Wanted(q, all[|all| - 1]) then [all[|all| - 1]] else [])
  }

  lemma {:induction false} SelectedExactly(q: FeedQuery, all: seq<FeedItem>, f: FeedItem)
    ensures f in Selected(q, all) <==> f in all && Wanted(q, f)
  {
    if all != [] {
      SelectedExactly(q, all[..|all| - 1], f);
    }
  }

  lemma {:induction false} SelectedStaysDistinct(q: FeedQuery, all: seq<FeedItem>)
    requires DistinctBy(EntryID, all)
    ensures DistinctBy(EntryID, Selected(q, all))
  {
    if all != [] {
      var init, last := all[..|all| - 1], all[|all| - 1];
      SelectedStaysDistinct(q, init);
      forall i | 0 <= i < |Selected(q, init)|
        ensures Selected(q, init)[i].item.id != last.item.id
      {
        SelectedExactly(q, init, Selected(q, init)[i]);
      }
    }
  }

  // ---------- Sorting and paging ----------

  predicate Newer(a: FeedItem, b: FeedItem) {
    Before(b.item.Pos(), a.item.Pos())
  }

  /** By score, and at one score by height. */
  predicate RanksHigher(a: FeedItem, b: FeedItem) {
    a.score > b.score || (a.score == b.score && a.item.height > b.item.height)
  }

  /** Newest first: by height, then by transaction, then by output, each the greater one first. */
  ghost predicate NewestFirst(r: seq<FeedItem>) {
    forall i, j :: 0 <= i < j < |r| ==>
      var a, b := r[i].item, r[j].item;
      || a.height > b.height
      || (a.height == b.height && a.txIndex > b.txIndex)
      || (a.height == b.height && a.txIndex == b.txIndex && a.voutIndex >= b.voutIndex)
  }

  /** Highest score first, and of equal scores the greater height. */
  ghost predicate HighestFirst(r: seq<FeedItem>) {
    forall i, j :: 0 <= i < j < |r| ==>
      r[i].score > r[j].score || (r[i].score == r[j].score && r[i].item.height >= r[j].item.height)
  }

  lemma FeedOrdersExactly(r: seq<FeedItem>)
    ensures Ordered(Newer, r) <==> NewestFirst(r)
    ensures Ordered(RanksHigher, r) <==> HighestFirst(r)
  {
    forall i, j | 0 <= i < j < |r|
      ensures
        var a, b := r[i].item, r[j].item;
        !Newer(r[j], r[i]) <==>
          || a.height > b.height
          || (a.height == b.height && a.txIndex > b.txIndex)
          || (a.height == b.height && a.txIndex == b.txIndex && a.voutIndex >= b.voutIndex)
      ensures !RanksHigher(r[j], r[i]) <==>
        r[i].score > r[j].score || (r[i].score == r[j].score && r[i].item.height >= r[j].item.height)
    {
    }
  }

  lemma FeedOrders()
    ensures IsOrder(Newer) && IsOrder(RanksHigher)
  {
  }

  lemma SamePlace(f: FeedItem, g: FeedItem)
    ensures Tied(Newer, f, g) <==> f.item.Pos() == g.item.Pos()
  {
  }

  /** A limit that is not positive is no limit; a negative offset is zero. */
  function Page<T>(items: seq<T>, limit: int, offset: int): seq<T> {
    var offset := if offset < 0 then 0 else offset;
    if offset >= |items| then []
    else
      var rest := items[offset..];
      if limit > 0 && limit < |rest| then rest[..limit] else rest
  }

  /**
   * A page is a stretch of the list: it starts at the offset, at the front for a negative one, and has
   * `limit` entries or as many as are left; without a positive limit it has all that are left.
   */
  lemma PageExactly<T>(items: seq<T>, limit: int, offset: int)
    ensures offset >= |items| ==> Page(items, limit, offset) == []
    ensures offset < |items| ==>
      var from := if offset >= 0 then offset else 0;
      var left := |items| - from;
      var p := Page(items, limit, offset);
      && |p| == (if limit >= 1 && limit <= left then limit else left)
      && forall k :: 0 <= k < |p| ==> p[k] == items[from + k]
  {
  }

  lemma PageKeepsOrder<T>(less: (T, T) -> bool, items: seq<T>, limit: int, offset: int)
    requires Ordered(less, items)
    ensures Ordered(less, Page(items, limit, offset))
    ensures forall x :: x in Page(items, limit, offset) ==> x in items
  {
  }

  /** The pages a reader gets who asks for `size` entries at a time until none are left. */
  function PagesFrom<T>(items: seq<T>, size: nat, offset: nat): seq<T>
    requires size > 0
    decreases |items| - offset
  {
    if offset >= |items| then [] else Page(items, size, offset) + PagesFrom(items, size, offset + size)
  }

  lemma {:induction false} PagesAreEverything<T>(items: seq<T>, size: nat, offset: nat)
    requires size > 0 && offset <= |items|
    ensures PagesFrom(items, size, offset) == items[offset..]
    decreases |items| - offset
  {
    if offset < |items| {
      if offset + size <= |items| {
        PagesAreEverything(items, size, offset + size);
        assert Page(items, size, offset) == items[offset..offset + size];
        assert items[offset..] == items[offset..offset + size] + items[offset + size..];
      } else {
        assert Page(items, size, offset) == items[offset..] && PagesFrom(items, size, offset + size) == [];
      }
    }
  }

  /** The whole answer to a query, before paging: the entries of the matching stories, each once, in order. */
  ghost predicate IsAnswer(
      idx: Index, rank: Ranking, q: FeedQuery, less: (FeedItem, FeedItem) -> bool, feed: seq<FeedItem>)
  {
    && Ordered(less, feed) && DistinctBy(EntryID, feed)
    && (forall f :: f in feed ==> IsEntry(idx, rank, f.item.id, f) && Wanted(q, f))
    && (forall id :: id in idx.stories && id in idx.items
          && Matches(q, idx.stories[id].topic, idx.stories[id].subtype, idx.stories[id].nsfw)
          ==> exists f :: f in feed && f.item.id == id)
  }

  lemma SortedSelectionIsAnswer(
      idx: Index, rank: Ranking, q: FeedQuery, less: (FeedItem, FeedItem) -> bool, all: seq<FeedItem>)
    requires IsFullFeed(idx, rank, all) && IsOrder(less)
    ensures IsAnswer(idx, rank, q, less, Sort(less, Selected(q, all)))
  {
    hide IsEntry, IsOrder, Ordered, Selected, DistinctBy, Sort, Wanted, Matches;
    var picked := Selected(q, all);
    var feed := Sort(less, picked);
    SortSorts(less, picked);
    SelectedStaysDistinct(q, all);
    PermutedStaysDistinct(EntryID, picked, feed);
    forall f
      ensures f in feed <==> f in all && Wanted(q, f)
    {
      SelectedExactly(q, all, f);
      assert f in feed <==> f in multiset(feed);
      assert f in picked <==> f in multiset(picked);
    }
    forall id | id in idx.stories && id in idx.items
                && Matches(q, idx.stories[id].topic, idx.stories[id].subtype, idx.stories[id].nsfw)
      ensures exists f :: f in feed && f.item.id == id
    {
      var f :| f in all && f.item.id == id;
      EntryIsWanted(idx, rank, q, f);
      assert f in feed;
    }
  }

  lemma EntryIsWanted(idx: Index, rank: Ranking, q: FeedQuery, f: FeedItem)
    requires IsEntry(idx, rank, f.item.id, f)
    ensures var s := idx.stories[f.item.id]; Wanted(q, f) <==> Matches(q, s.topic, s.subtype, s.nsfw)
  {
  }

  /** The story passes the filter of the query. */
  predicate Passes(q: FeedQuery, s: StoryRow) {
    && (q.topic == None || q.topic == Some(s.topic))
    && (q.subtype == None || q.subtype == Some(s.subtype))
    && (s.nsfw ==> q.includeNSFW)
  }

  /** An answer holds the entries of exactly the stories with an item row that pass the filter. */
  lemma AnswerHolds(idx: Index, rank: Ranking, q: FeedQuery, less: (FeedItem, FeedItem) -> bool, feed: seq<FeedItem>)
    requires IsAnswer(idx, rank, q, less, feed)
    ensures forall f :: f in feed ==> IsFeedRow(idx, rank, f) && Passes(q, idx.stories[f.item.id])
    ensures forall id ::
      (exists f :: f in feed && f.item.id == id) <==>
      id in idx.stories && id in idx.items && Passes(q, idx.stories[id])
  {
    hide IsEntry, IsFeedRow, Ordered, DistinctBy;
    forall f | f in feed
      ensures f.item.id in idx.stories && f.item.id in idx.items
      ensures IsFeedRow(idx, rank, f) && Passes(q, idx.stories[f.item.id])
    {
      EntryIsRow(idx, rank, f);
      EntryHasRows(idx, rank, f);
      EntryIsWanted(idx, rank, q, f);
    }
  }

  lemma PageOfAnswer(idx: Index, rank: Ranking, q: FeedQuery, less: (FeedItem, FeedItem) -> bool, feed: seq<FeedItem>)
    requires IsAnswer(idx, rank, q, less, feed)
    ensures var r := Page(feed, q.limit, q.offset);
            && Ordered(less, r)
            && forall f :: f in r ==> IsFeedRow(idx, rank, f) && Passes(q, idx.stories[f.item.id])
  {
    hide IsEntry, IsFeedRow, Ordered, DistinctBy, Page, Passes;
    AnswerHolds(idx, rank, q, less, feed);
    PageKeepsOrder(less, feed, q.limit, q.offset);
  }

  /** An entry is determined by its story. */
  lemma SameEntry(idx: Index, rank: Ranking, f: FeedItem, g: FeedItem)
    requires idx.comments.Keys <= idx.items.Keys && idx.DistinctPositions()
    requires IsEntry(idx, rank, f.item.id, f) && IsEntry(idx, rank, g.item.id, g) && f.item.id == g.item.id
    ensures f == g
  {
    FirstAuthorIsUnique(idx, f.item.id, f.author, g.author);
  }

  /** The answer to a query is a function of the index wherever no two of its entries tie. */
  lemma {:induction false} AnswerIsUnique(
      idx: Index, rank: Ranking, q: FeedQuery, less: (FeedItem, FeedItem) -> bool, a: seq<FeedItem>, b: seq<FeedItem>)
    requires idx.comments.Keys <= idx.items.Keys && idx.DistinctPositions()
    requires IsAnswer(idx, rank, q, less, a) && IsAnswer(idx, rank, q, less, b)
    requires NoTies(less, a)
    ensures a == b
  {
    hide IsEntry, Ordered, DistinctBy, NoTies, Index.DistinctPositions;
    SameEntries(idx, rank, q, less, a, b);
    SameEntries(idx, rank, q, less, b, a);
    SameEntriesPermute(EntryID, a, b);
    OrderedIsUnique(less, a, b);
  }

  lemma SameEntries(
      idx: Index, rank: Ranking, q: FeedQuery, less: (FeedItem, FeedItem) -> bool, a: seq<FeedItem>, b: seq<FeedItem>)
    requires idx.comments.Keys <= idx.items.Keys && idx.DistinctPositions()
    requires IsAnswer(idx, rank, q, less, a) && IsAnswer(idx, rank, q, less, b)
    ensures forall f :: f in a ==> f in b
  {
    hide IsEntry, Ordered, DistinctBy, Index.DistinctPositions;
    forall f | f in a
      ensures f in b
    {
      EntryIsWanted(idx, rank, q, f);
      assert f.item.id in idx.stories && f.item.id in idx.items by { EntryHasRows(idx, rank, f); }
      var g :| g in b && g.item.id == f.item.id;
      SameEntry(idx, rank, f, g);
    }
  }

  lemma EntryHasRows(idx: Index, rank: Ranking, f: FeedItem)
    requires IsEntry(idx, rank, f.item.id, f)
    ensures f.item.id in idx.stories && f.item.id in idx.items
  {
  }

  /** Item rows at distinct places make the newest-first answer a function of the index. */
  lemma {:induction false} NewFeedIsUnique(
      idx: Index, rank: Ranking, q: FeedQuery, a: seq<FeedItem>, b: seq<FeedItem>)
    requires idx.comments.Keys <= idx.items.Keys && idx.DistinctPositions()
    requires IsAnswer(idx, rank, q, Newer, a) && IsAnswer(idx, rank, q, Newer, b)
    ensures a == b
  {
    hide IsEntry, Ordered, DistinctBy, Index.DistinctPositions, Newer, Tied;
    forall f, g | f in a && g in a && Tied(Newer, f, g)
      ensures f == g
    {
      SamePlace(f, g);
      SamePlaceSameStory(idx, rank, f, g);
      SameEntry(idx, rank, f, g);
    }
    AnswerIsUnique(idx, rank, q, Newer, a, b);
  }

  lemma SamePlaceSameStory(idx: Index, rank: Ranking, f: FeedItem, g: FeedItem)
    requires idx.DistinctPositions() && f.item.Pos() == g.item.Pos()
    requires IsEntry(idx, rank, f.item.id, f) && IsEntry(idx, rank, g.item.id, g)
    ensures f.item.id == g.item.id
  {
  }
}

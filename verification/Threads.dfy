/**
 * References, threads and authorship in the index of a chain: every reference points back, so the
 * comments fall into one tree per item that is not a comment.
 */
module Threads {
  import opened Messages
  import opened Crypto
  import opened IndexState
  import opened Indexing
  import opened Cuts
  import opened Chain
  import opened Queries
  import opened Runs
  import opened Soundness

  // ---------- References point back ----------

  /** Every comment has a stored parent at an earlier place. */
  ghost predicate ParentsEarlier(items: map<ItemID, Item>, comments: map<ItemID, CommentRow>) {
    forall id :: id in comments ==>
      && id in items && comments[id].parent in items
      && Before(items[comments[id].parent].Pos(), items[id].Pos())
  }

  /** Every vote has a stored target at an earlier place. */
  ghost predicate TargetsEarlier(items: map<ItemID, Item>, votes: VoteMap) {
    forall k :: k in votes ==> k.target in items && Before(items[k.target].Pos(), votes[k].Pos())
  }

  ghost predicate Closed(idx: Index) {
    && Tidy(idx) && idx.DistinctPositions()
    && ParentsEarlier(idx.items, idx.comments) && TargetsEarlier(idx.items, idx.votes)
  }

  /** Every item lies before every output. */
  ghost predicate ItemsBefore(items: map<ItemID, Item>, outs: seq<Output>) {
    forall id, o :: id in items && o in outs ==> Before(items[id].Pos(), o.base.Pos())
  }

  lemma PutItemKeepsPlaces(idx: Index, it: Item)
    requires idx.DistinctPositions() && forall id :: id in idx.items ==> Before(idx.items[id].Pos(), it.Pos())
    ensures idx.PutItem(it).DistinctPositions()
  {
  }

  lemma MoreItemsKeepReferences(idx: Index, it: Item)
    requires it.id !in idx.items && ParentsEarlier(idx.items, idx.comments) && TargetsEarlier(idx.items, idx.votes)
    ensures ParentsEarlier(idx.PutItem(it).items, idx.comments) && TargetsEarlier(idx.PutItem(it).items, idx.votes)
  {
  }

  lemma PutItemKeepsClosed(idx: Index, it: Item)
    requires Closed(idx) && IsNew(idx, it) && forall id :: id in idx.items ==> Before(idx.items[id].Pos(), it.Pos())
    ensures Closed(idx.PutItem(it))
  {
    hide Tidy, Index.DistinctPositions, ParentsEarlier, TargetsEarlier;
    PutItemKeepsPlaces(idx, it);
    MoreItemsKeepReferences(idx, it);
    PutKeepsTidy(idx, it, NoRow);
  }

  lemma PutRowKeepsClosed(idx: Index, it: Item, row: Row)
    requires Closed(idx) && it.id in idx.items && idx.items[it.id] == it && RowGoesWith(row, it)
    requires row.CommentOf? ==> row.c.parent in idx.items && Before(idx.items[row.c.parent].Pos(), it.Pos())
    requires row.VoteOf? ==> row.v.target in idx.items && Before(idx.items[row.v.target].Pos(), row.v.Pos())
    ensures Closed(idx.PutRow(row))
  {
    hide Tidy;
    PutRowKeepsTidy(idx, it, row);
  }

  lemma PersistKeepsClosed(p: Primitives, idx: Index, o: Output)
    requires Closed(idx) && IsNew(idx, o.base)
    requires forall id :: id in idx.items ==> Before(idx.items[id].Pos(), o.base.Pos())
    ensures Closed(Persist(p, idx, o))
  {
    hide Closed;
    if Accepts(p, idx, o) {
      PutItemKeepsClosed(idx, o.base);
      RowOfGoesWith(o);
      PutRowKeepsClosed(idx.PutItem(o.base), o.base, RowOf(o));
    }
  }

  lemma ItemsStayBefore(p: Primitives, idx: Index, outs: seq<Output>)
    requires outs != [] && Ascending(outs) && ItemsBefore(idx.items, outs)
    ensures ItemsBefore(Persist(p, idx, outs[0]).items, outs[1..]) && Ascending(outs[1..])
  {
  }

  lemma {:induction false} ProcessKeepsClosed(p: Primitives, idx: Index, outs: seq<Output>)
    requires Closed(idx) && Fits(idx, outs) && Ascending(outs) && ItemsBefore(idx.items, outs)
    ensures Closed(Process(p, idx, outs))
    decreases |outs|
  {
    hide Closed, Persist;
    if outs != [] {
      PersistKeepsClosed(p, idx, outs[0]);
      FitsNext(p, idx, outs);
      ItemsStayBefore(p, idx, outs);
      ProcessKeepsClosed(p, Persist(p, idx, outs[0]), outs[1..]);
    }
  }

  /** In the index of a chain every reference points to an earlier item. */
  lemma ChainIsClosed(c: Config, hash: Hash, n: nat)
    requires Trustworthy(c) && Rooted(c, hash, n)
    ensures Closed(Fresh(c, hash, n))
  {
    hide Trustworthy, Rooted, ChainOutputs;
    ChainFits(c, hash, n);
    ChainAscends(c, hash, n);
    ProcessKeepsClosed(c.prims, EMPTY, ChainOutputs(c, hash, n));
  }

  lemma CutKeepsTidy(idx: Index, t: int)
    requires Tidy(idx)
    ensures Tidy(idx.DeleteFromHeight(t))
  {
  }

  /** What points to an earlier place below a height points below that height. */
  lemma CutKeepsReferences(items: map<ItemID, Item>, comments: map<ItemID, CommentRow>, votes: VoteMap, t: int)
    requires ParentsEarlier(items, comments) && TargetsEarlier(items, votes)
    ensures var gone := set id | id in items && items[id].height >= t;
            && ParentsEarlier(items - gone, comments - gone)
            && TargetsEarlier(items - gone, votes - (set k | k in votes && votes[k].height >= t))
  {
  }

  /** A cut never leaves a reference without its item. */
  lemma CutKeepsClosed(idx: Index, t: int)
    requires Closed(idx)
    ensures Closed(idx.DeleteFromHeight(t))
  {
    hide Tidy, ParentsEarlier, TargetsEarlier, KeysOf;
    CutKeepsTidy(idx, t);
    CutKeepsReferences(idx.items, idx.comments, idx.votes, t);
  }

  lemma ShortIsClosed(a: Index, b: Index, lost: set<VoteKey>)
    requires Short(a, b, lost) && Closed(b)
    ensures Closed(a)
  {
  }

  /** The store of the scanner, rewound as often as it may be, has every reference point back. */
  lemma PlainPassIsClosed(c: Config, m: Machine)
    requires Trustworthy(c) && IsPlainPass(c, m)
    ensures Closed(m.index)
  {
    hide Closed, Short, Trustworthy, Rooted, Fresh;
    match m.cursor
    case None =>
      NoBlocks(c, "");
      ChainIsClosed(c, "", 0) by { NothingIsRooted(c); }
    case Some(Cursor(h, hash)) =>
      ChainIsClosed(c, hash, h + 1 - c.start);
      ShortIsClosed(m.index, Fresh(c, hash, h + 1 - c.start), m.lost);
  }

  lemma NothingIsRooted(c: Config)
    ensures Rooted(c, "", 0)
  {
  }

  // ---------- Threads ----------

  /** The item that is not a comment at the end of the parent chain. */
  ghost function RootOf(idx: Index, id: ItemID): (r: ItemID)
    requires Closed(idx) && id in idx.items
    ensures r in idx.items && r !in idx.comments
    decreases idx.items[id].height, idx.items[id].txIndex, idx.items[id].voutIndex
  {
    if id in idx.comments then RootOf(idx, idx.comments[id].parent) else id
  }

  ghost function Roots(idx: Index): set<ItemID> {
    idx.items.Keys - idx.comments.Keys
  }

  lemma {:induction false} RootIsReached(idx: Index, id: ItemID)
    requires Closed(idx) && id in idx.items
    ensures Descends(idx.comments, id, RootOf(idx, id))
    decreases idx.items[id].height, idx.items[id].txIndex, idx.items[id].voutIndex
  {
    if id in idx.comments {
      RootIsReached(idx, idx.comments[id].parent);
      var n: nat :| Reaches(idx.comments, idx.comments[id].parent, RootOf(idx, id), n);
      assert Reaches(idx.comments, id, RootOf(idx, id), n + 1);
    } else {
      assert Reaches(idx.comments, id, id, 0);
    }
  }

  lemma ParentIsStored(idx: Index, id: ItemID)
    requires Closed(idx) && id in idx.comments
    ensures id in idx.items && idx.comments[id].parent in idx.items
  {
  }

  lemma {:induction false} OnlyRootIsReached(idx: Index, id: ItemID, r: ItemID, n: nat)
    requires Closed(idx) && id in idx.items && r !in idx.comments && Reaches(idx.comments, id, r, n)
    ensures r == RootOf(idx, id)
    decreases n
  {
    hide Closed;
    if n > 0 {
      ParentIsStored(idx, id);
      OnlyRootIsReached(idx, idx.comments[id].parent, r, n - 1);
    }
  }

  /** Every comment lies in the thread of exactly one item that is not a comment. */
  lemma OneThreadEach(idx: Index, id: ItemID, r: ItemID)
    requires Closed(idx) && id in idx.comments && r in Roots(idx)
    ensures RootOf(idx, id) in Roots(idx)
    ensures id in Members(idx.comments, r) <==> r == RootOf(idx, id)
  {
    RootIsReached(idx, id);
    if Descends(idx.comments, id, r) {
      var n: nat :| Reaches(idx.comments, id, r, n);
      OnlyRootIsReached(idx, id, r, n);
    }
  }

  ghost function Pick<T>(s: set<T>): (x: T)
    requires s != {}
    ensures x in s
  {
    var x :| x in s; x
  }

  ghost function TotalSize(comments: map<ItemID, CommentRow>, roots: set<ItemID>): nat {
    if roots == {} then 0
    else |Members(comments, Pick(roots))| + TotalSize(comments, roots - {Pick(roots)})
  }

  ghost function Under(idx: Index, roots: set<ItemID>): set<ItemID>
    requires Closed(idx)
  {
    set id | id in idx.comments && RootOf(idx, id) in roots
  }

  lemma MembersAreUnder(idx: Index, r: ItemID)
    requires Closed(idx) && r in Roots(idx)
    ensures Members(idx.comments, r) == Under(idx, {r})
  {
    hide Closed, Members, RootOf;
    forall id
      ensures id in Members(idx.comments, r) <==> id in Under(idx, {r})
    {
      if id in idx.comments {
        OneThreadEach(idx, id, r);
      } else {
        MembersAreComments(idx.comments, r);
      }
    }
  }

  lemma MembersAreComments(comments: map<ItemID, CommentRow>, r: ItemID)
    ensures Members(comments, r) <= comments.Keys
  {
  }

  lemma {:induction false} SizesAddUp(idx: Index, roots: set<ItemID>)
    requires Closed(idx) && roots <= Roots(idx)
    ensures TotalSize(idx.comments, roots) == |Under(idx, roots)|
  {
    hide Closed, Members, RootOf;
    if roots != {} {
      var r := Pick(roots);
      SizesAddUp(idx, roots - {r});
      MembersAreUnder(idx, r);
      assert Under(idx, roots) == Under(idx, {r}) + Under(idx, roots - {r});
    }
  }

  /** The threads of all items that are not comments hold, together, every comment once. */
  lemma ThreadsHoldEveryComment(idx: Index)
    requires Closed(idx)
    ensures TotalSize(idx.comments, Roots(idx)) == |idx.comments|
  {
    SizesAddUp(idx, Roots(idx));
    assert Under(idx, Roots(idx)) == idx.comments.Keys;
  }

  // ---------- Authorship ----------

  /** What a pass adds comes from its outputs. */
  lemma {:induction false} AddedComesFrom(p: Primitives, idx: Index, outs: seq<Output>)
    requires Fits(idx, outs)
    ensures forall id :: id in Process(p, idx, outs).items && id !in idx.items ==>
      exists o :: o in outs && Process(p, idx, outs).items[id] == o.base
    ensures forall id :: id in Process(p, idx, outs).comments && id !in idx.comments ==> id !in idx.items
    decreases |outs|
  {
    hide Persist;
    if outs != [] {
      var o, next := outs[0], Persist(p, idx, outs[0]);
      OneAddedComesFrom(p, idx, o);
      FitsNext(p, idx, outs);
      AddedComesFrom(p, next, outs[1..]);
      ProcessGrows(p, next, outs[1..]);
      assert IsNew(idx, outs[0].base);
    }
  }

  lemma OneAddedComesFrom(p: Primitives, idx: Index, o: Output)
    ensures Persist(p, idx, o).items == idx.items || Persist(p, idx, o).items == idx.items[o.base.id := o.base]
    ensures Persist(p, idx, o).comments.Keys <= idx.comments.Keys + {o.base.id}
  {
  }

  /** Later blocks never change the author of a story that has one. */
  lemma AuthorSurvivesNewBlocks(c: Config, hash: Hash, n: nat, k: nat, story: ItemID, author: XOnlyPubKey)
    requires Trustworthy(c) && Rooted(c, hash, n) && k <= n
    requires var before := Fresh(c, Back(c, hash, k), n - k);
             Replies(before.comments, story) != {} && IsFirstAuthor(before, story, author)
    ensures IsFirstAuthor(Fresh(c, hash, n), story, author)
  {
    hide Fresh, Back, Rooted, IsFirstAuthor, ChainOutputs, Trustworthy;
    var before, recent := Fresh(c, Back(c, hash, k), n - k), ChainOutputs(c, hash, k);
    var after := Fresh(c, hash, n);
    RecentFits(c, hash, n, k);
    ProcessGrows(c.prims, before, recent);
    AddedComesFrom(c.prims, before, recent);
    ItemsOfOlder(c, hash, n, k);
    ChainFits(c, hash, n);
    forall prior, id | prior in before.comments && id in after.comments && id !in before.comments
      ensures Before(after.items[prior].Pos(), after.items[id].Pos())
    {
      var o :| o in recent && after.items[id] == o.base;
    }
    AuthorIsKept(before, after, story, author);
  }

  lemma ItemsOfOlder(c: Config, hash: Hash, n: nat, k: nat)
    requires Trustworthy(c) && Rooted(c, hash, n) && k <= n
    ensures ItemsBefore(Fresh(c, Back(c, hash, k), n - k).items, ChainOutputs(c, hash, k))
  {
    hide Trustworthy, Rooted, Back, ChainOutputs;
    var older, recent := ChainOutputs(c, Back(c, hash, k), n - k), ChainOutputs(c, hash, k);
    RootedBack(c, hash, n, k);
    ChainSplit(c, hash, n, k);
    ChainAscends(c, hash, n);
    ChainFits(c, Back(c, hash, k), n - k);
    AddedComesFrom(c.prims, EMPTY, older);
    AcrossAscends(older, recent);
  }

  lemma AcrossAscends(a: seq<Output>, b: seq<Output>)
    requires Ascending(a + b)
    ensures forall x, y :: x in a && y in b ==> Before(x.base.Pos(), y.base.Pos())
  {
    forall x, y | x in a && y in b
      ensures Before(x.base.Pos(), y.base.Pos())
    {
      var i :| 0 <= i < |a| && a[i] == x;
      var j :| 0 <= j < |b| && b[j] == y;
      assert (a + b)[i] == x && (a + b)[|a| + j] == y;
    }
  }

  /** After a cut the author is the one the shorter chain gives. */
  lemma {:induction false} AuthorAfterCut(c: Config, hash: Hash, n: nat, k: nat, story: ItemID, author: XOnlyPubKey)
    requires Trustworthy(c) && Rooted(c, hash, n) && k <= n
    ensures IsFirstAuthor(Fresh(c, hash, n).DeleteFromHeight(c.start + n - k), story, author)
       <==> IsFirstAuthor(Fresh(c, Back(c, hash, k), n - k), story, author)
  {
    hide Fresh, Back, Rooted, ChainOutputs, Trustworthy, Index.DeleteFromHeight;
    CutIsShorterChain(c, hash, n, k);
  }
}

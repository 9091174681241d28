/** Removing keys from maps. */
module MapFacts {
  lemma InsertThenDrop<K, V>(m: map<K, V>, k: K, v: V, gone: set<K>)
    ensures k !in m ==> m[k := v] - (gone + {k}) == m - gone
    ensures k in gone ==> m[k := v] - gone == m - gone
  {
  }

  lemma DropAbsent<K, V>(m: map<K, V>, k: K, gone: set<K>)
    requires k !in m
    ensures m - (gone + {k}) == m - gone
  {
  }

  lemma DropInTurn<K, V>(m: map<K, V>, a: set<K>, b: set<K>)
    ensures (m - a) - b == m - (a + b) == (m - b) - a
  {
  }
}

/**
 * What a reorg rewind leaves, compared with indexing the shorter chain from scratch
 * (store/memory.go: DeleteFromHeight).
 */
module Cuts {
  import opened MapFacts
  import opened Messages
  import opened Crypto
  import opened IndexState
  import opened Indexing

  /** Everything but the votes. */
  ghost predicate SameCore(a: Index, b: Index) {
    && a.items == b.items
    && a.byOut == b.byOut
    && a.topics == b.topics
    && a.stories == b.stories
    && a.comments == b.comments
  }

  /** `a` is the index `b`, short of exactly the votes under the keys `lost`. */
  ghost predicate Short(a: Index, b: Index, lost: set<VoteKey>) {
    SameCore(a, b) && a.votes == b.votes - lost
  }

  /** Stories and comments have item rows, and the outpoint index is exact. */
  ghost predicate Tidy(idx: Index) {
    && idx.OutpointInverse()
    && idx.stories.Keys <= idx.items.Keys
    && idx.comments.Keys <= idx.items.Keys
  }

  /** `row` is a row that goes with the item `it`. */
  ghost predicate RowGoesWith(row: Row, it: Item) {
    match row
    case TopicOf(t) => t.createdHeight == it.height
    case StoryOf(s) => s.id == it.id
    case CommentOf(c) => c.id == it.id
    case VoteOf(v) => v.height == it.height
    case NoRow => true
  }

  lemma RowOfGoesWith(o: Output)
    ensures RowGoesWith(RowOf(o), o.base)
  {
  }

  /** An item whose id and outpoint are both new. */
  predicate IsNew(idx: Index, it: Item) {
    it.id !in idx.items && it.Key() !in idx.byOut
  }

  lemma PutRowKeepsTidy(idx: Index, it: Item, row: Row)
    requires Tidy(idx) && it.id in idx.items && RowGoesWith(row, it)
    ensures Tidy(idx.PutRow(row))
  {
  }

  lemma PutKeepsTidy(idx: Index, it: Item, row: Row)
    requires Tidy(idx) && IsNew(idx, it) && RowGoesWith(row, it)
    ensures Tidy(idx.PutItem(it)) && Tidy(idx.PutItem(it).PutRow(row))
  {
    PutItemKeepsInverse(idx, it);
    PutRowKeepsTidy(idx.PutItem(it), it, row);
  }

  /** A cut removes a new item at or above it. */
  lemma CutForgetsItem(idx: Index, it: Item, t: int)
    requires Tidy(idx) && IsNew(idx, it) && it.height >= t
    ensures SameCore(idx.PutItem(it).DeleteFromHeight(t), idx.DeleteFromHeight(t))
  {
    var after, gone := idx.PutItem(it), idx.ItemsFrom(t);
    assert after.ItemsFrom(t) == gone + {it.id};
    KeysOfMore(idx.items, it, gone);
    InsertThenDrop(idx.items, it.id, it, gone);
    InsertThenDrop(idx.byOut, it.Key(), it.id, KeysOf(idx.items, gone));
    assert it.id !in idx.stories && it.id !in idx.comments;
    DropAbsent(idx.stories, it.id, gone);
    DropAbsent(idx.comments, it.id, gone);
    assert after.TopicsFrom(t) == idx.TopicsFrom(t);
  }

  lemma KeysOfMore(items: map<ItemID, Item>, it: Item, ids: set<ItemID>)
    requires it.id !in items && ids <= items.Keys
    ensures KeysOf(items[it.id := it], ids + {it.id}) == KeysOf(items, ids) + {it.Key()}
  {
  }

  /** And then the row that goes with it. */
  lemma CutForgetsRow(idx: Index, it: Item, row: Row, t: int)
    requires it.id in idx.items && idx.items[it.id].height >= t && it.height >= t
    requires RowGoesWith(row, it)
    ensures SameCore(idx.PutRow(row).DeleteFromHeight(t), idx.DeleteFromHeight(t))
  {
    var after, gone := idx.PutRow(row), idx.ItemsFrom(t);
    assert it.id in gone && after.items == idx.items && after.ItemsFrom(t) == gone;
    match row
    case TopicOf(r) =>
      if r.topic !in idx.topics {
        assert after.TopicsFrom(t) == idx.TopicsFrom(t) + {r.topic};
        InsertThenDrop(idx.topics, r.topic, r, idx.TopicsFrom(t));
      }
    case StoryOf(r) => InsertThenDrop(idx.stories, r.id, r, gone);
    case CommentOf(r) => InsertThenDrop(idx.comments, r.id, r, gone);
    case VoteOf(_) =>
    case NoRow =>
  }

  lemma CutForgets(p: Primitives, idx: Index, o: Output, t: int)
    requires Tidy(idx) && IsNew(idx, o.base) && o.base.height >= t
    ensures SameCore(Persist(p, idx, o).DeleteFromHeight(t), idx.DeleteFromHeight(t))
    ensures Tidy(Persist(p, idx, o))
  {
    if Accepts(p, idx, o) {
      RowOfGoesWith(o);
      PutKeepsTidy(idx, o.base, RowOf(o));
      CutForgetsItem(idx, o.base, t);
      CutForgetsRow(idx.PutItem(o.base), o.base, RowOf(o), t);
    }
  }

  // ---------- Lists of outputs that fit an index ----------

  /** Ids and outpoints are new to the index and pairwise distinct. */
  ghost predicate Fits(idx: Index, outs: seq<Output>) {
    && (forall i :: 0 <= i < |outs| ==> IsNew(idx, outs[i].base))
    && (forall i, j :: 0 <= i < j < |outs| ==>
          outs[i].base.id != outs[j].base.id && outs[i].base.Key() != outs[j].base.Key())
  }

  lemma FitsNext(p: Primitives, idx: Index, outs: seq<Output>)
    requires outs != [] && Fits(idx, outs)
    ensures Fits(Persist(p, idx, outs[0]), outs[1..])
  {
  }

  /** The keys under which votes are accepted while `outs` is processed. */
  function VotesCast(p: Primitives, idx: Index, outs: seq<Output>): set<VoteKey>
    decreases |outs|
  {
    if outs == [] then {}
    else VoteCast(p, idx, outs[0]) + VotesCast(p, Persist(p, idx, outs[0]), outs[1..])
  }

  ghost predicate AllFrom(outs: seq<Output>, t: int) {
    forall o :: o in outs ==> o.base.height >= t
  }

  ghost predicate AllBelow(outs: seq<Output>, t: int) {
    forall o :: o in outs ==> o.base.height < t
  }

  lemma {:induction false} CutForgetsSuffix(p: Primitives, idx: Index, outs: seq<Output>, t: int)
    requires Tidy(idx) && Fits(idx, outs) && AllFrom(outs, t)
    ensures SameCore(Process(p, idx, outs).DeleteFromHeight(t), idx.DeleteFromHeight(t))
    ensures Tidy(Process(p, idx, outs))
    decreases |outs|
  {
    if outs != [] {
      CutForgets(p, idx, outs[0], t);
      FitsNext(p, idx, outs);
      CutForgetsSuffix(p, Persist(p, idx, outs[0]), outs[1..], t);
    }
  }

  /** A vote above the cut supersedes one below it, and both are then gone. */
  lemma PutVoteAboveCut(votes: VoteMap, v: VoteRow, t: int)
    requires v.height >= t
    ensures var after := PutVote(votes, v);
            v.Key() in after && after[v.Key()].height >= t && after - {v.Key()} == votes - {v.Key()}
  {
  }

  /** The key under which `o` casts a vote that is accepted. */
  function VoteCast(p: Primitives, idx: Index, o: Output): set<VoteKey> {
    if o.msg.Vote? && Accepts(p, idx, o) then {VoteRecord(o).Key()} else {}
  }

  lemma VotesAfter(p: Primitives, idx: Index, o: Output)
    ensures Persist(p, idx, o).votes ==
      if o.msg.Vote? && Accepts(p, idx, o) then PutVote(idx.votes, VoteRecord(o)) else idx.votes
  {
    if Accepts(p, idx, o) {
      assert idx.PutItem(o.base).votes == idx.votes;
      assert RowOf(o).VoteOf? <==> o.msg.Vote?;
    }
  }

  lemma VotesOfOne(p: Primitives, idx: Index, o: Output, t: int)
    requires o.base.height >= t
    ensures var cast, after := VoteCast(p, idx, o), Persist(p, idx, o).votes;
            && after - cast == idx.votes - cast
            && forall k :: k in cast ==> k in after && after[k].height >= t
  {
    VotesAfter(p, idx, o);
    if o.msg.Vote? && Accepts(p, idx, o) {
      PutVoteAboveCut(idx.votes, VoteRecord(o), t);
    }
  }

  /** Votes change only under the keys cast, and what is kept under those lies above the cut. */
  lemma {:induction false} VotesOfSuffix(p: Primitives, idx: Index, outs: seq<Output>, t: int)
    requires AllFrom(outs, t)
    ensures var cast, after := VotesCast(p, idx, outs), Process(p, idx, outs).votes;
            && after - cast == idx.votes - cast
            && forall k :: k in cast ==> k in after && after[k].height >= t
    decreases |outs|
  {
    if outs != [] {
      var next := Persist(p, idx, outs[0]);
      VotesOfOne(p, idx, outs[0], t);
      VotesOfSuffix(p, next, outs[1..], t);
      ChangesAddUp(
        idx.votes, next.votes, Process(p, idx, outs).votes,
        VoteCast(p, idx, outs[0]), VotesCast(p, next, outs[1..]), t);
    }
  }

  lemma ChangesAddUp(a: VoteMap, b: VoteMap, c: VoteMap, first: set<VoteKey>, rest: set<VoteKey>, t: int)
    requires b - first == a - first && c - rest == b - rest
    requires forall k :: k in first ==> k in b && b[k].height >= t
    requires forall k :: k in rest ==> k in c && c[k].height >= t
    ensures c - (first + rest) == a - (first + rest)
    ensures forall k :: k in first + rest ==> k in c && c[k].height >= t
  {
    DropInTurn(c, first, rest);
    DropInTurn(b, first, rest);
    forall k | k in first && k !in rest
      ensures k in c && c[k] == b[k]
    {
      assert k in b - rest && (b - rest)[k] == (c - rest)[k];
    }
  }

  /** Every row lies below `t`. */
  ghost predicate RowsBelow(idx: Index, t: int) {
    idx.ItemsFrom(t) == {} && idx.TopicsFrom(t) == {} && idx.VotesFrom(t) == {}
  }

  lemma CutOfBelow(idx: Index, t: int)
    requires RowsBelow(idx, t)
    ensures idx.DeleteFromHeight(t) == idx
  {
  }

  lemma CutIsBelow(idx: Index, t: int)
    ensures RowsBelow(idx.DeleteFromHeight(t), t)
  {
  }

  lemma PutItemStaysBelow(idx: Index, it: Item, t: int)
    requires RowsBelow(idx, t) && it.height < t
    ensures RowsBelow(idx.PutItem(it), t)
  {
  }

  lemma PutRowStaysBelow(idx: Index, it: Item, row: Row, t: int)
    requires RowsBelow(idx, t) && it.height < t && RowGoesWith(row, it)
    ensures RowsBelow(idx.PutRow(row), t)
  {
  }

  /** Indexing outputs below a height leaves only rows below it. */
  lemma {:induction false} RowsStayBelow(p: Primitives, idx: Index, outs: seq<Output>, t: int)
    requires RowsBelow(idx, t) && AllBelow(outs, t)
    ensures RowsBelow(Process(p, idx, outs), t)
    decreases |outs|
  {
    if outs != [] {
      RowOfGoesWith(outs[0]);
      PutItemStaysBelow(idx, outs[0].base, t);
      PutRowStaysBelow(idx.PutItem(outs[0].base), outs[0].base, RowOf(outs[0]), t);
      RowsStayBelow(p, Persist(p, idx, outs[0]), outs[1..], t);
    }
  }

  /**
   * Cutting the index of a chain at a height gives the index of its part below: exactly for
   * items, outpoints, topics, stories and comments. Of the votes it keeps exactly those whose
   * target and author did not vote again at or above the cut.
   */
  lemma {:induction false} CutIsShorterIndex(p: Primitives, below: seq<Output>, above: seq<Output>, t: int)
    requires AllBelow(below, t) && AllFrom(above, t)
    requires Tidy(Process(p, EMPTY, below)) && Fits(Process(p, EMPTY, below), above)
    ensures var whole, shorter := Process(p, EMPTY, below + above), Process(p, EMPTY, below);
            && VotesCast(p, shorter, above) == whole.VotesFrom(t)
            && Short(whole.DeleteFromHeight(t), shorter, VotesCast(p, shorter, above))
  {
    var shorter := Process(p, EMPTY, below);
    var whole := Process(p, shorter, above);
    ProcessAppend(p, EMPTY, below, above);
    RowsStayBelow(p, EMPTY, below, t);
    CutOfBelow(shorter, t);
    CutForgetsSuffix(p, shorter, above, t);
    VotesOfSuffix(p, shorter, above, t);
    VotesLeftByCut(shorter, whole, VotesCast(p, shorter, above), t);
  }

  lemma VotesLeftByCut(shorter: Index, whole: Index, cast: set<VoteKey>, t: int)
    requires shorter.VotesFrom(t) == {} && whole.votes - cast == shorter.votes - cast
    requires forall k :: k in cast ==> k in whole.votes && whole.votes[k].height >= t
    ensures whole.VotesFrom(t) == cast && whole.votes - whole.VotesFrom(t) == shorter.votes - cast
  {
    forall k | k in whole.votes && k !in cast
      ensures k !in whole.VotesFrom(t)
    {
      assert k in whole.votes - cast && (whole.votes - cast)[k] == (shorter.votes - cast)[k];
      assert k !in shorter.VotesFrom(t);
    }
  }

  // ---------- Missing votes through cuts and new blocks ----------

  /** A cut of an index that is short of some votes adds the votes it deletes itself to those missing. */
  lemma CutOfShort(a: Index, b: Index, shorter: Index, lost: set<VoteKey>, t: int)
    requires Short(a, b, lost) && Short(b.DeleteFromHeight(t), shorter, b.VotesFrom(t))
    ensures Short(a.DeleteFromHeight(t), shorter, lost + a.VotesFrom(t))
  {
    assert a.ItemsFrom(t) == b.ItemsFrom(t) && a.TopicsFrom(t) == b.TopicsFrom(t);
    assert a.VotesFrom(t) == b.VotesFrom(t) - lost;
    DropInTurn(b.votes, lost, a.VotesFrom(t));
    DropInTurn(b.votes, b.VotesFrom(t), lost);
    assert lost + a.VotesFrom(t) == b.VotesFrom(t) + lost;
    DropInTurn(shorter.votes, b.VotesFrom(t), lost);
  }

  /** Each output comes before the ones behind it. */
  ghost predicate Ascending(outs: seq<Output>) {
    forall i, j :: 0 <= i < j < |outs| ==> Before(outs[i].base.Pos(), outs[j].base.Pos())
  }

  /** Every vote kept comes before every output. */
  ghost predicate VotesBefore(votes: VoteMap, outs: seq<Output>) {
    forall k, o :: k in votes && o in outs ==> Before(votes[k].Pos(), o.base.Pos())
  }

  /** Indexing later blocks brings back exactly the votes that are cast again. */
  lemma {:induction false} ProcessKeepsShort(
      p: Primitives, a: Index, b: Index, outs: seq<Output>, lost: set<VoteKey>)
    requires Short(a, b, lost) && Ascending(outs) && VotesBefore(b.votes, outs)
    ensures Short(Process(p, a, outs), Process(p, b, outs), lost - VotesCast(p, b, outs))
    decreases |outs|
  {
    if outs != [] {
      var cast, next := VoteCast(p, b, outs[0]), Persist(p, b, outs[0]);
      PersistKeepsShort(p, a, b, outs[0], lost);
      VotesStayBefore(p, b, outs);
      ProcessKeepsShort(p, Persist(p, a, outs[0]), next, outs[1..], lost - cast);
      assert lost - cast - VotesCast(p, next, outs[1..]) == lost - (cast + VotesCast(p, next, outs[1..]));
    } else {
      assert lost - {} == lost;
    }
  }

  lemma PersistKeepsShort(p: Primitives, a: Index, b: Index, o: Output, lost: set<VoteKey>)
    requires Short(a, b, lost) && forall k :: k in b.votes ==> Before(b.votes[k].Pos(), o.base.Pos())
    ensures Short(Persist(p, a, o), Persist(p, b, o), lost - VoteCast(p, b, o))
  {
    PersistKeepsSameCore(p, a, b, o);
    VotesAfter(p, a, o);
    VotesAfter(p, b, o);
    if o.msg.Vote? && Accepts(p, b, o) {
      PutVoteOfShort(a.votes, b.votes, VoteRecord(o), lost);
    } else {
      assert lost - {} == lost;
    }
  }

  lemma PersistKeepsSameCore(p: Primitives, a: Index, b: Index, o: Output)
    requires SameCore(a, b)
    ensures SameCore(Persist(p, a, o), Persist(p, b, o))
  {
    hide RowOf, Signed;
    assert SameCore(a.PutItem(o.base), b.PutItem(o.base));
    PutRowKeepsSameCore(a.PutItem(o.base), b.PutItem(o.base), RowOf(o));
  }

  lemma PutRowKeepsSameCore(a: Index, b: Index, row: Row)
    requires SameCore(a, b)
    ensures SameCore(a.PutRow(row), b.PutRow(row))
  {
  }

  lemma PutVoteOfShort(a: VoteMap, b: VoteMap, v: VoteRow, lost: set<VoteKey>)
    requires a == b - lost && forall k :: k in b ==> LaterThan(v, b[k])
    ensures PutVote(a, v) == PutVote(b, v) - (lost - {v.Key()})
  {
  }

  /** The keys missing after some were cast again are those that have no vote. */
  lemma StillMissing(a: Index, b: Index, lost: set<VoteKey>, cast: set<VoteKey>)
    requires Short(a, b, lost - cast)
    ensures Short(a, b, lost - a.votes.Keys)
  {
  }

  /** The votes after one output are those before it and possibly its own. */
  lemma VotesAfterOne(p: Primitives, idx: Index, o: Output)
    ensures forall k :: k in Persist(p, idx, o).votes ==>
      || (k in idx.votes && Persist(p, idx, o).votes[k] == idx.votes[k])
      || Persist(p, idx, o).votes[k].Pos() == o.base.Pos()
  {
    VotesAfter(p, idx, o);
  }

  lemma VotesStayBefore(p: Primitives, idx: Index, outs: seq<Output>)
    requires outs != [] && Ascending(outs) && VotesBefore(idx.votes, outs)
    ensures VotesBefore(Persist(p, idx, outs[0]).votes, outs[1..]) && Ascending(outs[1..])
  {
    VotesAfterOne(p, idx, outs[0]);
    forall x | x in outs[1..]
      ensures x in outs && Before(outs[0].base.Pos(), x.base.Pos())
    {
      var i :| 0 <= i < |outs[1..]| && outs[1..][i] == x;
      assert x == outs[i + 1];
    }
  }

  /** Votes left by a pass come before anything behind the pass. */
  lemma {:induction false} VotesBeforeLater(p: Primitives, idx: Index, outs: seq<Output>, later: seq<Output>)
    requires Ascending(outs + later) && VotesBefore(idx.votes, outs + later)
    ensures VotesBefore(Process(p, idx, outs).votes, later)
    decreases |outs|
  {
    if outs != [] {
      VotesStayBefore(p, idx, outs + later);
      assert (outs + later)[1..] == outs[1..] + later;
      VotesBeforeLater(p, Persist(p, idx, outs[0]), outs[1..], later);
    }
  }
}

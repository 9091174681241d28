/** The in-memory store (store/memory.go). Every map is walked in an arbitrary order. */
module Store {
  import opened Wrappers
  import opened Bytes
  import opened Messages
  import opened OutpointKey
  import opened IndexState
  import opened Sorting
  import opened Queries
  import opened Runs

  class MemoryStore {
    var items: map<ItemID, Item>
    var byOut: map<string, ItemID>
    var topics: map<Topic, TopicRow>
    var stories: map<ItemID, StoryRow>
    var comments: map<ItemID, CommentRow>
    var votes: VoteMap
    var cursor: Option<Cursor>

    ghost function Contents(): Index
      reads this
    {
      Index(items, byOut, topics, stories, comments, votes)
    }

    /** Rows are filed under their own ids and keys. */
    ghost predicate Valid()
      reads this
    {
      && (forall id :: id in items ==> items[id].id == id)
      && (forall id :: id in comments ==> comments[id].id == id)
      && (forall k :: k in votes ==> votes[k].Key() == k)
    }

    constructor ()
      ensures Valid() && Contents() == EMPTY && cursor == None
    {
      items, byOut, topics, stories, comments, votes, cursor := map[], map[], map[], map[], map[], map[], None;
    }

    // ---------- Writes ----------

    method SaveCursor(height: int, hash: string)
      modifies this`cursor
      ensures cursor == Some(Cursor(height, hash)) && (old(Valid()) ==> Valid())
    {
      cursor := Some(Cursor(height, hash));
    }

    method DeleteFromHeight(height: int)
      requires Valid()
      modifies this
      ensures Valid() && cursor == old(cursor)
      ensures Contents() == old(Contents()).DeleteFromHeight(height)
    {
      ghost var before := Contents();
      DeleteItems(height);
      DeleteVotes(height);
      DeleteTopics(height);
      assert Contents() == before.DeleteFromHeight(height);
    }

    method DeleteItems(height: int)
      requires Valid()
      modifies this`items, this`byOut, this`stories, this`comments
      ensures Valid()
      ensures var gone := old(Contents()).ItemsFrom(height);
              && items == old(items) - gone && stories == old(stories) - gone && comments == old(comments) - gone
              && byOut == old(byOut) - KeysOf(old(items), gone)
    {
      hide KeysOf;
      ghost var before := Contents();
      ghost var gone: set<ItemID> := {};
      var left := items.Keys;
      NothingGone(before);
      while left != {}
        invariant Valid() && left <= before.items.Keys
        invariant gone == before.ItemsFrom(height) - left
        invariant items == before.items - gone && stories == before.stories - gone && comments == before.comments - gone
        invariant byOut == before.byOut - KeysOf(before.items, gone)
      {
        var id :| id in left;
        left := left - {id};
        var it := items[id];
        if it.height >= height {
          var key := MakeOutKey(it.txid, it.vout);
          items := items - {id};
          byOut := byOut - {key};
          stories := stories - {id};
          comments := comments - {id};
          OneMoreGone(before, gone, id);
          gone := gone + {id};
        }
      }
      assert gone == before.ItemsFrom(height);
    }

    lemma NothingGone(idx: Index)
      ensures KeysOf(idx.items, {}) == {}
    {
    }

    lemma OneMoreGone(idx: Index, gone: set<ItemID>, id: ItemID)
      requires id in idx.items
      ensures idx.items - (gone + {id}) == (idx.items - gone) - {id}
      ensures idx.stories - (gone + {id}) == (idx.stories - gone) - {id}
      ensures idx.comments - (gone + {id}) == (idx.comments - gone) - {id}
      ensures idx.byOut - KeysOf(idx.items, gone + {id})
           == (idx.byOut - KeysOf(idx.items, gone)) - {idx.items[id].Key()}
    {
    }

    method DeleteVotes(height: int)
      requires Valid()
      modifies this`votes
      ensures Valid() && votes == old(votes) - old(Contents()).VotesFrom(height)
    {
      ghost var before := Contents();
      ghost var gone: set<VoteKey> := {};
      var left := votes.Keys;
      while left != {}
        invariant Valid() && left <= before.votes.Keys
        invariant gone == before.VotesFrom(height) - left && votes == before.votes - gone
      {
        var k :| k in left;
        left := left - {k};
        if votes[k].height >= height {
          votes := votes - {k};
          gone := gone + {k};
        }
      }
    }

    method DeleteTopics(height: int)
      modifies this`topics
      ensures topics == old(topics) - old(Contents()).TopicsFrom(height)
    {
      ghost var before := Contents();
      ghost var gone: set<Topic> := {};
      var left := topics.Keys;
      while left != {}
        invariant left <= before.topics.Keys
        invariant gone == before.TopicsFrom(height) - left && topics == before.topics - gone
      {
        var t :| t in left;
        left := left - {t};
        if topics[t].createdHeight >= height {
          topics := topics - {t};
          gone := gone + {t};
        }
      }
    }

    method PutItem(it: Item)
      requires Valid()
      modifies this`items, this`byOut
      ensures Valid() && Contents() == old(Contents()).PutItem(it)
    {
      if it.id in items {
        return;
      }
      var key := MakeOutKey(it.txid, it.vout);
      items := items[it.id := it];
      byOut := byOut[key := it.id];
    }

    method InsertTopicIfAbsent(t: TopicRow) returns (inserted: bool)
      modifies this`topics
      ensures Contents() == old(Contents()).PutRow(TopicOf(t)) && inserted == (t.topic !in old(topics))
    {
      if t.topic in topics {
        return false;
      }
      topics := topics[t.topic := t];
      inserted := true;
    }

    method PutStory(s: StoryRow)
      modifies this`stories
      ensures Contents() == old(Contents()).PutRow(StoryOf(s))
    {
      if s.id !in stories {
        stories := stories[s.id := s];
      }
    }

    method PutComment(c: CommentRow)
      requires Valid()
      modifies this`comments
      ensures Valid() && Contents() == old(Contents()).PutRow(CommentOf(c))
    {
      if c.id !in comments {
        comments := comments[c.id := c];
      }
    }

    method PutVote(v: VoteRow)
      requires Valid()
      modifies this`votes
      ensures Valid() && Contents() == old(Contents()).PutRow(VoteOf(v))
    {
      var k := VoteKey(v.target, v.author);
      if k in votes && !LaterThan(v, votes[k]) {
        return;
      }
      votes := votes[k := v];
    }

    // ---------- Reads ----------

    /** With the outpoint index exact, this finds the one item of an outpoint or reports there is none. */
    method ItemByOutpoint(txid: string, vout: Uint32) returns (it: Item, ok: bool)
      ensures ok <==> OutKey(txid, vout) in byOut
      ensures Contents().OutpointInverse() ==>
        (ok <==> exists id :: id in items && items[id].txid == txid && items[id].vout == vout)
      ensures Contents().OutpointInverse() && ok ==>
        it.id in items && items[it.id] == it && it.txid == txid && it.vout == vout
    {
      var key := MakeOutKey(txid, vout);
      ghost var exact := Contents().OutpointInverse();
      if key !in byOut {
        return ZERO_ITEM, false;
      }
      var id := byOut[key];
      it := ItemAt(items, id);
      ok := true;
      if exact {
        OutKeyIsInjective(it.txid, it.vout, txid, vout);
      }
    }

    method ItemByID(id: ItemID) returns (it: Item, ok: bool)
      ensures ok == (id in items) && it == ItemAt(items, id)
    {
      ok := id in items;
      it := ItemAt(items, id);
    }

    method Tally(target: ItemID) returns (pts: int)
      ensures pts == TallyOf(votes, target)
      ensures pts == |set k | k in votes && k.target == target && votes[k].kind == 4|
                     - |set k | k in votes && k.target == target && votes[k].kind == 5|
    {
      TallyExactly(votes, target);
      pts := 0;
      var left := votes.Keys;
      ghost var up, down := Cast(votes, target, TYPE_UPVOTE), Cast(votes, target, TYPE_DOWNVOTE);
      while left != {}
        invariant left <= votes.Keys
        invariant pts == |up - left| - |down - left|
      {
        var k :| k in left;
        CountOneMore(up, left, k);
        CountOneMore(down, left, k);
        left := left - {k};
        if k.target == target {
          if votes[k].kind == TYPE_UPVOTE {
            pts := pts + 1;
          } else if votes[k].kind == TYPE_DOWNVOTE {
            pts := pts - 1;
          }
        }
      }
    }

    method CommentCount(parent: ItemID) returns (n: nat)
      ensures n == |Replies(comments, parent)| == |set id | id in comments && comments[id].parent == parent|
    {
      RepliesExactly(comments, parent);
      n := 0;
      var left := comments.Keys;
      ghost var replies := Replies(comments, parent);
      while left != {}
        invariant left <= comments.Keys && n == |replies - left|
      {
        var id :| id in left;
        CountOneMore(replies, left, id);
        left := left - {id};
        if comments[id].parent == parent {
          n := n + 1;
        }
      }
    }

    method FirstCommentAuthor(parent: ItemID) returns (author: XOnlyPubKey)
      ensures IsFirstAuthor(Contents(), parent, author)
    {
      author := ZERO_KEY;
      var best := ZERO_ITEM;
      var found := false;
      ghost var first: ItemID := ZERO_ID;
      var left := comments.Keys;
      while left != {}
        invariant left <= comments.Keys
        invariant !found ==> Replies(comments, parent) <= left && author == ZERO_KEY
        invariant found ==>
          first in Replies(comments, parent) && best == ItemAt(items, first) && author == comments[first].author
        invariant found ==> forall id :: id in Replies(comments, parent) - left ==>
          !Before(ItemAt(items, id).Pos(), best.Pos())
      {
        var id :| id in left;
        left := left - {id};
        if comments[id].parent == parent {
          var it := ItemAt(items, id);
          if !found || Before(it.Pos(), best.Pos()) {
            best := it;
            author := comments[id].author;
            found := true;
            first := id;
          }
        }
      }
    }

    method Thread(root: ItemID, rank: Ranking) returns (out: seq<ThreadComment>)
      requires Valid()
      ensures IsThread(Contents(), rank, root, out)
      ensures InThreadOrder(out) && forall v :: v in out ==> IsThreadRow(Contents(), rank, v)
    {
      var want := {root};
      var changed := true;
      assert Reaches(comments, root, root, 0);
      while changed
        invariant root in want && want <= {root} + comments.Keys
        invariant forall id :: id in want ==> Descends(comments, id, root)
        invariant !changed ==> forall c :: c in comments && comments[c].parent in want ==> c in want
        decreases comments.Keys - want, changed
      {
        changed := false;
        ghost var before := want;
        var left := comments.Keys;
        while left != {}
          invariant left <= comments.Keys && root in want && before <= want <= {root} + comments.Keys
          invariant forall id :: id in want ==> Descends(comments, id, root)
          invariant !changed ==> want == before
          invariant changed ==> exists c :: c in want && c !in before && c in comments
          invariant !changed ==> forall c :: c in comments.Keys - left && comments[c].parent in want ==> c in want
        {
          var c :| c in left;
          left := left - {c};
          if c !in want && comments[c].parent in want {
            var n: nat :| Reaches(comments, comments[c].parent, root, n);
            assert Reaches(comments, c, root, n + 1);
            want := want + {c};
            changed := true;
          }
        }
      }
      forall id | id in Members(comments, root)
        ensures id in want
      {
        var n: nat :| Reaches(comments, id, root, n);
        ClosedHoldsDescendants(comments, want, id, root, n);
      }
      assert Members(comments, root) == (want * comments.Keys) - {root};
      var shown := ShowAll(root, want, rank);
      SortedIsThread(Contents(), rank, root, shown[..]);
      assert shown[..shown.Length] == shown[..];
      SortInPlace(EarlierInThread, shown, shown.Length);
      out := shown[..shown.Length];
      ThreadHolds(Contents(), rank, root, out);
    }

    /** The rows of the marked comments, in some order. */
    method ShowAll(root: ItemID, want: set<ItemID>, rank: Ranking) returns (all: array<ThreadComment>)
      requires Valid()
      ensures fresh(all) && Shows(Contents(), rank, (want * comments.Keys) - {root}, all[..])
    {
      hide Shows, CommentView;
      var out: seq<ThreadComment> := [];
      NothingShown(Contents(), rank);
      var left := comments.Keys;
      ghost var shown: set<ItemID> := {};
      while left != {}
        invariant left <= comments.Keys && Shows(Contents(), rank, shown, out)
        invariant shown == (want * comments.Keys) - {root} - left
      {
        var id :| id in left;
        left := left - {id};
        var c := comments[id];
        if c.id != root && c.id in want {
          var view := ThreadCommentOf(c, rank);
          ShowsOneMore(Contents(), rank, shown, out, view);
          out := out + [view];
          shown := shown + {id};
        }
      }
      assert shown == (want * comments.Keys) - {root};
      all := ToArray(out);
    }

    method ThreadCommentOf(c: CommentRow, rank: Ranking) returns (view: ThreadComment)
      ensures view == CommentView(Contents(), rank, c) && view.id == c.id
    {
      var it := ItemAt(items, c.id);
      var pts := Tally(c.id);
      view := ThreadComment(
        c.id, c.parent, c.author, c.body, c.url, c.lang, c.replyQuote, it.height, it.blockTime, pts,
        rank(pts, it.blockTime));
    }

    method EntryFor(id: ItemID, rank: Ranking) returns (f: FeedItem)
      requires Valid() && id in stories && id in items
      ensures IsEntry(Contents(), rank, id, f) && f.item.id == id
    {
      var s := stories[id];
      var pts := Tally(id);
      var author := FirstCommentAuthor(id);
      var count := CommentCount(id);
      f := FeedItem(items[id], s.topic, s.headline, s.url, s.body, s.lang, s.subtype, s.nsfw, author, pts, count,
                    rank(pts, items[id].blockTime));
    }

    method BuildFeed(rank: Ranking) returns (all: array<FeedItem>)
      requires Valid()
      ensures fresh(all) && IsFullFeed(Contents(), rank, all[..])
    {
      hide IsEntry;
      var out: seq<FeedItem> := [];
      var left := stories.Keys;
      while left != {}
        invariant left <= stories.Keys && IsFeedSoFar(Contents(), rank, left, out)
      {
        var id :| id in left;
        if id in items {
          var f := EntryFor(id, rank);
          FeedGrows(Contents(), rank, left, out, id, f);
          out := out + [f];
        }
        left := left - {id};
      }
      all := ToArray(out);
    }

    /** The kept entries are moved to the front of the same array while it is being read. */
    method FilterInPlace(q: FeedQuery, all: array<FeedItem>) returns (n: nat)
      modifies all
      ensures n <= all.Length && all[..n] == Selected(q, old(all[..]))
    {
      n := 0;
      ghost var was := all[..];
      for i := 0 to all.Length
        invariant n <= i
        invariant all[i..] == was[i..]
        invariant all[..n] == Selected(q, was[..i])
      {
        var f := all[i];
        assert f == was[i] by {
          assert all[i..][0] == was[i..][0];
        }
        SelectedNext(q, was, i);
        ghost var front, behind := all[..n], all[i + 1..];
        assert behind == was[i + 1..] by {
          assert behind == all[i..][1..] && was[i + 1..] == was[i..][1..];
        }
        if q.topic.Some? && f.topic != q.topic.value {
          continue;
        }
        if q.subtype.Some? && f.subtype != q.subtype.value {
          continue;
        }
        if !q.includeNSFW && f.nsfw {
          continue;
        }
        all[n] := f;
        n := n + 1;
        assert all[..n] == front + [f];
        assert all[i + 1..] == behind;
      }
      assert was[..all.Length] == was;
    }

    /** What the filter does with one more entry. */
    lemma SelectedNext(q: FeedQuery, was: seq<FeedItem>, i: nat)
      requires i < |was|
      ensures Selected(q, was[..i + 1]) == Selected(q, was[..i]) + (if Wanted(q, was[i]) then [was[i]] else [])
    {
      assert was[..i + 1][..i] == was[..i];
    }

    method FilteredFeed(q: FeedQuery, rank: Ranking, ghost less: (FeedItem, FeedItem) -> bool)
        returns (all: array<FeedItem>, n: nat)
      requires Valid() && IsOrder(less)
      ensures fresh(all) && n <= all.Length && IsAnswer(Contents(), rank, q, less, Sort(less, all[..n]))
    {
      all := BuildFeed(rank);
      SortedSelectionIsAnswer(Contents(), rank, q, less, all[..]);
      n := FilterInPlace(q, all);
    }

    /** Newest first: a page of the whole answer. */
    method NewFeed(q: FeedQuery, rank: Ranking) returns (r: seq<FeedItem>)
      requires Valid()
      ensures exists feed :: IsAnswer(Contents(), rank, q, Newer, feed) && r == Page(feed, q.limit, q.offset)
      ensures NewestFirst(r)
      ensures forall f :: f in r ==> IsFeedRow(Contents(), rank, f) && Passes(q, stories[f.item.id])
    {
      hide IsFeedRow, Passes, NewestFirst, IsAnswer, Page, Newer;
      FeedOrders();
      var all, n := FilteredFeed(q, rank, Newer);
      SortInPlace(Newer, all, n);
      r := Page(all[..n], q.limit, q.offset);
      PageOfAnswer(Contents(), rank, q, Newer, all[..n]);
      FeedOrdersExactly(r);
    }

    /** Highest score first. */
    method FrontPage(q: FeedQuery, rank: Ranking) returns (r: seq<FeedItem>)
      requires Valid()
      ensures exists feed :: IsAnswer(Contents(), rank, q, RanksHigher, feed) && r == Page(feed, q.limit, q.offset)
      ensures HighestFirst(r)
      ensures forall f :: f in r ==> IsFeedRow(Contents(), rank, f) && Passes(q, stories[f.item.id])
    {
      hide IsFeedRow, Passes, HighestFirst, IsAnswer, Page, RanksHigher;
      FeedOrders();
      var all, n := FilteredFeed(q, rank, RanksHigher);
      SortInPlace(RanksHigher, all, n);
      r := Page(all[..n], q.limit, q.offset);
      PageOfAnswer(Contents(), rank, q, RanksHigher, all[..n]);
      FeedOrdersExactly(r);
    }
  }
}

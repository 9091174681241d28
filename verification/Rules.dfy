/**
 * The index of a list of outputs, said without running it: which messages are kept, which topic
 * row and which vote stands, as the protocol states its rules (scanner/scanner.go: persist).
 */
module Rules {
  import opened Bytes
  import opened Messages
  import opened Crypto
  import opened IndexState
  import opened Indexing
  import opened Cuts
  import opened Retry
  import opened Threads

  /** Message `i` has an item row in the end. */
  predicate Stored(p: Primitives, outs: seq<Output>, i: nat)
    requires i < |outs|
  {
    outs[i].base.id in Process(p, EMPTY, outs).items
  }

  lemma StoredIsAccepted(p: Primitives, outs: seq<Output>, i: nat)
    requires Fits(EMPTY, outs) && i < |outs|
    ensures Stored(p, outs, i) <==> Accepts(p, After(p, EMPTY, outs, i), outs[i])
  {
    hide Accepts, Process;
    if Accepts(p, After(p, EMPTY, outs, i), outs[i]) {
      AfterNext(p, EMPTY, outs, i);
      AfterGrows(p, EMPTY, outs, i + 1, |outs|);
      assert outs[..|outs|] == outs;
    } else {
      RefusedStaysOut(p, EMPTY, outs, i);
    }
  }

  /** The items present before message `i` are those of the kept messages in front of it. */
  lemma PresentBefore(p: Primitives, outs: seq<Output>, i: nat, id: ItemID)
    requires Fits(EMPTY, outs) && i <= |outs|
    ensures id in After(p, EMPTY, outs, i).items <==>
      exists j :: 0 <= j < i && outs[j].base.id == id && Stored(p, outs, j)
  {
    hide After, Stored, Fits;
    if id in After(p, EMPTY, outs, i).items {
      var j := KeeperOf(p, outs, i, id);
    }
    if j :| 0 <= j < i && outs[j].base.id == id && Stored(p, outs, j) {
      KeptIsPresent(p, outs, i, j);
    }
  }

  lemma KeeperOf(p: Primitives, outs: seq<Output>, i: nat, id: ItemID) returns (j: nat)
    requires Fits(EMPTY, outs) && i <= |outs| && id in After(p, EMPTY, outs, i).items
    ensures j < i && outs[j].base.id == id && Stored(p, outs, j)
  {
    FrontFits(outs, i);
    hide Process, Persist, Accepts, Fits;
    AfterGrows(p, EMPTY, outs, i, |outs|);
    assert outs[..|outs|] == outs;
    AddedComesFrom(p, EMPTY, outs[..i]);
    PutIdsMatch(p, outs[..i]);
    var o :| o in outs[..i] && After(p, EMPTY, outs, i).items[id] == o.base;
    j :| 0 <= j < i && outs[..i][j] == o;
  }

  lemma KeptIsPresent(p: Primitives, outs: seq<Output>, i: nat, j: nat)
    requires Fits(EMPTY, outs) && j < i <= |outs| && Stored(p, outs, j)
    ensures outs[j].base.id in After(p, EMPTY, outs, i).items
  {
    hide Process, Persist, Accepts, Fits, Stored, After;
    StoredIsAccepted(p, outs, j);
    AfterNext(p, EMPTY, outs, j);
    AcceptedIsStored(p, After(p, EMPTY, outs, j), outs[j]);
    AfterGrows(p, EMPTY, outs, j + 1, i);
  }

  lemma FrontFits(outs: seq<Output>, i: nat)
    requires Fits(EMPTY, outs) && i <= |outs|
    ensures Fits(EMPTY, outs[..i])
  {
  }

  lemma PutIdsMatch(p: Primitives, outs: seq<Output>)
    requires Fits(EMPTY, outs)
    ensures forall id :: id in Process(p, EMPTY, outs).items ==> Process(p, EMPTY, outs).items[id].id == id
  {
    hide Process;
    CutForgetsSuffix(p, EMPTY, outs, 0);
  }

  /**
   * The acceptance rule, both ways. Topics, stories and continuations are kept. A comment or a vote is
   * kept exactly when its key signed the digest of its tag and its fields, and the item it names is
   * that of a kept message in front of it.
   */
  lemma KeptExactly(p: Primitives, outs: seq<Output>, i: nat)
    requires Fits(EMPTY, outs) && i < |outs|
    ensures Stored(p, outs, i) <==>
      match outs[i].msg
      case Comment(parent, author, sig, blob, _) =>
        && (var tag := p.sha256(Ascii("CoinNews/Comment"));
            p.verify(author, sig, p.sha256(tag + tag + (parent + blob))))
        && exists j :: 0 <= j < i && outs[j].base.id == parent && Stored(p, outs, j)
      case Vote(kind, target, voter, sig) =>
        && (var tag := p.sha256(Ascii("CoinNews/Vote"));
            p.verify(voter, sig, p.sha256(tag + tag + ([kind] + target))))
        && exists j :: 0 <= j < i && outs[j].base.id == target && Stored(p, outs, j)
      case _ => true
  {
    hide Stored, After, Ascii;
    StoredIsAccepted(p, outs, i);
    match outs[i].msg
    case Comment(parent, _, _, _, _) => PresentBefore(p, outs, i, parent);
    case Vote(_, target, _, _) => PresentBefore(p, outs, i, target);
    case _ =>
  }

  /** Where no signature verifies, nothing signed is ever kept. */
  lemma {:induction false} NothingForgedIsKept(p: Primitives, idx: Index, outs: seq<Output>)
    requires forall key, sig, digest :: !p.verify(key, sig, digest)
    ensures var end := Process(p, idx, outs); end.comments == idx.comments && end.votes == idx.votes
    decreases |outs|
  {
    if outs != [] {
      assert Persist(p, idx, outs[0]).comments == idx.comments && Persist(p, idx, outs[0]).votes == idx.votes;
      NothingForgedIsKept(p, Persist(p, idx, outs[0]), outs[1..]);
    }
  }

  // ---------- Rows ----------

  /** The rows of a kept message, field by field, are read off the message and the output it came from. */
  lemma RowsAreOwn(p: Primitives, outs: seq<Output>, i: nat)
    requires Fits(EMPTY, outs) && i < |outs| && Stored(p, outs, i)
    ensures var end, o := Process(p, EMPTY, outs), outs[i];
            && end.items[o.base.id] == o.base
            && (o.msg.Story? ==>
                 o.base.id in end.stories && IsStoryRow(end.stories[o.base.id], o.base.id, o.msg))
            && (o.msg.Comment? ==>
                 o.base.id in end.comments && IsCommentRow(end.comments[o.base.id], o.base.id, o.msg))
  {
    hide IsStoryRow, IsCommentRow, StoryRecord, CommentRecord, Process;
    RowsAreRecords(p, outs, i);
    if outs[i].msg.Story? {
      StoryRecordHolds(outs[i].base.id, outs[i].msg);
    } else if outs[i].msg.Comment? {
      CommentRecordHolds(outs[i].base.id, outs[i].msg);
    }
  }

  lemma RowsAreRecords(p: Primitives, outs: seq<Output>, i: nat)
    requires Fits(EMPTY, outs) && i < |outs| && Stored(p, outs, i)
    ensures var end, o := Process(p, EMPTY, outs), outs[i];
            && end.items[o.base.id] == o.base
            && (o.msg.Story? ==>
                 o.base.id in end.stories && end.stories[o.base.id] == StoryRecord(o.base.id, o.msg))
            && (o.msg.Comment? ==>
                 o.base.id in end.comments && end.comments[o.base.id] == CommentRecord(o.base.id, o.msg))
  {
    hide Process, StoryRecord, CommentRecord, Accepts;
    var o := outs[i];
    StoredIsAccepted(p, outs, i);
    AfterNext(p, EMPTY, outs, i);
    AfterGrows(p, EMPTY, outs, i + 1, |outs|);
    assert outs[..|outs|] == outs;
    IdStaysOut(p, EMPTY, outs[..i], o.base.id);
    CutForgetsSuffix(p, EMPTY, outs[..i], 0);
    RowOfGoesWith(o);
  }

  lemma OneRowAdded(p: Primitives, idx: Index, o: Output)
    ensures var after := Persist(p, idx, o);
            && after.stories.Keys <= idx.stories.Keys + (if o.msg.Story? then {o.base.id} else {})
            && after.comments.Keys <= idx.comments.Keys + (if o.msg.Comment? then {o.base.id} else {})
            && after.topics.Keys <= idx.topics.Keys + (if o.msg.TopicCreation? then {o.msg.topic} else {})
  {
  }

  /** `o` creates the topic `t`. */
  predicate Creates(o: Output, t: Topic) {
    o.msg.TopicCreation? && o.msg.topic == t
  }

  lemma {:induction false} AddedRowsComeFrom(p: Primitives, idx: Index, outs: seq<Output>)
    ensures var end := Process(p, idx, outs);
            && (forall id :: id in end.stories ==>
                  id in idx.stories || exists o :: o in outs && o.msg.Story? && o.base.id == id)
            && (forall id :: id in end.comments ==>
                  id in idx.comments || exists o :: o in outs && o.msg.Comment? && o.base.id == id)
            && (forall t :: t in end.topics ==> t in idx.topics || exists o :: o in outs && Creates(o, t))
    decreases |outs|
  {
    hide Persist;
    if outs != [] {
      OneRowAdded(p, idx, outs[0]);
      AddedRowsComeFrom(p, Persist(p, idx, outs[0]), outs[1..]);
      assert outs[0] in outs && forall x :: x in outs[1..] ==> x in outs;
    }
  }

  /** Message `i` is kept and is the story, or the comment, with this id. */
  predicate TellsStory(p: Primitives, outs: seq<Output>, i: nat, id: ItemID)
    requires i < |outs|
  {
    outs[i].msg.Story? && outs[i].base.id == id && Stored(p, outs, i)
  }

  predicate TellsComment(p: Primitives, outs: seq<Output>, i: nat, id: ItemID)
    requires i < |outs|
  {
    outs[i].msg.Comment? && outs[i].base.id == id && Stored(p, outs, i)
  }

  predicate TellsTopic(p: Primitives, outs: seq<Output>, i: nat, t: Topic)
    requires i < |outs|
  {
    Creates(outs[i], t) && Stored(p, outs, i)
  }

  lemma TopicIsKept(p: Primitives, outs: seq<Output>, i: nat, t: Topic)
    requires Fits(EMPTY, outs) && i < |outs| && Creates(outs[i], t)
    ensures Stored(p, outs, i) && t in Process(p, EMPTY, outs).topics
  {
    hide Process, Stored;
    StoredIsAccepted(p, outs, i);
    AfterNext(p, EMPTY, outs, i);
    AfterGrows(p, EMPTY, outs, i + 1, |outs|);
    assert outs[..|outs|] == outs;
  }

  /** There is a story, comment or topic row exactly where a kept message of that kind calls for one. */
  lemma {:induction false} RowsHaveMessages(p: Primitives, outs: seq<Output>)
    requires Fits(EMPTY, outs)
    ensures var end := Process(p, EMPTY, outs);
            && (forall id :: id in end.stories <==> exists i :: 0 <= i < |outs| && TellsStory(p, outs, i, id))
            && (forall id :: id in end.comments <==> exists i :: 0 <= i < |outs| && TellsComment(p, outs, i, id))
            && (forall t :: t in end.topics <==> exists i :: 0 <= i < |outs| && TellsTopic(p, outs, i, t))
  {
    hide Process, Fits, StoryRecord, CommentRecord;
    var end := Process(p, EMPTY, outs);
    AddedRowsComeFrom(p, EMPTY, outs);
    TidyRows(p, outs);
    forall id
      ensures id in end.stories <==> exists i :: 0 <= i < |outs| && TellsStory(p, outs, i, id)
      ensures id in end.comments <==> exists i :: 0 <= i < |outs| && TellsComment(p, outs, i, id)
    {
      forall i: nat | i < |outs| && Stored(p, outs, i)
        ensures TellsStory(p, outs, i, id) ==> id in end.stories
        ensures TellsComment(p, outs, i, id) ==> id in end.comments
      {
        RowsAreOwn(p, outs, i);
      }
      if id in end.stories {
        var o :| o in outs && o.msg.Story? && o.base.id == id;
        var i :| 0 <= i < |outs| && outs[i] == o;
        assert TellsStory(p, outs, i, id);
      }
      if id in end.comments {
        var o :| o in outs && o.msg.Comment? && o.base.id == id;
        var i :| 0 <= i < |outs| && outs[i] == o;
        assert TellsComment(p, outs, i, id);
      }
    }
    forall t
      ensures t in end.topics <==> exists i :: 0 <= i < |outs| && TellsTopic(p, outs, i, t)
    {
      if t in end.topics {
        var o :| o in outs && Creates(o, t);
        var i :| 0 <= i < |outs| && outs[i] == o;
        TopicIsKept(p, outs, i, t);
        assert TellsTopic(p, outs, i, t);
      }
      if i :| 0 <= i < |outs| && TellsTopic(p, outs, i, t) {
        TopicIsKept(p, outs, i, t);
      }
    }
  }

  lemma TidyRows(p: Primitives, outs: seq<Output>)
    requires Fits(EMPTY, outs)
    ensures Process(p, EMPTY, outs).stories.Keys <= Process(p, EMPTY, outs).items.Keys
    ensures Process(p, EMPTY, outs).comments.Keys <= Process(p, EMPTY, outs).items.Keys
  {
    hide Process, Fits;
    CutForgetsSuffix(p, EMPTY, outs, 0);
  }

  lemma {:induction false} UncreatedStaysOut(p: Primitives, idx: Index, outs: seq<Output>, t: Topic)
    requires t !in idx.topics && forall o :: o in outs ==> !Creates(o, t)
    ensures t !in Process(p, idx, outs).topics
    decreases |outs|
  {
    hide Accepts, StoryRecord, CommentRecord;
    if outs != [] {
      assert outs[0] in outs && !Creates(outs[0], t);
      UncreatedStaysOut(p, Persist(p, idx, outs[0]), outs[1..], t);
    }
  }

  /** The first message that creates a topic gives it its row, for good. */
  lemma FirstCreationWins(p: Primitives, outs: seq<Output>, i: nat, t: Topic)
    requires i < |outs| && Creates(outs[i], t) && forall j :: 0 <= j < i ==> !Creates(outs[j], t)
    ensures var topics, o := Process(p, EMPTY, outs).topics, outs[i];
            t in topics && topics[t] == TopicRow(t, o.msg.name, o.msg.retentionDays, o.base.height, o.base.txid)
  {
    hide Process;
    UncreatedStaysOut(p, EMPTY, outs[..i], t);
    AfterNext(p, EMPTY, outs, i);
    AfterGrows(p, EMPTY, outs, i + 1, |outs|);
    assert outs[..|outs|] == outs;
  }

  // ---------- Votes ----------

  /** Message `i` is a kept vote under the key `k`. */
  predicate Votes(p: Primitives, outs: seq<Output>, i: nat, k: VoteKey)
    requires i < |outs|
  {
    outs[i].msg.Vote? && outs[i].msg.targetID == k.target && outs[i].msg.voter == k.author && Stored(p, outs, i)
  }

  /** The last of the first `n` messages that is a kept vote under `k`, or -1. */
  function LastVote(p: Primitives, outs: seq<Output>, n: nat, k: VoteKey): (i: int)
    requires n <= |outs|
    ensures -1 <= i < n
    ensures i >= 0 ==> Votes(p, outs, i, k)
    ensures forall j :: i < j < n ==> !Votes(p, outs, j, k)
  {
    if n == 0 then -1 else if Votes(p, outs, n - 1, k) then n - 1 else LastVote(p, outs, n - 1, k)
  }

  /** After `n` messages the votes are the last kept ones. */
  ghost predicate VotesAreLast(p: Primitives, outs: seq<Output>, n: nat, votes: VoteMap)
    requires n <= |outs|
  {
    forall k ::
      && (k in votes <==> LastVote(p, outs, n, k) >= 0)
      && (k in votes ==> votes[k] == VoteRecord(outs[LastVote(p, outs, n, k)]))
  }

  lemma NextVoteIsLast(p: Primitives, outs: seq<Output>, n: nat, votes: VoteMap)
    requires Ascending(outs) && n < |outs| && VotesAreLast(p, outs, n, votes)
    ensures VotesAreLast(
      p, outs, n + 1,
      if outs[n].msg.Vote? && Stored(p, outs, n) then PutVote(votes, VoteRecord(outs[n])) else votes)
  {
    hide Stored, LastVote;
    var o := outs[n];
    if o.msg.Vote? && Stored(p, outs, n) {
      var k := VoteRecord(o).Key();
      if k in votes {
        assert Before(outs[LastVote(p, outs, n, k)].base.Pos(), o.base.Pos());
      }
      assert PutVote(votes, VoteRecord(o)) == votes[k := VoteRecord(o)];
      forall other
        ensures LastVote(p, outs, n + 1, other) == if other == k then n else LastVote(p, outs, n, other)
      {
        LastVoteNext(p, outs, n, other);
      }
    } else {
      forall other
        ensures LastVote(p, outs, n + 1, other) == LastVote(p, outs, n, other)
      {
        LastVoteNext(p, outs, n, other);
      }
    }
  }

  lemma LastVoteNext(p: Primitives, outs: seq<Output>, n: nat, k: VoteKey)
    requires n < |outs|
    ensures LastVote(p, outs, n + 1, k) == if Votes(p, outs, n, k) then n else LastVote(p, outs, n, k)
  {
  }

  lemma {:induction false} LastVoteIsKept(p: Primitives, outs: seq<Output>, n: nat)
    requires Fits(EMPTY, outs) && Ascending(outs) && n <= |outs|
    ensures VotesAreLast(p, outs, n, After(p, EMPTY, outs, n).votes)
    decreases n
  {
    hide Process, Persist, Stored, After, Accepts, Fits, Ascending;
    if n == 0 {
      NothingYet(p, outs);
    } else {
      LastVoteIsKept(p, outs, n - 1);
      StoredIsAccepted(p, outs, n - 1);
      AfterNext(p, EMPTY, outs, n - 1);
      VotesAfter(p, After(p, EMPTY, outs, n - 1), outs[n - 1]);
      NextVoteIsLast(p, outs, n - 1, After(p, EMPTY, outs, n - 1).votes);
    }
  }

  lemma NothingYet(p: Primitives, outs: seq<Output>)
    ensures After(p, EMPTY, outs, 0) == EMPTY
  {
  }

  /**
   * The vote that stands under a key is the last kept vote cast under it, field by field, and there is
   * one exactly when any was kept.
   */
  lemma LastKeptVoteStands(p: Primitives, outs: seq<Output>, k: VoteKey)
    requires Fits(EMPTY, outs) && Ascending(outs)
    ensures var votes := Process(p, EMPTY, outs).votes;
            && (k in votes <==> exists i :: 0 <= i < |outs| && Votes(p, outs, i, k))
            && forall i ::
                 0 <= i < |outs| && Votes(p, outs, i, k) && (forall j :: i < j < |outs| ==> !Votes(p, outs, j, k))
                 ==> k in votes && IsVoteRow(votes[k], outs[i])
  {
    hide Process, Votes;
    LastVoteIsKept(p, outs, |outs|);
    assert outs[..|outs|] == outs;
    var last := LastVote(p, outs, |outs|, k);
    forall i | 0 <= i < |outs| && Votes(p, outs, i, k)
      ensures outs[i].msg.Vote?
    {
      VotesIsVote(p, outs, i, k);
    }
  }

  lemma VotesIsVote(p: Primitives, outs: seq<Output>, i: nat, k: VoteKey)
    requires i < |outs| && Votes(p, outs, i, k)
    ensures outs[i].msg.Vote?
  {
  }
}

/**
 * What every run keeps: the store is the index of a plain pass over the chain that ends in the
 * hash the scanner builds on, however the node's chain changes and whichever call fails.
 */
module Soundness {
  import opened Wrappers
  import opened Crypto
  import opened IndexState
  import opened Indexing
  import opened Retry
  import opened MapFacts
  import opened Cuts
  import opened Chain
  import opened Runs

  // ---------- The invariant ----------

  /** `prev` ends a chain from the start height up to just below `next`; it is empty at the start. */
  predicate Follows(c: Config, next: int, prev: Hash) {
    next >= c.start && Rooted(c, prev, next - c.start) && (prev == "" <==> next == c.start)
  }

  /** `hash` is a block for height `next` on top of `prev`. */
  predicate BuildsOn(c: Config, hash: Hash, next: int, prev: Hash) {
    && next >= c.start && hash != "" && Rooted(c, hash, next - c.start + 1)
    && (next > c.start ==> c.block(hash).prev == prev)
  }

  /** `index` is the plain index up to `prev`, or is some way into indexing a half-done block on top. */
  ghost predicate Contents(c: Config, index: Index, residue: Residue, lost: set<VoteKey>, next: int, prev: Hash)
    requires next >= c.start
  {
    match residue
    case HalfDone(b) =>
      BuildsOn(c, b, next, prev) && exists whole ::
        Short(whole, Fresh(c, prev, next - c.start), lost) && IsPartway(c.prims, whole, OutputsOf(c, b), index)
    case _ => Short(index, Fresh(c, prev, next - c.start), lost)
  }

  /** The cursor names the block below `next`, or, before the first block, nothing a rewind would keep. */
  predicate CursorFits(c: Config, cursor: Option<Cursor>, residue: Residue, next: int, prev: Hash) {
    if prev != "" then cursor == Some(Cursor(next - 1, prev)) && !residue.StaleCursor?
    else if residue.StaleCursor? then
      && cursor.Some? && cursor.value.hash != "" && Follows(c, cursor.value.height + 1, cursor.value.hash)
      && Target(c, cursor.value.height) == c.start
    else cursor.None?
  }

  /** The state at the top of the loop. */
  ghost predicate AtBlock(
      c: Config, index: Index, cursor: Option<Cursor>, residue: Residue, lost: set<VoteKey>, next: int, prev: Hash) {
    && Follows(c, next, prev)
    && Contents(c, index, residue, lost, next, prev)
    && CursorFits(c, cursor, residue, next, prev)
  }

  /**
   * A rewind from the block the cursor names leaves the plain index of that block's ancestors, and
   * the votes it deletes are missing from then on.
   */
  ghost predicate Cuttable(c: Config, index: Index, cursor: Option<Cursor>, lost: set<VoteKey>) {
    && cursor.Some? && cursor.value.hash != ""
    && var Cursor(h, hash) := cursor.value;
       var t := Target(c, h);
       && Follows(c, h + 1, hash) && t <= h
       && Short(index.DeleteFromHeight(t), Fresh(c, Back(c, hash, h + 1 - t), t - c.start), lost + index.VotesFrom(t))
  }

  /**
   * What a rewind that saved no cursor leaves: the delete to `t` was the last write, or it emptied the
   * index and part of a first block was written since.
   */
  ghost predicate Interrupted(c: Config, index: Index, t: int) {
    RowsBelow(index, t) || (t == c.start && exists b :: IsBegun(c, index, b))
  }

  /** `index` is some way into indexing `b` as the first block. */
  ghost predicate IsBegun(c: Config, index: Index, b: Hash) {
    BuildsOn(c, b, c.start, "") && IsPartway(c.prims, EMPTY, OutputsOf(c, b), index)
  }

  /** The state between runs. */
  ghost predicate AtRest(c: Config, index: Index, cursor: Option<Cursor>, residue: Residue, lost: set<VoteKey>) {
    if residue.StaleCursor? then
      && Cuttable(c, index, cursor, lost)
      && Interrupted(c, index, Target(c, cursor.value.height)) && lost !! index.votes.Keys
    else match cursor
         case None => AtBlock(c, index, cursor, residue, lost, c.start, "")
         case Some(cur) => AtBlock(c, index, cursor, residue, lost, cur.height + 1, cur.hash)
  }

  ghost predicate Rests(c: Config, m: Machine) {
    m.trusted ==> AtRest(c, m.index, m.cursor, m.residue, m.lost)
  }

  ghost predicate Loops(c: Config, m: Machine, next: int, prev: Hash) {
    m.trusted ==> AtBlock(c, m.index, m.cursor, m.residue, m.lost, next, prev)
  }

  /** The state a call leaves is one to go on from, or one to rest in. */
  ghost predicate Kept(c: Config, r: (Machine, Outcome)) {
    match r.1
    case Go(next, prev) => Loops(c, r.0, next, prev)
    case _ => Rests(c, r.0)
  }

  /** Every chain the node reports is hash-linked. */
  ghost predicate LinkedReplies(c: Config, script: seq<Reply>) {
    forall i :: 0 <= i < |script| && script[i].Up? ==> LinkedView(c, script[i].view)
  }

  // ---------- Cuts ----------

  /**
   * A cut below a block forgets whatever part of the block was written. The votes it deletes are
   * those a cut of the index without the part deletes, and those cast in the part.
   */
  lemma CutForgetsPart(p: Primitives, whole: Index, outs: seq<Output>, part: Index, t: int)
    requires Tidy(whole) && Fits(whole, outs) && AllFrom(outs, t) && IsPartway(p, whole, outs, part)
    ensures Short(part.DeleteFromHeight(t), whole.DeleteFromHeight(t), part.VotesFrom(t))
    ensures whole.VotesFrom(t) <= part.VotesFrom(t)
  {
    var i: nat, half: bool :| Partway(p, whole, outs, i, half, part);
    var x := After(p, whole, outs, i);
    assert outs == outs[..i] + outs[i..];
    CutForgetsSuffix(p, whole, outs[..i], t);
    VotesOfSuffix(p, whole, outs[..i], t);
    ProcessGrows(p, whole, outs[..i]);
    VotesUnderCut(whole, x, VotesCast(p, whole, outs[..i]), t);
    if half {
      FitsAfter(p, whole, outs[..i], outs[i..]);
      assert outs[i..][0] == outs[i];
      CutForgetsItem(x, outs[i].base, t);
      assert part.votes == x.votes && part.VotesFrom(t) == x.VotesFrom(t);
    }
  }

  lemma VotesUnderCut(a: Index, b: Index, cast: set<VoteKey>, t: int)
    requires b.votes - cast == a.votes - cast && VotesAdvance(a.votes, b.votes)
    requires forall k :: k in cast ==> k in b.votes && b.votes[k].height >= t
    ensures a.VotesFrom(t) <= b.VotesFrom(t)
    ensures b.DeleteFromHeight(t).votes == a.DeleteFromHeight(t).votes - b.VotesFrom(t)
  {
    var gone := b.VotesFrom(t);
    assert cast + gone == gone && a.VotesFrom(t) + gone == gone;
    DropInTurn(a.votes, cast, gone);
    DropInTurn(b.votes, cast, gone);
    DropInTurn(a.votes, a.VotesFrom(t), gone);
  }

  lemma ShortInTurn(x: Index, y: Index, z: Index, first: set<VoteKey>, rest: set<VoteKey>)
    requires Short(x, y, first) && Short(y, z, rest)
    ensures Short(x, z, rest + first)
  {
    DropInTurn(z.votes, rest, first);
  }

  lemma ShortFits(a: Index, b: Index, outs: seq<Output>)
    requires SameCore(a, b) && Tidy(b) && Fits(b, outs)
    ensures Tidy(a) && Fits(a, outs)
  {
  }

  /** An index that is the plain one but for some votes has the same ids and outpoints. */
  lemma {:induction false} NextFits(c: Config, whole: Index, hash: Hash, n: nat, lost: set<VoteKey>)
    requires Trustworthy(c) && Rooted(c, hash, n + 1)
    requires Short(whole, Fresh(c, c.block(hash).prev, n), lost)
    ensures Tidy(whole) && Fits(whole, OutputsOf(c, hash)) && AllFrom(OutputsOf(c, hash), c.start + n)
    ensures var done := Process(c.prims, whole, OutputsOf(c, hash));
            Short(done, Fresh(c, hash, n + 1), lost - done.votes.Keys)
  {
    hide OutputsOf, Process, Short, Tidy, Fits, AllFrom, VotesBefore, Ascending, VotesCast;
    assert ChainOutputs(c, hash, 1) == OutputsOf(c, hash) && Back(c, hash, 1) == c.block(hash).prev;
    var plain, outs := Fresh(c, c.block(hash).prev, n), OutputsOf(c, hash);
    RecentFits(c, hash, n + 1, 1);
    RecentIsLater(c, hash, n + 1, 1);
    RecentIsAbove(c, hash, n + 1, 1);
    SameCoreOfShort(whole, plain, lost);
    ShortFits(whole, plain, outs);
    ProcessKeepsShort(c.prims, whole, plain, outs, lost);
    StillMissing(Process(c.prims, whole, outs), Fresh(c, hash, n + 1), lost, VotesCast(c.prims, plain, outs));
  }

  lemma SameCoreOfShort(a: Index, b: Index, lost: set<VoteKey>)
    requires Short(a, b, lost)
    ensures SameCore(a, b)
  {
  }

  lemma NoBlocks(c: Config, hash: Hash)
    ensures Fresh(c, hash, 0) == EMPTY
  {
  }

  lemma ShortOfNothing(index: Index, lost: set<VoteKey>)
    ensures Short(index, EMPTY, lost) <==> index == EMPTY
  {
  }

  /** The same for the block after `prev`. */
  lemma {:induction false} NextBlockFits(c: Config, whole: Index, hash: Hash, next: int, prev: Hash, lost: set<VoteKey>)
    requires Trustworthy(c) && BuildsOn(c, hash, next, prev)
    requires Short(whole, Fresh(c, prev, next - c.start), lost)
    ensures Tidy(whole) && Fits(whole, OutputsOf(c, hash)) && AllFrom(OutputsOf(c, hash), next)
    ensures var done := Process(c.prims, whole, OutputsOf(c, hash));
            Short(done, Fresh(c, hash, next - c.start + 1), lost - done.votes.Keys)
  {
    hide Short, Process, OutputsOf, Fresh, Rooted, Tidy, Fits, AllFrom, Trustworthy;
    PlainBelow(c, hash, next, prev);
    NextFits(c, whole, hash, next - c.start, lost);
  }

  lemma PlainBelow(c: Config, hash: Hash, next: int, prev: Hash)
    requires BuildsOn(c, hash, next, prev)
    ensures Fresh(c, c.block(hash).prev, next - c.start) == Fresh(c, prev, next - c.start)
  {
  }

  lemma CutOfChain(c: Config, index: Index, hash: Hash, n: nat, k: nat, lost: set<VoteKey>)
    requires Trustworthy(c) && Rooted(c, hash, n) && k <= n && Short(index, Fresh(c, hash, n), lost)
    ensures var t := c.start + n - k;
            Short(index.DeleteFromHeight(t), Fresh(c, Back(c, hash, k), n - k), lost + index.VotesFrom(t))
  {
    hide Fresh, Back, Rooted, ChainOutputs, Index.DeleteFromHeight, VotesCast, Short, Index.VotesFrom;
    CutIsShorterChain(c, hash, n, k);
    CutOfShort(index, Fresh(c, hash, n), Fresh(c, Back(c, hash, k), n - k), lost, c.start + n - k);
  }

  /** Wherever the loop stands on a block, a rewind from that block does what it should. */
  lemma BlockIsCuttable(
      c: Config, index: Index, cursor: Option<Cursor>, residue: Residue, lost: set<VoteKey>, next: int, prev: Hash)
    requires Trustworthy(c) && AtBlock(c, index, cursor, residue, lost, next, prev) && prev != ""
    ensures Cuttable(c, index, cursor, lost)
  {
    hide Fresh, Back, Rooted, Short, Index.DeleteFromHeight, Index.VotesFrom;
    hide OutputsOf, IsPartway, Tidy, Fits, Process;
    var n, t := next - c.start, Target(c, next - 1);
    var k := next - t;
    if residue.HalfDone? {
      var b := residue.hash;
      var whole :| Short(whole, Fresh(c, prev, n), lost) && IsPartway(c.prims, whole, OutputsOf(c, b), index);
      NextBlockFits(c, whole, b, next, prev, lost);
      CutForgetsPart(c.prims, whole, OutputsOf(c, b), index, t);
      CutOfChain(c, whole, prev, n, k, lost);
      ShortInTurn(
        index.DeleteFromHeight(t), whole.DeleteFromHeight(t), Fresh(c, Back(c, prev, k), n - k),
        index.VotesFrom(t), lost + whole.VotesFrom(t));
      assert lost + whole.VotesFrom(t) + index.VotesFrom(t) == lost + index.VotesFrom(t);
    } else {
      CutOfChain(c, index, prev, n, k, lost);
    }
  }

  lemma CutTwice(index: Index, t: int)
    ensures index.DeleteFromHeight(t).DeleteFromHeight(t) == index.DeleteFromHeight(t)
    ensures index.DeleteFromHeight(t).VotesFrom(t) == {}
  {
    CutOfBelow(index.DeleteFromHeight(t), t);
  }

  /** An index that a delete from the start height empties. */
  lemma EmptyIsCuttable(c: Config, index: Index, cursor: Option<Cursor>, lost: set<VoteKey>)
    requires CursorFits(c, cursor, StaleCursor, c.start, "") && index.DeleteFromHeight(c.start) == EMPTY
    ensures Cuttable(c, index, cursor, lost)
  {
  }

  lemma CutOfNothing(t: int)
    ensures EMPTY.DeleteFromHeight(t) == EMPTY && RowsBelow(EMPTY, t)
  {
  }

  /** Every state of the loop is one a run may stop in. */
  lemma LoopStateRests(c: Config, m: Machine, next: int, prev: Hash)
    requires Loops(c, m, next, prev)
    ensures Rests(c, m)
  {
    hide Fresh, Back, Rooted, Short, Index.DeleteFromHeight, Index.VotesFrom;
    if m.trusted && m.residue.StaleCursor? {
      NoBlocks(c, prev);
      ShortOfNothing(m.index, m.lost);
      CutOfNothing(c.start);
      EmptyIsCuttable(c, m.index, m.cursor, m.lost);
      CutOfNothing(Target(c, m.cursor.value.height));
    }
  }

  /** And every state with a cursor is one a rewind may start from. */
  lemma RestIsCuttable(c: Config, m: Machine)
    requires Trustworthy(c) && Rests(c, m) && m.trusted && m.cursor.Some?
    ensures Cuttable(c, m.index, m.cursor, m.lost)
  {
    hide Fresh, Back, Rooted, Short, IsPartway, Index.DeleteFromHeight, Index.VotesFrom;
    if !m.residue.StaleCursor? {
      BlockIsCuttable(c, m.index, m.cursor, m.residue, m.lost, m.cursor.value.height + 1, m.cursor.value.hash);
    }
  }

  // ---------- The steps ----------

  lemma AskedHash(c: Config, m: Machine, h: int)
    requires LinkedReplies(c, m.script) && AskHash(m, h).1.Success?
    ensures h >= 0 && AskHash(m, h).1.value != ""
    ensures exists v :: LinkedView(c, v) && h < |v| && v[h] == AskHash(m, h).1.value
  {
  }

  lemma RewindLeavesReplies(c: Config, m: Machine, from: int)
    requires LinkedReplies(c, m.script)
    ensures LinkedReplies(c, Rewind(c, m, from).0.script)
  {
  }

  /** After the delete, whatever happens next, the cursor is one to rewind from again. */
  lemma DeletedIsCuttable(c: Config, m: Machine, t: int)
    requires Cuttable(c, m.index, m.cursor, m.lost) && t == Target(c, m.cursor.value.height) && m.calls > 0
    ensures AtRest(c, Deleted(m, t).index, m.cursor, StaleCursor, Deleted(m, t).lost)
  {
    hide Fresh, Back, Rooted, Index.DeleteFromHeight, Index.VotesFrom;
    CutTwice(m.index, t);
    CutIsBelow(m.index, t);
    assert Deleted(m, t).lost + {} == Deleted(m, t).lost;
  }

  lemma RestartIsAtBlock(c: Config, m: Machine)
    requires Cuttable(c, m.index, m.cursor, m.lost) && Target(c, m.cursor.value.height) <= c.start && m.calls > 0
    ensures var d := Deleted(m, c.start); AtBlock(c, d.index, m.cursor, StaleCursor, d.lost, c.start, "")
  {
    hide Back, Index.DeleteFromHeight, Index.VotesFrom;
  }

  lemma AnchoredIsAtBlock(c: Config, m: Machine, t: int, anchor: Hash)
    requires Cuttable(c, m.index, m.cursor, m.lost) && anchor != "" && m.calls > 0
    requires t == Target(c, m.cursor.value.height) > c.start && AnchorAgrees(c, m.cursor, t - 1, anchor)
    ensures var d := Deleted(m, t); AtBlock(c, d.index, Some(Cursor(t - 1, anchor)), Clean, d.lost, t, anchor)
  {
    hide Fresh, Back, Short, Rooted, Index.DeleteFromHeight, Index.VotesFrom;
    var Cursor(h, hash) := m.cursor.value;
    RootedBack(c, hash, h + 1 - c.start, h + 1 - t);
  }

  lemma RewindKeeps(c: Config, m: Machine, from: int)
    requires Trustworthy(c) && LinkedReplies(c, m.script)
    requires Rests(c, m) && (m.trusted ==> Cuttable(c, m.index, m.cursor, m.lost) && m.cursor.value.height == from)
    ensures Kept(c, Rewind(c, m, from))
  {
    hide Fresh, Back, Rooted, Index.DeleteFromHeight, AtBlock, Cuttable, LinkedView, LinkedReplies, AnchorAgrees;
    hide Index.VotesFrom;
    if m.calls > 0 && m.trusted {
      var t := Target(c, from);
      DeletedIsCuttable(c, m, t);
      var cut := Deleted(m, t);
      if t <= c.start {
        RestartIsAtBlock(c, m);
      } else if AskHash(cut, t - 1).1.Success? {
        AskedHash(c, cut, t - 1);
        if AnchorAgrees(c, m.cursor, t - 1, AskHash(cut, t - 1).1.value) {
          AnchoredIsAtBlock(c, m, t, AskHash(cut, t - 1).1.value);
        }
      }
    }
  }

  /** A pass over a block from a sound state. */
  lemma PassKeeps(c: Config, whole: Index, index: Index, outs: seq<Output>, calls: nat)
    requires IsPartway(c.prims, whole, outs, index) && (index != whole ==> NoLateAcceptance(c.prims, whole, outs))
    ensures var a := ProcessWithin(c.prims, index, outs, calls);
            && IsPartway(c.prims, whole, outs, a.index)
            && (a.ok ==> a.index == Process(c.prims, whole, outs))
  {
    hide IsPartway, NoLateAcceptance;
    if index != whole {
      RetryConverges(c.prims, whole, outs, index, calls);
    } else {
      FailureIsPartway(c.prims, index, outs, calls);
      if ProcessWithin(c.prims, index, outs, calls).ok {
        FinishedIsProcessed(c.prims, index, outs, calls);
      }
    }
  }

  /** The plain index the current contents are part of. */
  lemma WholeOf(c: Config, m: Machine, next: int, prev: Hash, hash: Hash) returns (whole: Index)
    requires BuildsOn(c, hash, next, prev) && Contents(c, m.index, m.residue, m.lost, next, prev)
    requires RetryAllowed(c, m.residue, next, hash)
    ensures Short(whole, Fresh(c, prev, next - c.start), m.lost)
    ensures IsPartway(c.prims, whole, OutputsOf(c, hash), m.index)
    ensures m.index != whole ==> NoLateAcceptance(c.prims, whole, OutputsOf(c, hash))
  {
    hide Fresh, Rooted, OutputsOf, NoLateAcceptance;
    if m.residue.HalfDone? {
      whole :| Short(whole, Fresh(c, prev, next - c.start), m.lost)
            && IsPartway(c.prims, whole, OutputsOf(c, m.residue.hash), m.index);
      PlainBelow(c, hash, next, prev);
      ItemsDecideRetry(c.prims, whole, Fresh(c, prev, next - c.start), OutputsOf(c, hash));
    } else {
      whole := m.index;
      assert Partway(c.prims, whole, OutputsOf(c, hash), 0, false, m.index);
    }
  }

  /** Part of a first block, written on the emptied index while the cursor is stale. */
  lemma FirstPartRests(c: Config, part: Index, cursor: Option<Cursor>, lost: set<VoteKey>, b: Hash)
    requires CursorFits(c, cursor, StaleCursor, c.start, "") && IsBegun(c, part, b) && lost !! part.votes.Keys
    requires Tidy(EMPTY) && Fits(EMPTY, OutputsOf(c, b)) && AllFrom(OutputsOf(c, b), c.start)
    ensures AtRest(c, part, cursor, StaleCursor, lost)
  {
    hide OutputsOf, IsPartway, Rooted, Index.DeleteFromHeight, Index.VotesFrom, Tidy, Fits, AllFrom, Cuttable;
    CutForgetsPart(c.prims, EMPTY, OutputsOf(c, b), part, c.start);
    CutOfNothing(c.start);
    ShortOfNothing(part.DeleteFromHeight(c.start), part.VotesFrom(c.start));
    EmptyIsCuttable(c, part, cursor, lost);
  }

  /** A block that is finished. */
  lemma FinishedKeeps(c: Config, m: Machine, next: int, prev: Hash, hash: Hash)
    requires Trustworthy(c) && BuildsOn(c, hash, next, prev) && RetryAllowed(c, m.residue, next, hash)
    requires Follows(c, next, prev) && Contents(c, m.index, m.residue, m.lost, next, prev)
    requires ProcessWithin(c.prims, m.index, OutputsOf(c, hash), m.calls).ok
    ensures var done := ProcessWithin(c.prims, m.index, OutputsOf(c, hash), m.calls).index;
            AtBlock(c, done, Some(Cursor(next, hash)), Clean, m.lost - done.votes.Keys, next + 1, hash)
  {
    hide Fresh, Back, Rooted, Short, OutputsOf, IsPartway, RetryAllowed, ProcessWithin, Process, Tidy, Fits, AllFrom;
    hide Contents, Trustworthy;
    var whole := WholeOf(c, m, next, prev, hash);
    PassKeeps(c, whole, m.index, OutputsOf(c, hash), m.calls);
    NextBlockFits(c, whole, hash, next, prev, m.lost);
    assert Follows(c, next + 1, hash);
    PlainContents(c, Process(c.prims, whole, OutputsOf(c, hash)), next + 1, hash,
                  m.lost - Process(c.prims, whole, OutputsOf(c, hash)).votes.Keys);
  }

  lemma PlainContents(c: Config, index: Index, next: int, prev: Hash, lost: set<VoteKey>)
    requires next >= c.start && Short(index, Fresh(c, prev, next - c.start), lost)
    ensures Contents(c, index, Clean, lost, next, prev)
  {
  }

  /** A block that is only begun, or stopped once more. */
  lemma BegunKeeps(c: Config, m: Machine, next: int, prev: Hash, hash: Hash)
    requires Trustworthy(c) && BuildsOn(c, hash, next, prev) && RetryAllowed(c, m.residue, next, hash)
    requires AtBlock(c, m.index, m.cursor, m.residue, m.lost, next, prev)
    ensures var part := ProcessWithin(c.prims, m.index, OutputsOf(c, hash), m.calls).index;
            if m.residue.StaleCursor? then AtRest(c, part, m.cursor, StaleCursor, m.lost - part.votes.Keys)
            else AtBlock(c, part, m.cursor, HalfDone(hash), m.lost, next, prev)
  {
    hide Fresh, Back, Rooted, Short, OutputsOf, IsPartway, RetryAllowed, ProcessWithin, Process, Tidy, Fits, AllFrom;
    hide Cuttable, Interrupted, Index.DeleteFromHeight, Index.VotesFrom, AtRest, Trustworthy;
    var whole := WholeOf(c, m, next, prev, hash);
    PassKeeps(c, whole, m.index, OutputsOf(c, hash), m.calls);
    if m.residue.StaleCursor? {
      var part := ProcessWithin(c.prims, m.index, OutputsOf(c, hash), m.calls).index;
      NextBlockFits(c, whole, hash, next, prev, m.lost);
      NoBlocks(c, prev);
      ShortOfNothing(whole, m.lost);
      FirstPartRests(c, part, m.cursor, m.lost - part.votes.Keys, hash);
    }
  }

  lemma {:induction false} IngestKeeps(c: Config, m: Machine, next: int, prev: Hash, hash: Hash)
    requires Trustworthy(c) && Loops(c, m, next, prev) && (m.trusted ==> BuildsOn(c, hash, next, prev))
    ensures Kept(c, Ingest(c, m, next, hash)) && Ingest(c, m, next, hash).0.script == m.script
  {
    hide OutputsOf, RetryAllowed, ProcessWithin, Cuttable, Interrupted, Contents, BuildsOn;
    var (after, progress) := Ingest(c, m, next, hash);
    LoopStateRests(c, m, next, prev);
    if after.trusted && progress.Go? {
      FinishedKeeps(c, m, next, prev, hash);
    } else if after.trusted && after.index != m.index {
      BegunKeeps(c, m, next, prev, hash);
      if !m.residue.StaleCursor? {
        HalfDoneRests(c, after, next, prev);
      }
    }
  }

  lemma HalfDoneRests(c: Config, m: Machine, next: int, prev: Hash)
    requires AtBlock(c, m.index, m.cursor, m.residue, m.lost, next, prev) && m.residue.HalfDone?
    ensures Rests(c, m)
  {
    hide Contents;
  }

  lemma AskLeavesReplies(c: Config, m: Machine)
    requires LinkedReplies(c, m.script)
    ensures LinkedReplies(c, Ask(m).0.script)
  {
    hide LinkedView;
  }

  lemma CursorBelow(c: Config, cursor: Option<Cursor>, residue: Residue, next: int, prev: Hash)
    requires CursorFits(c, cursor, residue, next, prev) && prev != ""
    ensures cursor == Some(Cursor(next - 1, prev))
  {
  }

  /** A reported block that follows on `prev` builds on its chain. */
  lemma ReportedBuildsOn(c: Config, hash: Hash, next: int, prev: Hash)
    requires Follows(c, next, prev) && hash != "" && (prev != "" ==> c.block(hash).prev == prev)
    requires exists v :: LinkedView(c, v) && 0 <= next < |v| && v[next] == hash
    ensures BuildsOn(c, hash, next, prev)
  {
  }

  lemma StepKeeps(c: Config, m: Machine, next: int, prev: Hash)
    requires Trustworthy(c) && LinkedReplies(c, m.script) && Loops(c, m, next, prev)
    ensures Kept(c, Step(c, m, next, prev))
    ensures LinkedReplies(c, Step(c, m, next, prev).0.script)
  {
    hide Fresh, Back, Short, Contents, Cuttable, Rewind, Ingest, OutputsOf, Rooted, LinkedReplies, LinkedView;
    hide CursorFits, BuildsOn;
    var m1 := Ask(m).0;
    var m2 := AskHash(m1, next).0;
    var m3 := Ask(m2).0;
    LoopStateRests(c, m, next, prev);
    AskLeavesReplies(c, m);
    AskLeavesReplies(c, m1);
    AskLeavesReplies(c, m2);
    if Ask(m).1.Success? && next <= |Ask(m).1.value| - 1 && AskHash(m1, next).1.Success? && Ask(m2).1.Success? {
      var hash := AskHash(m1, next).1.value;
      AskedHash(c, m1, next);
      if prev != "" && c.block(hash).prev != prev {
        if m.trusted {
          CursorBelow(c, m3.cursor, m3.residue, next, prev);
          RestIsCuttable(c, m3);
        }
        RewindKeeps(c, m3, next - 1);
        RewindLeavesReplies(c, m3, next - 1);
      } else {
        if m.trusted {
          ReportedBuildsOn(c, hash, next, prev);
        }
        IngestKeeps(c, m3, next, prev, hash);
      }
    }
  }

  lemma {:induction false} LoopKeeps(c: Config, m: Machine, next: int, prev: Hash)
    requires Trustworthy(c) && LinkedReplies(c, m.script) && Loops(c, m, next, prev)
    ensures Rests(c, Loop(c, m, next, prev).0)
    decreases |m.script|
  {
    StepConsumes(c, m, next, prev);
    StepKeeps(c, m, next, prev);
    var (after, progress) := Step(c, m, next, prev);
    if progress.Go? {
      LoopKeeps(c, after, progress.next, progress.prev);
    }
  }

  lemma ResumeKeeps(c: Config, m: Machine)
    requires Trustworthy(c) && LinkedReplies(c, m.script) && Rests(c, m)
    ensures Kept(c, Resume(c, m)) && LinkedReplies(c, Resume(c, m).0.script)
  {
    hide Fresh, Back, Short, Rooted, Rewind, Contents, Index.DeleteFromHeight, Index.VotesFrom;
    hide AtBlock, Interrupted, LinkedView;
    if m.calls > 0 && m.cursor.Some? {
      var m1 := m.(calls := m.calls - 1);
      var (asked, onchain) := AskHash(m1, m.cursor.value.height);
      if onchain.Success? && onchain.value != m.cursor.value.hash {
        if m.trusted {
          RestIsCuttable(c, asked);
        }
        RewindKeeps(c, asked, m.cursor.value.height);
        RewindLeavesReplies(c, asked, m.cursor.value.height);
      }
    }
  }

  lemma RunKeeps(c: Config, m: Machine)
    requires Trustworthy(c) && LinkedReplies(c, m.script) && Rests(c, m)
    ensures Rests(c, Run(c, m).0)
  {
    hide Resume, Loop, Loops, Rests;
    ResumeKeeps(c, m);
    var (after, progress) := Resume(c, m);
    if progress.Go? {
      LoopKeeps(c, after, progress.next, progress.prev);
    }
  }

  lemma {:induction false} SessionKeeps(c: Config, m: Machine, runs: seq<Conditions>)
    requires Trustworthy(c) && Rests(c, m)
    requires forall i :: 0 <= i < |runs| ==> LinkedReplies(c, runs[i].script)
    ensures Rests(c, Session(c, m, runs))
    decreases |runs|
  {
    if runs != [] {
      RunKeeps(c, Prepared(m, runs[0]));
      SessionKeeps(c, Run(c, Prepared(m, runs[0])).0, runs[1..]);
    }
  }

  /**
   * The store is the index of a plain pass over the chain that ends in the cursor, short of exactly
   * the votes under the keys lost in rewinds. Without a cursor it is empty.
   */
  ghost predicate IsPlainPass(c: Config, m: Machine) {
    match m.cursor
    case None => m.index == EMPTY
    case Some(Cursor(h, hash)) =>
      && h >= c.start && Rooted(c, hash, h + 1 - c.start)
      && Short(m.index, Fresh(c, hash, h + 1 - c.start), m.lost)
  }

  lemma CleanIsPlainPass(c: Config, m: Machine)
    requires Rests(c, m) && m.trusted && m.residue.Clean?
    ensures IsPlainPass(c, m)
  {
  }

  /**
   * After any number of runs on a new store, over any changes of the node's chain and any failing
   * calls: as long as the conditions recorded in `trusted` held and nothing is half done, the store
   * is the index of a plain pass over the chain that ends in the cursor, short of exactly the votes
   * whose target and author lost one in a rewind and have had none since.
   */
  lemma {:induction false} IndexIsPlainPass(c: Config, runs: seq<Conditions>)
    requires Trustworthy(c) && forall i :: 0 <= i < |runs| ==> LinkedReplies(c, runs[i].script)
    ensures var m := Session(c, NEW_STORE, runs);
            m.trusted && m.residue.Clean? ==> IsPlainPass(c, m)
  {
    hide Rooted, Short, Session, IsPlainPass, Trustworthy, LinkedReplies;
    NewStoreRests(c);
    SessionKeeps(c, NEW_STORE, runs);
    var m := Session(c, NEW_STORE, runs);
    if m.trusted && m.residue.Clean? {
      CleanIsPlainPass(c, m);
    }
  }

  lemma NewStoreRests(c: Config)
    ensures Rests(c, NEW_STORE)
  {
  }
}

/**
 * What a call to the node can do to the store: an error ends the run and changes nothing, and rows
 * are deleted only after an answer that shows a replaced block (scanner/scanner.go: Run, resume, rewind).
 */
module NodeErrors {
  import opened Wrappers
  import opened IndexState
  import opened Indexing
  import opened Chain
  import opened Runs

  /** Nothing is written to the store, and nothing about it is known to have changed. */
  predicate Untouched(before: Machine, after: Machine) {
    && after.index == before.index && after.cursor == before.cursor && after.residue == before.residue
    && after.trusted == before.trusted && after.rewinds == before.rewinds && after.lost == before.lost
  }

  /** The reply holds no hash for this height: the node is down, or its chain does not have the height. */
  predicate NoHash(r: Reply, h: int) {
    r.Up? ==> h < 0 || h >= |r.view|
  }

  // ---------- Errors ----------

  /** A node that cannot confirm the cursor block ends the run. It is not taken for a reorg. */
  lemma CursorCheckFails(c: Config, m: Machine)
    requires m.calls > 0 && m.cursor.Some? && m.script != [] && NoHash(m.script[0], m.cursor.value.height)
    ensures Run(c, m).1 == Failed(RpcError) && Untouched(m, Run(c, m).0)
  {
    hide Rewind, Loop;
  }

  /** A store that does not answer stops the run before the node is asked; so does a node that is gone. */
  lemma NoAnswerChangesNothing(c: Config, m: Machine)
    ensures m.calls == 0 ==> Run(c, m) == (m, Failed(StoreError))
    ensures m.calls > 0 && m.script == [] ==> Run(c, m) == (m.(calls := m.calls - 1), Failed(Unfinished))
  {
    hide Rewind, Ingest;
  }

  /** In the turn for height `next` one of the three calls fails: the tip, the hash, or the block. */
  predicate TurnFails(s: seq<Reply>, next: int) {
    && |s| >= 1
    && (s[0].Down? || (next < |s[0].view| && |s| >= 2 && (NoHash(s[1], next) || (|s| >= 3 && s[2].Down?))))
  }

  /** An error in the loop ends the run with the store as the turn found it. */
  lemma TurnFailureKeepsStore(c: Config, m: Machine, next: int, prev: Hash)
    requires TurnFails(m.script, next)
    ensures Loop(c, m, next, prev).1 == Failed(RpcError) && Untouched(m, Loop(c, m, next, prev).0)
  {
    hide Rewind, Ingest;
  }

  // ---------- Rewinds ----------

  /** The rows at and above `t` are gone and the others are as they were. */
  ghost predicate CutAt(before: Index, after: Index, t: int) {
    && (forall id :: id in after.items <==> id in before.items && before.items[id].height < t)
    && (forall k :: k in after.byOut <==>
          k in before.byOut
          && forall id :: id in before.items && before.items[id].height >= t ==> before.items[id].Key() != k)
    && (forall x :: x in after.topics <==> x in before.topics && before.topics[x].createdHeight < t)
    && (forall k :: k in after.votes <==> k in before.votes && before.votes[k].height < t)
    && (forall id :: id in after.stories <==>
          id in before.stories && !(id in before.items && before.items[id].height >= t))
    && (forall id :: id in after.comments <==>
          id in before.comments && !(id in before.items && before.items[id].height >= t))
    && Extends(after.items, before.items) && Extends(after.byOut, before.byOut) && Extends(after.topics, before.topics)
    && Extends(after.stories, before.stories) && Extends(after.comments, before.comments)
    && Extends(after.votes, before.votes)
  }

  lemma DeleteCuts(idx: Index, t: int)
    ensures CutAt(idx, idx.DeleteFromHeight(t), t)
  {
  }

  /**
   * A rewind reaches `depth` blocks below the block it starts from, but not below the start height. It
   * goes on from there; the hash just below comes from the node and becomes the cursor, unless it is the
   * start. Without an answer, or if the save fails, the rows are gone and the cursor is the old one.
   */
  lemma RewindReaches(c: Config, m: Machine, from: int)
    requires m.calls > 0
    ensures var (after, outcome) := Rewind(c, m, from);
            var t := if from - c.depth > c.start then from - c.depth else c.start;
            && CutAt(m.index, after.index, t) && after.rewinds == m.rewinds + 1
            && (t == c.start ==> outcome == Go(c.start, "") && after.cursor == m.cursor)
            && (t > c.start && m.script != [] && NoHash(m.script[0], t - 1) ==>
                 outcome == Failed(RpcError) && after.cursor == m.cursor)
            && (t > c.start && m.script != [] && !NoHash(m.script[0], t - 1) ==>
                 var anchor := m.script[0].view[t - 1];
                 if m.calls > 1 then outcome == Go(t, anchor) && after.cursor == Some(Cursor(t - 1, anchor))
                 else outcome == Failed(StoreError) && after.cursor == m.cursor)
  {
    hide AnchorAgrees, Index.VotesFrom, Index.DeleteFromHeight, CutAt;
    DeleteCuts(m.index, Target(c, from));
  }

  /** The answer to the cursor check names another block at the cursor's height. */
  predicate CursorReplaced(m: Machine) {
    && m.cursor.Some? && m.script != [] && !NoHash(m.script[0], m.cursor.value.height)
    && m.script[0].view[m.cursor.value.height] != m.cursor.value.hash
  }

  /** That answer, and a block that does not build on the one indexed before it, do start a rewind. */
  lemma ReplacedIsRewound(c: Config, m: Machine, next: int, prev: Hash)
    ensures m.calls > 1 && CursorReplaced(m) ==>
      Resume(c, m) == Rewind(c, m.(script := m.script[1..], calls := m.calls - 1), m.cursor.value.height)
    ensures
      (&& |m.script| >= 3 && m.script[0].Up? && next < |m.script[0].view| && !NoHash(m.script[1], next)
       && m.script[2].Up? && prev != "" && c.block(m.script[1].view[next]).prev != prev) ==>
      Step(c, m, next, prev) == Rewind(c, m.(script := m.script[3..]), next - 1)
  {
    hide Rewind;
  }

  // ---------- Rows are deleted only where a replaced block is seen ----------

  /** `built` is the block below `next` that a run can have built on: the cursor's, or one reported before reply `i`. */
  ghost predicate Built(cursor: Option<Cursor>, s: seq<Reply>, i: nat, next: int, built: Hash) {
    || cursor == Some(Cursor(next - 1, built))
    || exists j :: 0 <= j < i && j < |s| && !NoHash(s[j], next - 1) && s[j].view[next - 1] == built
  }

  /** Reply `i` reports a block at `next` that does not build on `built`. */
  ghost predicate BreaksLink(
      c: Config, cursor: Option<Cursor>, s: seq<Reply>, i: nat, next: int, built: Hash) {
    && i < |s| && !NoHash(s[i], next) && built != "" && Built(cursor, s, i, next, built)
    && c.block(s[i].view[next]).prev != built
  }

  ghost predicate LinkBroken(c: Config, cursor: Option<Cursor>, s: seq<Reply>) {
    exists i: nat, next: int, built: Hash :: BreaksLink(c, cursor, s, i, next, built)
  }

  lemma {:induction false} WithinGrows(c: Config, idx: Index, outs: seq<Output>, calls: nat)
    ensures Grows(idx, ProcessWithin(c.prims, idx, outs, calls).index)
    decreases |outs|
  {
    hide Grows, PersistWithin;
    if outs == [] {
      StaysGrown(idx);
    } else {
      var a := PersistWithin(c.prims, idx, outs[0], calls);
      PersistWithinGrows(c, idx, outs[0], calls);
      if a.ok {
        WithinGrows(c, a.index, outs[1..], a.left);
        GrowsTransitive(idx, a.index, ProcessWithin(c.prims, idx, outs, calls).index);
      }
    }
  }

  lemma StaysGrown(idx: Index)
    ensures Grows(idx, idx)
  {
  }

  lemma PersistWithinGrows(c: Config, idx: Index, o: Output, calls: nat)
    ensures Grows(idx, PersistWithin(c.prims, idx, o, calls).index)
  {
    hide Signed, RowOf, Grows;
    StaysGrown(idx);
    PutItemGrows(idx, o.base);
    PutRowGrows(idx.PutItem(o.base), RowOf(o));
    GrowsTransitive(idx, idx.PutItem(o.base), idx.PutItem(o.base).PutRow(RowOf(o)));
  }

  /** No row was deleted: there was no rewind, and every row is still there or, a vote, replaced by a later one. */
  ghost predicate NothingDeleted(before: Machine, after: Machine) {
    after.rewinds == before.rewinds && Grows(before.index, after.index)
  }

  /** A turn that does not rewind deletes nothing, and goes on from the block it asked for. */
  lemma TurnKeepsRows(c: Config, m: Machine, next: int, prev: Hash)
    ensures var (after, outcome) := Step(c, m, next, prev);
            var s := m.script;
            || (|s| >= 3 && !NoHash(s[1], next) && prev != "" && c.block(s[1].view[next]).prev != prev)
            || (&& NothingDeleted(m, after)
                && (outcome.Go? ==>
                     && |s| >= 3 && after.script == s[3..] && !NoHash(s[1], next)
                     && outcome == Go(next + 1, s[1].view[next])))
  {
    hide Rewind, ProcessWithin, RetryAllowed, Grows;
    StaysGrown(m.index);
    if |m.script| >= 3 && !NoHash(m.script[1], next) {
      WithinGrows(c, m.index, OutputsOf(c, m.script[1].view[next]), m.calls);
    }
  }

  lemma {:induction false} LoopDeletesOnlyOnReorg(
      c: Config, cursor: Option<Cursor>, s: seq<Reply>, m: Machine, i: nat, next: int, prev: Hash)
    requires i <= |s| && m.script == s[i..] && (prev == "" || Built(cursor, s, i, next, prev))
    ensures NothingDeleted(m, Loop(c, m, next, prev).0) || LinkBroken(c, cursor, s)
    decreases |m.script|
  {
    hide Step, Grows;
    var (after, outcome) := Step(c, m, next, prev);
    TurnKeepsRows(c, m, next, prev);
    if |m.script| >= 3 && !NoHash(m.script[1], next) && prev != "" && c.block(m.script[1].view[next]).prev != prev {
      BuiltStays(cursor, s, i, i + 1, next, prev);
      assert BreaksLink(c, cursor, s, i + 1, next, prev);
    } else if outcome.Go? {
      assert s[i + 1] == m.script[1] && m.script[3..] == s[i + 3..];
      LoopDeletesOnlyOnReorg(c, cursor, s, after, i + 3, outcome.next, outcome.prev);
      var end := Loop(c, after, outcome.next, outcome.prev).0;
      if NothingDeleted(after, end) {
        GrowsTransitive(m.index, after.index, end.index);
      }
    }
  }

  lemma BuiltStays(cursor: Option<Cursor>, s: seq<Reply>, i: nat, j: nat, next: int, built: Hash)
    requires i <= j && Built(cursor, s, i, next, built)
    ensures Built(cursor, s, j, next, built)
  {
  }

  /**
   * Whatever the node answers and whichever call fails, a run deletes no row unless the first answer
   * names another block than the cursor, or some answer reports a block that does not build on the
   * block the run had reached.
   */
  lemma {:induction false} DeletesOnlyOnReorg(c: Config, m: Machine)
    ensures NothingDeleted(m, Run(c, m).0) || CursorReplaced(m) || LinkBroken(c, m.cursor, m.script)
  {
    hide Rewind, Loop, Grows;
    StaysGrown(m.index);
    var (after, outcome) := Resume(c, m);
    if outcome.Go? && !CursorReplaced(m) {
      var i := if m.cursor.None? then 0 else 1;
      assert after.script == m.script[i..];
      LoopDeletesOnlyOnReorg(c, m.cursor, m.script, after, i, outcome.next, outcome.prev);
    }
  }

  /** Errors alone delete nothing: a node whose chain stays still may fail at any call. */
  lemma {:induction false} ErrorsDeleteNothing(c: Config, m: Machine, view: View)
    requires LinkedView(c, view) && forall i :: 0 <= i < |m.script| ==> m.script[i] in {Up(view), Down}
    requires m.cursor.Some? ==>
               var Cursor(h, hash) := m.cursor.value; h >= 0 && (h < |view| ==> view[h] == hash)
    ensures NothingDeleted(m, Run(c, m).0)
  {
    hide Run, Grows;
    DeletesOnlyOnReorg(c, m);
    if i: nat, next: int, built: Hash :| BreaksLink(c, m.cursor, m.script, i, next, built) {
      assert m.script[i] == Up(view);
      assert built == view[next - 1];
    }
  }
}

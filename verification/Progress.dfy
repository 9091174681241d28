/**
 * When a run ends, how often it rewinds, and what it does on a chain that stays still
 * (scanner/scanner.go: Run).
 */
module Progress {
  import opened Wrappers
  import opened IndexState
  import opened Indexing
  import opened Retry
  import opened Cuts
  import opened Chain
  import opened Runs
  import opened Soundness

  // ---------- Termination ----------

  /** How often the node's chain changes along a script, counted from `last`. */
  function Changes(last: View, script: seq<Reply>): nat
    requires forall i :: 0 <= i < |script| ==> script[i].Up?
    decreases |script|
  {
    if script == [] then 0
    else (if script[0].view != last then 1 else 0) + Changes(script[0].view, script[1..])
  }

  /** No call fails, and no chain has more than `limit` blocks. */
  ghost predicate Answers(c: Config, script: seq<Reply>, limit: nat) {
    forall i :: 0 <= i < |script| ==> script[i].Up? && LinkedView(c, script[i].view) && |script[i].view| <= limit
  }

  /** Skipping replies cannot add changes, and a reply that differs from `last` takes one. */
  lemma {:induction false} ChangesLeft(last: View, script: seq<Reply>, i: nat)
    requires (forall j :: 0 <= j < |script| ==> script[j].Up?) && i < |script|
    ensures Changes(script[i].view, script[i + 1..]) + (if script[i].view != last then 1 else 0)
         <= Changes(last, script)
    decreases i
  {
    if i > 0 {
      ChangesLeft(script[0].view, script[1..], i - 1);
    }
  }

  lemma {:induction false} ChangesFromOther(last: View, other: View, script: seq<Reply>)
    requires forall j :: 0 <= j < |script| ==> script[j].Up?
    ensures Changes(other, script) <= Changes(last, script) + (if other != last then 1 else 0)
  {
  }

  /** The loop builds on a block of the chain `last`. */
  predicate OnView(next: int, prev: Hash, last: View) {
    prev == "" || (0 <= next - 1 < |last| && last[next - 1] == prev)
  }

  function Max0(n: int): nat {
    if n < 0 then 0 else n
  }

  /** Replies that suffice for `k` more changes: at most four a turn, and at most one walk a change. */
  function Needed(c: Config, k: nat, next: int, limit: nat): nat {
    4 * (k * (Max0(limit - c.start) + 2) + Max0(limit - next) + 1)
  }

  lemma NeededDrops(c: Config, k: nat, next: int, target: int, limit: nat)
    requires target >= c.start
    ensures k > 0 ==> Needed(c, k - 1, target, limit) + 4 <= Needed(c, k, next, limit)
    ensures next < limit ==> Needed(c, k, next + 1, limit) + 4 <= Needed(c, k, next, limit)
    ensures forall j: nat :: j <= k ==> Needed(c, j, next, limit) <= Needed(c, k, next, limit)
  {
  }

  /** One turn of the loop when the node answers every call. */
  lemma StepOnAnswers(c: Config, m: Machine, next: int, prev: Hash)
    requires |m.script| >= 3 && m.script[0].Up? && m.script[1].Up? && m.script[2].Up?
    ensures var s := m.script;
            Step(c, m, next, prev) ==
              if next > |s[0].view| - 1 then (m.(script := s[1..]), Done)
              else if !(0 <= next < |s[1].view|) then (m.(script := s[2..]), Failed(RpcError))
              else if prev != "" && c.block(s[1].view[next]).prev != prev then Rewind(c, m.(script := s[3..]), next - 1)
              else Ingest(c, m.(script := s[3..]), next, s[1].view[next])
  {
  }

  lemma IngestProgress(c: Config, m: Machine, next: int, hash: Hash)
    ensures var (after, progress) := Ingest(c, m, next, hash);
            && after.script == m.script && after.rewinds == m.rewinds
            && (progress == Go(next + 1, hash) || progress == Failed(StoreError))
  {
  }

  /** One turn on a node that answers: it ends the run, advances on the same chain, or uses up a change. */
  lemma StepProgress(c: Config, m: Machine, next: int, prev: Hash, last: View, limit: nat) returns (seen: View)
    requires Answers(c, m.script, limit) && |m.script| >= 4
    requires next >= c.start && OnView(next, prev, last)
    ensures var (after, progress) := Step(c, m, next, prev);
            && progress != Failed(Unfinished)
            && (progress.Go? ==>
                 && |after.script| >= |m.script| - 4 && Answers(c, after.script, limit)
                 && progress.next >= c.start && OnView(progress.next, progress.prev, seen)
                 && if after.rewinds == m.rewinds
                    then progress.next == next + 1 <= limit && Changes(seen, after.script) <= Changes(last, m.script)
                    else after.rewinds == m.rewinds + 1 && Changes(seen, after.script) < Changes(last, m.script))
            && after.rewinds <= m.rewinds + Changes(last, m.script)
  {
    hide Step, Rewind, Ingest, Changes;
    var s := m.script;
    seen := s[1].view;
    StepOnAnswers(c, m, next, prev);
    ChangesLeft(last, s, 1);
    if next <= |s[0].view| - 1 && 0 <= next < |s[1].view| {
      var hash, m3 := s[1].view[next], m.(script := s[3..]);
      if prev != "" && c.block(hash).prev != prev {
        RewindProgress(c, m3, next - 1);
        seen := if Rewind(c, m3, next - 1).0.script == s[3..] then s[2].view else s[3].view;
        ChangesLeft(s[1].view, s[2..], 0);
        ChangesLeft(s[1].view, s[2..], 1);
        assert s[2..][0] == s[2] && s[2..][1] == s[3] && s[2..][1..] == s[3..] && s[2..][2..] == s[4..] == s[3..][1..];
      } else {
        IngestProgress(c, m3, next, hash);
        ChangesLeft(s[1].view, s[2..], 0);
        assert s[2..][0] == s[2] && s[2..][1..] == s[3..];
        ChangesFromOther(s[2].view, s[1].view, s[3..]);
      }
    }
  }

  lemma RewindProgress(c: Config, m: Machine, from: int)
    requires m.script != [] && m.script[0].Up? && LinkedView(c, m.script[0].view)
    ensures var (after, progress) := Rewind(c, m, from);
            && progress != Failed(Unfinished)
            && after.rewinds <= m.rewinds + 1
            && (progress.Go? ==>
                 && after.rewinds == m.rewinds + 1 && progress.next >= c.start
                 && (if after.cursor == m.cursor && progress.prev == ""
                     then after.script == m.script
                     else after.script == m.script[1..] && OnView(progress.next, progress.prev, m.script[0].view)))
  {
  }

  lemma {:induction false} LoopEnds(c: Config, m: Machine, next: int, prev: Hash, last: View, limit: nat)
    requires Answers(c, m.script, limit) && next >= c.start && OnView(next, prev, last)
    requires |m.script| >= Needed(c, Changes(last, m.script), next, limit)
    ensures var (after, progress) := Loop(c, m, next, prev);
            progress != Failed(Unfinished) && after.rewinds <= m.rewinds + Changes(last, m.script)
    decreases |m.script|
  {
    hide Step, Changes, OnView;
    StepConsumes(c, m, next, prev);
    var seen := StepProgress(c, m, next, prev, last, limit);
    var (after, progress) := Step(c, m, next, prev);
    if progress.Go? {
      NeededDrops(c, Changes(last, m.script), next, progress.next, limit);
      if after.rewinds != m.rewinds {
        NeededDrops(c, Changes(last, m.script) - 1, progress.next, progress.next, limit);
      } else {
        NeededDrops(c, Changes(last, m.script), progress.next, progress.next, limit);
      }
      LoopEnds(c, after, progress.next, progress.prev, seen, limit);
    }
  }

  /**
   * If no call to the node fails and its chain changes at most as often as `Changes` counts, a run
   * ends, and beyond the rewind of its start it rewinds at most once for each change.
   */
  lemma RunEnds(c: Config, m: Machine, limit: nat)
    requires Answers(c, m.script, limit) && |m.script| > 0
    requires m.cursor.Some? ==> m.cursor.value.height + 1 >= c.start
    requires |m.script| >= 2 + Needed(c, Changes(m.script[0].view, m.script[1..]), c.start, limit)
    ensures var (after, progress) := Run(c, m);
            && progress != Failed(Unfinished)
            && after.rewinds <= m.rewinds + 1 + Changes(m.script[0].view, m.script[1..])
  {
    hide Loop, Index.DeleteFromHeight, Index.VotesFrom, Needed, Rewind, LinkedView;
    var s := m.script;
    var k := Changes(s[0].view, s[1..]);
    var (after, progress) := Resume(c, m);
    var m1 := m.(calls := if m.calls > 0 then m.calls - 1 else 0);
    if m.calls > 0 && m.cursor.Some? && AskHash(m1, m.cursor.value.height).1.Success?
       && AskHash(m1, m.cursor.value.height).1.value != m.cursor.value.hash {
      RewindProgress(c, m1.(script := s[1..]), m.cursor.value.height);
    }
    if m.calls > 0 && progress.Go? {
      var seen := if after.script == s[2..] && |s| > 1 then s[1].view else s[0].view;
      assert Changes(s[0].view, s) == k;
      NeededDrops(c, k, progress.next, progress.next, limit);
      NeededFromStart(c, k, progress.next, limit);
      LoopEnds(c, after, progress.next, progress.prev, seen, limit);
    }
  }

  lemma NeededFromStart(c: Config, k: nat, next: int, limit: nat)
    requires next >= c.start
    ensures Needed(c, k, next, limit) <= Needed(c, k, c.start, limit)
  {
  }

  // ---------- A chain that stays still ----------

  /** The node keeps reporting the chain `v`. */
  ghost predicate Still(c: Config, script: seq<Reply>, v: View) {
    LinkedView(c, v) && forall i :: 0 <= i < |script| ==> script[i] == Up(v)
  }

  ghost function AtTip(v: View): Option<Cursor>
    requires v != []
  {
    Some(Cursor(|v| - 1, v[|v| - 1]))
  }

  /** The messages of `v` from the height `next` on. */
  function Remaining(c: Config, v: View, next: nat): seq<Output>
    requires next <= |v| && v != []
  {
    ChainOutputs(c, v[|v| - 1], |v| - next)
  }

  lemma RemainingNext(c: Config, v: View, next: nat)
    requires LinkedView(c, v) && next < |v|
    ensures Remaining(c, v, next) == OutputsOf(c, v[next]) + Remaining(c, v, next + 1)
  {
    hide OutputsOf, LinkedView;
    var n := |v| - next;
    BackInView(c, v, |v| - 1, n - 1);
    ChainSplit(c, v[|v| - 1], n, n - 1);
    assert ChainOutputs(c, v[next], 1) == [] + OutputsOf(c, v[next]);
  }

  lemma StillAtTip(c: Config, m: Machine, next: int, prev: Hash, v: View)
    requires Still(c, m.script, v) && next == |v| && m.script != []
    ensures Step(c, m, next, prev) == (m.(script := m.script[1..]), Done)
  {
  }

  lemma StillTurn(c: Config, m: Machine, next: int, prev: Hash, v: View)
    requires Still(c, m.script, v) && |m.script| >= 3 && 0 <= next < |v| && OnView(next, prev, v)
    ensures Step(c, m, next, prev) == Ingest(c, m.(script := m.script[3..]), next, v[next])
    ensures Still(c, m.script[3..], v) && OnView(next + 1, v[next], v)
  {
    hide Rewind, Ingest, Step;
    StepOnAnswers(c, m, next, prev);
  }

  /** The loop on a still chain. */
  lemma {:induction false} StillLoop(c: Config, m: Machine, next: int, prev: Hash, v: View)
    requires Still(c, m.script, v) && 0 <= next <= |v| && v != [] && OnView(next, prev, v)
    requires |m.script| >= 3 * (|v| - next) + 1
    requires next == |v| ==> m.cursor == AtTip(v)
    ensures var (after, progress) := Loop(c, m, next, prev);
            && (progress == Done || progress == Failed(StoreError))
            && (m.calls >= 3 * |Remaining(c, v, next)| + |v| - next ==> progress == Done)
            && after.rewinds == m.rewinds
            && (progress == Done ==>
                 && after.cursor == AtTip(v)
                 && after.residue == (if next < |v| then Clean else m.residue)
                 && (after.trusted <==> m.trusted && (next < |v| ==> RetryAllowed(c, m.residue, next, v[next])))
                 && after.index == Process(c.prims, m.index, Remaining(c, v, next))
                 && after.lost == (if next < |v| then m.lost - after.index.votes.Keys else m.lost))
    decreases |m.script|
  {
    hide OutputsOf, ProcessWithin, Process, Rewind, Step, NoLateAcceptance, Remaining, Ingest, Still, OnView;
    if next < |v| {
      var m3 := m.(script := m.script[3..]);
      StillTurn(c, m, next, prev, v) by { assert Still(c, m.script, v); }
      var (after, progress) := Ingest(c, m3, next, v[next]);
      RemainingNext(c, v, next) by { StillIsLinked(c, m.script, v); }
      StillIngest(c, m3, next, v[next], Remaining(c, v, next + 1));
      if progress.Go? {
        StillLoop(c, after, next + 1, v[next], v);
        ProcessGrows(c.prims, after.index, Remaining(c, v, next + 1));
        var votes := Process(c.prims, after.index, Remaining(c, v, next + 1)).votes;
        assert m.lost - after.index.votes.Keys - votes.Keys == m.lost - votes.Keys;
        if next + 1 == |v| {
          NothingRemains(c, after.index, v);
        }
      }
    } else {
      StillAtTip(c, m, next, prev, v);
      NothingRemains(c, m.index, v);
    }
  }

  lemma StillIsLinked(c: Config, script: seq<Reply>, v: View)
    requires Still(c, script, v)
    ensures LinkedView(c, v)
  {
  }

  lemma NothingRemains(c: Config, index: Index, v: View)
    requires v != []
    ensures Process(c.prims, index, Remaining(c, v, |v|)) == index
  {
  }

  /** One block of a still chain, with the messages `later` behind it. */
  lemma StillIngest(c: Config, m: Machine, next: int, hash: Hash, later: seq<Output>)
    ensures var (after, progress) := Ingest(c, m, next, hash);
            var outs := OutputsOf(c, hash);
            && after.rewinds == m.rewinds && after.script == m.script
            && (progress == Failed(StoreError) || progress == Go(next + 1, hash))
            && (progress.Go? ==>
                 && after.cursor == Some(Cursor(next, hash)) && after.residue.Clean?
                 && after.trusted == (m.trusted && RetryAllowed(c, m.residue, next, hash))
                 && after.lost == m.lost - after.index.votes.Keys
                 && Process(c.prims, after.index, later) == Process(c.prims, m.index, outs + later))
            && (m.calls > 3 * |outs| ==> progress.Go? && after.calls + 3 * |outs| + 1 >= m.calls)
  {
    hide OutputsOf, ProcessWithin, Process, RetryAllowed;
    var outs := OutputsOf(c, hash);
    if m.calls > 3 * |outs| {
      EnoughCalls(c.prims, m.index, outs, m.calls);
    }
    if ProcessWithin(c.prims, m.index, outs, m.calls).ok {
      FinishedIsProcessed(c.prims, m.index, outs, m.calls);
      ProcessAppend(c.prims, m.index, outs, later);
    }
  }

  /** The cursor names a block of `v`. */
  predicate OnChain(cursor: Option<Cursor>, v: View) {
    cursor.Some? ==> 0 <= cursor.value.height < |v| && v[cursor.value.height] == cursor.value.hash
  }

  /** The height after the cursor. */
  function NextHeight(c: Config, cursor: Option<Cursor>): int {
    match cursor
    case None => c.start
    case Some(Cursor(h, _)) => h + 1
  }

  /** A rewind on a still chain. */
  lemma StillRewind(c: Config, m: Machine, h: int, v: View)
    requires Still(c, m.script, v) && m.script != [] && 0 <= c.start < |v| && 0 <= h < |v|
    ensures var t, rest := Target(c, h), m.script[1..];
            && (t > c.start ==> 0 <= t - 1 < |v|)
            && Rewind(c, m, h) ==
               if m.calls == 0 then (m, Failed(StoreError))
               else if t <= c.start then (Deleted(m, t), Go(c.start, ""))
               else if m.calls == 1 then (Deleted(m, t).(script := rest), Failed(StoreError))
               else
                 (Deleted(m, t).(
                    script := rest, cursor := Some(Cursor(t - 1, v[t - 1])), calls := m.calls - 2, residue := Clean,
                    trusted := m.trusted && AnchorAgrees(c, m.cursor, t - 1, v[t - 1])),
                  Go(t, v[t - 1]))
  {
    hide Index.DeleteFromHeight, Index.VotesFrom, AnchorAgrees;
  }

  /** Resuming on a still chain. */
  lemma StillResume(c: Config, m: Machine, v: View)
    requires Still(c, m.script, v) && |m.script| >= 3 * |v| + 3 && 0 <= c.start < |v|
    requires m.cursor.Some? ==> 0 <= m.cursor.value.height < |v|
    ensures var (after, progress) := Resume(c, m);
            && progress != Done && (progress.Failed? ==> progress == Failed(StoreError))
            && (m.calls >= 3 ==> progress.Go? && after.calls >= m.calls - 3)
            && after.rewinds <= m.rewinds + 1
            && (progress.Go? ==>
                 && Still(c, after.script, v) && |after.script| >= 3 * |v| + 1
                 && 0 <= progress.next <= |v| && OnView(progress.next, progress.prev, v)
                 && (progress.next == |v| ==> after.cursor == AtTip(v))
                 && (after.trusted <==>
                      m.trusted && ForkInReach(c, m.cursor, v)
                      && !(m.residue.StaleCursor? && m.cursor.Some? && OnChain(m.cursor, v)))
                 && if OnChain(m.cursor, v)
                    then after.residue == m.residue && progress.next == NextHeight(c, m.cursor)
                    else !after.residue.HalfDone? && progress.next < |v|)
  {
    hide Index.DeleteFromHeight, Index.VotesFrom, Back, LinkedView;
    var s := m.script;
    assert s[1..][1..] == s[2..] && s[0] == Up(v) && s[1] == Up(v);
    if m.calls > 0 && !OnChain(m.cursor, v) {
      StillRewind(c, m.(calls := m.calls - 1, script := s[1..]), m.cursor.value.height, v);
    }
  }

  /** The cursor is on the chain `v`, or the fork from it lies within reach of a rewind. */
  predicate ForkInReach(c: Config, cursor: Option<Cursor>, v: View) {
    match cursor
    case None => true
    case Some(Cursor(h, hash)) =>
      var t := Target(c, h);
      OnChain(cursor, v) || t <= c.start || (0 < t <= |v| && AnchorAgrees(c, cursor, t - 1, v[t - 1]))
  }

  /**
   * On a chain that stays still and is at least as high as the cursor and the start height, a run
   * with enough replies ends unless the store fails, without a rewind in the loop, and leaves the
   * cursor at the tip, whatever an earlier run left in the store. Enough store calls are stated.
   */
  lemma StillRunCatchesUp(c: Config, m: Machine, v: View)
    requires Still(c, m.script, v) && 0 <= c.start < |v|
    requires m.cursor.Some? ==> 0 <= m.cursor.value.height < |v|
    requires |m.script| >= 3 * |v| + 3
    ensures var (after, progress) := Run(c, m);
            && (progress == Done || progress == Failed(StoreError))
            && (m.calls >= 3 + 3 * |Remaining(c, v, 0)| + |v| ==> progress == Done)
            && after.rewinds <= m.rewinds + 1
            && (progress == Done ==> after.cursor == AtTip(v))
  {
    hide Loop, Resume, ForkInReach, Remaining, Still, OnView, RetryAllowed;
    StillResume(c, m, v);
    var (after, progress) := Resume(c, m);
    if progress.Go? {
      StillLoop(c, after, progress.next, progress.prev, v);
      LessRemains(c, v, progress.next) by { StillIsLinked(c, m.script, v); }
    }
  }

  lemma {:induction false} LessRemains(c: Config, v: View, next: nat)
    requires LinkedView(c, v) && next <= |v| && v != []
    ensures |Remaining(c, v, next)| <= |Remaining(c, v, 0)|
  {
    hide LinkedView, Remaining, OutputsOf;
    if next > 0 {
      LessRemains(c, v, next - 1);
      RemainingNext(c, v, next - 1);
    }
  }

  /**
   * What a run from a sound store needs of a still chain, for each thing the last run may have left:
   * the fork is in reach; a stale cursor is off the chain; a block begun comes again, if any does,
   * and may be repeated.
   */
  predicate Recovers(c: Config, m: Machine, v: View) {
    && ForkInReach(c, m.cursor, v)
    && (m.residue.StaleCursor? ==> !OnChain(m.cursor, v))
    && var next := NextHeight(c, m.cursor);
       m.residue.HalfDone? && OnChain(m.cursor, v) && 0 <= next < |v| ==> RetryAllowed(c, m.residue, next, v[next])
  }

  /**
   * On such a chain a run that ends from a sound store, even one broken off in a block or a rewind,
   * keeps its trust exactly when it recovers. The store is then the index of a plain pass over the
   * whole chain, unless a block was begun beyond the tip and is still to come.
   */
  lemma StillRunRecovers(c: Config, m: Machine, v: View)
    requires Trustworthy(c) && Still(c, m.script, v) && 0 <= c.start < |v|
    requires m.cursor.Some? ==> 0 <= m.cursor.value.height < |v|
    requires |m.script| >= 3 * |v| + 3
    requires Rests(c, m) && m.trusted && Run(c, m).1 == Done
    ensures var after := Run(c, m).0;
            && (after.trusted <==> Recovers(c, m, v))
            && (after.trusted && m.residue.HalfDone? && m.cursor == AtTip(v) ==> after.residue == m.residue)
            && (after.trusted && !(m.residue.HalfDone? && m.cursor == AtTip(v)) ==>
                 after.residue.Clean? && Short(after.index, Fresh(c, v[|v| - 1], |v| - c.start), after.lost))
  {
    hide Loop, Resume, Short, Fresh, Index.DeleteFromHeight, Rooted, Back, Trustworthy, Still, NoLateAcceptance;
    hide Remaining, ForkInReach, OnView, Process, Contents, OutputsOf;
    StillResume(c, m, v);
    StillRunCatchesUp(c, m, v);
    var (after, progress) := Resume(c, m);
    StillLoop(c, after, progress.next, progress.prev, v);
    StillLinkedReplies(c, m.script, v);
    RunKeeps(c, m);
    var end := Run(c, m).0;
    if end.trusted && end.residue.Clean? {
      CleanIsPlainPass(c, end);
    }
  }

  lemma StillLinkedReplies(c: Config, script: seq<Reply>, v: View)
    requires Still(c, script, v)
    ensures LinkedReplies(c, script)
  {
  }
}

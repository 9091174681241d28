/**
 * Which node behaviour keeps the conditions the scanner relies on, over any number of runs
 * (scanner/scanner.go: Run, resume, rewind).
 */
module Forks {
  import opened Wrappers
  import opened IndexState
  import opened Indexing
  import opened Retry
  import opened Chain
  import opened Runs
  import opened Soundness
  import opened Progress

  // ---------- Chains reported over time ----------

  /** `w`, reported after `v`, has replaced at most the newest `depth + 1` blocks of `v`. */
  predicate Keeps(c: Config, v: View, w: View) {
    forall i :: 0 <= i < |w| && i < |v| - c.depth - 1 ==> v[i] == w[i]
  }

  /** Every chain is linked, and no later chain replaces more of an earlier one. */
  ghost predicate Steady(c: Config, replies: seq<Reply>) {
    && LinkedReplies(c, replies)
    && forall i, j :: 0 <= i < j < |replies| && replies[i].Up? && replies[j].Up? ==>
         Keeps(c, replies[i].view, replies[j].view)
  }

  /** No chain still to come replaces more of `v`. */
  ghost predicate KeptBy(c: Config, v: View, ahead: seq<Reply>) {
    LinkedView(c, v) && forall j :: 0 <= j < |ahead| && ahead[j].Up? ==> Keeps(c, v, ahead[j].view)
  }

  ghost predicate Holds(c: Config, v: View, h: int, hash: Hash, ahead: seq<Reply>) {
    KeptBy(c, v, ahead) && 0 <= h < |v| && v[h] == hash
  }

  /** The block the cursor names was reported before, on such a chain. */
  ghost predicate Seen(c: Config, cursor: Option<Cursor>, ahead: seq<Reply>) {
    cursor.Some? ==> exists v :: Holds(c, v, cursor.value.height, cursor.value.hash, ahead)
  }

  lemma SteadyTail(c: Config, replies: seq<Reply>, k: nat)
    requires Steady(c, replies) && k <= |replies|
    ensures Steady(c, replies[k..])
    ensures forall i :: 0 <= i < k && replies[i].Up? ==> KeptBy(c, replies[i].view, replies[k..])
  {
    hide Keeps, LinkedView;
  }

  lemma SeenTail(c: Config, cursor: Option<Cursor>, ahead: seq<Reply>, k: nat)
    requires Seen(c, cursor, ahead) && k <= |ahead|
    ensures Seen(c, cursor, ahead[k..])
  {
    hide Keeps, LinkedView;
    if cursor.Some? {
      var v :| Holds(c, v, cursor.value.height, cursor.value.hash, ahead);
      assert Holds(c, v, cursor.value.height, cursor.value.hash, ahead[k..]);
    }
  }

  /** The machine between two calls, with all the replies to come in this run and in later ones. */
  ghost predicate Informed(c: Config, m: Machine, later: seq<Reply>) {
    Steady(c, m.script + later) && Seen(c, m.cursor, m.script + later)
  }

  lemma InformedTail(c: Config, m: Machine, later: seq<Reply>, k: nat)
    requires Informed(c, m, later) && k <= |m.script|
    ensures Informed(c, m.(script := m.script[k..]), later)
  {
    hide Steady, Seen;
    assert (m.script + later)[k..] == m.script[k..] + later;
    SteadyTail(c, m.script + later, k);
    SeenTail(c, m.cursor, m.script + later, k);
  }

  /** Saving a block that one of the replies used up had on its chain. */
  lemma InformedSave(c: Config, m: Machine, later: seq<Reply>, k: nat, i: nat, h: int)
    requires Informed(c, m, later) && i < k <= |m.script| && m.script[i].Up? && 0 <= h < |m.script[i].view|
    ensures Informed(c, m.(script := m.script[k..], cursor := Some(Cursor(h, m.script[i].view[h]))), later)
  {
    hide Keeps, LinkedView, KeptBy, Steady;
    assert (m.script + later)[k..] == m.script[k..] + later && (m.script + later)[i] == m.script[i];
    SteadyTail(c, m.script + later, k);
    assert Holds(c, m.script[i].view, h, m.script[i].view[h], m.script[k..] + later);
  }

  /** So far down, the node's block is the ancestor of the block the cursor names. */
  lemma SeenAnchorAgrees(c: Config, cursor: Option<Cursor>, ahead: seq<Reply>)
    requires cursor.Some? && Seen(c, cursor, ahead) && ahead != [] && ahead[0].Up?
    requires var t := Target(c, cursor.value.height); t > c.start && 0 <= t - 1 < |ahead[0].view|
    ensures var a := Target(c, cursor.value.height) - 1; AnchorAgrees(c, cursor, a, ahead[0].view[a])
  {
    hide LinkedView;
    var Cursor(h, hash) := cursor.value;
    var a := Target(c, h) - 1;
    var v: View :| Holds(c, v, h, hash, ahead);
    assert Keeps(c, v, ahead[0].view);
    BackInView(c, v, h, h - a);
  }

  // ---------- The steps ----------

  /** While the loop builds on a block, the cursor names it. */
  predicate CursorIs(cursor: Option<Cursor>, next: int, prev: Hash) {
    prev != "" ==> cursor == Some(Cursor(next - 1, prev))
  }

  /** What every step keeps on a steady chain. */
  ghost predicate Faithful(c: Config, r: (Machine, Outcome), later: seq<Reply>) {
    && r.0.trusted && Informed(c, r.0, later)
    && (r.1.Go? ==> CursorIs(r.0.cursor, r.1.next, r.1.prev))
  }

  lemma RewindStaysTrusted(c: Config, m: Machine, later: seq<Reply>)
    requires m.trusted && m.cursor.Some? && Informed(c, m, later)
    ensures Faithful(c, Rewind(c, m, m.cursor.value.height), later)
    ensures Rewind(c, m, m.cursor.value.height).1.Go? ==> !Rewind(c, m, m.cursor.value.height).0.residue.HalfDone?
  {
    hide Index.DeleteFromHeight, Index.VotesFrom, AnchorAgrees, Steady, Seen;
    var t := Target(c, m.cursor.value.height);
    if m.calls > 0 && t > c.start && m.script != [] {
      assert Informed(c, Deleted(m, t), later);
      InformedTail(c, Deleted(m, t), later, 1);
      if m.script[0].Up? && 0 <= t - 1 < |m.script[0].view| {
        SeenAnchorAgrees(c, m.cursor, m.script + later);
        InformedSave(c, Deleted(m, t), later, 1, 0, t - 1);
      }
    }
  }

  /** The block the next turn of the loop takes up, if the node answers and the block builds on `prev`. */
  function Offered(c: Config, m: Machine, next: int, prev: Hash): Option<Hash> {
    var (m1, tip) := Ask(m);
    if tip.Failure? || next > |tip.value| - 1 then None
    else
      var (m2, hash) := AskHash(m1, next);
      if hash.Failure? || Ask(m2).1.Failure? then None
      else if prev != "" && c.block(hash.value).prev != prev then None
      else Some(hash.value)
  }

  lemma IngestStaysTrusted(c: Config, m: Machine, next: int, hash: Hash, later: seq<Reply>)
    requires m.trusted && RetryAllowed(c, m.residue, next, hash)
    requires Informed(c, m, later) && Informed(c, m.(cursor := Some(Cursor(next, hash))), later)
    ensures Faithful(c, Ingest(c, m, next, hash), later)
    ensures Ingest(c, m, next, hash).1.Go? ==> Ingest(c, m, next, hash).0.residue.Clean?
  {
    hide OutputsOf, ProcessWithin, Steady, Seen, RetryAllowed;
  }

  lemma StepStaysTrusted(c: Config, m: Machine, next: int, prev: Hash, later: seq<Reply>)
    requires m.trusted && Informed(c, m, later) && CursorIs(m.cursor, next, prev)
    requires m.residue.HalfDone? && Offered(c, m, next, prev).Some? ==>
               RetryAllowed(c, m.residue, next, Offered(c, m, next, prev).value)
    ensures Faithful(c, Step(c, m, next, prev), later)
    ensures Step(c, m, next, prev).1.Go? ==> !Step(c, m, next, prev).0.residue.HalfDone?
  {
    hide OutputsOf, ProcessWithin, Rewind, Informed, NoLateAcceptance, Fresh;
    var s := m.script;
    var m1 := Ask(m).0;
    var m2 := AskHash(m1, next).0;
    var m3 := Ask(m2).0;
    if s != [] {
      InformedTail(c, m, later, 1);
      if |s| > 1 {
        assert s[1..][1..] == s[2..];
        InformedTail(c, m, later, 2);
        if |s| > 2 {
          assert s[2..][1..] == s[3..];
          InformedTail(c, m, later, 3);
          if Offered(c, m, next, prev).Some? {
            InformedSave(c, m, later, 3, 1, next);
            IngestStaysTrusted(c, m3, next, s[1].view[next], later);
          } else if Ask(m).1.Success? && next <= |Ask(m).1.value| - 1 && AskHash(m1, next).1.Success?
                 && Ask(m2).1.Success? {
            RewindStaysTrusted(c, m3, later);
          }
        }
      }
    }
  }

  lemma {:induction false} LoopStaysTrusted(c: Config, m: Machine, next: int, prev: Hash, later: seq<Reply>)
    requires m.trusted && Informed(c, m, later) && CursorIs(m.cursor, next, prev)
    requires m.residue.HalfDone? && Offered(c, m, next, prev).Some? ==>
               RetryAllowed(c, m.residue, next, Offered(c, m, next, prev).value)
    ensures Loop(c, m, next, prev).0.trusted && Informed(c, Loop(c, m, next, prev).0, later)
    decreases |m.script|
  {
    hide Step, Informed, RetryAllowed, Offered;
    StepConsumes(c, m, next, prev);
    StepStaysTrusted(c, m, next, prev, later);
    var (after, progress) := Step(c, m, next, prev);
    if progress.Go? {
      LoopStaysTrusted(c, after, progress.next, progress.prev, later);
    }
  }

  /**
   * What a run has to meet for what the last one left: a stale cursor block is not on the chain when
   * the run resumes, and a block begun is the one the run takes up next, if any, and may be repeated.
   */
  predicate Resumable(c: Config, m: Machine) {
    match m.residue
    case Clean => true
    case StaleCursor => m.script != [] && m.script[0].Up? ==> !OnChain(m.cursor, m.script[0].view)
    case HalfDone(_) =>
      var (after, progress) := Resume(c, m);
      progress.Go? && after.residue.HalfDone? ==>
        match Offered(c, after, progress.next, progress.prev)
        case None => true
        case Some(hash) => RetryAllowed(c, m.residue, progress.next, hash)
  }

  /**
   * If no reported chain replaces more than the newest `depth + 1` blocks of an earlier one, a run
   * that is resumable keeps every condition it relies on, however far the chain grows.
   */
  lemma ShallowRunStaysTrusted(c: Config, m: Machine, later: seq<Reply>)
    requires m.trusted && Informed(c, m, later) && Resumable(c, m)
    requires m.residue.StaleCursor? ==> m.cursor.Some?
    ensures Run(c, m).0.trusted && Informed(c, Run(c, m).0, later)
  {
    hide Loop, Rewind, Informed, Offered, RetryAllowed;
    var (after, progress) := Resume(c, m);
    if m.calls > 0 && m.cursor.Some? && m.script != [] {
      var asked := m.(calls := m.calls - 1, script := m.script[1..]);
      InformedTail(c, m, later, 1);
      SameInformed(c, m.(script := m.script[1..]), asked, later);
      if m.script[0].Up? && 0 <= m.cursor.value.height < |m.script[0].view| && !OnChain(m.cursor, m.script[0].view) {
        RewindStaysTrusted(c, asked, later);
      } else {
        SameInformed(c, asked, after, later);
      }
    } else {
      SameInformed(c, m, after, later);
    }
    if progress.Go? {
      LoopStaysTrusted(c, after, progress.next, progress.prev, later);
    }
  }

  lemma SameInformed(c: Config, a: Machine, b: Machine, later: seq<Reply>)
    requires a.script == b.script && a.cursor == b.cursor
    ensures Informed(c, a, later) <==> Informed(c, b, later)
  {
  }

  // ---------- Sessions ----------

  function AllReplies(runs: seq<Conditions>): seq<Reply> {
    if runs == [] then [] else runs[0].script + AllReplies(runs[1..])
  }

  /** Every run of a session is resumable. */
  predicate AllResumable(c: Config, m: Machine, runs: seq<Conditions>)
    decreases |runs|
  {
    runs == [] ||
    (Resumable(c, Prepared(m, runs[0])) && AllResumable(c, Run(c, Prepared(m, runs[0])).0, runs[1..]))
  }

  ghost predicate Ready(c: Config, m: Machine, ahead: seq<Reply>) {
    && m.trusted && Steady(c, ahead) && Seen(c, m.cursor, ahead)
    && (m.residue.StaleCursor? ==> m.cursor.Some?)
  }

  lemma {:induction false} ShallowSessionStaysTrusted(c: Config, m: Machine, runs: seq<Conditions>)
    requires Trustworthy(c) && Rests(c, m)
    requires Ready(c, m, AllReplies(runs)) && AllResumable(c, m, runs)
    ensures Session(c, m, runs).trusted && Rests(c, Session(c, m, runs))
    decreases |runs|
  {
    hide Run, Steady, Seen, Trustworthy, Rests, Resumable;
    if runs != [] {
      var p, rest := Prepared(m, runs[0]), AllReplies(runs[1..]);
      assert Informed(c, p, rest);
      LinkedFirst(c, runs[0].script, rest);
      SameRest(c, m, p);
      ShallowRunStaysTrusted(c, p, rest);
      RunKeeps(c, p);
      var next := Run(c, p).0;
      InformedLater(c, next, rest);
      if next.residue.StaleCursor? {
        StaleHasCursor(c, next);
      }
      ShallowSessionStaysTrusted(c, next, runs[1..]);
    }
  }

  lemma LinkedFirst(c: Config, script: seq<Reply>, later: seq<Reply>)
    requires Steady(c, script + later)
    ensures LinkedReplies(c, script)
  {
    hide LinkedView, Keeps;
    forall i | 0 <= i < |script| && script[i].Up?
      ensures LinkedView(c, script[i].view)
    {
      assert (script + later)[i] == script[i];
    }
  }

  lemma SameRest(c: Config, a: Machine, b: Machine)
    requires a.index == b.index && a.cursor == b.cursor && a.residue == b.residue && a.lost == b.lost
    requires a.trusted == b.trusted
    ensures Rests(c, a) <==> Rests(c, b)
  {
  }

  lemma InformedLater(c: Config, m: Machine, later: seq<Reply>)
    requires Informed(c, m, later)
    ensures Steady(c, later) && Seen(c, m.cursor, later)
  {
    hide Steady, Seen;
    assert (m.script + later)[|m.script|..] == later;
    SteadyTail(c, m.script + later, |m.script|);
    SeenTail(c, m.cursor, m.script + later, |m.script|);
  }

  lemma StaleHasCursor(c: Config, m: Machine)
    requires Rests(c, m) && m.trusted && m.residue.StaleCursor?
    ensures m.cursor.Some?
  {
  }

  /**
   * If over a whole session no reported chain replaces more than the newest `depth + 1` blocks of an
   * earlier one, and each run broken off half way is followed by one that can resume from it, the
   * scanner never loses its trust: with nothing half done the store is the index of a plain pass
   * over the chain that ends in the cursor, and otherwise what is half done is all that differs.
   */
  lemma {:induction false} ShallowForksIndexPlainly(c: Config, runs: seq<Conditions>)
    requires Trustworthy(c) && Steady(c, AllReplies(runs)) && AllResumable(c, NEW_STORE, runs)
    ensures var m := Session(c, NEW_STORE, runs);
            && m.trusted && AtRest(c, m.index, m.cursor, m.residue, m.lost)
            && (m.residue.Clean? ==> IsPlainPass(c, m))
  {
    hide Session, AllResumable, IsPlainPass, Trustworthy, Steady, AllReplies, AtRest;
    NewStoreRests(c);
    ShallowSessionStaysTrusted(c, NEW_STORE, runs);
    var m := Session(c, NEW_STORE, runs);
    if m.residue.Clean? {
      CleanIsPlainPass(c, m);
    }
  }
}

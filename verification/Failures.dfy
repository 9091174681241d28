/**
 * What happens when a condition the scanner relies on fails: for each of the three, exactly when
 * the store is wrong afterwards (scanner/scanner.go: rewind, resume).
 */
module Failures {
  import opened Wrappers
  import opened Messages
  import opened Crypto
  import opened OutpointKey
  import opened IndexState
  import opened Indexing
  import opened Retry
  import opened MapFacts
  import opened Cuts
  import opened Chain
  import opened Runs
  import opened Soundness
  import opened Progress

  /** The same index but for votes under the keys `lost`. */
  ghost predicate SameBut(a: Index, b: Index, lost: set<VoteKey>) {
    SameCore(a, b) && a.votes - lost == b.votes - lost
  }

  /** `a` is the index `b`, short of the votes under the keys `lost`, but for votes under the keys `cast`. */
  ghost predicate ShortBut(a: Index, b: Index, lost: set<VoteKey>, cast: set<VoteKey>) {
    SameCore(a, b) && a.votes - cast == b.votes - (lost + cast)
  }

  /** Every row but the votes of `a` stands in `b`. */
  ghost predicate RowsIn(a: Index, b: Index) {
    && Extends(a.items, b.items) && Extends(a.topics, b.topics)
    && Extends(a.stories, b.stories) && Extends(a.comments, b.comments)
  }

  lemma ShortOfEither(x: Index, a: Index, b: Index, lost: set<VoteKey>)
    requires Short(x, a, lost)
    ensures Short(x, b, lost) <==> SameBut(a, b, lost)
  {
  }

  // ---------- Later blocks repair nothing ----------

  lemma InverseDetermines(a: Index, b: Index)
    requires a.OutpointInverse() && b.OutpointInverse() && a.items == b.items
    ensures a.byOut == b.byOut
  {
  }

  /** What a pass adds to the items lies no lower than its messages. */
  lemma {:induction false} AddedItemsAbove(p: Primitives, idx: Index, outs: seq<Output>, t: int)
    requires AllFrom(outs, t)
    ensures forall id :: id in Process(p, idx, outs).items && id !in idx.items ==>
      Process(p, idx, outs).items[id].height >= t
    decreases |outs|
  {
    if outs != [] {
      var next := Persist(p, idx, outs[0]);
      AddedItemsAbove(p, next, outs[1..], t);
      ProcessGrows(p, next, outs[1..]);
    }
  }

  lemma {:induction false} ItemsBelowAgree(p: Primitives, x: Index, a: Index, outs: seq<Output>, t: int)
    requires RowsBelow(x, t) && AllFrom(outs, t)
    requires Process(p, x, outs).items == Process(p, a, outs).items
    ensures Extends(x.items, a.items)
  {
    hide Process, AllFrom, VotesAdvance, RowsBelow, Extends;
    ProcessGrows(p, x, outs);
    ProcessGrows(p, a, outs);
    AddedItemsAbove(p, a, outs, t);
    LowItems(x, t);
    LowRowsKept(x.items, a.items, Process(p, a, outs).items, t);
  }

  lemma LowItems(x: Index, t: int)
    requires RowsBelow(x, t)
    ensures forall id :: id in x.items ==> x.items[id].height < t
  {
    forall id | id in x.items
      ensures x.items[id].height < t
    {
      assert id !in x.ItemsFrom(t);
    }
  }

  lemma LowRowsKept(x: map<ItemID, Item>, a: map<ItemID, Item>, end: map<ItemID, Item>, t: int)
    requires Extends(x, end) && Extends(a, end) && forall id :: id in x ==> x[id].height < t
    requires forall id :: id in end && id !in a ==> end[id].height >= t
    ensures Extends(x, a)
  {
  }

  /** If two indexes below a height become the same through the blocks above it, they are the same. */
  lemma CoreWasTheSame(p: Primitives, x: Index, a: Index, outs: seq<Output>, t: int)
    requires Tidy(x) && Tidy(a) && RowsBelow(x, t) && RowsBelow(a, t) && Fits(a, outs) && AllFrom(outs, t)
    requires SameCore(Process(p, x, outs), Process(p, a, outs))
    ensures SameCore(x, a)
  {
    hide Process, Tidy, Fits, AllFrom;
    ItemsBelowAgree(p, x, a, outs, t);
    ItemsBelowAgree(p, a, x, outs, t);
    assert x.items == a.items;
    InverseDetermines(x, a) by { TidyIsInverse(x); TidyIsInverse(a); }
    SamePlacesFit(x, a, outs);
    CutForgetsSuffix(p, x, outs, t);
    CutForgetsSuffix(p, a, outs, t);
    CutOfBelow(x, t);
    CutOfBelow(a, t);
    CutOfSameCore(Process(p, x, outs), Process(p, a, outs), t);
  }

  lemma TidyIsInverse(idx: Index)
    requires Tidy(idx)
    ensures idx.OutpointInverse()
  {
  }

  lemma SamePlacesFit(x: Index, a: Index, outs: seq<Output>)
    requires x.items == a.items && x.byOut == a.byOut && Fits(a, outs)
    ensures Fits(x, outs)
  {
  }

  lemma CutOfSameCore(a: Index, b: Index, t: int)
    requires SameCore(a, b)
    ensures SameCore(a.DeleteFromHeight(t), b.DeleteFromHeight(t))
  {
  }

  lemma {:induction false} ProcessKeepsSameCore(p: Primitives, x: Index, a: Index, outs: seq<Output>)
    requires SameCore(x, a)
    ensures SameCore(Process(p, x, outs), Process(p, a, outs)) && VotesCast(p, x, outs) == VotesCast(p, a, outs)
    decreases |outs|
  {
    hide SameCore;
    if outs != [] {
      PersistKeepsSameCore(p, x, a, outs[0]);
      ItemsOfSameCore(x, a);
      ProcessKeepsSameCore(p, Persist(p, x, outs[0]), Persist(p, a, outs[0]), outs[1..]);
    }
  }

  lemma ItemsOfSameCore(x: Index, a: Index)
    requires SameCore(x, a)
    ensures x.items == a.items
  {
  }

  lemma LowVotesBefore(idx: Index, outs: seq<Output>, t: int)
    requires RowsBelow(idx, t) && AllFrom(outs, t)
    ensures VotesBefore(idx.votes, outs)
  {
    forall k, o | k in idx.votes && o in outs
      ensures Before(idx.votes[k].Pos(), o.base.Pos())
    {
      assert k !in idx.VotesFrom(t);
    }
  }

  /** Under the keys voted on, later blocks leave the same votes whatever there was before. */
  lemma CastVotesAgree(p: Primitives, x: Index, a: Index, outs: seq<Output>, t: int)
    requires SameCore(x, a) && RowsBelow(x, t) && RowsBelow(a, t) && AllFrom(outs, t) && Ascending(outs)
    ensures var px, pa, cast := Process(p, x, outs).votes, Process(p, a, outs).votes, VotesCast(p, a, outs);
            && px - cast == x.votes - cast && pa - cast == a.votes - cast
            && forall k :: k in cast ==> k in px && k in pa && px[k] == pa[k]
  {
    hide Process, VotesCast, RowsBelow, AllFrom;
    var none := x.(votes := map[]);
    var cast := VotesCast(p, a, outs);
    LowVotesBefore(x, outs, t);
    LowVotesBefore(a, outs, t);
    ProcessKeepsSameCore(p, x, a, outs);
    VotesOfSuffix(p, x, outs, t);
    VotesOfSuffix(p, a, outs, t);
    ProcessKeepsShort(p, none, x, outs, x.votes.Keys);
    ProcessKeepsShort(p, none, a, outs, a.votes.Keys);
    var pn := Process(p, none, outs).votes;
    forall k | k in cast
      ensures k in Process(p, x, outs).votes && Process(p, x, outs).votes[k] == Process(p, a, outs).votes[k]
    {
      assert k !in a.votes.Keys - cast && k !in x.votes.Keys - cast;
      assert k in pn;
    }
  }

  lemma SameBeyond(a: VoteMap, b: VoteMap, cast: set<VoteKey>)
    requires a - cast == b - cast
    ensures forall k :: k !in cast ==> (k in a <==> k in b) && (k in a ==> a[k] == b[k])
  {
    forall k | k !in cast
      ensures (k in a <==> k in b) && (k in a ==> a[k] == b[k])
    {
      assert k in a - cast <==> k in b - cast;
      assert k in a ==> (a - cast)[k] == (b - cast)[k];
    }
  }

  lemma VotesBeyondCast(
      x: VoteMap, a: VoteMap, px: VoteMap, pa: VoteMap, cast: set<VoteKey>, lost: set<VoteKey>)
    requires px - cast == x - cast && pa - cast == a - cast && lost !! x.Keys
    requires forall k :: k in cast ==> k in px && k in pa && px[k] == pa[k]
    ensures px == pa - (lost - px.Keys) <==> x - cast == a - (lost + cast)
  {
    SameBeyond(px, x, cast);
    SameBeyond(pa, a, cast);
    if px == pa - (lost - px.Keys) {
      forall k | k !in cast
        ensures (k in x <==> k in a && k !in lost) && (k in x ==> x[k] == a[k])
      {
        assert k in px <==> k in pa && k !in lost - px.Keys;
      }
    }
    if x - cast == a - (lost + cast) {
      forall k
        ensures (k in px <==> k in pa && k !in lost - px.Keys) && (k in px ==> px[k] == pa[k])
      {
        assert k !in cast ==> (k in x - cast <==> k in a - (lost + cast));
        assert k !in cast && k in x ==> (x - cast)[k] == (a - (lost + cast))[k];
      }
    }
  }

  /**
   * Indexing later blocks repairs nothing and breaks nothing: what comes of `x` is what comes of
   * `a`, short of the lost votes, exactly when `x` is `a`, but for the votes cast again.
   */
  lemma {:induction false} LaterBlocksRepairNothing(
      p: Primitives, x: Index, a: Index, outs: seq<Output>, t: int, lost: set<VoteKey>)
    requires Tidy(x) && Tidy(a) && RowsBelow(x, t) && RowsBelow(a, t)
    requires Fits(a, outs) && AllFrom(outs, t) && Ascending(outs) && lost !! x.votes.Keys
    ensures var end, cast := Process(p, x, outs), VotesCast(p, a, outs);
            Short(end, Process(p, a, outs), lost - end.votes.Keys) <==>
              ShortBut(x, a, lost, cast)
  {
    hide Process, Tidy, RowsBelow, Fits, AllFrom, Ascending, VotesCast;
    if SameCore(Process(p, x, outs), Process(p, a, outs)) {
      CoreWasTheSame(p, x, a, outs, t);
    }
    if SameCore(x, a) {
      ProcessKeepsSameCore(p, x, a, outs);
      CastVotesAgree(p, x, a, outs, t);
      VotesBeyondCast(
        x.votes, a.votes, Process(p, x, outs).votes, Process(p, a, outs).votes, VotesCast(p, a, outs), lost);
    }
  }

  // ---------- A fork deeper than the rewind ----------

  lemma {:induction false} RootedStartsAbove(c: Config, hash: Hash, n: nat)
    requires Rooted(c, hash, n) && n > 0
    ensures c.start >= 0
    decreases n
  {
    if n > 1 {
      RootedStartsAbove(c, c.block(hash).prev, n - 1);
    }
  }

  lemma {:induction false} ViewIsRooted(c: Config, v: View, h: nat, n: nat)
    requires LinkedView(c, v) && h < |v| && 0 <= c.start && n == h + 1 - c.start
    ensures Rooted(c, v[h], n)
    decreases n
  {
    if n > 1 {
      ViewIsRooted(c, v, h - 1, n - 1);
    }
  }

  /** A rewind that saves an anchor. */
  lemma AnchorSaved(c: Config, m: Machine, h: int)
    requires LinkedReplies(c, m.script) && Rewind(c, m, h).1.Go? && Rewind(c, m, h).1.prev != ""
    ensures var (after, progress), t := Rewind(c, m, h), Target(c, h);
            && m.calls > 0 && t > c.start && t >= 1 && progress == Go(t, progress.prev)
            && after.index == m.index.DeleteFromHeight(t) && after.lost == m.lost + m.index.VotesFrom(t)
            && after.cursor == Some(Cursor(t - 1, progress.prev)) && after.residue.Clean?
            && exists v :: LinkedView(c, v) && t - 1 < |v| && v[t - 1] == progress.prev
  {
    hide Index.DeleteFromHeight, Index.VotesFrom, AnchorAgrees, LinkedReplies, LinkedView;
    if m.calls > 0 && Target(c, h) > c.start {
      AskedHash(c, Deleted(m, Target(c, h)), Target(c, h) - 1);
    }
  }

  /**
   * A rewind that saves an anchor from a trusted store leaves the plain index of the anchor's chain
   * exactly when that chain and the one the cursor named give the same index below the rewind
   * target, but for votes that are missing anyway.
   */
  lemma {:induction false} DeepForkExactly(c: Config, m: Machine)
    requires Trustworthy(c) && LinkedReplies(c, m.script) && Rests(c, m) && m.trusted && m.cursor.Some?
    requires var r := Rewind(c, m, m.cursor.value.height); r.1.Go? && r.1.prev != ""
    ensures var (after, progress) := Rewind(c, m, m.cursor.value.height);
            var Cursor(h, hash) := m.cursor.value;
            var t := Target(c, h);
            && c.start < t <= h && after.residue.Clean?
            && (IsPlainPass(c, after) <==>
                 SameBut(
                   Fresh(c, Back(c, hash, h + 1 - t), t - c.start), Fresh(c, progress.prev, t - c.start), after.lost))
  {
    hide Fresh, Back, Rooted, Short, SameBut, Index.DeleteFromHeight, Index.VotesFrom, LinkedView, Rests;
    hide Rewind, LinkedReplies, Trustworthy;
    var Cursor(h, hash) := m.cursor.value;
    var t := Target(c, h);
    var (after, progress) := Rewind(c, m, h);
    RestIsCuttable(c, m);
    AnchorSaved(c, m, h);
    RootedStartsAbove(c, hash, h + 1 - c.start);
    var v :| LinkedView(c, v) && t - 1 < |v| && v[t - 1] == progress.prev;
    ViewIsRooted(c, v, t - 1, t - c.start);
    ShortOfEither(
      after.index, Fresh(c, Back(c, hash, h + 1 - t), t - c.start), Fresh(c, progress.prev, t - c.start), after.lost);
  }

  lemma FreshIsBelow(c: Config, hash: Hash, n: nat)
    requires Trustworthy(c) && Rooted(c, hash, n)
    ensures RowsBelow(Fresh(c, hash, n), c.start + n) && Tidy(Fresh(c, hash, n))
  {
    hide Process, Trustworthy, Rooted;
    ChainFits(c, hash, n);
    ChainAscends(c, hash, n);
    RowsStayBelow(c.prims, EMPTY, ChainOutputs(c, hash, n), c.start + n);
  }

  /** The same at the end of a run over the rest of a still chain. */
  lemma RestOfChain(c: Config, v: View, next: nat, x: Index, lost: set<VoteKey>)
    requires Trustworthy(c) && LinkedView(c, v) && 0 <= c.start < next <= |v|
    requires Tidy(x) && RowsBelow(x, next) && lost !! x.votes.Keys
    ensures var tip, n := v[|v| - 1], |v| - c.start;
            var a, recent := Fresh(c, v[next - 1], next - c.start), Remaining(c, v, next);
            var end, cast := Process(c.prims, x, recent), VotesCast(c.prims, a, recent);
            && Rooted(c, tip, n)
            && (Short(end, Fresh(c, tip, n), lost - end.votes.Keys) <==>
                 ShortBut(x, a, lost, cast))
  {
    hide Fresh, Back, Rooted, Short, SameCore, Tidy, RowsBelow, Fits, Trustworthy, LinkedView, AllFrom, Ascending;
    hide VotesBefore, Process, VotesCast;
    var tip, n, k := v[|v| - 1], |v| - c.start, |v| - next;
    ViewIsRooted(c, v, |v| - 1, n);
    ViewIsRooted(c, v, next - 1, next - c.start);
    BackInView(c, v, |v| - 1, k);
    RecentFits(c, tip, n, k);
    RecentIsLater(c, tip, n, k);
    RecentIsAbove(c, tip, n, k);
    FreshIsBelow(c, v[next - 1], next - c.start);
    LaterBlocksRepairNothing(
      c.prims, x, Fresh(c, v[next - 1], next - c.start), Remaining(c, v, next), next, lost);
  }

  /** `x`, short of some votes of `plain`, compared with `a` but for further votes. */
  lemma ShortButMore(x: Index, plain: Index, a: Index, lost: set<VoteKey>, cast: set<VoteKey>)
    requires Short(x, plain, lost)
    ensures ShortBut(x, a, lost, cast) <==> SameBut(plain, a, lost + cast)
  {
    DropInTurn(plain.votes, lost, cast);
  }

  lemma ShortIsTidy(x: Index, plain: Index, lost: set<VoteKey>)
    requires Short(x, plain, lost) && Tidy(plain)
    ensures Tidy(x) && lost !! x.votes.Keys
  {
  }

  /**
   * The same at the end of a run on a chain that stays still: the blocks indexed after the rewind
   * make up for nothing but the votes cast in them, and the rows below the target all stay.
   */
  lemma {:induction false} DeepForkAtTip(c: Config, m: Machine, v: View)
    requires Trustworthy(c) && Still(c, m.script, v) && |m.script| >= 3 * |v| + 3 && 0 <= c.start < |v|
    requires Rests(c, m) && m.trusted && Run(c, m).1 == Done
    requires m.cursor.Some? && 0 <= m.cursor.value.height < |v| && !OnChain(m.cursor, v)
    requires Target(c, m.cursor.value.height) > c.start
    ensures var after, Cursor(h, hash) := Run(c, m).0, m.cursor.value;
            var t := Target(c, h);
            var indexed, theirs := Fresh(c, Back(c, hash, h + 1 - t), t - c.start), Fresh(c, v[t - 1], t - c.start);
            var missing := m.lost + m.index.VotesFrom(t) + VotesCast(c.prims, theirs, Remaining(c, v, t));
            && after.residue.Clean? && after.cursor == AtTip(v) && RowsIn(indexed, after.index)
            && (IsPlainPass(c, after) <==> SameBut(indexed, theirs, missing))
  {
    hide Fresh, Back, Rooted, Short, SameBut, Index.DeleteFromHeight, Index.VotesFrom, LinkedView, Rests, Tidy;
    hide Rewind, Trustworthy, AnchorAgrees, Remaining, VotesCast, Still, RowsBelow, Process, Loop, SameCore;
    hide RetryAllowed, RowsIn, Extends, VotesAdvance;
    var Cursor(h, hash) := m.cursor.value;
    var t := Target(c, h);
    var m1 := m.(calls := m.calls - 1, script := m.script[1..]);
    assert m.calls > 0 && Resume(c, m) == Rewind(c, m1, h) && Still(c, m1.script, v) by {
      RunsFromStill(c, m, v);
    }
    StillRewind(c, m1, h, v);
    var (resumed, progress) := Rewind(c, m1, h);
    assert Still(c, resumed.script, v) && OnView(t, v[t - 1], v) by { StillRest(c, m1.script, v); }
    StillLoop(c, resumed, t, v[t - 1], v);
    RestIsCuttable(c, m);
    var indexed, x, lost := Fresh(c, Back(c, hash, h + 1 - t), t - c.start), resumed.index, resumed.lost;
    RootedBack(c, hash, h + 1 - c.start, h + 1 - t);
    FreshIsBelow(c, Back(c, hash, h + 1 - t), t - c.start);
    ShortIsTidy(x, indexed, lost);
    CutIsBelow(m.index, t);
    StillIsLinked(c, m.script, v);
    RestOfChain(c, v, t, x, lost);
    var theirs := Fresh(c, v[t - 1], t - c.start);
    ShortButMore(x, indexed, theirs, lost, VotesCast(c.prims, theirs, Remaining(c, v, t)));
    ProcessGrows(c.prims, x, Remaining(c, v, t));
    ShortRowsStay(indexed, x, Process(c.prims, x, Remaining(c, v, t)), lost);
  }

  lemma ShortRowsStay(plain: Index, x: Index, end: Index, lost: set<VoteKey>)
    requires Short(x, plain, lost) && Grows(x, end)
    ensures RowsIn(plain, end)
  {
  }

  lemma RunsFromStill(c: Config, m: Machine, v: View)
    requires Still(c, m.script, v) && m.script != [] && Run(c, m).1 == Done
    requires m.cursor.Some? && 0 <= m.cursor.value.height < |v|
    ensures m.calls > 0 && Still(c, m.script[1..], v)
    ensures var m1 := m.(calls := m.calls - 1, script := m.script[1..]);
            Resume(c, m) ==
              if OnChain(m.cursor, v)
              then (m1.(trusted := m.trusted && !m.residue.StaleCursor?),
                    Go(m.cursor.value.height + 1, m.cursor.value.hash))
              else Rewind(c, m1, m.cursor.value.height)
  {
    hide Rewind, LinkedView, Loop;
  }

  lemma StillRest(c: Config, script: seq<Reply>, v: View)
    requires Still(c, script, v) && script != []
    ensures Still(c, script[1..], v)
  {
    hide LinkedView;
  }

  // ---------- A stale cursor whose block is on the chain again ----------

  lemma SameParts<K, V>(m: map<K, V>, n: map<K, V>, a: set<K>, b: set<K>)
    requires m - a == n - b && m - (m.Keys - a) == n - (n.Keys - b)
    ensures m == n
  {
    forall k | k in m
      ensures k in n && n[k] == m[k]
    {
      assert k in m - a || k in m - (m.Keys - a);
    }
    forall k | k in n
      ensures k in m
    {
      assert k in n - b || k in n - (n.Keys - b);
    }
  }

  /** Indexes with the same cut are the same when the rows the cut deletes are. */
  lemma CoreFromParts(x: Index, a: Index, t: int)
    requires SameCore(x.DeleteFromHeight(t), a.DeleteFromHeight(t))
    ensures SameCore(x, a) <==> SameCore(x.RowsFrom(t), a.RowsFrom(t))
  {
    hide KeysOf, Index.ItemsFrom, Index.TopicsFrom, Index.VotesFrom;
    if SameCore(x.RowsFrom(t), a.RowsFrom(t)) {
      SameParts(x.items, a.items, x.ItemsFrom(t), a.ItemsFrom(t));
      SameParts(x.byOut, a.byOut, KeysOf(x.items, x.ItemsFrom(t)), KeysOf(a.items, a.ItemsFrom(t)));
      SameParts(x.topics, a.topics, x.TopicsFrom(t), a.TopicsFrom(t));
      SameParts(x.stories, a.stories, x.ItemsFrom(t), a.ItemsFrom(t));
      SameParts(x.comments, a.comments, x.ItemsFrom(t), a.ItemsFrom(t));
    }
    if SameCore(x, a) {
      SameRowsFrom(x, a, t);
    }
  }

  lemma SameRowsFrom(x: Index, a: Index, t: int)
    requires SameCore(x, a)
    ensures SameCore(x.RowsFrom(t), a.RowsFrom(t))
  {
    assert x.ItemsFrom(t) == a.ItemsFrom(t) && x.TopicsFrom(t) == a.TopicsFrom(t);
  }

  /** The same for votes, of which some are missing on the left. */
  lemma VotesFromParts(x: Index, a: Index, below: VoteMap, lost: set<VoteKey>, t: int, cast: set<VoteKey>)
    requires x.votes - x.VotesFrom(t) == below - (lost + x.VotesFrom(t))
    requires a.votes - a.VotesFrom(t) == below - a.VotesFrom(t)
    ensures x.votes - cast == a.votes - (lost + cast) <==>
      x.RowsFrom(t).votes - cast == a.RowsFrom(t).votes - (lost + cast)
  {
    var xv, av, xt, at := x.votes, a.votes, x.RowsFrom(t).votes, a.RowsFrom(t).votes;
    forall k
      ensures (k in xv && k !in x.VotesFrom(t) <==> k in below && k !in lost && k !in x.VotesFrom(t))
      ensures (k in av && k !in a.VotesFrom(t) <==> k in below && k !in a.VotesFrom(t))
      ensures k in xv && k !in x.VotesFrom(t) ==> xv[k] == below[k]
      ensures k in av && k !in a.VotesFrom(t) ==> av[k] == below[k]
    {
      assert k in xv - x.VotesFrom(t) <==> k in below - (lost + x.VotesFrom(t));
      assert k in av - a.VotesFrom(t) <==> k in below - a.VotesFrom(t);
      assert k in xv - x.VotesFrom(t) ==> (xv - x.VotesFrom(t))[k] == (below - (lost + x.VotesFrom(t)))[k];
      assert k in av - a.VotesFrom(t) ==> (av - a.VotesFrom(t))[k] == (below - a.VotesFrom(t))[k];
    }
    if xv - cast == av - (lost + cast) {
      SameButPointwise(xv, av, lost, cast);
      PointwiseSameBut(xt, at, lost, cast);
    }
    if xt - cast == at - (lost + cast) {
      SameButPointwise(xt, at, lost, cast);
      PointwiseSameBut(xv, av, lost, cast);
    }
  }

  lemma SameButPointwise(x: VoteMap, a: VoteMap, lost: set<VoteKey>, cast: set<VoteKey>)
    requires x - cast == a - (lost + cast)
    ensures forall k :: k !in cast ==> (k in x <==> k in a && k !in lost) && (k in x ==> x[k] == a[k])
  {
    forall k | k !in cast
      ensures (k in x <==> k in a && k !in lost) && (k in x ==> x[k] == a[k])
    {
      assert k in x - cast <==> k in a - (lost + cast);
      assert k in x - cast ==> (x - cast)[k] == (a - (lost + cast))[k];
    }
  }

  lemma PointwiseSameBut(x: VoteMap, a: VoteMap, lost: set<VoteKey>, cast: set<VoteKey>)
    requires forall k :: k !in cast ==> (k in x <==> k in a && k !in lost) && (k in x ==> x[k] == a[k])
    ensures x - cast == a - (lost + cast)
  {
  }

  /**
   * Of two indexes that a cut takes to the same one, but for votes, it is decided above the cut
   * whether they are the same, but for votes.
   */
  lemma RowsDecide(x: Index, a: Index, below: Index, lost: set<VoteKey>, t: int, cast: set<VoteKey>)
    requires Short(x.DeleteFromHeight(t), below, lost + x.VotesFrom(t))
    requires Short(a.DeleteFromHeight(t), below, a.VotesFrom(t))
    ensures ShortBut(x, a, lost, cast) <==> ShortBut(x.RowsFrom(t), a.RowsFrom(t), lost, cast)
  {
    hide Index.RowsFrom, SameCore;
    assert SameCore(x.DeleteFromHeight(t), a.DeleteFromHeight(t)) by {
      SameCoreAcross(x.DeleteFromHeight(t), below, a.DeleteFromHeight(t));
    }
    CoreFromParts(x, a, t);
    VotesFromParts(x, a, below.votes, lost, t, cast);
  }

  lemma SameCoreAcross(a: Index, b: Index, z: Index)
    requires SameCore(a, b) && SameCore(z, b)
    ensures SameCore(a, z)
  {
  }

  lemma ButNothing(a: Index, b: Index, lost: set<VoteKey>)
    ensures ShortBut(a, b, lost, {}) <==> Short(a, b, lost)
  {
    assert a.votes - {} == a.votes && lost + {} == lost;
  }

  /** The rows that a rewind from a stale cursor would delete, on the left those of the store. */
  lemma StaleRowsDecide(c: Config, m: Machine, cast: set<VoteKey>)
    requires Trustworthy(c) && Cuttable(c, m.index, m.cursor, m.lost)
    ensures var Cursor(h, hash) := m.cursor.value;
            var t, plain := Target(c, h), Fresh(c, hash, h + 1 - c.start);
            ShortBut(m.index, plain, m.lost, cast) <==>
              ShortBut(m.index.RowsFrom(t), plain.RowsFrom(t), m.lost, cast)
  {
    hide Fresh, Back, Rooted, Short, ShortBut, Trustworthy, Index.DeleteFromHeight, Index.RowsFrom, Index.VotesFrom;
    var Cursor(h, hash) := m.cursor.value;
    var n, t := h + 1 - c.start, Target(c, h);
    CutIsShorterChain(c, hash, n, h + 1 - t);
    RowsDecide(m.index, Fresh(c, hash, n), Fresh(c, Back(c, hash, h + 1 - t), t - c.start), m.lost, t, cast);
  }

  /**
   * Resuming on a stale cursor goes on above the rows that were deleted, and above any part of a first
   * block written since. The store is then a plain pass exactly when it holds, from the rewind target
   * up, the rows of the chain that ends in the cursor.
   */
  lemma {:induction false} StaleCursorExactly(c: Config, m: Machine, v: View)
    requires Trustworthy(c) && Rests(c, m) && m.trusted && m.residue.StaleCursor?
    requires m.calls > 0 && m.script != [] && m.script[0] == Up(v) && OnChain(m.cursor, v)
    ensures var (after, progress) := Resume(c, m);
            var Cursor(h, hash) := m.cursor.value;
            var t, plain := Target(c, h), Fresh(c, hash, h + 1 - c.start);
            && progress == Go(h + 1, hash) && after.cursor == m.cursor && after.index == m.index
            && (IsPlainPass(c, after) <==> Short(m.index.RowsFrom(t), plain.RowsFrom(t), m.lost))
  {
    hide Fresh, Back, Rooted, Short, ShortBut, Trustworthy, RowsBelow, Index.DeleteFromHeight, Index.RowsFrom;
    hide Index.VotesFrom, Interrupted;
    var Cursor(h, hash) := m.cursor.value;
    var plain := Fresh(c, hash, h + 1 - c.start);
    StaleRowsDecide(c, m, {});
    ButNothing(m.index, plain, m.lost);
    ButNothing(m.index.RowsFrom(Target(c, h)), plain.RowsFrom(Target(c, h)), m.lost);
  }

  lemma {:induction false} NothingAdded(p: Primitives, idx: Index, outs: seq<Output>)
    requires Fits(idx, outs) && Process(p, idx, outs).items == idx.items
    ensures Process(p, idx, outs) == idx
    decreases |outs|
  {
    if outs != [] {
      ProcessGrows(p, Persist(p, idx, outs[0]), outs[1..]);
      assert IsNew(idx, outs[0].base);
      assert !Accepts(p, idx, outs[0]) by {
        if Accepts(p, idx, outs[0]) {
          AcceptedIsStored(p, idx, outs[0]);
        }
      }
      FitsNext(p, idx, outs);
      NothingAdded(p, idx, outs[1..]);
    }
  }

  /** The newest `k` blocks of a chain change nothing but votes only if they change nothing at all. */
  lemma NothingKept(c: Config, hash: Hash, n: nat, k: nat, lost: set<VoteKey>)
    requires Trustworthy(c) && Rooted(c, hash, n) && k <= n
    ensures SameBut(Fresh(c, Back(c, hash, k), n - k), Fresh(c, hash, n), lost)
       <==> Fresh(c, hash, n) == Fresh(c, Back(c, hash, k), n - k)
  {
    hide Fresh, Back, Rooted, Trustworthy, Process, ChainOutputs, Fits, Tidy;
    RecentFits(c, hash, n, k);
    var below, recent := Fresh(c, Back(c, hash, k), n - k), ChainOutputs(c, hash, k);
    if SameBut(below, Fresh(c, hash, n), lost) {
      NothingAdded(c.prims, below, recent);
    }
  }

  /** After the delete, before anything else was written, the store is the plain index below. */
  lemma JustDeleted(c: Config, m: Machine)
    requires Trustworthy(c) && Rests(c, m) && m.trusted && m.residue.StaleCursor?
    requires RowsBelow(m.index, Target(c, m.cursor.value.height))
    ensures var Cursor(h, hash) := m.cursor.value;
            var t := Target(c, h);
            && c.start <= t <= h && Rooted(c, hash, h + 1 - c.start)
            && Short(m.index, Fresh(c, Back(c, hash, h + 1 - t), t - c.start), m.lost)
  {
    hide Fresh, Back, Rooted, Short, Index.DeleteFromHeight, Interrupted;
    CutOfBelow(m.index, Target(c, m.cursor.value.height));
    assert m.lost + {} == m.lost;
  }

  /** If the delete was the last write, that is so exactly when the deleted blocks hold no message that is kept. */
  lemma {:induction false} StaleCursorAfterDelete(c: Config, m: Machine, v: View)
    requires Trustworthy(c) && Rests(c, m) && m.trusted && m.residue.StaleCursor?
    requires m.calls > 0 && m.script != [] && m.script[0] == Up(v) && OnChain(m.cursor, v)
    requires RowsBelow(m.index, Target(c, m.cursor.value.height))
    ensures var Cursor(h, hash) := m.cursor.value;
            var n, k := h + 1 - c.start, h + 1 - Target(c, h);
            IsPlainPass(c, Resume(c, m).0) <==> Fresh(c, hash, n) == Fresh(c, Back(c, hash, k), n - k)
  {
    hide Fresh, Back, Rooted, Short, SameBut, Trustworthy, RowsBelow, Index.DeleteFromHeight, Interrupted;
    var Cursor(h, hash) := m.cursor.value;
    var n, k := h + 1 - c.start, h + 1 - Target(c, h);
    JustDeleted(c, m);
    ShortOfEither(m.index, Fresh(c, Back(c, hash, k), n - k), Fresh(c, hash, n), m.lost);
    NothingKept(c, hash, n, k, m.lost);
  }

  lemma LowerIsBelow(idx: Index, t: int, h: int)
    requires RowsBelow(idx, t) && t <= h
    ensures RowsBelow(idx, h)
  {
  }

  /** A stale store is tidy and has nothing above the cursor. */
  lemma StaleIsTidy(c: Config, m: Machine)
    requires Trustworthy(c) && Rests(c, m) && m.trusted && m.residue.StaleCursor?
    ensures Tidy(m.index) && RowsBelow(m.index, m.cursor.value.height + 1)
  {
    hide Fresh, Back, Rooted, Trustworthy, RowsBelow, Tidy, Index.DeleteFromHeight, Process, IsPartway, OutputsOf;
    hide Index.VotesFrom;
    var Cursor(h, hash) := m.cursor.value;
    var t := Target(c, h);
    if RowsBelow(m.index, t) {
      JustDeleted(c, m);
      RootedBack(c, hash, h + 1 - c.start, h + 1 - t);
      FreshIsBelow(c, Back(c, hash, h + 1 - t), t - c.start);
      ShortIsTidy(m.index, Fresh(c, Back(c, hash, h + 1 - t), t - c.start), m.lost);
      LowerIsBelow(m.index, t, h + 1);
    } else {
      var b :| IsBegun(c, m.index, b);
      FirstBlockPart(c, m.index, b);
      LowerIsBelow(m.index, c.start + 1, h + 1);
    }
  }

  lemma FirstBlockPart(c: Config, part: Index, b: Hash)
    requires Trustworthy(c) && IsBegun(c, part, b)
    ensures Tidy(part) && RowsBelow(part, c.start + 1)
  {
    hide Fresh, Trustworthy, Process, OutputsOf, AllFrom;
    NoBlocks(c, c.block(b).prev);
    ShortOfNothing(EMPTY, {});
    NextFits(c, EMPTY, b, 0, {});
    BlockIsBelow(c, b, 0);
    PartIsTidy(c.prims, EMPTY, OutputsOf(c, b), part, c.start + 1);
  }

  lemma BlockIsBelow(c: Config, b: Hash, n: nat)
    requires Trustworthy(c) && Rooted(c, b, n + 1)
    ensures AllBelow(OutputsOf(c, b), c.start + n + 1)
  {
    hide Outputs, Trustworthy, Ascending;
    ChainAscends(c, b, n + 1);
    assert forall o :: o in OutputsOf(c, b) ==> o in ChainOutputs(c, b, n + 1);
  }

  /** A part of a block leaves a tidy store with nothing above the block. */
  lemma PartIsTidy(p: Primitives, whole: Index, outs: seq<Output>, part: Index, t: int)
    requires Tidy(whole) && Fits(whole, outs) && RowsBelow(whole, t) && AllBelow(outs, t)
    requires IsPartway(p, whole, outs, part)
    ensures Tidy(part) && RowsBelow(part, t)
  {
    hide Process, Tidy, RowsBelow, AllBelow, AllFrom, Fits;
    var i: nat, half: bool :| Partway(p, whole, outs, i, half, part);
    var x := After(p, whole, outs, i);
    assert outs == outs[..i] + outs[i..];
    FrontIsTidy(p, whole, outs, i, t);
    if half {
      FitsAfter(p, whole, outs[..i], outs[i..]);
      FirstIsNew(x, outs[i..]);
      assert outs[i..][0] == outs[i];
      PutKeepsTidy(x, outs[i].base, NoRow);
      PutItemStaysBelow(x, outs[i].base, t) by { BelowAt(outs, i, t); }
    }
  }

  lemma FirstIsNew(idx: Index, outs: seq<Output>)
    requires Fits(idx, outs) && outs != []
    ensures IsNew(idx, outs[0].base)
  {
  }

  lemma BelowAt(outs: seq<Output>, i: nat, t: int)
    requires AllBelow(outs, t) && i < |outs|
    ensures outs[i].base.height < t
  {
  }

  lemma FrontIsTidy(p: Primitives, idx: Index, outs: seq<Output>, i: nat, t: int)
    requires Tidy(idx) && Fits(idx, outs) && RowsBelow(idx, t) && AllBelow(outs, t) && i <= |outs|
    ensures Tidy(After(p, idx, outs, i)) && RowsBelow(After(p, idx, outs, i), t)
  {
    hide Process, Tidy, RowsBelow, IsNew;
    assert Fits(idx, outs[..i]) && AllBelow(outs[..i], t) && AllFrom(outs[..i], 0);
    CutForgetsSuffix(p, idx, outs[..i], 0);
    RowsStayBelow(p, idx, outs[..i], t);
  }

  /**
   * And no later block makes up for it: the same holds at the end of a run on a still chain, but for
   * votes cast again.
   */
  lemma {:induction false} StaleCursorAtTip(c: Config, m: Machine, v: View)
    requires Trustworthy(c) && Still(c, m.script, v) && |m.script| >= 3 * |v| + 3 && 0 <= c.start < |v|
    requires Rests(c, m) && m.trusted && m.residue.StaleCursor? && OnChain(m.cursor, v) && Run(c, m).1 == Done
    ensures var after, Cursor(h, hash) := Run(c, m).0, m.cursor.value;
            var t, plain := Target(c, h), Fresh(c, hash, h + 1 - c.start);
            var cast := VotesCast(c.prims, plain, Remaining(c, v, h + 1));
            && after.cursor == AtTip(v) && after.index == Process(c.prims, m.index, Remaining(c, v, h + 1))
            && (IsPlainPass(c, after) <==> ShortBut(m.index.RowsFrom(t), plain.RowsFrom(t), m.lost, cast))
  {
    hide Fresh, Back, Rooted, Short, ShortBut, Index.VotesFrom, Index.RowsFrom, LinkedView, Rests, Tidy, Interrupted;
    hide Rewind, Trustworthy, Remaining, VotesCast, Still, RowsBelow, Process, Loop, SameCore, RetryAllowed;
    hide Index.DeleteFromHeight;
    StaleIsCuttable(c, m);
    var Cursor(h, hash) := m.cursor.value;
    var plain := Fresh(c, hash, h + 1 - c.start);
    RunsFromStill(c, m, v);
    var (resumed, progress) := Resume(c, m);
    StillLoop(c, resumed, h + 1, hash, v);
    StaleIsTidy(c, m);
    StillIsLinked(c, m.script, v);
    RestOfChain(c, v, h + 1, m.index, m.lost);
    StaleRowsDecide(c, m, VotesCast(c.prims, plain, Remaining(c, v, h + 1)));
    if h + 1 == |v| {
      NothingRemains(c, m.index, v);
      assert m.lost - m.index.votes.Keys == m.lost;
    }
  }

  lemma StaleIsCuttable(c: Config, m: Machine)
    requires Rests(c, m) && m.trusted && m.residue.StaleCursor?
    ensures Cuttable(c, m.index, m.cursor, m.lost) && m.lost !! m.index.votes.Keys
  {
  }

  /** If the delete was the last write before that run, it is again whether the deleted blocks hold a kept message. */
  lemma {:induction false} StaleCursorAtTipAfterDelete(c: Config, m: Machine, v: View)
    requires Trustworthy(c) && Still(c, m.script, v) && |m.script| >= 3 * |v| + 3 && 0 <= c.start < |v|
    requires Rests(c, m) && m.trusted && m.residue.StaleCursor? && OnChain(m.cursor, v) && Run(c, m).1 == Done
    requires RowsBelow(m.index, Target(c, m.cursor.value.height))
    ensures var Cursor(h, hash) := m.cursor.value;
            var n, k := h + 1 - c.start, h + 1 - Target(c, h);
            IsPlainPass(c, Run(c, m).0) <==> Fresh(c, hash, n) == Fresh(c, Back(c, hash, k), n - k)
  {
    hide Fresh, Back, Rooted, Short, ShortBut, SameBut, Index.VotesFrom, Index.RowsFrom, LinkedView, Rests;
    hide Trustworthy, Remaining, VotesCast, Still, RowsBelow, Process, Run, Index.DeleteFromHeight, IsPlainPass;
    StaleIsCuttable(c, m);
    var Cursor(h, hash) := m.cursor.value;
    var n, t := h + 1 - c.start, Target(c, h);
    var below, plain := Fresh(c, Back(c, hash, h + 1 - t), t - c.start), Fresh(c, hash, n);
    var cast := VotesCast(c.prims, plain, Remaining(c, v, h + 1));
    StaleCursorAtTip(c, m, v);
    StaleRowsDecide(c, m, cast);
    JustDeleted(c, m);
    ShortButMore(m.index, below, plain, m.lost, cast);
    NothingKept(c, hash, n, h + 1 - t, m.lost + cast);
  }

  // ---------- A block begun and then replaced at its height ----------

  /** One message on the plain index `w` and on an index `s` between `w` and the end. */
  lemma PartStep(p: Primitives, w: Index, s: Index, end: Index, o: Output)
    requires RowsIn(w, s) && RowsIn(s, end) && s.OutpointInverse() && end.OutpointInverse()
    requires IsNew(w, o.base) && (Accepts(p, w, o) <==> Accepts(p, s, o)) && RowsIn(Persist(p, w, o), end)
    ensures RowsIn(Persist(p, w, o), Persist(p, s, o)) && RowsIn(Persist(p, s, o), end)
    ensures Persist(p, s, o).OutpointInverse()
  {
    hide RowOf, Signed;
    if Accepts(p, w, o) {
      var it, row := o.base, RowOf(o);
      assert w.PutItem(it).PutRow(row).items == w.items[it.id := it];
      assert end.items[it.id] == it;
      PutItemBetween(w, s, end, it);
      PutRowBetween(w.PutItem(it), s.PutItem(it), end, row);
      PutRowKeepsInverse(s.PutItem(it), row);
    }
  }

  lemma PutItemBetween(w: Index, s: Index, end: Index, it: Item)
    requires RowsIn(w, s) && RowsIn(s, end) && s.OutpointInverse() && end.OutpointInverse()
    requires it.id !in w.items && it.id in end.items && end.items[it.id] == it
    ensures RowsIn(w.PutItem(it), s.PutItem(it)) && RowsIn(s.PutItem(it), end) && s.PutItem(it).OutpointInverse()
  {
    hide Index.OutpointInverse;
    PutItemRowsBetween(w, s, end, it);
    if it.Key() in s.byOut {
      OutpointIsOld(s, end, it);
    }
    PutItemKeepsInverse(s, it);
  }

  lemma PutItemRowsBetween(w: Index, s: Index, end: Index, it: Item)
    requires RowsIn(w, s) && RowsIn(s, end)
    requires it.id !in w.items && it.id in end.items && end.items[it.id] == it
    ensures RowsIn(w.PutItem(it), s.PutItem(it)) && RowsIn(s.PutItem(it), end)
  {
    hide Item.Key, Extends;
    PutBetween(w.items, s.items, end.items, it.id, it);
  }

  lemma PutBetween<K, V>(w: map<K, V>, s: map<K, V>, end: map<K, V>, k: K, v: V)
    requires Extends(w, s) && Extends(s, end) && k !in w && k in end && end[k] == v
    ensures Extends(w[k := v], s) || k !in s
    ensures Extends(w[k := v], s[k := v]) && Extends(s[k := v], end)
  {
  }

  /** An outpoint that is taken is taken by the item that has it in the end. */
  lemma OutpointIsOld(s: Index, end: Index, it: Item)
    requires Extends(s.items, end.items) && s.OutpointInverse() && end.OutpointInverse()
    requires it.id in end.items && end.items[it.id] == it && it.Key() in s.byOut
    ensures it.id in s.items
  {
  }

  lemma PutRowBetween(w: Index, s: Index, end: Index, row: Row)
    requires RowsIn(w, s) && RowsIn(s, end) && RowsIn(w.PutRow(row), end)
    ensures RowsIn(w.PutRow(row), s.PutRow(row)) && RowsIn(s.PutRow(row), end)
  {
  }

  lemma PutRowKeepsInverse(s: Index, row: Row)
    requires s.OutpointInverse()
    ensures s.PutRow(row).OutpointInverse()
  {
  }

  /**
   * The rows of the part stand in the index of the new block, and no message the new block refuses
   * would be accepted on the part.
   */
  ghost predicate RowsFitIn(p: Primitives, before: Index, part: Index, outs: seq<Output>) {
    && RowsIn(part, Process(p, before, outs))
    && forall i :: 0 <= i < |outs| && !Accepts(p, After(p, before, outs, i), outs[i]) ==> !Accepts(p, part, outs[i])
  }

  /** Items of the part, and items both passes accept. */
  ghost predicate Between(p: Primitives, before: Index, part: Index, outs: seq<Output>, i: nat)
    requires i <= |outs|
  {
    var w, s := After(p, before, outs, i), After(p, part, outs, i);
    && RowsIn(w, s) && RowsIn(s, Process(p, before, outs)) && s.OutpointInverse()
    && s.items.Keys <= part.items.Keys + w.items.Keys
  }

  lemma SameAcceptance(p: Primitives, before: Index, part: Index, outs: seq<Output>, i: nat)
    requires i < |outs| && RowsFitIn(p, before, part, outs) && Between(p, before, part, outs, i)
    ensures Accepts(p, After(p, before, outs, i), outs[i]) <==> Accepts(p, After(p, part, outs, i), outs[i])
  {
    hide Process, After, Signed, Ref;
  }

  lemma {:induction false} PartStaysBetween(p: Primitives, before: Index, part: Index, outs: seq<Output>, i: nat)
    requires Tidy(before) && Fits(before, outs) && RowsIn(before, part) && part.OutpointInverse()
    requires RowsFitIn(p, before, part, outs) && i <= |outs|
    ensures Between(p, before, part, outs, i)
  {
    hide Process, Persist, Accepts, Tidy, RowsFitIn, Index.OutpointInverse;
    assert RowsIn(part, Process(p, before, outs)) by { RowsFitDown(p, before, part, outs); }
    if i == 0 {
      NothingDone(p, before, outs);
      NothingDone(p, part, outs);
    } else {
      PartStaysBetween(p, before, part, outs, i - 1);
      SameAcceptance(p, before, part, outs, i - 1);
      var w, s := After(p, before, outs, i - 1), After(p, part, outs, i - 1);
      var o, end := outs[i - 1], Process(p, before, outs);
      AfterNext(p, before, outs, i - 1);
      AfterNext(p, part, outs, i - 1);
      AfterGrows(p, before, outs, i, |outs|);
      assert outs[..|outs|] == outs && outs[..i - 1] + outs[i - 1..] == outs && outs[i - 1..][0] == o;
      FitsAfter(p, before, outs[..i - 1], outs[i - 1..]);
      TidyAfter(p, before, outs);
      PartStep(p, w, s, end, o);
      KeysAfter(p, w, s, o);
    }
  }

  lemma RowsFitDown(p: Primitives, before: Index, part: Index, outs: seq<Output>)
    requires RowsFitIn(p, before, part, outs)
    ensures RowsIn(part, Process(p, before, outs))
  {
  }

  lemma NothingDone(p: Primitives, idx: Index, outs: seq<Output>)
    ensures After(p, idx, outs, 0) == idx
  {
  }

  lemma TidyAfter(p: Primitives, idx: Index, outs: seq<Output>)
    requires Tidy(idx) && Fits(idx, outs)
    ensures Process(p, idx, outs).OutpointInverse()
  {
    hide Process;
    LowestHeight(outs);
    CutForgetsSuffix(p, idx, outs, 0);
  }

  lemma LowestHeight(outs: seq<Output>)
    ensures AllFrom(outs, 0)
  {
  }

  lemma KeysAfter(p: Primitives, w: Index, s: Index, o: Output)
    requires Accepts(p, w, o) <==> Accepts(p, s, o)
    ensures Persist(p, s, o).items.Keys <= s.items.Keys + Persist(p, w, o).items.Keys
    ensures w.items.Keys <= Persist(p, w, o).items.Keys
  {
    hide Accepts, RowOf;
  }

  /** The new block leaves its plain index on the part, votes aside, exactly when the part fits in. */
  lemma {:induction false} PartDisappears(p: Primitives, before: Index, part: Index, outs: seq<Output>)
    requires Tidy(before) && Fits(before, outs) && RowsIn(before, part) && part.OutpointInverse()
    ensures SameCore(Process(p, part, outs), Process(p, before, outs)) <==> RowsFitIn(p, before, part, outs)
  {
    hide Process, Persist, Accepts, Tidy, Index.OutpointInverse, RowsIn, Fits;
    var end := Process(p, before, outs);
    if RowsFitIn(p, before, part, outs) {
      PartStaysBetween(p, before, part, outs, |outs|);
      assert outs[..|outs|] == outs;
      TidyAfter(p, before, outs);
      SameRowsSameCore(Process(p, part, outs), end);
    }
    if SameCore(Process(p, part, outs), end) {
      ProcessGrows(p, part, outs);
      GrowsRows(part, Process(p, part, outs), end);
      forall i: nat | i < |outs| && !Accepts(p, After(p, before, outs, i), outs[i])
        ensures !Accepts(p, part, outs[i])
      {
        IdsAreFresh(before, outs);
        RefusedStaysOut(p, before, outs, i);
        if Accepts(p, part, outs[i]) {
          AcceptableIsAdded(p, part, outs, i);
        }
      }
    }
  }

  lemma IdsAreFresh(idx: Index, outs: seq<Output>)
    requires Fits(idx, outs)
    ensures FreshIds(idx, outs)
  {
  }

  lemma GrowsRows(a: Index, b: Index, end: Index)
    requires Grows(a, b) && SameCore(b, end)
    ensures RowsIn(a, end)
  {
  }

  lemma SameRowsSameCore(a: Index, b: Index)
    requires RowsIn(a, b) && RowsIn(b, a) && a.OutpointInverse() && b.OutpointInverse()
    ensures SameCore(a, b)
  {
    assert a.items == b.items && a.topics == b.topics && a.stories == b.stories && a.comments == b.comments;
    InverseDetermines(a, b);
  }

  /** The votes of `w` with those of a part, of which the later stands. */
  ghost function Joined(part: VoteMap, own: set<VoteKey>, w: VoteMap): VoteMap
    requires own <= part.Keys
  {
    map k | k in own + w.Keys ::
      if k in own && !(k in w && LaterThan(w[k], part[k])) then part[k] else w[k]
  }

  lemma PutVoteJoined(part: VoteMap, own: set<VoteKey>, w: VoteMap, v: VoteRow)
    requires own <= part.Keys && forall k :: k in w ==> LaterThan(v, w[k])
    ensures PutVote(Joined(part, own, w), v) == Joined(part, own, PutVote(w, v))
  {
  }

  lemma {:induction false} PartVotesJoin(
      p: Primitives, before: Index, part: Index, own: set<VoteKey>, outs: seq<Output>, i: nat)
    requires own <= part.votes.Keys && part.votes == Joined(part.votes, own, before.votes)
    requires Ascending(outs) && VotesBefore(before.votes, outs) && i <= |outs|
    requires forall j :: 0 <= j < |outs| ==>
      (Accepts(p, After(p, before, outs, j), outs[j]) <==> Accepts(p, After(p, part, outs, j), outs[j]))
    ensures After(p, part, outs, i).votes == Joined(part.votes, own, After(p, before, outs, i).votes)
  {
    hide Process, Persist, Accepts, Joined, Ascending, VotesBefore;
    if i == 0 {
      NothingDone(p, before, outs);
      NothingDone(p, part, outs);
    } else {
      PartVotesJoin(p, before, part, own, outs, i - 1);
      var w, s, o := After(p, before, outs, i - 1), After(p, part, outs, i - 1), outs[i - 1];
      AfterNext(p, before, outs, i - 1);
      AfterNext(p, part, outs, i - 1);
      VotesAfter(p, w, o);
      VotesAfter(p, s, o);
      if o.msg.Vote? && Accepts(p, w, o) {
        VotesBeforeNext(p, before, outs, i - 1);
        PutVoteJoined(part.votes, own, w.votes, VoteRecord(o));
      }
    }
  }

  lemma VotesBeforeNext(p: Primitives, idx: Index, outs: seq<Output>, i: nat)
    requires Ascending(outs) && VotesBefore(idx.votes, outs) && i < |outs|
    ensures forall k :: k in After(p, idx, outs, i).votes ==>
      Before(After(p, idx, outs, i).votes[k].Pos(), outs[i].base.Pos())
  {
    hide Process, Ascending;
    assert outs[..i] + outs[i..] == outs;
    VotesBeforeLater(p, idx, outs[..i], outs[i..]);
    assert outs[i] in outs[i..];
  }

  /** A vote of the part is the vote that stands in the end, or an earlier one under its key. */
  ghost predicate VotesFitIn(part: VoteMap, own: set<VoteKey>, end: VoteMap)
    requires own <= part.Keys
  {
    forall k :: k in own ==> k in end && (end[k] == part[k] || LaterThan(end[k], part[k]))
  }

  /** The items are filed under the ids of their outpoints. */
  ghost predicate AllPlaced(c: Config, items: map<ItemID, Item>) {
    forall id :: id in items ==> ItemIDFromRPC(c.prims, items[id].txid, items[id].vout) == Some(items[id].id)
  }

  /**
   * `part` is what blocks begun at the height `t` may leave on the plain index `whole` of what lies
   * below: whatever is added lies at `t`.
   */
  ghost predicate Leftover(c: Config, whole: Index, part: Index, t: int) {
    && RowsBelow(whole, t) && RowsIn(whole, part)
    && Tidy(part) && RowsBelow(part, t + 1) && AllPlaced(c, part.items)
    && part.votes - part.VotesFrom(t) == whole.votes - part.VotesFrom(t)
  }

  /** Every message lies at the height `t`, under the id of its outpoint. */
  ghost predicate AllAt(c: Config, outs: seq<Output>, t: int) {
    forall o :: o in outs ==> o.base.height == t && Placed(c, o)
  }

  lemma BlockIsAt(c: Config, hash: Hash, n: nat)
    requires Trustworthy(c) && Rooted(c, hash, n + 1)
    ensures AllAt(c, OutputsOf(c, hash), c.start + n) && Ascending(OutputsOf(c, hash))
  {
    hide OutputsFrom, Ascending, Placed, UniqueIds;
    OutputsFromAscend(c, c.block(hash), 0);
  }

  lemma PutPlacedItem(c: Config, idx: Index, it: Item)
    requires idx.OutpointInverse() && AllPlaced(c, idx.items)
    requires ItemIDFromRPC(c.prims, it.txid, it.vout) == Some(it.id)
    ensures idx.PutItem(it).OutpointInverse() && AllPlaced(c, idx.PutItem(it).items)
  {
    hide ItemIDFromRPC;
    if it.Key() in idx.byOut {
      var other := idx.items[idx.byOut[it.Key()]];
      OutKeyIsInjective(it.txid, it.vout, other.txid, other.vout);
    }
    PutItemKeepsInverse(idx, it);
  }

  lemma LeftoverItem(c: Config, whole: Index, part: Index, it: Item, t: int)
    requires Leftover(c, whole, part, t) && it.height == t
    requires ItemIDFromRPC(c.prims, it.txid, it.vout) == Some(it.id)
    ensures Leftover(c, whole, part.PutItem(it), t)
  {
    hide ItemIDFromRPC, AllPlaced, Index.OutpointInverse, RowsBelow;
    PutPlacedItem(c, part, it);
    PutItemGrows(part, it);
    PutItemStaysBelow(part, it, t + 1);
    assert part.PutItem(it).VotesFrom(t) == part.VotesFrom(t);
  }

  lemma LeftoverRow(c: Config, whole: Index, part: Index, it: Item, row: Row, t: int)
    requires Leftover(c, whole, part, t) && it.height == t && it.id in part.items && RowGoesWith(row, it)
    ensures Leftover(c, whole, part.PutRow(row), t)
  {
    hide AllPlaced, RowsBelow, Tidy, RowsIn;
    PutRowKeepsTidy(part, it, row);
    PutRowKeepsRowsIn(whole, part, row);
    PutRowStaysBelow(part, it, row, t + 1);
    if row.VoteOf? {
      PutVoteAt(part, whole.votes, row.v, t);
    } else {
      assert part.PutRow(row).VotesFrom(t) == part.VotesFrom(t);
    }
  }

  lemma PutRowKeepsRowsIn(whole: Index, part: Index, row: Row)
    requires RowsIn(whole, part)
    ensures RowsIn(whole, part.PutRow(row))
  {
  }

  lemma PutVoteAt(part: Index, whole: VoteMap, v: VoteRow, t: int)
    requires v.height == t && part.votes - part.VotesFrom(t) == whole - part.VotesFrom(t)
    ensures var after := part.PutRow(VoteOf(v)); after.votes - after.VotesFrom(t) == whole - after.VotesFrom(t)
  {
    var after, own := part.PutRow(VoteOf(v)), part.VotesFrom(t);
    if after.votes != part.votes {
      assert after.VotesFrom(t) == own + {v.Key()};
      DropInTurn(part.votes, own, {v.Key()});
      DropInTurn(whole, own, {v.Key()});
    } else {
      assert after.VotesFrom(t) == own;
    }
  }

  /** However far the next block gets, the store stays such a leftover. */
  lemma {:induction false} LeftoverPass(
      c: Config, whole: Index, part: Index, outs: seq<Output>, t: int, calls: nat)
    requires Leftover(c, whole, part, t) && AllAt(c, outs, t)
    ensures Leftover(c, whole, ProcessWithin(c.prims, part, outs, calls).index, t)
    decreases |outs|
  {
    hide Leftover, RowOf, Signed, Placed;
    if outs != [] {
      var o := outs[0];
      assert o in outs;
      LeftoverOne(c, whole, part, o, t);
      var a := PersistWithin(c.prims, part, o, calls);
      assert Leftover(c, whole, a.index, t);
      LeftoverPass(c, whole, a.index, outs[1..], t, a.left);
    }
  }

  lemma LeftoverOne(c: Config, whole: Index, part: Index, o: Output, t: int)
    requires Leftover(c, whole, part, t) && o.base.height == t && Placed(c, o)
    ensures Leftover(c, whole, part.PutItem(o.base), t)
    ensures Leftover(c, whole, part.PutItem(o.base).PutRow(RowOf(o)), t)
  {
    hide Leftover, RowOf, ItemIDFromRPC, RowGoesWith;
    LeftoverItem(c, whole, part, o.base, t);
    RowOfGoesWith(o);
    PutItemGrows(part, o.base);
    LeftoverRow(c, whole, part.PutItem(o.base), o.base, RowOf(o), t);
  }

  /** A plain index is a leftover of itself. */
  lemma PlainIsLeftover(c: Config, whole: Index, hash: Hash, n: nat, lost: set<VoteKey>)
    requires Trustworthy(c) && Rooted(c, hash, n) && Short(whole, Fresh(c, hash, n), lost)
    ensures Leftover(c, whole, whole, c.start + n)
  {
    hide Rooted, Trustworthy, Process, ItemIDFromRPC;
    FreshIsBelow(c, hash, n);
    ShortIsBelow(whole, Fresh(c, hash, n), lost, c.start + n);
    ShortIsTidy(whole, Fresh(c, hash, n), lost);
    LowerIsBelow(whole, c.start + n, c.start + n + 1);
    ChainAscends(c, hash, n);
    PassIsPlaced(c, EMPTY, ChainOutputs(c, hash, n));
  }

  lemma {:induction false} PassIsPlaced(c: Config, idx: Index, outs: seq<Output>)
    requires AllPlaced(c, idx.items) && forall o :: o in outs ==> Placed(c, o)
    ensures AllPlaced(c, Process(c.prims, idx, outs).items)
    decreases |outs|
  {
    hide ItemIDFromRPC, Accepts, RowOf;
    if outs != [] {
      assert Placed(c, outs[0]);
      PassIsPlaced(c, Persist(c.prims, idx, outs[0]), outs[1..]);
    }
  }

  /** So is a part of a block on a plain index. */
  lemma PartIsLeftover(
      c: Config, whole: Index, outs: seq<Output>, part: Index, hash: Hash, n: nat, lost: set<VoteKey>)
    requires Trustworthy(c) && Rooted(c, hash, n) && Short(whole, Fresh(c, hash, n), lost)
    requires IsPartway(c.prims, whole, outs, part) && AllAt(c, outs, c.start + n)
    ensures Leftover(c, whole, part, c.start + n)
  {
    hide Fresh, Rooted, Trustworthy, Process, Placed, Leftover, Short;
    var i: nat, half: bool :| Partway(c.prims, whole, outs, i, half, part);
    var t := c.start + n;
    PlainIsLeftover(c, whole, hash, n, lost);
    assert AllAt(c, outs[..i], t);
    EnoughCalls(c.prims, whole, outs[..i], 3 * i);
    LeftoverPass(c, whole, whole, outs[..i], t, 3 * i);
    if half {
      LeftoverOne(c, whole, After(c.prims, whole, outs, i), outs[i], t);
    }
  }

  lemma LowVotes(idx: Index, t: int)
    requires RowsBelow(idx, t)
    ensures forall k :: k in idx.votes ==> idx.votes[k].height < t
  {
    forall k | k in idx.votes
      ensures idx.votes[k].height < t
    {
      assert k !in idx.VotesFrom(t);
    }
  }

  lemma LowVotesJoin(part: VoteMap, own: set<VoteKey>, whole: VoteMap, t: int)
    requires part - own == whole - own && own <= part.Keys
    requires forall k :: k in own ==> part[k].height >= t
    requires forall k :: k in whole ==> whole[k].height < t
    ensures part == Joined(part, own, whole)
  {
    forall k
      ensures k in part <==> k in Joined(part, own, whole)
      ensures k in part ==> part[k] == Joined(part, own, whole)[k]
    {
      if k !in own {
        assert k in part - own <==> k in whole - own;
        assert k in part ==> (part - own)[k] == (whole - own)[k];
      }
    }
  }

  /** The votes that come of the part and of the plain index, when the same messages are accepted on both. */
  lemma PartVotesAtEnd(c: Config, whole: Index, part: Index, outs: seq<Output>, t: int)
    requires Leftover(c, whole, part, t) && Tidy(whole) && Fits(whole, outs) && AllFrom(outs, t) && Ascending(outs)
    requires RowsFitIn(c.prims, whole, part, outs)
    ensures Process(c.prims, part, outs).votes
         == Joined(part.votes, part.VotesFrom(t), Process(c.prims, whole, outs).votes)
  {
    hide Process, RowsFitIn, Fits, AllFrom, Ascending, RowsBelow, Between, Accepts, Joined, AllPlaced, RowsIn;
    var p := c.prims;
    LowVotes(whole, t);
    LowVotesJoin(part.votes, part.VotesFrom(t), whole.votes, t);
    LowVotesBefore(whole, outs, t);
    forall j | 0 <= j < |outs|
      ensures Accepts(p, After(p, whole, outs, j), outs[j]) <==> Accepts(p, After(p, part, outs, j), outs[j])
    {
      PartStaysBetween(p, whole, part, outs, j);
      SameAcceptance(p, whole, part, outs, j);
    }
    PartVotesJoin(p, whole, part, part.VotesFrom(t), outs, |outs|);
    assert outs[..|outs|] == outs;
  }

  /**
   * A part does no harm to the block `hash` that takes its place, but for votes under the keys `again`:
   * every row of the part stands in the plain index of `hash`; no message that `hash` refuses would be
   * accepted on the part; and every vote of the part is the one that stands in that index, or earlier.
   */
  ghost predicate Harmless(c: Config, part: Index, next: int, hash: Hash, again: set<VoteKey>)
    requires next >= c.start
  {
    && RowsFitIn(c.prims, Fresh(c, c.block(hash).prev, next - c.start), part, OutputsOf(c, hash))
    && VotesFitIn(part.votes, part.VotesFrom(next) - again, Fresh(c, hash, next - c.start + 1).votes)
  }

  lemma SameRowsFit(p: Primitives, a: Index, b: Index, part: Index, outs: seq<Output>)
    requires SameCore(a, b)
    ensures RowsFitIn(p, a, part, outs) <==> RowsFitIn(p, b, part, outs)
  {
    hide Process, Accepts;
    ProcessKeepsSameCore(p, a, b, outs);
    forall i: nat | i < |outs|
      ensures Accepts(p, After(p, a, outs, i), outs[i]) <==> Accepts(p, After(p, b, outs, i), outs[i])
    {
      ItemsDecide(p, a, b, outs[..i]);
      SameItemsAccept(p, After(p, a, outs, i), After(p, b, outs, i), outs[i]);
    }
  }

  lemma SameItemsAccept(p: Primitives, a: Index, b: Index, o: Output)
    requires a.items == b.items
    ensures Accepts(p, a, o) <==> Accepts(p, b, o)
  {
  }

  /** The next block on the plain index, with its votes. */
  lemma NextBlock(c: Config, hash: Hash, n: nat)
    requires Trustworthy(c) && Rooted(c, hash, n + 1)
    ensures var before, outs := Fresh(c, c.block(hash).prev, n), OutputsOf(c, hash);
            && RowsBelow(before, c.start + n) && Ascending(outs)
            && Fresh(c, hash, n + 1) == Process(c.prims, before, outs)
            && VotesCast(c.prims, before, outs) == Fresh(c, hash, n + 1).VotesFrom(c.start + n)
  {
    hide Process, OutputsOf, Trustworthy, VotesCast, Ascending, Fits, Tidy, VotesBefore, RowsBelow;
    assert ChainOutputs(c, hash, 1) == OutputsOf(c, hash) && Back(c, hash, 1) == c.block(hash).prev;
    RecentFits(c, hash, n + 1, 1);
    RecentIsLater(c, hash, n + 1, 1);
    CutIsShorterChain(c, hash, n + 1, 1);
    FreshIsBelow(c, c.block(hash).prev, n);
  }

  lemma FitVotesMatch(
      part: VoteMap, own: set<VoteKey>, done: VoteMap, plain: VoteMap, lost: set<VoteKey>, again: set<VoteKey>, t: int)
    requires own <= part.Keys && forall k :: k in own ==> part[k].height >= t
    requires done == plain - (lost - done.Keys)
    requires forall k :: k in plain && plain[k].height >= t ==> k in done
    ensures var all := Joined(part, own, done);
            all - again == plain - ((lost - all.Keys) + again) <==> VotesFitIn(part, own - again, plain)
  {
    var all := Joined(part, own, done);
    assert all.Keys == own + done.Keys;
    if VotesFitIn(part, own - again, plain) {
      PointwiseSameBut(all, plain, lost - all.Keys, again);
    }
    if all - again == plain - ((lost - all.Keys) + again) {
      SameButPointwise(all, plain, lost - all.Keys, again);
    }
  }

  /** What comes of the new block on a leftover, but for votes under the keys `again`. */
  lemma PartMatches(
      c: Config, whole: Index, part: Index, lost: set<VoteKey>, next: int, prev: Hash, hash: Hash, again: set<VoteKey>)
    requires Trustworthy(c) && BuildsOn(c, hash, next, prev)
    requires Short(whole, Fresh(c, prev, next - c.start), lost) && Leftover(c, whole, part, next)
    ensures var end := Process(c.prims, part, OutputsOf(c, hash));
            ShortBut(end, Fresh(c, hash, next - c.start + 1), lost - end.votes.Keys, again) <==>
              Harmless(c, part, next, hash, again)
  {
    hide Fresh, Back, Rooted, Short, OutputsOf, Process, Trustworthy, Ascending, Fits, Tidy, AllFrom, AllPlaced;
    hide RowsFitIn, VotesFitIn, Joined, RowsBelow, VotesCast, RowsIn, SameCore;
    var outs, p, n := OutputsOf(c, hash), c.prims, next - c.start;
    PlainBelow(c, hash, next, prev);
    NextBlockFits(c, whole, hash, next, prev, lost);
    NextBlock(c, hash, n);
    var before, plain := Fresh(c, prev, n), Fresh(c, hash, n + 1);
    SameCoreOfShort(whole, before, lost);
    SameRowsFit(p, whole, before, part, outs);
    TidyIsInverse(part);
    PartDisappears(p, whole, part, outs);
    var done, end := Process(p, whole, outs), Process(p, part, outs);
    SameCoreOfShort(done, plain, lost - done.votes.Keys);
    SameCoreThrough(end, done, plain);
    if RowsFitIn(p, whole, part, outs) {
      PartVotesAtEnd(c, whole, part, outs, next);
      CastIsKept(p, whole, before, outs, next);
      VotesOfShort(done, plain, lost - done.votes.Keys);
      FitVotesMatch(part.votes, part.VotesFrom(next), done.votes, plain.votes, lost, again, next);
    }
  }

  /** The store holds a leftover on the plain index of the chain that ends in `prev`. */
  ghost predicate LeftOn(c: Config, m: Machine, next: int, prev: Hash) {
    Follows(c, next, prev) && exists whole ::
      Short(whole, Fresh(c, prev, next - c.start), m.lost) && Leftover(c, whole, m.index, next)
  }

  /** A trusted store between two blocks, or with one block begun, does. */
  lemma BegunIsLeft(c: Config, m: Machine, next: int, prev: Hash)
    requires Trustworthy(c) && Loops(c, m, next, prev) && m.trusted
    ensures LeftOn(c, m, next, prev)
  {
    hide Fresh, Rooted, Short, OutputsOf, Trustworthy, IsPartway, Leftover, CursorFits, AllAt, Ascending;
    var n := next - c.start;
    if m.residue.HalfDone? {
      var whole :| Short(whole, Fresh(c, prev, n), m.lost)
                && IsPartway(c.prims, whole, OutputsOf(c, m.residue.hash), m.index);
      BlockIsAt(c, m.residue.hash, n);
      PartIsLeftover(c, whole, OutputsOf(c, m.residue.hash), m.index, prev, n, m.lost);
    } else {
      PlainIsLeftover(c, m.index, prev, n, m.lost);
    }
  }

  /** And keeps doing so while further blocks are begun at that height and none is finished. */
  lemma AttemptIsLeft(c: Config, m: Machine, next: int, prev: Hash, hash: Hash)
    requires Trustworthy(c) && LeftOn(c, m, next, prev) && BuildsOn(c, hash, next, prev)
    requires Ingest(c, m, next, hash).1.Failed? && !m.residue.StaleCursor?
    ensures LeftOn(c, Ingest(c, m, next, hash).0, next, prev)
  {
    hide Fresh, Rooted, Short, OutputsOf, Trustworthy, Leftover, AllAt, Ascending, ProcessWithin, RetryAllowed;
    var whole :| Short(whole, Fresh(c, prev, next - c.start), m.lost) && Leftover(c, whole, m.index, next);
    BlockIsAt(c, hash, next - c.start);
    LeftoverPass(c, whole, m.index, OutputsOf(c, hash), next, m.calls);
  }

  /**
   * Finishing a block on what other blocks, begun at its height, have left: the store is then the plain
   * index of the new block's chain exactly when the part is harmless.
   */
  lemma {:induction false} OrphanedPartExactly(c: Config, m: Machine, next: int, prev: Hash, hash: Hash)
    requires Trustworthy(c) && LeftOn(c, m, next, prev)
    requires BuildsOn(c, hash, next, prev) && Ingest(c, m, next, hash).1.Go?
    ensures Ingest(c, m, next, hash).0.residue.Clean?
    ensures IsPlainPass(c, Ingest(c, m, next, hash).0) <==> Harmless(c, m.index, next, hash, {})
  {
    hide Fresh, Rooted, Short, ShortBut, OutputsOf, Process, Trustworthy, Leftover, ProcessWithin, NoLateAcceptance;
    hide Harmless;
    var whole :| Short(whole, Fresh(c, prev, next - c.start), m.lost) && Leftover(c, whole, m.index, next);
    FinishedIsProcessed(c.prims, m.index, OutputsOf(c, hash), m.calls);
    PartMatches(c, whole, m.index, m.lost, next, prev, hash, {});
    var end := Process(c.prims, m.index, OutputsOf(c, hash));
    ButNothing(end, Fresh(c, hash, next - c.start + 1), m.lost - end.votes.Keys);
  }

  /** The hash of the block below the next one. */
  function PrevHash(cursor: Option<Cursor>): Hash {
    match cursor
    case None => ""
    case Some(Cursor(_, hash)) => hash
  }

  /**
   * The same at the end of a run on a chain that stays still: the blocks behind make up for nothing but
   * the votes cast in them.
   */
  lemma {:induction false} OrphanedPartAtTip(c: Config, m: Machine, v: View)
    requires Trustworthy(c) && Still(c, m.script, v) && |m.script| >= 3 * |v| + 3 && 0 <= c.start < |v|
    requires OnChain(m.cursor, v) && NextHeight(c, m.cursor) < |v|
    requires LeftOn(c, m, NextHeight(c, m.cursor), PrevHash(m.cursor)) && Run(c, m).1 == Done
    ensures var after, next := Run(c, m).0, NextHeight(c, m.cursor);
            var hash := v[next];
            var cast := VotesCast(c.prims, Fresh(c, hash, next - c.start + 1), Remaining(c, v, next + 1));
            && after.residue.Clean? && after.cursor == AtTip(v)
            && (IsPlainPass(c, after) <==> Harmless(c, m.index, next, hash, cast))
  {
    hide Fresh, Rooted, Short, ShortBut, OutputsOf, Process, Trustworthy, Leftover, NoLateAcceptance, LinkedView;
    hide Harmless, Remaining, VotesCast, Still, Loop, Tidy, RowsBelow, AllAt, Ascending, Rewind;
    var next, prev := NextHeight(c, m.cursor), PrevHash(m.cursor);
    var hash := v[next];
    var whole :| Short(whole, Fresh(c, prev, next - c.start), m.lost) && Leftover(c, whole, m.index, next);
    StillIsLinked(c, m.script, v);
    NextOnChain(c, m.cursor, v);
    PartMatches(c, whole, m.index, m.lost, next, prev, hash,
                VotesCast(c.prims, Fresh(c, hash, next - c.start + 1), Remaining(c, v, next + 1)));
    var done := Process(c.prims, m.index, OutputsOf(c, hash));
    DoneIsTidy(c, whole, m.index, hash, next);
    var resumed := ResumedOn(c, m, v);
    StillLoop(c, resumed, next, prev, v);
    RemainingNext(c, v, next);
    ProcessAppend(c.prims, m.index, OutputsOf(c, hash), Remaining(c, v, next + 1));
    ProcessGrows(c.prims, done, Remaining(c, v, next + 1));
    var end := Process(c.prims, done, Remaining(c, v, next + 1));
    assert m.lost - done.votes.Keys - end.votes.Keys == m.lost - end.votes.Keys;
    RestOfChain(c, v, next + 1, done, m.lost - done.votes.Keys);
  }

  lemma DoneIsTidy(c: Config, whole: Index, part: Index, hash: Hash, next: int)
    requires Trustworthy(c) && Leftover(c, whole, part, next) && next >= c.start && Rooted(c, hash, next - c.start + 1)
    ensures var done := Process(c.prims, part, OutputsOf(c, hash)); Tidy(done) && RowsBelow(done, next + 1)
  {
    hide Trustworthy, Rooted, OutputsOf, Process, ProcessWithin, Tidy, RowsBelow, AllAt, Ascending, RowsIn, AllPlaced;
    var outs := OutputsOf(c, hash);
    BlockIsAt(c, hash, next - c.start);
    EnoughCalls(c.prims, part, outs, 3 * |outs|);
    LeftoverPass(c, whole, part, outs, next, 3 * |outs|);
  }

  /** The block of a chain that comes after the cursor builds on it. */
  lemma NextOnChain(c: Config, cursor: Option<Cursor>, v: View)
    requires LinkedView(c, v) && OnChain(cursor, v) && 0 <= c.start && c.start <= NextHeight(c, cursor) < |v|
    requires Follows(c, NextHeight(c, cursor), PrevHash(cursor))
    ensures BuildsOn(c, v[NextHeight(c, cursor)], NextHeight(c, cursor), PrevHash(cursor))
  {
    ViewIsRooted(c, v, NextHeight(c, cursor), NextHeight(c, cursor) + 1 - c.start);
  }

  /** A run that ends, from a cursor on a still chain, is the loop from the block after it. */
  lemma ResumedOn(c: Config, m: Machine, v: View) returns (resumed: Machine)
    requires Still(c, m.script, v) && |m.script| >= 3 * |v| + 3 && 0 <= c.start < |v|
    requires OnChain(m.cursor, v) && Run(c, m).1 == Done
    ensures var next, prev := NextHeight(c, m.cursor), PrevHash(m.cursor);
            && Run(c, m) == Loop(c, resumed, next, prev) && OnView(next, prev, v)
            && Still(c, resumed.script, v) && |resumed.script| >= 3 * |v| + 1
            && resumed.index == m.index && resumed.lost == m.lost && resumed.cursor == m.cursor
  {
    hide Loop, LinkedView, Rewind;
    resumed := Resume(c, m).0;
    assert m.script[1..][1..] == m.script[2..];
  }

  lemma ShortIsBelow(a: Index, b: Index, lost: set<VoteKey>, t: int)
    requires Short(a, b, lost) && RowsBelow(b, t)
    ensures RowsBelow(a, t)
  {
  }

  /** The votes cast in a block are there after it, whatever votes were missing before. */
  lemma CastIsKept(p: Primitives, whole: Index, before: Index, outs: seq<Output>, t: int)
    requires SameCore(whole, before) && AllFrom(outs, t)
    requires VotesCast(p, before, outs) == Process(p, before, outs).VotesFrom(t)
    ensures var plain := Process(p, before, outs).votes;
            forall k :: k in plain && plain[k].height >= t ==> k in Process(p, whole, outs).votes
  {
    hide Process, VotesCast, SameCore;
    ProcessKeepsSameCore(p, whole, before, outs);
    VotesOfSuffix(p, whole, outs, t);
    forall k | k in Process(p, before, outs).votes && Process(p, before, outs).votes[k].height >= t
      ensures k in Process(p, whole, outs).votes
    {
      assert k in Process(p, before, outs).VotesFrom(t);
    }
  }

  lemma VotesOfShort(a: Index, b: Index, lost: set<VoteKey>)
    requires Short(a, b, lost)
    ensures a.votes == b.votes - lost
  {
  }

  lemma SameCoreThrough(a: Index, b: Index, z: Index)
    requires SameCore(b, z)
    ensures SameCore(a, b) <==> SameCore(a, z)
  {
  }
}

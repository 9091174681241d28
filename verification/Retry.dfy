/**
 * Stopping in the middle of a block and processing the whole block again
 * (scanner/scanner.go: ProcessBlock is restarted from the top because the cursor is saved last).
 */
module Retry {
  import opened Wrappers
  import opened Crypto
  import opened IndexState
  import opened Indexing

  /** `stopped` is what some run of store calls inside a pass over `outs` leaves behind. */
  ghost predicate Partway(p: Primitives, idx: Index, outs: seq<Output>, i: nat, half: bool, stopped: Index) {
    && i <= |outs|
    && (half ==> i < |outs| && Accepts(p, After(p, idx, outs, i), outs[i])
                 && stopped == After(p, idx, outs, i).PutItem(outs[i].base))
    && (!half ==> stopped == After(p, idx, outs, i))
  }

  ghost predicate IsPartway(p: Primitives, idx: Index, outs: seq<Output>, stopped: Index) {
    exists i, half :: Partway(p, idx, outs, i, half, stopped)
  }

  /** A message refused on the first pass would be refused again once the block is stored. */
  predicate NoLateAcceptance(p: Primitives, idx: Index, outs: seq<Output>) {
    forall i :: 0 <= i < |outs| && !Accepts(p, After(p, idx, outs, i), outs[i])
      ==> !Accepts(p, Process(p, idx, outs), outs[i])
  }

  /** No comment or vote names a later output of the same block. */
  predicate NoForwardRefs(outs: seq<Output>) {
    forall i, j :: 0 <= i < j < |outs| ==> Ref(outs[i]) != Some(outs[j].base.id)
  }

  /** The ids are new to the index and pairwise distinct. */
  ghost predicate FreshIds(idx: Index, outs: seq<Output>) {
    && (forall i :: 0 <= i < |outs| ==> outs[i].base.id !in idx.items)
    && (forall i, j :: 0 <= i < j < |outs| ==> outs[i].base.id != outs[j].base.id)
  }

  lemma NoForwardRefsSuffice(p: Primitives, idx: Index, outs: seq<Output>)
    requires NoForwardRefs(outs)
    ensures NoLateAcceptance(p, idx, outs)
  {
    forall i | 0 <= i < |outs| && !Accepts(p, After(p, idx, outs, i), outs[i])
      ensures !Accepts(p, Process(p, idx, outs), outs[i])
    {
      if Signed(p, outs[i]) {
        AfterNext(p, idx, outs, i);
        IdStaysOut(p, After(p, idx, outs, i + 1), outs[i + 1..], Ref(outs[i]).value);
        AfterRest(p, idx, outs, i + 1);
      }
    }
  }

  /** Once written, a message changes nothing in any later state of the index. */
  lemma AcceptedIsAbsorbed(p: Primitives, x: Index, o: Output, later: Index)
    requires Accepts(p, x, o) && Grows(Persist(p, x, o), later)
    ensures Accepts(p, later, o) && later.PutItem(o.base) == later && later.PutRow(RowOf(o)) == later
  {
    var mid := x.PutItem(o.base);
    PutItemGrows(x, o.base);
    RowIsAbsorbed(mid, RowOf(o), later);
  }

  /** The index at message `j` of a pass restarted from `stopped`. */
  ghost function Replayed(p: Primitives, idx: Index, outs: seq<Output>, i: nat, stopped: Index, j: nat): Index
    requires j <= |outs|
  {
    if j <= i then stopped else After(p, idx, outs, j)
  }

  /** One message of the restarted pass. */
  lemma ReplayStep(
      p: Primitives, idx: Index, outs: seq<Output>, i: nat, half: bool, stopped: Index, j: nat, calls: nat)
    requires Partway(p, idx, outs, i, half, stopped) && NoLateAcceptance(p, idx, outs) && j < |outs|
    ensures var a := PersistWithin(p, Replayed(p, idx, outs, i, stopped, j), outs[j], calls);
            if a.ok then a.index == Replayed(p, idx, outs, i, stopped, j + 1) else IsPartway(p, idx, outs, a.index)
  {
    var o, x := outs[j], After(p, idx, outs, j);
    var a := PersistWithin(p, Replayed(p, idx, outs, i, stopped, j), o, calls);
    AfterNext(p, idx, outs, j);
    if j < i {
      AfterGrows(p, idx, outs, j + 1, i);
      StoppedIsBetween(p, idx, outs, i, half, stopped);
      if Accepts(p, x, o) {
        GrowsTransitive(Persist(p, x, o), After(p, idx, outs, i), stopped);
        AcceptedIsAbsorbed(p, x, o, stopped);
      }
      assert a.index == stopped;
      assert Partway(p, idx, outs, i, half, stopped);
    } else if j == i {
      if half {
        assert stopped == x.PutItem(o.base) == stopped.PutItem(o.base);
        assert Partway(p, idx, outs, i, half, stopped);
      } else {
        assert Partway(p, idx, outs, i, false, x);
        assert Accepts(p, x, o) ==> Partway(p, idx, outs, i, true, x.PutItem(o.base));
      }
    } else {
      assert Partway(p, idx, outs, j, false, x);
      assert Accepts(p, x, o) ==> Partway(p, idx, outs, j, true, x.PutItem(o.base));
    }
  }

  lemma StoppedIsBetween(p: Primitives, idx: Index, outs: seq<Output>, i: nat, half: bool, stopped: Index)
    requires Partway(p, idx, outs, i, half, stopped)
    ensures Grows(After(p, idx, outs, i), stopped) && Grows(stopped, Process(p, idx, outs))
  {
    assert outs[..|outs|] == outs;
    AfterGrows(p, idx, outs, i, |outs|);
    if half {
      AfterNext(p, idx, outs, i);
      AfterGrows(p, idx, outs, i + 1, |outs|);
    }
  }

  lemma {:induction false} ReplayFrom(
      p: Primitives, idx: Index, outs: seq<Output>, i: nat, half: bool, stopped: Index, j: nat, calls: nat)
    requires Partway(p, idx, outs, i, half, stopped) && NoLateAcceptance(p, idx, outs) && j <= |outs|
    ensures var a := ProcessWithin(p, Replayed(p, idx, outs, i, stopped, j), outs[j..], calls);
            IsPartway(p, idx, outs, a.index) && (a.ok ==> a.index == Process(p, idx, outs))
    decreases |outs| - j
  {
    if j == |outs| {
      assert outs[..|outs|] == outs;
      assert Partway(p, idx, outs, j, false, Process(p, idx, outs));
    } else {
      var a := PersistWithin(p, Replayed(p, idx, outs, i, stopped, j), outs[j], calls);
      ReplayStep(p, idx, outs, i, half, stopped, j, calls);
      assert outs[j..][0] == outs[j] && outs[j..][1..] == outs[j + 1..];
      if a.ok {
        ReplayFrom(p, idx, outs, i, half, stopped, j + 1, a.left);
      }
    }
  }

  /** Whatever fails, a pass leaves a state some number of messages, or one item row more, along. */
  lemma FailureIsPartway(p: Primitives, idx: Index, outs: seq<Output>, calls: nat)
    ensures IsPartway(p, idx, outs, ProcessWithin(p, idx, outs, calls).index)
  {
    var a := FailureIsPartwayFrom(p, idx, outs, 0, calls);
  }

  lemma {:induction false} FailureIsPartwayFrom(
      p: Primitives, idx: Index, outs: seq<Output>, j: nat, calls: nat) returns (a: Attempt)
    requires j <= |outs|
    ensures a == ProcessWithin(p, After(p, idx, outs, j), outs[j..], calls)
    ensures IsPartway(p, idx, outs, a.index)
    decreases |outs| - j
  {
    var x := After(p, idx, outs, j);
    assert Partway(p, idx, outs, j, false, x);
    if j == |outs| {
      a := Attempt(x, calls, true);
    } else {
      a := PersistWithin(p, x, outs[j], calls);
      AfterNext(p, idx, outs, j);
      if a.ok {
        a := FailureIsPartwayFrom(p, idx, outs, j + 1, a.left);
      } else {
        assert Accepts(p, x, outs[j]) ==> Partway(p, idx, outs, j, true, x.PutItem(outs[j].base));
      }
    }
  }

  /**
   * Processing a block again after stopping at any store call, itself stopped after any number of
   * calls: the new state is again some way along the same pass, and a finished pass leaves exactly
   * what an uninterrupted one leaves.
   */
  lemma RetryConverges(p: Primitives, idx: Index, outs: seq<Output>, stopped: Index, calls: nat)
    requires IsPartway(p, idx, outs, stopped) && NoLateAcceptance(p, idx, outs)
    ensures var a := ProcessWithin(p, stopped, outs, calls);
            IsPartway(p, idx, outs, a.index) && (a.ok ==> a.index == Process(p, idx, outs))
  {
    var i, half :| Partway(p, idx, outs, i, half, stopped);
    ReplayFrom(p, idx, outs, i, half, stopped, 0, calls);
  }

  /**
   * Retrying gives the uninterrupted result from every stopping point exactly when no message of
   * the block is refused before, and acceptable after, the rest of the block is stored.
   */
  lemma {:induction false} RetryExactly(p: Primitives, idx: Index, outs: seq<Output>)
    requires FreshIds(idx, outs)
    ensures (forall stopped :: IsPartway(p, idx, outs, stopped) ==> Process(p, stopped, outs) == Process(p, idx, outs))
       <==> NoLateAcceptance(p, idx, outs)
  {
    var done := Process(p, idx, outs);
    if NoLateAcceptance(p, idx, outs) {
      forall stopped | IsPartway(p, idx, outs, stopped)
        ensures Process(p, stopped, outs) == done
      {
        RetryConverges(p, idx, outs, stopped, 3 * |outs|);
        EnoughCalls(p, stopped, outs, 3 * |outs|);
      }
    } else {
      var i :| 0 <= i < |outs| && !Accepts(p, After(p, idx, outs, i), outs[i]) && Accepts(p, done, outs[i]);
      assert outs[..|outs|] == outs;
      assert Partway(p, idx, outs, |outs|, false, done);
      RefusedStaysOut(p, idx, outs, i);
      AcceptableIsAdded(p, done, outs, i);
    }
  }

  lemma RefusedStaysOut(p: Primitives, idx: Index, outs: seq<Output>, i: nat)
    requires FreshIds(idx, outs) && i < |outs| && !Accepts(p, After(p, idx, outs, i), outs[i])
    ensures outs[i].base.id !in Process(p, idx, outs).items
  {
    IdStaysOut(p, idx, outs[..i], outs[i].base.id);
    AfterNext(p, idx, outs, i);
    IdStaysOut(p, After(p, idx, outs, i + 1), outs[i + 1..], outs[i].base.id);
    AfterRest(p, idx, outs, i + 1);
  }

  lemma AcceptableIsAdded(p: Primitives, idx: Index, outs: seq<Output>, i: nat)
    requires i < |outs| && Accepts(p, idx, outs[i])
    ensures outs[i].base.id in Process(p, idx, outs).items
  {
    ProcessGrows(p, idx, outs[..i]);
    AfterNext(p, idx, outs, i);
    AfterRest(p, idx, outs, i + 1);
    ProcessGrows(p, After(p, idx, outs, i + 1), outs[i + 1..]);
  }

  /** Which messages are accepted depends on the items alone. */
  lemma {:induction false} ItemsDecide(p: Primitives, a: Index, b: Index, outs: seq<Output>)
    requires a.items == b.items
    ensures Process(p, a, outs).items == Process(p, b, outs).items
    decreases |outs|
  {
    if outs != [] {
      ItemsDecide(p, Persist(p, a, outs[0]), Persist(p, b, outs[0]), outs[1..]);
    }
  }

  lemma ItemsDecideRetry(p: Primitives, a: Index, b: Index, outs: seq<Output>)
    requires a.items == b.items
    ensures NoLateAcceptance(p, a, outs) <==> NoLateAcceptance(p, b, outs)
  {
    hide Process;
    ItemsDecide(p, a, b, outs);
    forall i: nat | i < |outs|
      ensures Accepts(p, After(p, a, outs, i), outs[i]) <==> Accepts(p, After(p, b, outs, i), outs[i])
    {
      ItemsDecide(p, a, b, outs[..i]);
    }
  }

  /** The condition is not idle: a comment ahead of its story in one block is lost at first and kept on a retry. */
  lemma ForwardReferenceIsLateAccepted(
      p: Primitives, comment: Output, story: Output)
    requires comment.msg.Comment? && story.msg.Story? && Signed(p, comment)
    requires comment.msg.parentID == story.base.id != comment.base.id
    ensures comment.base.id !in Process(p, EMPTY, [comment, story]).items
    ensures comment.base.id in Process(p, Process(p, EMPTY, [comment, story]), [comment, story]).items
  {
    var outs := [comment, story];
    var done := Persist(p, EMPTY, story);
    assert Process(p, EMPTY, outs) == Process(p, EMPTY, [story]) == Process(p, done, []) == done;
    AcceptableIsAdded(p, done, outs, 0);
  }
}

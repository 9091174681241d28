/** Stable sorting by a comparison, as the sort functions of the store use it (store/store.go). */
module Sorting {
  /** A strict order in which being unordered is transitive. */
  ghost predicate IsOrder<T(!new)>(less: (T, T) -> bool) {
    && (forall a, b :: less(a, b) ==> !less(b, a))
    && (forall a, b, c :: !less(a, b) && !less(b, c) ==> !less(a, c))
  }

  ghost predicate Ordered<T>(less: (T, T) -> bool, s: seq<T>) {
    forall i, j :: 0 <= i < j < |s| ==> !less(s[j], s[i])
  }

  /** Put `x` behind every entry it is not less than, so that ties keep their order. */
  function Insert<T>(less: (T, T) -> bool, x: T, s: seq<T>): seq<T> {
    if s == [] || !less(x, s[|s| - 1]) then s + [x]
    else Insert(less, x, s[..|s| - 1]) + [s[|s| - 1]]
  }

  function Sort<T>(less: (T, T) -> bool, s: seq<T>): seq<T> {
    if s == [] then [] else Insert(less, s[|s| - 1], Sort(less, s[..|s| - 1]))
  }

  predicate Tied<T>(less: (T, T) -> bool, a: T, b: T) {
    !less(a, b) && !less(b, a)
  }

  /** The entries that tie with `x`, in the order they stand. */
  function Ties<T>(less: (T, T) -> bool, s: seq<T>, x: T): seq<T> {
    if s == [] then []
    else Ties(less, s[..|s| - 1], x) + (if Tied(less, s[|s| - 1], x) then [s[|s| - 1]] else [])
  }

  lemma {:induction false} InsertIsPermutation<T>(less: (T, T) -> bool, x: T, s: seq<T>)
    ensures multiset(Insert(less, x, s)) == multiset(s) + multiset{x}
  {
    if s != [] && less(x, s[|s| - 1]) {
      InsertIsPermutation(less, x, s[..|s| - 1]);
      assert s == s[..|s| - 1] + [s[|s| - 1]];
    }
  }

  lemma AppendKeepsOrder<T>(less: (T, T) -> bool, s: seq<T>, x: T)
    requires Ordered(less, s) && forall y :: y in s ==> !less(x, y)
    ensures Ordered(less, s + [x])
  {
  }

  lemma {:induction false} InsertKeepsOrder<T(!new)>(less: (T, T) -> bool, x: T, s: seq<T>)
    requires IsOrder(less) && Ordered(less, s)
    ensures Ordered(less, Insert(less, x, s))
  {
    if s == [] {
    } else if less(x, s[|s| - 1]) {
      var init, last := s[..|s| - 1], s[|s| - 1];
      InsertKeepsOrder(less, x, init);
      InsertIsPermutation(less, x, init);
      forall y | y in Insert(less, x, init)
        ensures !less(last, y)
      {
        assert y in multiset(Insert(less, x, init));
      }
      AppendKeepsOrder(less, Insert(less, x, init), last);
    } else {
      forall y | y in s
        ensures !less(x, y)
      {
        assert !less(s[|s| - 1], y);
      }
      AppendKeepsOrder(less, s, x);
    }
  }

  lemma {:induction false} InsertKeepsTies<T(!new)>(less: (T, T) -> bool, x: T, s: seq<T>, y: T)
    requires IsOrder(less)
    ensures Ties(less, Insert(less, x, s), y) == Ties(less, s, y) + (if Tied(less, x, y) then [x] else [])
  {
    if s != [] && less(x, s[|s| - 1]) {
      InsertKeepsTies(less, x, s[..|s| - 1], y);
    } else {
      assert (s + [x])[..|s|] == s;
    }
  }

  /** Sorting rearranges, puts in order, and leaves entries that tie in the order they had. */
  lemma {:induction false} SortSorts<T(!new)>(less: (T, T) -> bool, s: seq<T>)
    requires IsOrder(less)
    ensures Ordered(less, Sort(less, s)) && multiset(Sort(less, s)) == multiset(s)
    ensures SameTies(less, Sort(less, s), s)
  {
    hide IsOrder, Insert;
    if s != [] {
      var init, last := s[..|s| - 1], s[|s| - 1];
      SortSorts(less, init);
      InsertKeepsOrder(less, last, Sort(less, init));
      InsertIsPermutation(less, last, Sort(less, init));
      forall x
        ensures Ties(less, Sort(less, s), x) == Ties(less, s, x)
      {
        InsertKeepsTies(less, last, Sort(less, init), x);
      }
      assert s == init + [last];
    }
  }

  /** Only equal entries tie. */
  ghost predicate NoTies<T(!new)>(less: (T, T) -> bool, s: seq<T>) {
    forall x, y :: x in s && y in s && Tied(less, x, y) ==> x == y
  }

  lemma FrontInOrder<T>(less: (T, T) -> bool, s: seq<T>)
    requires Ordered(less, s) && s != []
    ensures Ordered(less, s[..|s| - 1])
    ensures multiset(s[..|s| - 1]) == multiset(s) - multiset{s[|s| - 1]}
  {
    assert s == s[..|s| - 1] + [s[|s| - 1]];
  }

  lemma FrontHasNoTies<T(!new)>(less: (T, T) -> bool, s: seq<T>)
    requires NoTies(less, s) && s != []
    ensures NoTies(less, s[..|s| - 1])
  {
  }

  lemma {:induction false} SameLast<T(!new)>(less: (T, T) -> bool, a: seq<T>, b: seq<T>)
    requires Ordered(less, a) && Ordered(less, b) && NoTies(less, a)
    requires a != [] && b != [] && a[|a| - 1] in b && b[|b| - 1] in a
    ensures a[|a| - 1] == b[|b| - 1]
  {
    var x, y := a[|a| - 1], b[|b| - 1];
    assert x == y || Tied(less, x, y);
  }

  lemma LastsAreShared<T>(a: seq<T>, b: seq<T>)
    requires multiset(a) == multiset(b)
    ensures |a| == |b|
    ensures a != [] ==> a[|a| - 1] in b && b[|b| - 1] in a
  {
    SameSize(a, b);
  }

  lemma EqualFromFronts<T>(a: seq<T>, b: seq<T>)
    requires a != [] && b != [] && a[..|a| - 1] == b[..|b| - 1] && a[|a| - 1] == b[|b| - 1]
    ensures a == b
  {
    assert a == a[..|a| - 1] + [a[|a| - 1]] && b == b[..|b| - 1] + [b[|b| - 1]];
  }

  lemma SameSize<T>(a: seq<T>, b: seq<T>)
    requires multiset(a) == multiset(b)
    ensures |a| == |b| && forall x :: x in a <==> x in b
  {
    assert |a| == |multiset(a)| && |b| == |multiset(b)|;
    assert forall x :: x in a <==> x in multiset(a);
    assert forall x :: x in b <==> x in multiset(b);
  }

  /** Where no two entries tie, there is only one order for them. */
  lemma {:induction false} OrderedIsUnique<T(!new)>(less: (T, T) -> bool, a: seq<T>, b: seq<T>)
    requires Ordered(less, a) && Ordered(less, b) && NoTies(less, a) && multiset(a) == multiset(b)
    ensures a == b
    decreases |a|
  {
    hide Ordered, NoTies;
    LastsAreShared(a, b);
    if a != [] {
      SameLast(less, a, b);
      FrontHasNoTies(less, a);
      FrontInOrder(less, a);
      FrontInOrder(less, b);
      OrderedIsUnique(less, a[..|a| - 1], b[..|b| - 1]);
      EqualFromFronts(a, b);
    }
  }

  ghost predicate SameTies<T(!new)>(less: (T, T) -> bool, a: seq<T>, b: seq<T>) {
    forall x :: Ties(less, a, x) == Ties(less, b, x)
  }

  /** A stable sort is determined: in order, a rearrangement, and ties as they were. */
  lemma {:induction false} StableIsUnique<T(!new)>(less: (T, T) -> bool, a: seq<T>, b: seq<T>)
    requires IsOrder(less) && Ordered(less, a) && Ordered(less, b) && multiset(a) == multiset(b)
    requires SameTies(less, a, b)
    ensures a == b
    decreases |a|
  {
    hide Ordered, IsOrder, SameTies, Tied;
    LastsAreShared(a, b);
    if a != [] {
      var a1, b1 := a[..|a| - 1], b[..|b| - 1];
      TiedLast(less, a, b);
      SameTiedLast(less, a, b);
      TiesOfFronts(less, a, b);
      FrontInOrder(less, a);
      FrontInOrder(less, b);
      StableIsUnique(less, a1, b1);
      EqualFromFronts(a, b);
    }
  }

  lemma {:induction false} TiesOfFronts<T(!new)>(less: (T, T) -> bool, a: seq<T>, b: seq<T>)
    requires a != [] && b != [] && a[|a| - 1] == b[|b| - 1] && SameTies(less, a, b)
    ensures SameTies(less, a[..|a| - 1], b[..|b| - 1])
  {
    hide Ties;
    var a1, b1 := a[..|a| - 1], b[..|b| - 1];
    forall z
      ensures Ties(less, a1, z) == Ties(less, b1, z)
    {
      TiesOfFront(less, a, b, z);
    }
  }

  lemma {:induction false} SameTiedLast<T(!new)>(less: (T, T) -> bool, a: seq<T>, b: seq<T>)
    requires a != [] && b != [] && SameTies(less, a, b)
    requires Tied(less, a[|a| - 1], a[|a| - 1]) && Tied(less, b[|b| - 1], a[|a| - 1])
    ensures a[|a| - 1] == b[|b| - 1]
  {
    var x, y := a[|a| - 1], b[|b| - 1];
    assert Ties(less, a, x) == Ties(less, b, x);
    SameEnd(Ties(less, a[..|a| - 1], x), x, Ties(less, b[..|b| - 1], x), y);
  }

  lemma SameEnd<T>(s: seq<T>, x: T, t: seq<T>, y: T)
    requires s + [x] == t + [y]
    ensures s == t && x == y
  {
    assert |s + [x]| == |t + [y]|;
    assert (s + [x])[|s|] == (t + [y])[|t|];
    assert (s + [x])[..|s|] == s && (t + [y])[..|t|] == t;
  }

  lemma {:induction false} TiesOfFront<T(!new)>(less: (T, T) -> bool, a: seq<T>, b: seq<T>, z: T)
    requires a != [] && b != [] && a[|a| - 1] == b[|b| - 1] && Ties(less, a, z) == Ties(less, b, z)
    ensures Ties(less, a[..|a| - 1], z) == Ties(less, b[..|b| - 1], z)
  {
    var x := a[|a| - 1];
    if Tied(less, x, z) {
      SameEnd(Ties(less, a[..|a| - 1], z), x, Ties(less, b[..|b| - 1], z), x);
    } else {
      assert Ties(less, a, z) == Ties(less, a[..|a| - 1], z) && Ties(less, b, z) == Ties(less, b[..|b| - 1], z);
    }
  }

  lemma {:induction false} TiedLast<T(!new)>(less: (T, T) -> bool, a: seq<T>, b: seq<T>)
    requires IsOrder(less) && Ordered(less, a) && Ordered(less, b)
    requires a != [] && b != [] && a[|a| - 1] in b && b[|b| - 1] in a
    ensures Tied(less, a[|a| - 1], a[|a| - 1]) && Tied(less, b[|b| - 1], a[|a| - 1])
  {
  }

  // ---------- In place ----------

  /**
   * The first `n` cells of a slice are sorted in place, the others stay. The library's algorithm is
   * another one, but every stable sort leaves the same order.
   */
  method SortInPlace<T>(less: (T, T) -> bool, a: array<T>, n: nat)
    requires n <= a.Length
    modifies a
    ensures a[..n] == Sort(less, old(a[..n])) && a[n..] == old(a[n..])
  {
    ghost var was := a[..];
    for i := 0 to n
      invariant a[..i] == Sort(less, was[..i]) && a[i..] == was[i..]
    {
      ghost var sorted := a[..i];
      var x := a[i];
      assert x == was[i] by {
        assert a[i..][0] == was[i..][0];
      }
      MoveDown(less, a, i);
      assert was[..i + 1][..i] == was[..i];
      assert a[i + 1..] == was[i + 1..] by {
        assert was[i + 1..] == was[i..][1..];
      }
    }
    assert was[..n] == old(a[..n]);
  }

  /** Move the entry at `i` down to its place in the cells before it. */
  method MoveDown<T>(less: (T, T) -> bool, a: array<T>, i: nat)
    requires i < a.Length
    modifies a
    ensures a[..i + 1] == Insert(less, old(a[i]), old(a[..i])) && a[i + 1..] == old(a[i..])[1..]
  {
    hide Insert;
    ghost var s, behind := a[..i], a[i + 1..];
    var x := a[i];
    var j := i;
    assert a[..i + 1] == Gap(s, a[i], i);
    WholeList(less, x, s);
    while j > 0 && less(x, a[j - 1])
      invariant j <= i && a[..i + 1] == Gap(s, a[j], j) && a[i + 1..] == behind
      invariant Insert(less, x, s) == Insert(less, x, s[..j]) + s[j..]
    {
      ghost var cells := a[..i + 1];
      GapMoves(s, a[j], j);
      assert a[j - 1] == cells[j - 1];
      InsertBelow(less, x, s, j);
      a[j] := a[j - 1];
      assert a[..i + 1] == cells[j := s[j - 1]];
      j := j - 1;
      assert a[j] == cells[j];
    }
    ghost var cells := a[..i + 1];
    assert j > 0 ==> a[j - 1] == cells[j - 1] && cells[j - 1] == s[j - 1] by {
      if j > 0 {
        GapMoves(s, a[j], j);
      }
    }
    InsertHere(less, x, s, j);
    GapFilled(s, a[j], j, x);
    a[j] := x;
    assert a[..i + 1] == cells[j := x];
  }

  /** A list with one more cell at `j`. */
  ghost function Gap<T>(s: seq<T>, e: T, j: nat): seq<T>
    requires j <= |s|
  {
    s[..j] + [e] + s[j..]
  }

  lemma GapMoves<T>(s: seq<T>, e: T, j: nat)
    requires 0 < j <= |s|
    ensures Gap(s, e, j)[j - 1] == s[j - 1]
    ensures Gap(s, e, j)[j := s[j - 1]] == Gap(s, s[j - 1], j - 1)
  {
  }

  lemma GapFilled<T>(s: seq<T>, e: T, j: nat, x: T)
    requires j <= |s|
    ensures Gap(s, e, j)[j := x] == s[..j] + [x] + s[j..]
  {
  }

  lemma WholeList<T>(less: (T, T) -> bool, x: T, s: seq<T>)
    ensures Insert(less, x, s) == Insert(less, x, s[..|s|]) + s[|s|..]
  {
    assert s[..|s|] == s && s[|s|..] == [];
  }

  lemma InsertHere<T>(less: (T, T) -> bool, x: T, s: seq<T>, j: nat)
    requires j <= |s| && (j > 0 ==> !less(x, s[j - 1]))
    ensures Insert(less, x, s[..j]) == s[..j] + [x]
  {
  }

  lemma InsertBelow<T>(less: (T, T) -> bool, x: T, s: seq<T>, j: nat)
    requires 0 < j <= |s| && less(x, s[j - 1])
    ensures Insert(less, x, s[..j]) + s[j..] == Insert(less, x, s[..j - 1]) + s[j - 1..]
  {
    assert s[..j][..j - 1] == s[..j - 1];
    assert s[j - 1..] == [s[j - 1]] + s[j..];
  }

  method ToArray<T>(s: seq<T>) returns (a: array<T>)
    ensures fresh(a) && a[..] == s
  {
    a := new T[|s|](i requires 0 <= i < |s| => s[i]);
  }

  // ---------- Entries told apart by a key ----------

  ghost predicate DistinctBy<T, K>(key: T -> K, s: seq<T>) {
    forall i, j :: 0 <= i < j < |s| ==> key(s[i]) != key(s[j])
  }

  lemma {:induction false} OnceInDistinct<T, K>(key: T -> K, s: seq<T>, x: T)
    requires DistinctBy(key, s)
    ensures multiset(s)[x] <= 1
  {
    if s != [] {
      OnceInDistinct(key, s[1..], x);
      assert s == [s[0]] + s[1..];
    }
  }

  lemma {:induction false} PermutedStaysDistinct<T, K>(key: T -> K, a: seq<T>, b: seq<T>)
    requires multiset(a) == multiset(b) && DistinctBy(key, a)
    ensures DistinctBy(key, b)
  {
    forall i, j | 0 <= i < j < |b|
      ensures key(b[i]) != key(b[j])
    {
      if key(b[i]) == key(b[j]) {
        assert b[i] in multiset(a) && b[j] in multiset(a);
        assert b == b[..i] + [b[i]] + b[i + 1..j] + [b[j]] + b[j + 1..];
        OnceInDistinct(key, a, b[i]);
      }
    }
  }

  /** The same entries, each once, are a rearrangement. */
  lemma SameEntriesPermute<T, K>(key: T -> K, a: seq<T>, b: seq<T>)
    requires DistinctBy(key, a) && DistinctBy(key, b) && forall x :: x in a <==> x in b
    ensures multiset(a) == multiset(b)
  {
    forall x
      ensures multiset(a)[x] == multiset(b)[x]
    {
      OnceInDistinct(key, a, x);
      OnceInDistinct(key, b, x);
      assert x in a <==> x in multiset(a);
      assert x in b <==> x in multiset(b);
    }
  }
}

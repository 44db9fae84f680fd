/** Sequence operations behind the engine's List<T> bookkeeping: the
    by-reference RemoveAll, the destroy-then-add drain of the pending
    buffers, the remove-at-index sweep of an update pass, and the swap that
    brings a level to the drawn slot. */
module Lists {

  datatype Option<T> = None | Some(value: T)

  /** `a` can be obtained from `b` by deleting elements: the order is kept. */
  predicate IsSubsequence<T(==)>(a: seq<T>, b: seq<T>)
    decreases |b|
  {
    if b == [] then a == []
    else (a != [] && a[0] == b[0] && IsSubsequence(a[1..], b[1..])) || IsSubsequence(a, b[1..])
  }

  lemma {:induction false} SubsequenceRefl<T>(s: seq<T>)
    ensures IsSubsequence(s, s)
  {
    if s != [] { SubsequenceRefl(s[1..]); }
  }

  lemma SubsequenceCons<T>(x: T, a: seq<T>, b: seq<T>)
    requires IsSubsequence(a, b)
    ensures IsSubsequence([x] + a, [x] + b)
    ensures IsSubsequence(a, [x] + b)
  {
    assert ([x] + a)[1..] == a && ([x] + b)[1..] == b;
  }

  lemma {:induction false} EmptySubsequence<T>(s: seq<T>)
    ensures IsSubsequence([], s)
  {
    if s != [] { EmptySubsequence(s[1..]); }
  }

  lemma {:induction false} SubsequenceAppend<T>(a: seq<T>, b: seq<T>, c: seq<T>)
    requires IsSubsequence(a, b)
    ensures IsSubsequence(a + c, b + c)
    decreases |b|
  {
    if b == [] {
      assert a + c == c && b + c == c;
      SubsequenceRefl(c);
    } else if a != [] && a[0] == b[0] && IsSubsequence(a[1..], b[1..]) {
      SubsequenceAppend(a[1..], b[1..], c);
      assert (a + c)[1..] == a[1..] + c && (b + c)[1..] == b[1..] + c;
    } else {
      SubsequenceAppend(a, b[1..], c);
      assert (b + c)[1..] == b[1..] + c;
    }
  }

  /** An element of a subsequence is an element of the whole. */
  lemma {:induction false} SubsequenceMembers<T>(a: seq<T>, b: seq<T>)
    requires IsSubsequence(a, b)
    ensures multiset(a) <= multiset(b)
    decreases |b|
  {
    if b == [] {
    } else if a != [] && a[0] == b[0] && IsSubsequence(a[1..], b[1..]) {
      SubsequenceMembers(a[1..], b[1..]);
      assert a == [a[0]] + a[1..] && b == [b[0]] + b[1..];
    } else {
      SubsequenceMembers(a, b[1..]);
      assert b == [b[0]] + b[1..];
    }
  }

  // ---------------------------------------------------------------------
  // RemoveAll(item => item == x)

  /** The list with every occurrence of `x` removed, the others in order. */
  function Without<T(==)>(s: seq<T>, x: T): (r: seq<T>)
  {
    if s == [] then []
    else if s[0] == x then Without(s[1..], x)
    else [s[0]] + Without(s[1..], x)
  }

  /** Removing by reference drops exactly the occurrences of `x`: the count
      of every other element is kept and `x` no longer occurs. */
  lemma {:induction false} WithoutCounts<T>(s: seq<T>, x: T)
    ensures multiset(Without(s, x)) == multiset(s)[x := 0]
  {
    if s != [] {
      WithoutCounts(s[1..], x);
      assert s == [s[0]] + s[1..];
    }
  }

  lemma {:induction false} WithoutKeepsOrder<T>(s: seq<T>, x: T)
    ensures IsSubsequence(Without(s, x), s)
  {
    if s != [] {
      WithoutKeepsOrder(s[1..], x);
      assert s == [s[0]] + s[1..];
      SubsequenceCons(s[0], Without(s[1..], x), s[1..]);
    }
  }

  /** RemoveAll of a reference that is absent changes nothing. */
  lemma {:induction false} WithoutAbsent<T>(s: seq<T>, x: T)
    requires x !in s
    ensures Without(s, x) == s
  {
    if s != [] {
      WithoutAbsent(s[1..], x);
      assert s == [s[0]] + s[1..];
    }
  }

  lemma {:induction false} WithoutMembers<T>(s: seq<T>, x: T, y: T)
    ensures y in Without(s, x) <==> y in s && y != x
  {
    WithoutCounts(s, x);
    assert y in Without(s, x) <==> y in multiset(Without(s, x));
    assert y in s <==> y in multiset(s);
  }

  lemma {:induction false} WithoutAppend<T>(a: seq<T>, b: seq<T>, x: T)
    ensures Without(a + b, x) == Without(a, x) + Without(b, x)
  {
    if a != [] {
      WithoutAppend(a[1..], b, x);
      assert (a + b)[1..] == a[1..] + b;
    } else {
      assert a + b == b;
    }
  }

  /** List<T>.RemoveAll compacts the list in place, keeping each element
      that does not match; here the kept elements are collected in order. */
  method RemoveAll<T(==)>(s: seq<T>, x: T) returns (r: seq<T>)
    ensures x !in r
    ensures multiset(r) == multiset(s)[x := 0]
    ensures IsSubsequence(r, s)
    ensures r == Without(s, x)
  {
    r := [];
    var i := 0;
    while i < |s|
      invariant 0 <= i <= |s|
      invariant r == Without(s[..i], x)
    {
      assert s[..i + 1] == s[..i] + [s[i]];
      WithoutAppend(s[..i], [s[i]], x);
      assert Without([s[i]], x) == if s[i] == x then [] else [s[i]];
      if s[i] != x {
        r := r + [s[i]];
      }
      i := i + 1;
    }
    assert s[..i] == s;
    WithoutCounts(s, x);
    WithoutKeepsOrder(s, x);
    WithoutMembers(s, x, x);
  }

  // ---------------------------------------------------------------------
  // Collecting the elements that pass a test, as a foreach loop does

  /** The elements of `s` for which `p` holds, in list order. */
  function Filter<T>(s: seq<T>, p: T -> bool): (r: seq<T>)
    ensures |r| <= |s|
  {
    if s == [] then []
    else if p(s[0]) then [s[0]] + Filter(s[1..], p)
    else Filter(s[1..], p)
  }

  lemma {:induction false} FilterMembers<T>(s: seq<T>, p: T -> bool, y: T)
    ensures y in Filter(s, p) <==> y in s && p(y)
  {
    if s != [] {
      FilterMembers(s[1..], p, y);
      assert s == [s[0]] + s[1..];
    }
  }

  lemma {:induction false} FilterOrder<T>(s: seq<T>, p: T -> bool)
    ensures IsSubsequence(Filter(s, p), s)
  {
    if s != [] {
      FilterOrder(s[1..], p);
      assert s == [s[0]] + s[1..];
      SubsequenceCons(s[0], Filter(s[1..], p), s[1..]);
    } else {
      EmptySubsequence(s);
    }
  }

  /** One more element visited by the loop adds it at the end when it
      passes the test. */
  lemma {:induction false} FilterAppend<T>(s: seq<T>, y: T, p: T -> bool)
    ensures Filter(s + [y], p) == Filter(s, p) + if p(y) then [y] else []
  {
    if s != [] {
      FilterAppend(s[1..], y, p);
      assert (s + [y])[1..] == s[1..] + [y];
    } else {
      assert [y][1..] == [];
    }
  }

  // ---------------------------------------------------------------------
  // The pending-buffer drain: destroy first, then add

  /** The elements of `live` whose reference is not in `kill`, in order. */
  function Remaining<T(==)>(live: seq<T>, kill: seq<T>): seq<T>
  {
    if live == [] then []
    else if live[0] in kill then Remaining(live[1..], kill)
    else [live[0]] + Remaining(live[1..], kill)
  }

  /** The list after the pending removals and then the pending additions. */
  function Drain<T(==)>(live: seq<T>, kill: seq<T>, add: seq<T>): seq<T>
  {
    Remaining(live, kill) + add
  }

  /** One more RemoveAll in the destroy loop removes one more reference. */
  lemma {:induction false} RemainingStep<T>(live: seq<T>, kill: seq<T>, x: T)
    ensures Without(Remaining(live, kill), x) == Remaining(live, kill + [x])
  {
    if live != [] {
      RemainingStep(live[1..], kill, x);
      assert live[0] in kill + [x] <==> live[0] in kill || live[0] == x;
    }
  }

  lemma RemainingNone<T>(live: seq<T>)
    ensures Remaining(live, []) == live
  {
  }

  /** An element survives the drain iff it was live and not destroyed, or
      it was pending addition: an element both added and destroyed in the
      same pass ends up present, since removal comes first. */
  lemma {:induction false} DrainMembers<T>(live: seq<T>, kill: seq<T>, add: seq<T>, y: T)
    ensures y in Drain(live, kill, add) <==> (y in live && y !in kill) || y in add
  {
    RemainingMembers(live, kill, y);
  }

  lemma {:induction false} RemainingMembers<T>(live: seq<T>, kill: seq<T>, y: T)
    ensures y in Remaining(live, kill) <==> y in live && y !in kill
  {
    if live != [] {
      RemainingMembers(live[1..], kill, y);
      assert live == [live[0]] + live[1..];
    }
  }

  /** The survivors of the drain keep their relative order, and the added
      elements follow them in the order they were requested. */
  lemma {:induction false} DrainOrder<T>(live: seq<T>, kill: seq<T>, add: seq<T>)
    ensures IsSubsequence(Remaining(live, kill), live)
    ensures Drain(live, kill, add)[|Remaining(live, kill)|..] == add
  {
    if live != [] {
      DrainOrder(live[1..], kill, add);
      assert live == [live[0]] + live[1..];
      SubsequenceCons(live[0], Remaining(live[1..], kill), live[1..]);
    } else {
      EmptySubsequence(live);
    }
  }

  /** The drain loop of the engine: RemoveAll for each pending removal,
      then Add for each pending addition. */
  method DrainPending<T(==)>(live: seq<T>, kill: seq<T>, add: seq<T>) returns (r: seq<T>)
    ensures r == Drain(live, kill, add)
  {
    RemainingNone(live);
    r := live;
    var j := 0;
    while j < |kill|
      invariant 0 <= j <= |kill|
      invariant r == Remaining(live, kill[..j])
    {
      RemainingStep(live, kill[..j], kill[j]);
      assert kill[..j + 1] == kill[..j] + [kill[j]];
      r := RemoveAll(r, kill[j]);
      j := j + 1;
    }
    assert kill[..j] == kill;
    var k := 0;
    while k < |add|
      invariant 0 <= k <= |add|
      invariant r == Remaining(live, kill) + add[..k]
    {
      assert add[..k + 1] == add[..k] + [add[k]];
      r := r + [add[k]];
      k := k + 1;
    }
    assert add[..k] == add;
  }

  // ---------------------------------------------------------------------
  // The update pass: `for (i = 0; i < Count; i++) { hook(list[i]);
  // if (list[i].ToDestroy) list.RemoveAt(i); }`

  /** The list the update loop leaves when it is at index `i` of `s`: the
      element at `i` gets hook call number `i`; when `drop` reports that it
      wants to be destroyed it is removed at `i`, and the loop still goes on
      at `i + 1`. */
  function Sweep<T>(s: seq<T>, i: nat, drop: (nat, T) -> bool): seq<T>
    decreases |s| - i
  {
    if i >= |s| then s
    else if drop(i, s[i]) then Sweep(s[..i] + s[i + 1..], i + 1, drop)
    else Sweep(s, i + 1, drop)
  }

  /** The elements whose hook the same loop runs, in call order. */
  function Visits<T>(s: seq<T>, i: nat, drop: (nat, T) -> bool): seq<T>
    decreases |s| - i
  {
    if i >= |s| then []
    else if drop(i, s[i]) then [s[i]] + Visits(s[..i] + s[i + 1..], i + 1, drop)
    else [s[i]] + Visits(s, i + 1, drop)
  }

  /** One step of the update loop. */
  lemma SweepStep<T>(s: seq<T>, i: nat, drop: (nat, T) -> bool)
    requires i < |s|
    ensures var next := if drop(i, s[i]) then s[..i] + s[i + 1..] else s;
      Sweep(s, i, drop) == Sweep(next, i + 1, drop) &&
      Visits(s, i, drop) == [s[i]] + Visits(next, i + 1, drop)
  {
  }

  /** The loop step of a sweep: after handling index `i` the two
      invariants of the update loop hold again at `i + 1`. */
  lemma SweepAdvance<T>(s0: seq<T>, s: seq<T>, i: nat, drop: (nat, T) -> bool, done: seq<T>, next: seq<T>)
    requires i < |s|
    requires next == if drop(i, s[i]) then s[..i] + s[i + 1..] else s
    requires Sweep(s, i, drop) == Sweep(s0, 0, drop)
    requires done + Visits(s, i, drop) == Visits(s0, 0, drop)
    ensures Sweep(next, i + 1, drop) == Sweep(s0, 0, drop)
    ensures (done + [s[i]]) + Visits(next, i + 1, drop) == Visits(s0, 0, drop)
  {
    SweepStep(s, i, drop);
    assert (done + [s[i]]) + Visits(next, i + 1, drop) == done + ([s[i]] + Visits(next, i + 1, drop));
  }

  /** The update loop has run off the end of the list. */
  lemma SweepDone<T>(s: seq<T>, i: nat, drop: (nat, T) -> bool)
    requires i >= |s|
    ensures Sweep(s, i, drop) == s && Visits(s, i, drop) == []
  {
  }

  /** The pass only removes: what is left was there before. */
  lemma SweepMembers<T>(s: seq<T>, drop: (nat, T) -> bool, y: T)
    requires y in Sweep(s, 0, drop)
    ensures y in s
  {
    SweepIsReference(s, 0, drop);
    PassOrder(s, 0, drop);
    SubsequenceMembers(Kept(s, 0, drop), s);
    assert s[..0] + Kept(s[0..], 0, drop) == Kept(s, 0, drop);
    assert y in multiset(Kept(s, 0, drop));
  }

  /** Only elements of the list the pass started with are visited: an
      element appended during the pass waits for the next one. */
  lemma VisitsMembers<T>(s: seq<T>, drop: (nat, T) -> bool, y: T)
    requires y !in s
    ensures y !in Visits(s, 0, drop)
  {
    SweepIsReference(s, 0, drop);
    PassOrder(s, 0, drop);
    SubsequenceMembers(Called(s, 0, drop), s);
    assert s[0..] == s;
    assert y !in multiset(s);
  }

  // A reference description of the same pass, read off the original list
  // from the front: an element whose hook asks for removal is removed, and
  // the element right behind it moves into the freed slot, which the loop
  // has already passed, so that element is neither visited nor removed in
  // this pass.

  /** The elements that survive the pass, in order. */
  function Kept<T>(s: seq<T>, k: nat, drop: (nat, T) -> bool): seq<T>
    decreases |s|
  {
    if s == [] then []
    else if !drop(k, s[0]) then [s[0]] + Kept(s[1..], k + 1, drop)
    else if |s| == 1 then []
    else [s[1]] + Kept(s[2..], k + 1, drop)
  }

  /** The elements whose hook runs, in call order; call `k` is the first. */
  function Called<T>(s: seq<T>, k: nat, drop: (nat, T) -> bool): seq<T>
    decreases |s|
  {
    if s == [] then []
    else if !drop(k, s[0]) then [s[0]] + Called(s[1..], k + 1, drop)
    else if |s| == 1 then [s[0]]
    else [s[0]] + Called(s[2..], k + 1, drop)
  }

  /** The elements removed by the pass: visited, and flagged by their hook. */
  function Dropped<T>(s: seq<T>, k: nat, drop: (nat, T) -> bool): seq<T>
    decreases |s|
  {
    if s == [] then []
    else if !drop(k, s[0]) then Dropped(s[1..], k + 1, drop)
    else if |s| == 1 then [s[0]]
    else [s[0]] + Dropped(s[2..], k + 1, drop)
  }

  /** The elements the pass skips: each one follows a removed element. */
  function Skipped<T>(s: seq<T>, k: nat, drop: (nat, T) -> bool): seq<T>
    decreases |s|
  {
    if s == [] then []
    else if !drop(k, s[0]) then Skipped(s[1..], k + 1, drop)
    else if |s| == 1 then []
    else [s[1]] + Skipped(s[2..], k + 1, drop)
  }

  /** The index loop computes exactly the reference pass: the part of the
      list before `i` has been dealt with, the rest is processed from the
      front, with hook call numbers starting at `i`. */
  lemma {:induction false} SweepIsReference<T>(s: seq<T>, i: nat, drop: (nat, T) -> bool)
    requires i <= |s|
    ensures Sweep(s, i, drop) == s[..i] + Kept(s[i..], i, drop)
    ensures Visits(s, i, drop) == Called(s[i..], i, drop)
    decreases |s| - i
  {
    if i == |s| {
      assert s[..i] == s && s[i..] == [];
    } else if !drop(i, s[i]) {
      SweepIsReference(s, i + 1, drop);
      assert s[i..][1..] == s[i + 1..];
      assert s[..i + 1] == s[..i] + [s[i]];
    } else {
      var t := s[..i] + s[i + 1..];
      if i + 1 == |s| {
        assert t == s[..i];
        assert |s[i..]| == 1;
      } else {
        SweepIsReference(t, i + 1, drop);
        assert t[..i + 1] == s[..i] + [s[i + 1]];
        assert t[i + 1..] == s[i + 2..];
        assert s[i..][1] == s[i + 1] && s[i..][2..] == s[i + 2..];
      }
    }
  }

  /** Nothing is lost or invented: the survivors and the removed elements
      together are the list the pass started with. */
  lemma {:induction false} KeptAndDropped<T>(s: seq<T>, k: nat, drop: (nat, T) -> bool)
    ensures multiset(Kept(s, k, drop)) + multiset(Dropped(s, k, drop)) == multiset(s)
    decreases |s|
  {
    if s == [] {
    } else if !drop(k, s[0]) {
      KeptAndDropped(s[1..], k + 1, drop);
      HeadSplit(s);
    } else if |s| > 1 {
      KeptAndDropped(s[2..], k + 1, drop);
      HeadSplit(s);
      HeadSplit(s[1..]);
      assert s[1..][1..] == s[2..];
    }
  }

  /** Every element is either visited once or skipped once. */
  lemma {:induction false} CalledAndSkipped<T>(s: seq<T>, k: nat, drop: (nat, T) -> bool)
    ensures multiset(Called(s, k, drop)) + multiset(Skipped(s, k, drop)) == multiset(s)
    decreases |s|
  {
    if s == [] {
    } else if !drop(k, s[0]) {
      CalledAndSkipped(s[1..], k + 1, drop);
      HeadSplit(s);
    } else if |s| > 1 {
      CalledAndSkipped(s[2..], k + 1, drop);
      HeadSplit(s);
      HeadSplit(s[1..]);
      assert s[1..][1..] == s[2..];
    }
  }

  lemma HeadSplit<T>(s: seq<T>)
    requires s != []
    ensures multiset(s) == multiset{s[0]} + multiset(s[1..])
  {
    assert s == [s[0]] + s[1..];
  }

  /** The survivors, the visited and the removed elements all keep the
      order of the list, the removed ones are among the visited, and the
      skipped ones survive. */
  lemma {:induction false} PassOrder<T>(s: seq<T>, k: nat, drop: (nat, T) -> bool)
    ensures IsSubsequence(Kept(s, k, drop), s)
    ensures IsSubsequence(Called(s, k, drop), s)
    ensures IsSubsequence(Dropped(s, k, drop), Called(s, k, drop))
    ensures IsSubsequence(Skipped(s, k, drop), Kept(s, k, drop))
    decreases |s|
  {
    if s == [] {
    } else if !drop(k, s[0]) {
      PassOrder(s[1..], k + 1, drop);
      assert s == [s[0]] + s[1..];
      SubsequenceCons(s[0], Kept(s[1..], k + 1, drop), s[1..]);
      SubsequenceCons(s[0], Called(s[1..], k + 1, drop), s[1..]);
      SubsequenceCons(s[0], Dropped(s[1..], k + 1, drop), Called(s[1..], k + 1, drop));
      SubsequenceCons(s[0], Skipped(s[1..], k + 1, drop), Kept(s[1..], k + 1, drop));
    } else if |s| == 1 {
      SubsequenceRefl(s);
      EmptySubsequence(s);
    } else {
      PassOrder(s[2..], k + 1, drop);
      assert s == [s[0]] + ([s[1]] + s[2..]);
      SubsequenceCons(s[1], Kept(s[2..], k + 1, drop), s[2..]);
      SubsequenceCons(s[0], [s[1]] + Kept(s[2..], k + 1, drop), [s[1]] + s[2..]);
      SubsequenceCons(s[1], Called(s[2..], k + 1, drop), s[2..]);
      SubsequenceCons(s[0], Called(s[2..], k + 1, drop), [s[1]] + s[2..]);
      SubsequenceCons(s[0], Dropped(s[2..], k + 1, drop), Called(s[2..], k + 1, drop));
      SubsequenceCons(s[1], Skipped(s[2..], k + 1, drop), Kept(s[2..], k + 1, drop));
    }
  }

  /** When no hook asks for removal, every element is visited once, in
      order, and the list is unchanged. */
  lemma {:induction false} PassWithoutRemovals<T>(s: seq<T>, k: nat, drop: (nat, T) -> bool)
    requires forall j: nat, x: T :: !drop(j, x)
    ensures Kept(s, k, drop) == s && Called(s, k, drop) == s
    ensures Dropped(s, k, drop) == [] && Skipped(s, k, drop) == []
    decreases |s|
  {
    if s != [] {
      assert !drop(k, s[0]);
      PassWithoutRemovals(s[1..], k + 1, drop);
    }
  }

  /** The skip in a small case: of three elements, when the first asks to be
      destroyed, the second moves into its slot and is not visited. */
  lemma SkipScenario<T>(a: T, b: T, c: T, drop: (nat, T) -> bool)
    requires drop(0, a) && !drop(1, c)
    ensures Sweep([a, b, c], 0, drop) == [b, c]
    ensures Visits([a, b, c], 0, drop) == [a, c]
  {
    assert [a, b, c][..0] + [a, b, c][1..] == [b, c];
    assert [b, c][1] == c;
    assert Sweep([b, c], 2, drop) == [b, c] && Visits([b, c], 2, drop) == [];
    assert Sweep([b, c], 1, drop) == [b, c] && Visits([b, c], 1, drop) == [c];
  }

  // ---------------------------------------------------------------------
  // Bringing an element to slot 0

  /** The index of the first occurrence of `x`, if any. */
  function FirstIndex<T(==)>(s: seq<T>, x: T): (r: Option<nat>)
    ensures r.Some? ==> r.value < |s| && s[r.value] == x && x !in s[..r.value]
    ensures r.None? ==> x !in s
  {
    if s == [] then None
    else if s[0] == x then Some(0)
    else match FirstIndex(s[1..], x)
      case None => None
      case Some(j) => assert s[..j + 1] == [s[0]] + s[1..][..j]; Some(j + 1)
  }

  /** The list after swapping slot 0 with the first occurrence of `x`:
      a permutation of `s`, `x` at the front if present, unchanged if absent,
      and no slot other than 0 and that occurrence touched. */
  function SwapToFront<T(==)>(s: seq<T>, x: T): (r: seq<T>)
    ensures |r| == |s| && multiset(r) == multiset(s)
    ensures x in s ==> r[0] == x
    ensures x !in s ==> r == s
    ensures forall j :: 0 < j < |s| && s[j] != x ==> r[j] == s[j]
    ensures forall j :: 0 < j < |s| && Some(j) != FirstIndex(s, x) ==> r[j] == s[j]
  {
    match FirstIndex(s, x)
    case None => s
    case Some(k) => s[0 := x][k := s[0]]
  }

  /** Where the first occurrence of `x` lies once one more element has
      been appended. */
  lemma {:induction false} FirstIndexSnoc<T>(s: seq<T>, y: T, x: T)
    ensures FirstIndex(s + [y], x) ==
      if x in s then FirstIndex(s, x) else if y == x then Some(|s|) else None
  {
    if s != [] {
      FirstIndexSnoc(s[1..], y, x);
      assert (s + [y])[1..] == s[1..] + [y];
      assert s == [s[0]] + s[1..];
    }
  }

  /** One turn of the swap loop at index `i`, which swaps slots 0 and `i`
      when slot `i` holds `x`: after the turns for indices below `i`, the
      list is the first `i` elements brought to the front by SwapToFront,
      followed by the untouched rest. */
  lemma SwapLoopStep<T>(s: seq<T>, x: T, i: nat)
    requires i < |s|
    ensures var t := SwapToFront(s[..i], x) + s[i..];
      (if t[i] == x then t[0 := t[i]][i := t[0]] else t) == SwapToFront(s[..i + 1], x) + s[i + 1..]
  {
    FirstIndexSnoc(s[..i], s[i], x);
    assert s[..i + 1] == s[..i] + [s[i]];
    if x in s[..i] {
      SwapLoopFound(s, x, i);
    } else if s[i] == x {
      SwapLoopFirst(s, x, i);
    } else {
      assert SwapToFront(s[..i], x) == s[..i];
      assert x !in s[..i + 1];
      assert s[..i] + s[i..] == s == s[..i + 1] + s[i + 1..];
    }
  }

  /** The turn after the first occurrence has been brought to the front:
      slot 0 already holds `x`, so any further swap changes nothing. */
  lemma SwapLoopFound<T>(s: seq<T>, x: T, i: nat)
    requires i < |s| && x in s[..i]
    requires FirstIndex(s[..i + 1], x) == FirstIndex(s[..i], x)
    ensures var t := SwapToFront(s[..i], x) + s[i..];
      (if t[i] == x then t[0 := t[i]][i := t[0]] else t) == SwapToFront(s[..i + 1], x) + s[i + 1..]
  {
    var k := FirstIndex(s[..i], x).value;
    var u := SwapToFront(s[..i], x);
    var t := u + s[i..];
    assert u == s[..i][0 := x][k := s[0]];
    assert SwapToFront(s[..i + 1], x) == s[..i + 1][0 := x][k := s[0]];
    assert s[..i + 1][0 := x][k := s[0]] == u + [s[i]];
    assert s[i..] == [s[i]] + s[i + 1..];
    assert t == (u + [s[i]]) + s[i + 1..];
    assert t[i] == s[i] && t[0] == x;
  }

  /** The turn that meets the first occurrence of `x` swaps it with slot 0. */
  lemma SwapLoopFirst<T>(s: seq<T>, x: T, i: nat)
    requires i < |s| && x !in s[..i] && s[i] == x
    requires FirstIndex(s[..i + 1], x) == Some(i)
    ensures var t := SwapToFront(s[..i], x) + s[i..];
      (if t[i] == x then t[0 := t[i]][i := t[0]] else t) == SwapToFront(s[..i + 1], x) + s[i + 1..]
  {
    var t := SwapToFront(s[..i], x) + s[i..];
    assert SwapToFront(s[..i], x) == s[..i];
    assert t == s;
    assert SwapToFront(s[..i + 1], x) == s[..i + 1][0 := x][i := s[0]];
    SwapInPrefix(s, i, x);
  }

  /** Swapping slots 0 and `i` inside the first `i + 1` elements and then
      appending the rest is swapping them in the whole list. */
  lemma SwapInPrefix<T>(s: seq<T>, i: nat, x: T)
    requires i < |s|
    ensures s[..i + 1][0 := x][i := s[0]] + s[i + 1..] == s[0 := x][i := s[0]]
  {
    var u := s[..i + 1][0 := x][i := s[0]];
    var v := s[0 := x][i := s[0]];
    forall j | 0 <= j < |v|
      ensures (u + s[i + 1..])[j] == v[j]
    {
      if j <= i {
        assert (u + s[i + 1..])[j] == u[j];
      } else {
        assert (u + s[i + 1..])[j] == s[j];
      }
    }
  }
}

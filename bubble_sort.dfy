/** bubble_sort of docs/.vitepress/utils.ts: an in-place bubble sort of sidebar entries by the
    number their title starts with. Two neighbours are swapped only when both keys are
    numbers and the first is strictly greater, so an entry whose key is NaN never moves and
    acts as a barrier: each stretch of numeric entries between two such barriers is sorted
    on its own, stably. */
module NumericSort {
  import opened JsString
  import opened JsNumber

  /** `Number(text.split(" ")[0])` */
  function Key(text: string): Number {
    ToNumber(Split(text, ' ')[0])
  }

  function SortKey<T>(text: T -> string): T -> Number {
    x => Key(text(x))
  }

  /** Every entry from x to y (inclusive) has a numeric key. */
  predicate Connected<T>(s: seq<T>, key: T -> Number, x: int, y: int) {
    0 <= x <= y < |s| && forall m :: x <= m <= y ==> !key(s[m]).NaN?
  }

  /** Position y lies within `passes` of the end of its numeric stretch. */
  predicate Settled<T>(s: seq<T>, key: T -> Number, y: int, passes: nat) {
    !(y + passes < |s| && Connected(s, key, y, y + passes))
  }

  /** During pass `done + 1`, before comparing positions j - 1 and j: every settled entry,
      and every entry already passed that the current pass settles, is at least every entry
      before it in its stretch; and the entry at j - 1 is the largest of its stretch so far. */
  predicate PassInv<T>(s: seq<T>, key: T -> Number, done: nat, j: nat) {
    && (forall x, y {:trigger Connected(s, key, x, y)} :: 0 <= x < y < |s| && Connected(s, key, x, y)
          && (Settled(s, key, y, done) || (y < j && Settled(s, key, y, done + 1)))
          ==> Le(key(s[x]), key(s[y])))
    && (1 <= j <= |s| ==> forall x {:trigger Connected(s, key, x, j - 1)} :: 0 <= x < j - 1 && Connected(s, key, x, j - 1) ==> Le(key(s[x]), key(s[j - 1])))
  }

  /** Each stretch of entries with numeric keys is in non-decreasing order. */
  predicate SortedRuns<T>(s: seq<T>, key: T -> Number) {
    forall x, y {:trigger Connected(s, key, x, y)} :: 0 <= x < y < |s| && Connected(s, key, x, y) ==> Le(key(s[x]), key(s[y]))
  }

  function Swap<T>(s: seq<T>, i: nat): (r: seq<T>)
    requires i + 1 < |s|
    ensures |r| == |s| && r[i] == s[i + 1] && r[i + 1] == s[i]
    ensures forall k :: 0 <= k < |s| && k != i && k != i + 1 ==> r[k] == s[k]
  {
    s[i := s[i + 1]][i + 1 := s[i]]
  }

  /** perm is a permutation of 0 .. n - 1. */
  predicate IsPerm(perm: seq<nat>, n: nat) {
    && |perm| == n
    && (forall k :: 0 <= k < n ==> perm[k] < n)
    && (forall k, l :: 0 <= k < l < n ==> perm[k] != perm[l])
  }

  /** s is the original sequence o rearranged by perm; NaN-keyed entries stay where they
      were; and two entries appear in the opposite order to the original only when the
      one now first has the strictly smaller key (so equal keys keep their order). */
  predicate Tracks<T(==)>(o: seq<T>, s: seq<T>, perm: seq<nat>, key: T -> Number) {
    && |o| == |s| && IsPerm(perm, |s|)
    && (forall k :: 0 <= k < |s| ==> s[k] == o[perm[k]])
    && (forall k :: 0 <= k < |s| && key(s[k]).NaN? ==> perm[k] == k)
    && (forall k :: 0 <= k < |s| && key(o[k]).NaN? ==> perm[k] == k)
    && (forall x, y :: 0 <= x < y < |s| && perm[x] > perm[y] ==> Gt(key(s[y]), key(s[x])))
  }

  function Identity(n: nat): (r: seq<nat>)
    ensures |r| == n && forall k :: 0 <= k < n ==> r[k] == k
  {
    seq(n, k requires 0 <= k => k)
  }

  lemma TracksStart<T>(s: seq<T>, key: T -> Number)
    ensures Tracks(s, s, Identity(|s|), key)
  {
  }

  lemma SwapMultiset<T>(s: seq<T>, i: nat)
    requires i + 1 < |s|
    ensures multiset(Swap(s, i)) == multiset(s)
  {
    var r := Swap(s, i);
    assert s == s[..i] + [s[i], s[i + 1]] + s[i + 2..];
    assert r == s[..i] + [s[i + 1], s[i]] + s[i + 2..];
  }

  /** Swapping an out-of-order numeric pair keeps the bookkeeping of where each entry came from. */
  lemma {:induction false} TracksSwap<T>(o: seq<T>, s: seq<T>, perm: seq<nat>, key: T -> Number, i: nat)
    requires i + 1 < |s|
    requires Tracks(o, s, perm, key)
    requires Gt(key(s[i]), key(s[i + 1]))
    ensures Tracks(o, Swap(s, i), Swap(perm, i), key)
  {
    var r, q := Swap(s, i), Swap(perm, i);
    assert perm[i] < perm[i + 1] by {
      if perm[i] > perm[i + 1] {
        LeTotalOrder(key(s[i]), key(s[i + 1]), key(s[i + 1]));
      }
    }
    forall x, y | 0 <= x < y < |s| && q[x] > q[y]
      ensures Gt(key(r[y]), key(r[x]))
    {
      var x0 := if x == i then i + 1 else if x == i + 1 then i else x;
      var y0 := if y == i then i + 1 else if y == i + 1 then i else y;
      if x == i && y == i + 1 {
      } else {
        assert x0 < y0 && q[x] == perm[x0] && q[y] == perm[y0] && r[x] == s[x0] && r[y] == s[y0];
      }
    }
  }

  /** A comparison that leaves the pair alone keeps PassInv. */
  lemma KeepStep<T>(s: seq<T>, key: T -> Number, done: nat, j: nat)
    requires 1 <= j && j + done < |s|
    requires PassInv(s, key, done, j)
    requires !Gt(key(s[j - 1]), key(s[j]))
    ensures PassInv(s, key, done, j + 1)
  {
    forall x | 0 <= x < j && Connected(s, key, x, j)
      ensures Le(key(s[x]), key(s[j]))
    {
      if x < j - 1 {
        assert Connected(s, key, x, j - 1);
        LeTotalOrder(key(s[x]), key(s[j - 1]), key(s[j]));
      } else {
        assert !key(s[j - 1]).NaN? && !key(s[j]).NaN?;
      }
    }
  }

  /** When position j is settled, the pair (j - 1, j) is already in order. */
  lemma SettledNeighbour<T>(s: seq<T>, key: T -> Number, done: nat, j: nat)
    requires 1 <= j && j + done < |s|
    requires !key(s[j - 1]).NaN? && !key(s[j]).NaN?
    requires Settled(s, key, j - 1, done + 1) || Settled(s, key, j - 1, done)
    ensures Settled(s, key, j, done)
  {
    if !Settled(s, key, j, done) {
      assert Connected(s, key, j, j + done);
      assert Connected(s, key, j - 1, j + done);
    }
  }

  /** A comparison that swaps the pair keeps PassInv. */
  lemma SwapStep<T>(s: seq<T>, key: T -> Number, done: nat, j: nat)
    requires 1 <= j && j + done < |s|
    requires PassInv(s, key, done, j)
    requires Gt(key(s[j - 1]), key(s[j]))
    ensures PassInv(Swap(s, j - 1), key, done, j + 1)
  {
    var r := Swap(s, j - 1);
    assert forall m :: 0 <= m < |s| ==> (key(r[m]).NaN? <==> key(s[m]).NaN?);
    assert forall x, y :: Connected(r, key, x, y) <==> Connected(s, key, x, y);
    assert forall y, p :: Settled(r, key, y, p) <==> Settled(s, key, y, p);
    assert !Settled(s, key, j, done) by {
      if Settled(s, key, j, done) {
        assert Connected(s, key, j - 1, j);
      }
    }
    forall x, y | 0 <= x < y < |r| && Connected(r, key, x, y)
      && (Settled(r, key, y, done) || (y < j + 1 && Settled(r, key, y, done + 1)))
      ensures Le(key(r[x]), key(r[y]))
    {
      if y == j - 1 {
        SettledNeighbour(s, key, done, j);
      } else if y == j {
        if x < j - 1 {
          assert Connected(s, key, x, j - 1);
        }
      } else if x == j - 1 || x == j {
        assert Connected(s, key, j - 1, y) && Connected(s, key, j, y);
      }
    }
    forall x | 0 <= x < j && Connected(r, key, x, j)
      ensures Le(key(r[x]), key(r[j]))
    {
      if x < j - 1 {
        assert Connected(s, key, x, j - 1);
      }
    }
  }

  lemma PassEnd<T>(s: seq<T>, key: T -> Number, done: nat)
    requires done < |s|
    requires PassInv(s, key, done, |s| - done)
    ensures PassInv(s, key, done + 1, 1)
  {
  }

  lemma SortedAtEnd<T>(s: seq<T>, key: T -> Number)
    requires |s| >= 1 && PassInv(s, key, |s| - 1, 1)
    ensures SortedRuns(s, key)
  {
  }

  /** An entry whose key is NaN, in the input or in the output, is at the same index in both. */
  lemma NaNEntriesStay<T>(o: seq<T>, s: seq<T>, perm: seq<nat>, key: T -> Number)
    requires Tracks(o, s, perm, key)
    ensures forall k :: 0 <= k < |s| && (key(o[k]).NaN? || key(s[k]).NaN?) ==> s[k] == o[k]
  {
  }

  /** Stability: two entries with equal keys keep their original order. */
  lemma EqualKeysKeepOrder<T>(o: seq<T>, s: seq<T>, perm: seq<nat>, key: T -> Number)
    requires Tracks(o, s, perm, key)
    ensures forall x, y :: 0 <= x < y < |s| && key(s[x]) == key(s[y]) ==> perm[x] < perm[y]
  {
  }

  /** The comparison of positions j - 1 and j swaps exactly when both keys are numbers and
      the first is greater. */
  predicate OutOfOrder<T>(s: seq<T>, key: T -> Number, j: nat)
    requires 1 <= j < |s|
  {
    !key(s[j - 1]).NaN? && !key(s[j]).NaN? && Gt(key(s[j - 1]), key(s[j]))
  }

  /** The entries after one comparison. */
  function Step<T>(s: seq<T>, key: T -> Number, j: nat): (r: seq<T>)
    requires 1 <= j < |s|
    ensures |r| == |s|
  {
    if OutOfOrder(s, key, j) then Swap(s, j - 1) else s
  }

  /** Where the entries came from, after one comparison. */
  function StepPerm<T>(s: seq<T>, perm: seq<nat>, key: T -> Number, j: nat): (r: seq<nat>)
    requires 1 <= j < |s| && |perm| == |s|
    ensures |r| == |perm|
  {
    if OutOfOrder(s, key, j) then Swap(perm, j - 1) else perm
  }

  /** The rest of the pass after `done` passes, from the comparison at j onwards. */
  function PassFrom<T>(s: seq<T>, key: T -> Number, done: nat, j: nat): (r: seq<T>)
    requires 1 <= j
    ensures |r| == |s|
    decreases |s| - j
  {
    if j + done >= |s| then s else PassFrom(Step(s, key, j), key, done, j + 1)
  }

  function PassPermFrom<T>(s: seq<T>, perm: seq<nat>, key: T -> Number, done: nat, j: nat): (r: seq<nat>)
    requires 1 <= j && |perm| == |s|
    ensures |r| == |perm|
    decreases |s| - j
  {
    if j + done >= |s| then perm
    else PassPermFrom(Step(s, key, j), StepPerm(s, perm, key, j), key, done, j + 1)
  }

  /** The passes numbered i .. |s| - 1. */
  function PassesFrom<T>(s: seq<T>, key: T -> Number, i: nat): (r: seq<T>)
    requires 1 <= i
    ensures |r| == |s|
    decreases |s| - i
  {
    if i >= |s| then s else PassesFrom(PassFrom(s, key, i - 1, 1), key, i + 1)
  }

  function PassesPermFrom<T>(s: seq<T>, perm: seq<nat>, key: T -> Number, i: nat): (r: seq<nat>)
    requires 1 <= i && |perm| == |s|
    ensures |r| == |perm|
    decreases |s| - i
  {
    if i >= |s| then perm
    else PassesPermFrom(PassFrom(s, key, i - 1, 1), PassPermFrom(s, perm, key, i - 1, 1), key, i + 1)
  }

  /** What bubble_sort leaves in the array. */
  function BubbleSorted<T>(s: seq<T>, key: T -> Number): seq<T> {
    PassesFrom(s, key, 1)
  }

  /** Where each entry of BubbleSorted(s, key) was in s. */
  function SortPerm<T>(s: seq<T>, key: T -> Number): seq<nat> {
    PassesPermFrom(s, Identity(|s|), key, 1)
  }

  /** The sorted result is a rearrangement of the input, every stretch of numeric keys is in
      order, and SortPerm records the rearrangement: NaN-keyed entries do not move and
      equal keys keep their order. */
  lemma BubbleSortedSpec<T>(s: seq<T>, key: T -> Number)
    ensures multiset(BubbleSorted(s, key)) == multiset(s)
    ensures SortedRuns(BubbleSorted(s, key), key)
    ensures Tracks(s, BubbleSorted(s, key), SortPerm(s, key), key)
  {
    if |s| > 0 {
      TracksStart(s, key);
      assert PassInv(s, key, 0, 1);
      PassesProgress(s, s, Identity(|s|), key);
      SortedAtEnd(BubbleSorted(s, key), key);
    }
  }

  /** What the inner loop keeps: the pass invariant and the bookkeeping of the rearrangement. */
  predicate Progress<T(==)>(o: seq<T>, s: seq<T>, perm: seq<nat>, key: T -> Number, done: nat, j: nat) {
    PassInv(s, key, done, j) && multiset(s) == multiset(o) && Tracks(o, s, perm, key)
  }

  /** Induction over the comparisons of one pass, for any property `inv` of the entries,
      the rearrangement and the next position that every comparison keeps. */
  lemma {:induction false} PassInduction<T>(inv: (seq<T>, seq<nat>, nat) -> bool, s: seq<T>, perm: seq<nat>,
                                            key: T -> Number, done: nat, j: nat)
    requires 1 <= j && j + done <= |s| && |perm| == |s|
    requires inv(s, perm, j)
    requires forall s': seq<T>, p': seq<nat>, j': nat ::
               1 <= j' && j' + done < |s'| && |p'| == |s'| && inv(s', p', j')
               ==> inv(Step(s', key, j'), StepPerm(s', p', key, j'), j' + 1)
    ensures inv(PassFrom(s, key, done, j), PassPermFrom(s, perm, key, done, j), |s| - done)
    decreases |s| - j
  {
    if j + done < |s| {
      PassInduction(inv, Step(s, key, j), StepPerm(s, perm, key, j), key, done, j + 1);
    }
  }

  /** Induction over the passes, for any property `inv` of the entries, the rearrangement
      and the number of passes done that every pass keeps. */
  lemma {:induction false} PassesInduction<T>(inv: (seq<T>, seq<nat>, nat) -> bool, s: seq<T>, perm: seq<nat>,
                                              key: T -> Number, i: nat)
    requires 1 <= i <= |s| && |perm| == |s|
    requires inv(s, perm, i - 1)
    requires forall s': seq<T>, p': seq<nat>, d: nat ::
               d + 1 < |s'| && |p'| == |s'| && inv(s', p', d)
               ==> inv(PassFrom(s', key, d, 1), PassPermFrom(s', p', key, d, 1), d + 1)
    ensures inv(PassesFrom(s, key, i), PassesPermFrom(s, perm, key, i), |s| - 1)
    decreases |s| - i
  {
    if i < |s| {
      PassesInduction(inv, PassFrom(s, key, i - 1, 1), PassPermFrom(s, perm, key, i - 1, 1), key, i + 1);
    }
  }

  /** A whole pass keeps Progress and ends with the pass invariant at its last position. */
  lemma PassProgress<T>(o: seq<T>, s: seq<T>, perm: seq<nat>, key: T -> Number, done: nat)
    requires done < |s|
    requires Progress(o, s, perm, key, done, 1)
    ensures Progress(o, PassFrom(s, key, done, 1), PassPermFrom(s, perm, key, done, 1), key, done, |s| - done)
  {
    var inv := (s': seq<T>, p': seq<nat>, j': nat) => Progress(o, s', p', key, done, j');
    EveryStepProgresses(o, key, done);
    PassInduction(inv, s, perm, key, done, 1);
  }

  lemma EveryStepProgresses<T>(o: seq<T>, key: T -> Number, done: nat)
    ensures forall s: seq<T>, p: seq<nat>, j: nat ::
              1 <= j && j + done < |s| && |p| == |s| && Progress(o, s, p, key, done, j)
              ==> Progress(o, Step(s, key, j), StepPerm(s, p, key, j), key, done, j + 1)
  {
    forall s: seq<T>, p: seq<nat>, j: nat | 1 <= j && j + done < |s| && |p| == |s| && Progress(o, s, p, key, done, j)
      ensures Progress(o, Step(s, key, j), StepPerm(s, p, key, j), key, done, j + 1)
    {
      ProgressStep(o, s, p, key, done, j);
    }
  }

  /** All passes keep Progress, ending after |s| - 1 of them. */
  lemma PassesProgress<T>(o: seq<T>, s: seq<T>, perm: seq<nat>, key: T -> Number)
    requires 1 <= |s|
    requires Progress(o, s, perm, key, 0, 1)
    ensures Progress(o, PassesFrom(s, key, 1), PassesPermFrom(s, perm, key, 1), key, |s| - 1, 1)
  {
    var inv := (s': seq<T>, p': seq<nat>, d: nat) => Progress(o, s', p', key, d, 1);
    EveryPassProgresses(o, key);
    PassesInduction(inv, s, perm, key, 1);
  }

  lemma EveryPassProgresses<T>(o: seq<T>, key: T -> Number)
    ensures forall s: seq<T>, p: seq<nat>, d: nat ::
              d + 1 < |s| && |p| == |s| && Progress(o, s, p, key, d, 1)
              ==> Progress(o, PassFrom(s, key, d, 1), PassPermFrom(s, p, key, d, 1), key, d + 1, 1)
  {
    forall s: seq<T>, p: seq<nat>, d: nat | d + 1 < |s| && |p| == |s| && Progress(o, s, p, key, d, 1)
      ensures Progress(o, PassFrom(s, key, d, 1), PassPermFrom(s, p, key, d, 1), key, d + 1, 1)
    {
      PassProgress(o, s, p, key, d);
      PassEnd(PassFrom(s, key, d, 1), key, d);
    }
  }

  /** bubble_sort(array). A null or empty array is left as it is. */
  method BubbleSort<T(==)>(a: array?<T>, text: T -> string)
    modifies a
    ensures a != null ==> a[..] == BubbleSorted(old(a[..]), SortKey(text))
    ensures a != null ==> multiset(a[..]) == multiset(old(a[..]))
    ensures a != null ==> SortedRuns(a[..], SortKey(text))
    ensures a != null ==> Tracks(old(a[..]), a[..], SortPerm(old(a[..]), SortKey(text)), SortKey(text))
  {
    if a == null || a.Length == 0 {
      return;
    }
    ghost var o := a[..];
    Sort(a, text);
    BubbleSortedSpec(o, SortKey(text));
  }

  method Sort<T>(a: array<T>, text: T -> string)
    modifies a
    ensures a[..] == BubbleSorted(old(a[..]), SortKey(text))
  {
    var n := a.Length;
    var i := 1;
    while i <= n - 1
      invariant 1 <= i <= n || n == 0
      invariant PassesFrom(a[..], SortKey(text), i) == BubbleSorted(old(a[..]), SortKey(text))
    {
      Pass(a, text, i);
      i := i + 1;
    }
  }

  /** Pass number i of the outer loop: compares the pairs (j - 1, j) for j = 1 .. n - i. */
  method Pass<T>(a: array<T>, text: T -> string, i: nat)
    requires 1 <= i < a.Length
    modifies a
    ensures a[..] == PassFrom(old(a[..]), SortKey(text), i - 1, 1)
  {
    var n := a.Length;
    var j := 1;
    while j <= n - i
      invariant 1 <= j <= n - i + 1
      invariant PassFrom(a[..], SortKey(text), i - 1, j) == PassFrom(old(a[..]), SortKey(text), i - 1, 1)
    {
      CompareNeighbours(a, text, j);
      j := j + 1;
    }
  }

  /** One step of the inner loop: swaps a[j - 1] and a[j] when both keys are numbers and
      the first is greater. */
  method CompareNeighbours<T>(a: array<T>, text: T -> string, j: nat)
    requires 1 <= j < a.Length
    modifies a
    ensures a[..] == Step(old(a[..]), SortKey(text), j)
  {
    ghost var s := a[..];
    var prevItem := a[j - 1];
    var curItem := a[j];
    var prevValue := Key(text(prevItem));
    var curValue := Key(text(curItem));
    assert prevValue == SortKey(text)(s[j - 1]) && curValue == SortKey(text)(s[j]);
    if !prevValue.NaN? && !curValue.NaN? {
      if Gt(prevValue, curValue) {
        var temp := a[j - 1];
        a[j - 1] := a[j];
        a[j] := temp;
        assert a[..] == Swap(s, j - 1);
      }
    }
  }

  /** Each comparison keeps the invariant of the pass, one position further on. */
  lemma ProgressStep<T>(o: seq<T>, s: seq<T>, perm: seq<nat>, key: T -> Number, done: nat, j: nat)
    requires 1 <= j && j + done < |s|
    requires Progress(o, s, perm, key, done, j)
    ensures Progress(o, Step(s, key, j), StepPerm(s, perm, key, j), key, done, j + 1)
  {
    if OutOfOrder(s, key, j) {
      ProgressSwap(o, s, perm, key, done, j);
    } else {
      ProgressKeep(o, s, perm, key, done, j);
    }
  }

  lemma ProgressSwap<T>(o: seq<T>, s: seq<T>, perm: seq<nat>, key: T -> Number, done: nat, j: nat)
    requires 1 <= j && j + done < |s|
    requires Progress(o, s, perm, key, done, j)
    requires Gt(key(s[j - 1]), key(s[j]))
    ensures Progress(o, Swap(s, j - 1), Swap(perm, j - 1), key, done, j + 1)
  {
    SwapStep(s, key, done, j);
    TracksSwap(o, s, perm, key, j - 1);
    SwapMultiset(s, j - 1);
  }

  lemma ProgressKeep<T>(o: seq<T>, s: seq<T>, perm: seq<nat>, key: T -> Number, done: nat, j: nat)
    requires 1 <= j && j + done < |s|
    requires Progress(o, s, perm, key, done, j)
    requires !Gt(key(s[j - 1]), key(s[j]))
    ensures Progress(o, s, perm, key, done, j + 1)
  {
    KeepStep(s, key, done, j);
  }
}

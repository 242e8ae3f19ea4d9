/** The bottom-up merge sort shared by every sort macro of the list and hash
    libraries, as a function on sequences, and what it computes: the one sorted
    and stable arrangement of its input. */
module StableSort {
  import opened BitMask
  import opened Orders

  /** Three-way comparator; the sort only ever asks whether the result is <= 0. */
  type Comparator<!T> = (T, T) -> int

  predicate AtMost<T>(cmp: Comparator<T>, x: T, y: T) {
    cmp(x, y) <= 0
  }

  predicate Equivalent<T>(cmp: Comparator<T>, x: T, y: T) {
    AtMost(cmp, x, y) && AtMost(cmp, y, x)
  }

  /** The comparator is a total preorder on the elements of `S`. */
  ghost predicate PreorderBy<T>(cmp: Comparator<T>, S: set<T>) {
    && (forall x, y | x in S && y in S :: AtMost(cmp, x, y) || AtMost(cmp, y, x))
    && (forall x, y, z | x in S && y in S && z in S && AtMost(cmp, x, y) && AtMost(cmp, y, z) :: AtMost(cmp, x, z))
  }

  lemma PreorderIs<T>(cmp: Comparator<T>, S: set<T>)
    ensures PreorderBy(cmp, S) <==> PreorderOn((x, y) => AtMost(cmp, x, y), S)
  {
  }

  ghost predicate Sorted<T>(s: seq<T>, cmp: Comparator<T>) {
    forall i, j | 0 <= i < j < |s| :: AtMost(cmp, s[i], s[j])
  }

  function Own<T>(y: T, x: T, cmp: Comparator<T>): seq<T> {
    if Equivalent(cmp, y, x) then [y] else []
  }

  /** The subsequence of the elements equivalent to `x`, in order. */
  function Class<T>(s: seq<T>, x: T, cmp: Comparator<T>): seq<T> {
    if s == [] then []
    else Own(s[0], x, cmp) + Class(s[1..], x, cmp)
  }

  /** Every equivalence class keeps its members and their relative order. */
  ghost predicate SameClasses<T>(s: seq<T>, t: seq<T>, S: set<T>, cmp: Comparator<T>) {
    forall x | x in S :: Class(s, x, cmp) == Class(t, x, cmp)
  }

  // ----- the algorithm

  function Min(a: nat, b: nat): nat { if a <= b then a else b }

  function Take<T>(s: seq<T>, k: nat): seq<T> { s[..Min(k, |s|)] }

  function Drop<T>(s: seq<T>, k: nat): seq<T> { s[Min(k, |s|)..] }

  /** Merges two runs; on a tie the element of the first run goes first. */
  function Merge<T>(a: seq<T>, b: seq<T>, cmp: Comparator<T>): (r: seq<T>)
    ensures |r| == |a| + |b|
  {
    if a == [] then b
    else if b == [] then a
    else if AtMost(cmp, a[0], b[0]) then [a[0]] + Merge(a[1..], b, cmp)
    else [b[0]] + Merge(a, b[1..], cmp)
  }

  /** One pass: merges the runs of length `k` pairwise. */
  function MergePass<T>(s: seq<T>, k: nat, cmp: Comparator<T>): (r: seq<T>)
    requires k > 0
    ensures |r| == |s|
    decreases |s|
  {
    if s == [] then []
    else Merge(Take(s, k), Take(Drop(s, k), k), cmp) + MergePass(Drop(Drop(s, k), k), k, cmp)
  }

  /** Passes with run length k, 2k, 4k, ... until one pass does at most one merge. */
  function BottomUp<T>(s: seq<T>, k: nat, cmp: Comparator<T>): (r: seq<T>)
    requires k > 0
    ensures |r| == |s|
    decreases |s| - k
  {
    var t := MergePass(s, k, cmp);
    if |s| <= 2 * k then t else BottomUp(t, 2 * k, cmp)
  }

  function MergeSort<T>(s: seq<T>, cmp: Comparator<T>): (r: seq<T>) {
    BottomUp(s, 1, cmp)
  }

  // ----- the reference: insertion sort

  function Insert<T>(x: T, s: seq<T>, cmp: Comparator<T>): seq<T> {
    if s == [] || AtMost(cmp, x, s[0]) then [x] + s
    else [s[0]] + Insert(x, s[1..], cmp)
  }

  function InsertionSort<T>(s: seq<T>, cmp: Comparator<T>): seq<T> {
    if s == [] then [] else Insert(s[0], InsertionSort(s[1..], cmp), cmp)
  }

  // ----- classes

  lemma Assoc<T>(a: seq<T>, b: seq<T>, c: seq<T>)
    ensures (a + b) + c == a + (b + c)
  {
  }

  lemma ClassCons<T>(y: T, s: seq<T>, c: T, cmp: Comparator<T>)
    ensures Class([y] + s, c, cmp) == Own(y, c, cmp) + Class(s, c, cmp)
  {
    assert ([y] + s)[1..] == s;
  }

  lemma {:induction false} ClassConcat<T>(a: seq<T>, b: seq<T>, x: T, cmp: Comparator<T>)
    ensures Class(a + b, x, cmp) == Class(a, x, cmp) + Class(b, x, cmp)
  {
    if a == [] {
      assert a + b == b;
    } else {
      assert (a + b)[1..] == a[1..] + b && (a + b)[0] == a[0];
      ClassConcat(a[1..], b, x, cmp);
      Assoc(Own(a[0], x, cmp), Class(a[1..], x, cmp), Class(b, x, cmp));
    }
  }

  /** Below a strict lower bound of `a` there is nothing equivalent in `a`. */
  lemma {:induction false} ClassOfLarger<T>(a: seq<T>, x: T, cmp: Comparator<T>)
    requires forall i | 0 <= i < |a| :: !AtMost(cmp, a[i], x)
    ensures Class(a, x, cmp) == []
  {
    if a != [] {
      ClassOfLarger(a[1..], x, cmp);
    }
  }

  lemma {:induction false} ClassMembers<T>(s: seq<T>, x: T, cmp: Comparator<T>)
    ensures forall y :: y in Class(s, x, cmp) <==> y in s && Equivalent(cmp, y, x)
  {
    if s != [] {
      ClassMembers(s[1..], x, cmp);
      assert s == [s[0]] + s[1..];
    }
  }

  ghost predicate LowerBound<T>(x: T, s: seq<T>, cmp: Comparator<T>) {
    forall i | 0 <= i < |s| :: AtMost(cmp, x, s[i])
  }

  /** What is at most the first element of a sorted sequence is at most all of them. */
  lemma FirstIsLeast<T>(x: T, s: seq<T>, S: set<T>, cmp: Comparator<T>)
    requires PreorderBy(cmp, S) && Within(s, S) && x in S && Sorted(s, cmp)
    requires s != [] ==> AtMost(cmp, x, s[0])
    ensures LowerBound(x, s, cmp)
  {
    forall i | 0 < i < |s| ensures AtMost(cmp, x, s[i]) {
      assert s[0] in S && s[i] in S;
      assert AtMost(cmp, s[0], s[i]);
    }
  }

  lemma Prepend<T>(x: T, s: seq<T>, cmp: Comparator<T>)
    requires Sorted(s, cmp) && LowerBound(x, s, cmp)
    ensures Sorted([x] + s, cmp)
  {
  }

  lemma {:induction false} MergeLowerBound<T>(x: T, a: seq<T>, b: seq<T>, cmp: Comparator<T>)
    requires LowerBound(x, a, cmp) && LowerBound(x, b, cmp)
    ensures LowerBound(x, Merge(a, b, cmp), cmp)
    decreases |a| + |b|
  {
    if a != [] && b != [] {
      if AtMost(cmp, a[0], b[0]) {
        MergeLowerBound(x, a[1..], b, cmp);
      } else {
        MergeLowerBound(x, a, b[1..], cmp);
      }
    }
  }

  // ----- merging

  lemma {:induction false} MergeMembers<T>(a: seq<T>, b: seq<T>, cmp: Comparator<T>)
    ensures multiset(Merge(a, b, cmp)) == multiset(a) + multiset(b)
    decreases |a| + |b|
  {
    if a != [] && b != [] {
      assert a == [a[0]] + a[1..] && b == [b[0]] + b[1..];
      if AtMost(cmp, a[0], b[0]) {
        MergeMembers(a[1..], b, cmp);
      } else {
        MergeMembers(a, b[1..], cmp);
      }
    }
  }

  lemma {:induction false} MergeSorted<T>(a: seq<T>, b: seq<T>, S: set<T>, cmp: Comparator<T>)
    requires PreorderBy(cmp, S) && Within(a, S) && Within(b, S)
    requires Sorted(a, cmp) && Sorted(b, cmp)
    ensures Sorted(Merge(a, b, cmp), cmp)
    decreases |a| + |b|
  {
    if a != [] && b != [] {
      if AtMost(cmp, a[0], b[0]) {
        MergeSorted(a[1..], b, S, cmp);
        FirstIsLeast(a[0], a, S, cmp);
        FirstIsLeast(a[0], b, S, cmp);
        MergeLowerBound(a[0], a[1..], b, cmp);
        Prepend(a[0], Merge(a[1..], b, cmp), cmp);
      } else {
        MergeSorted(a, b[1..], S, cmp);
        FirstIsLeast(b[0], a, S, cmp);
        FirstIsLeast(b[0], b, S, cmp);
        MergeLowerBound(b[0], a, b[1..], cmp);
        Prepend(b[0], Merge(a, b[1..], cmp), cmp);
      }
    }
  }

  lemma {:induction false} MergeStable<T>(a: seq<T>, b: seq<T>, x: T, S: set<T>, cmp: Comparator<T>)
    requires PreorderBy(cmp, S) && Within(a, S) && Within(b, S) && x in S
    requires Sorted(a, cmp)
    ensures Class(Merge(a, b, cmp), x, cmp) == Class(a, x, cmp) + Class(b, x, cmp)
    decreases |a| + |b|
  {
    if a != [] && b != [] {
      if AtMost(cmp, a[0], b[0]) {
        MergeStable(a[1..], b, x, S, cmp);
        ClassCons(a[0], Merge(a[1..], b, cmp), x, cmp);
        Assoc(Own(a[0], x, cmp), Class(a[1..], x, cmp), Class(b, x, cmp));
      } else {
        MergeStable(a, b[1..], x, S, cmp);
        ClassCons(b[0], Merge(a, b[1..], cmp), x, cmp);
        NoTies(a, b[0], x, S, cmp);
        Assoc(Class(a, x, cmp), Own(b[0], x, cmp), Class(b[1..], x, cmp));
      }
    }
  }

  /** An element that overtakes a sorted run shares no class with it. */
  lemma NoTies<T>(a: seq<T>, y: T, x: T, S: set<T>, cmp: Comparator<T>)
    requires PreorderBy(cmp, S) && Within(a, S) && y in S && x in S
    requires a != [] && Sorted(a, cmp) && !AtMost(cmp, a[0], y)
    ensures Own(y, x, cmp) + Class(a, x, cmp) == Class(a, x, cmp) + Own(y, x, cmp)
  {
    if Equivalent(cmp, y, x) {
      forall i | 0 <= i < |a| ensures !AtMost(cmp, a[i], x) {
        assert a[0] in S && a[i] in S && (i > 0 ==> AtMost(cmp, a[0], a[i]));
      }
      ClassOfLarger(a, x, cmp);
    }
  }

  // ----- one pass

  /** Every run of length `k` (the last may be shorter) is sorted. */
  ghost predicate RunsSorted<T>(s: seq<T>, k: nat, cmp: Comparator<T>)
    requires k > 0
    decreases |s|
  {
    s != [] ==> Sorted(Take(s, k), cmp) && RunsSorted(Drop(s, k), k, cmp)
  }

  lemma {:induction false} SingletonRuns<T>(s: seq<T>, cmp: Comparator<T>)
    ensures RunsSorted(s, 1, cmp)
    decreases |s|
  {
    if s != [] {
      SingletonRuns(Drop(s, 1), cmp);
    }
  }

  lemma Parts<T>(a: seq<T>, b: seq<T>)
    ensures multiset(a + b) == multiset(a) + multiset(b)
  {
  }

  lemma SplitMembers<T>(s: seq<T>, k: nat)
    ensures multiset(s) == multiset(Take(s, k)) + multiset(Take(Drop(s, k), k)) + multiset(Drop(Drop(s, k), k))
  {
    var a, b, rest := Take(s, k), Take(Drop(s, k), k), Drop(Drop(s, k), k);
    assert s == (a + b) + rest;
    Parts(a + b, rest);
    Parts(a, b);
  }

  lemma {:induction false} PassMembers<T>(s: seq<T>, k: nat, cmp: Comparator<T>)
    requires k > 0
    ensures multiset(MergePass(s, k, cmp)) == multiset(s)
    decreases |s|
  {
    if s != [] {
      PassMembers(Drop(Drop(s, k), k), k, cmp);
      MergeMembers(Take(s, k), Take(Drop(s, k), k), cmp);
      Parts(Merge(Take(s, k), Take(Drop(s, k), k), cmp), MergePass(Drop(Drop(s, k), k), k, cmp));
      SplitMembers(s, k);
    }
  }

  lemma SameMembers<T>(s: seq<T>, t: seq<T>)
    requires multiset(s) == multiset(t)
    ensures forall x | x in t :: x in s
  {
    forall x | x in t ensures x in s {
      assert x in multiset(t);
    }
  }

  lemma SameWithin<T>(s: seq<T>, t: seq<T>, S: set<T>)
    requires multiset(s) == multiset(t) && Within(s, S)
    ensures Within(t, S)
  {
    SameMembers(s, t);
    forall i | 0 <= i < |t| ensures t[i] in S {
      assert t[i] in t;
    }
  }

  /** A pass doubles the length of the sorted runs and keeps every class in order. */
  lemma {:induction false} PassSorts<T>(s: seq<T>, k: nat, S: set<T>, cmp: Comparator<T>)
    requires k > 0 && PreorderBy(cmp, S) && Within(s, S) && RunsSorted(s, k, cmp)
    ensures RunsSorted(MergePass(s, k, cmp), 2 * k, cmp)
    decreases |s|
  {
    if s != [] {
      var a, b, rest := Take(s, k), Take(Drop(s, k), k), Drop(Drop(s, k), k);
      PassSorts(rest, k, S, cmp);
      MergeSorted(a, b, S, cmp);
      var m, r := Merge(a, b, cmp), MergePass(rest, k, cmp);
      if rest == [] {
        assert m + r == m;
        assert Take(m, 2 * k) == m && Drop(m, 2 * k) == [];
      } else {
        assert |m| == 2 * k;
        assert Take(m + r, 2 * k) == m && Drop(m + r, 2 * k) == r;
      }
    }
  }

  lemma SplitClass<T>(s: seq<T>, k: nat, x: T, cmp: Comparator<T>)
    ensures Class(s, x, cmp)
         == Class(Take(s, k), x, cmp) + Class(Take(Drop(s, k), k), x, cmp) + Class(Drop(Drop(s, k), k), x, cmp)
  {
    var a, b, rest := Take(s, k), Take(Drop(s, k), k), Drop(Drop(s, k), k);
    assert s == (a + b) + rest;
    ClassConcat(a + b, rest, x, cmp);
    ClassConcat(a, b, x, cmp);
  }

  lemma {:induction false} PassStable<T>(s: seq<T>, k: nat, x: T, S: set<T>, cmp: Comparator<T>)
    requires k > 0 && PreorderBy(cmp, S) && Within(s, S) && RunsSorted(s, k, cmp) && x in S
    ensures Class(MergePass(s, k, cmp), x, cmp) == Class(s, x, cmp)
    decreases |s|
  {
    if s != [] {
      var a, b, rest := Take(s, k), Take(Drop(s, k), k), Drop(Drop(s, k), k);
      PassStable(rest, k, x, S, cmp);
      MergeStable(a, b, x, S, cmp);
      ClassConcat(Merge(a, b, cmp), MergePass(rest, k, cmp), x, cmp);
      SplitClass(s, k, x, cmp);
    }
  }

  // ----- the whole sort

  /** Whatever the comparator answers, the sort only rearranges. */
  lemma {:induction false} BottomUpMembers<T>(s: seq<T>, k: nat, cmp: Comparator<T>)
    requires k > 0
    ensures multiset(BottomUp(s, k, cmp)) == multiset(s)
    decreases |s| - k
  {
    PassMembers(s, k, cmp);
    if |s| > 2 * k {
      BottomUpMembers(MergePass(s, k, cmp), 2 * k, cmp);
    }
  }

  lemma {:induction false} BottomUpSorts<T>(s: seq<T>, k: nat, S: set<T>, cmp: Comparator<T>)
    requires k > 0 && PreorderBy(cmp, S) && Within(s, S) && RunsSorted(s, k, cmp)
    ensures Sorted(BottomUp(s, k, cmp), cmp)
    ensures SameClasses(s, BottomUp(s, k, cmp), S, cmp)
    decreases |s| - k
  {
    var t := MergePass(s, k, cmp);
    PassSorts(s, k, S, cmp);
    forall x | x in S ensures Class(t, x, cmp) == Class(s, x, cmp) {
      PassStable(s, k, x, S, cmp);
    }
    if |s| > 2 * k {
      PassMembers(s, k, cmp);
      SameWithin(s, t, S);
      BottomUpSorts(t, 2 * k, S, cmp);
    } else {
      assert Take(t, 2 * k) == t;
    }
  }

  /** Two sorted sequences with the same classes are the same sequence. */
  lemma {:induction false} SortedIsUnique<T>(s: seq<T>, t: seq<T>, S: set<T>, cmp: Comparator<T>)
    requires PreorderBy(cmp, S) && Within(s, S) && Within(t, S)
    requires Sorted(s, cmp) && Sorted(t, cmp) && SameClasses(s, t, S, cmp)
    ensures s == t
  {
    EmptyTogether(s, t, S, cmp);
    EmptyTogether(t, s, S, cmp);
    if s != [] {
      SameFirst(s, t, S, cmp);
      SameTails(s, t, S, cmp);
      SortedIsUnique(s[1..], t[1..], S, cmp);
      assert s == [s[0]] + s[1..] && t == [t[0]] + t[1..];
    }
  }

  lemma OwnClass<T>(s: seq<T>, S: set<T>, cmp: Comparator<T>)
    requires PreorderBy(cmp, S) && Within(s, S) && s != []
    ensures s[0] in S && Class(s, s[0], cmp) != []
  {
  }

  lemma EmptyTogether<T>(s: seq<T>, t: seq<T>, S: set<T>, cmp: Comparator<T>)
    requires PreorderBy(cmp, S) && Within(t, S) && SameClasses(s, t, S, cmp)
    ensures s == [] ==> t == []
  {
    if t != [] {
      OwnClass(t, S, cmp);
    }
  }

  lemma TailClass<T>(s: seq<T>, t: seq<T>, x: T, cmp: Comparator<T>)
    requires s != [] && t != [] && s[0] == t[0] && Class(s, x, cmp) == Class(t, x, cmp)
    ensures Class(s[1..], x, cmp) == Class(t[1..], x, cmp)
  {
    var h := Own(s[0], x, cmp);
    assert (h + Class(s[1..], x, cmp))[|h|..] == Class(s[1..], x, cmp);
    assert (h + Class(t[1..], x, cmp))[|h|..] == Class(t[1..], x, cmp);
  }

  lemma SameTails<T>(s: seq<T>, t: seq<T>, S: set<T>, cmp: Comparator<T>)
    requires s != [] && t != [] && s[0] == t[0] && SameClasses(s, t, S, cmp)
    ensures SameClasses(s[1..], t[1..], S, cmp)
  {
    forall x | x in S ensures Class(s[1..], x, cmp) == Class(t[1..], x, cmp) {
      TailClass(s, t, x, cmp);
    }
  }

  lemma SameFirst<T>(s: seq<T>, t: seq<T>, S: set<T>, cmp: Comparator<T>)
    requires PreorderBy(cmp, S) && Within(s, S) && Within(t, S) && s != [] && t != []
    requires Sorted(s, cmp) && Sorted(t, cmp) && SameClasses(s, t, S, cmp)
    ensures s[0] == t[0]
  {
    var x, y := s[0], t[0];
    assert x in S && y in S;
    ClassMembers(s, x, cmp);
    ClassMembers(t, x, cmp);
    ClassMembers(s, y, cmp);
    ClassMembers(t, y, cmp);
    assert x in Class(s, x, cmp) && x in t;
    assert y in Class(t, y, cmp) && y in s;
    assert Equivalent(cmp, x, y);
    assert Class(s, x, cmp)[0] == x && Class(t, x, cmp)[0] == y;
  }

  lemma {:induction false} InsertLowerBound<T>(y: T, x: T, s: seq<T>, cmp: Comparator<T>)
    requires LowerBound(y, s, cmp) && AtMost(cmp, y, x)
    ensures LowerBound(y, Insert(x, s, cmp), cmp)
  {
    if s != [] && !AtMost(cmp, x, s[0]) {
      InsertLowerBound(y, x, s[1..], cmp);
    }
  }

  lemma {:induction false} InsertSorts<T>(x: T, s: seq<T>, S: set<T>, cmp: Comparator<T>)
    requires PreorderBy(cmp, S) && Within(s, S) && x in S && Sorted(s, cmp)
    ensures Sorted(Insert(x, s, cmp), cmp) && Within(Insert(x, s, cmp), S)
  {
    if s == [] || AtMost(cmp, x, s[0]) {
      FirstIsLeast(x, s, S, cmp);
      Prepend(x, s, cmp);
    } else {
      InsertSorts(x, s[1..], S, cmp);
      FirstIsLeast(s[0], s, S, cmp);
      InsertLowerBound(s[0], x, s[1..], cmp);
      Prepend(s[0], Insert(x, s[1..], cmp), cmp);
    }
  }

  lemma OwnCommutes<T>(x: T, y: T, c: T, S: set<T>, cmp: Comparator<T>)
    requires PreorderBy(cmp, S) && x in S && y in S && c in S && !AtMost(cmp, x, y)
    ensures Own(x, c, cmp) + Own(y, c, cmp) == Own(y, c, cmp) + Own(x, c, cmp)
  {
  }

  lemma {:induction false} InsertStable<T>(x: T, s: seq<T>, c: T, S: set<T>, cmp: Comparator<T>)
    requires PreorderBy(cmp, S) && Within(s, S) && x in S && c in S
    ensures Class(Insert(x, s, cmp), c, cmp) == Own(x, c, cmp) + Class(s, c, cmp)
  {
    if s == [] || AtMost(cmp, x, s[0]) {
      ClassCons(x, s, c, cmp);
    } else {
      InsertStable(x, s[1..], c, S, cmp);
      ClassCons(s[0], Insert(x, s[1..], cmp), c, cmp);
      OwnCommutes(x, s[0], c, S, cmp);
      Assoc(Own(s[0], c, cmp), Own(x, c, cmp), Class(s[1..], c, cmp));
      Assoc(Own(x, c, cmp), Own(s[0], c, cmp), Class(s[1..], c, cmp));
    }
  }

  lemma {:induction false} InsertionSortSorts<T>(s: seq<T>, S: set<T>, cmp: Comparator<T>)
    requires PreorderBy(cmp, S) && Within(s, S)
    ensures Sorted(InsertionSort(s, cmp), cmp)
    ensures Within(InsertionSort(s, cmp), S)
    ensures SameClasses(s, InsertionSort(s, cmp), S, cmp)
  {
    if s != [] {
      var t := InsertionSort(s[1..], cmp);
      InsertionSortSorts(s[1..], S, cmp);
      InsertSorts(s[0], t, S, cmp);
      forall c | c in S ensures Class(Insert(s[0], t, cmp), c, cmp) == Class(s, c, cmp) {
        InsertStable(s[0], t, c, S, cmp);
        assert Class(s[1..], c, cmp) == Class(t, c, cmp);
      }
    }
  }

  /** The merge sort sorts, is stable, and only rearranges. */
  lemma MergeSortSorts<T>(s: seq<T>, S: set<T>, cmp: Comparator<T>)
    requires PreorderBy(cmp, S) && Within(s, S)
    ensures Sorted(MergeSort(s, cmp), cmp)
    ensures SameClasses(s, MergeSort(s, cmp), S, cmp)
    ensures multiset(MergeSort(s, cmp)) == multiset(s)
  {
    SingletonRuns(s, cmp);
    BottomUpSorts(s, 1, S, cmp);
    BottomUpMembers(s, 1, cmp);
  }

  /** Main result: on every preorder the bottom-up merge sort is insertion sort. */
  lemma MergeSortIsInsertionSort<T>(s: seq<T>, S: set<T>, cmp: Comparator<T>)
    requires PreorderBy(cmp, S) && Within(s, S)
    ensures MergeSort(s, cmp) == InsertionSort(s, cmp)
  {
    MergeSortSorts(s, S, cmp);
    SameWithin(s, MergeSort(s, cmp), S);
    InsertionSortSorts(s, S, cmp);
    SortedIsUnique(MergeSort(s, cmp), InsertionSort(s, cmp), S, cmp);
  }

  // ----- cost

  /** Comparator calls made by one merge. */
  function MergeCost<T>(a: seq<T>, b: seq<T>, cmp: Comparator<T>): (c: nat)
    ensures a == [] || b == [] ==> c == 0
    ensures c < |a| + |b| || c == 0
  {
    if a == [] || b == [] then 0
    else if AtMost(cmp, a[0], b[0]) then 1 + MergeCost(a[1..], b, cmp)
    else 1 + MergeCost(a, b[1..], cmp)
  }

  /** A merge cannot end before one of its runs is used up, one comparison for each element. */
  lemma {:induction false} MergeCostAtLeast<T>(a: seq<T>, b: seq<T>, cmp: Comparator<T>)
    ensures MergeCost(a, b, cmp) >= Min(|a|, |b|)
    decreases |a| + |b|
  {
    if a != [] && b != [] {
      MergeCostAtLeast(a[1..], b, cmp);
      MergeCostAtLeast(a, b[1..], cmp);
    }
  }

  function PassCost<T>(s: seq<T>, k: nat, cmp: Comparator<T>): (c: nat)
    requires k > 0
    ensures c <= |s|
    decreases |s|
  {
    if s == [] then 0
    else MergeCost(Take(s, k), Take(Drop(s, k), k), cmp) + PassCost(Drop(Drop(s, k), k), k, cmp)
  }

  /** Merges made by one pass. */
  function PassMerges(n: nat, k: nat): (m: nat)
    requires k > 0
    ensures m <= 1 <==> n <= 2 * k
    ensures m == 0 <==> n == 0
  {
    if n == 0 then 0 else 1 + PassMerges(if n <= 2 * k then 0 else n - 2 * k, k)
  }

  function Passes(n: nat, k: nat): (p: nat)
    requires k > 0
    ensures p > 0
    decreases n - k
  {
    if n <= 2 * k then 1 else 1 + Passes(n, 2 * k)
  }

  function SortCost<T>(s: seq<T>, k: nat, cmp: Comparator<T>): nat
    requires k > 0
    decreases |s| - k
  {
    PassCost(s, k, cmp) + if |s| <= 2 * k then 0 else SortCost(MergePass(s, k, cmp), 2 * k, cmp)
  }

  /** A pass makes ceil(n / 2k) merges. */
  lemma {:induction false} PassMergesIsCeiling(n: nat, k: nat)
    requires k > 0
    ensures var m := PassMerges(n, k); n <= m * (2 * k) && (n > 0 ==> (m - 1) * (2 * k) < n)
  {
    if n > 2 * k {
      PassMergesIsCeiling(n - 2 * k, k);
      var m, d := PassMerges(n - 2 * k, k), 2 * k;
      assert (m + 1) * d == m * d + d && (m - 1) * d == m * d - d;
    }
  }

  /** The number of passes is max(1, ceil(log2 n)). */
  lemma {:induction false} PassesIsLog(n: nat, j: nat)
    ensures var p := Passes(n, Pow2(j)); n <= Pow2(j + p) && (p > 1 ==> Pow2(j + p - 1) < n)
    decreases n - Pow2(j)
  {
    if n > 2 * Pow2(j) {
      assert Pow2(j + 1) == 2 * Pow2(j);
      PassesIsLog(n, j + 1);
    }
  }

  lemma MergePassStep<T>(s: seq<T>, k: nat, cmp: Comparator<T>)
    requires k > 0 && s != []
    ensures MergePass(s, k, cmp)
         == Merge(Take(s, k), Take(Drop(s, k), k), cmp) + MergePass(Drop(Drop(s, k), k), k, cmp)
  {
  }

  lemma PassCostStep<T>(s: seq<T>, k: nat, cmp: Comparator<T>)
    requires k > 0 && s != []
    ensures PassCost(s, k, cmp)
         == MergeCost(Take(s, k), Take(Drop(s, k), k), cmp) + PassCost(Drop(Drop(s, k), k), k, cmp)
  {
  }

  lemma BottomUpStep<T>(s: seq<T>, k: nat, cmp: Comparator<T>)
    requires k > 0
    ensures BottomUp(s, k, cmp) == if |s| <= 2 * k then MergePass(s, k, cmp)
        else BottomUp(MergePass(s, k, cmp), 2 * k, cmp)
  {
  }

  lemma SortCostStep<T>(s: seq<T>, k: nat, cmp: Comparator<T>)
    requires k > 0
    ensures SortCost(s, k, cmp)
         == PassCost(s, k, cmp) + if |s| <= 2 * k then 0 else SortCost(MergePass(s, k, cmp), 2 * k, cmp)
  {
  }

  lemma PassesStep(n: nat, k: nat)
    requires k > 0
    ensures Passes(n, k) == if n <= 2 * k then 1 else 1 + Passes(n, 2 * k)
  {
  }

  lemma Distribute(n: nat, p: nat)
    ensures n * (1 + p) == n + n * p
  {
  }

  /** At most n comparisons in each pass, so n log n in all. */
  lemma {:induction false} SortCostBound<T>(s: seq<T>, k: nat, cmp: Comparator<T>)
    requires k > 0
    ensures SortCost(s, k, cmp) <= |s| * Passes(|s|, k)
    decreases |s| - k
  {
    if |s| > 2 * k {
      SortCostBound(MergePass(s, k, cmp), 2 * k, cmp);
      Distribute(|s|, Passes(|s|, 2 * k));
    }
  }
}

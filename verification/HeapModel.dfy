/** The array heap as functions on sequences: node `p` has children 2p+1 and 2p+2. */
module HeapModel {
  import opened Orders

  /** The heap's `is_greater`: true when the first element must be nearer the root. */
  type Greater<!T> = (T, T) -> bool

  /** `g` is at least the strict and at most the non-strict form of the preorder `le`. */
  ghost predicate Realizes<T>(g: Greater<T>, le: Order<T>, S: set<T>) {
    && PreorderOn(le, S)
    && forall x, y | x in S && y in S :: (g(x, y) ==> le(x, y)) && (!g(x, y) ==> le(y, x))
  }

  /** `p` is no later than its children. */
  ghost predicate EdgesOk<T>(s: seq<T>, p: nat, le: Order<T>) {
    && (2 * p + 1 < |s| ==> le(s[p], s[2 * p + 1]))
    && (2 * p + 2 < |s| ==> le(s[p], s[2 * p + 2]))
  }

  /** Heap order holds below every node from `lo` on. */
  ghost predicate HeapFrom<T>(s: seq<T>, lo: nat, le: Order<T>) {
    forall p: nat | lo <= p :: EdgesOk(s, p, le)
  }

  ghost predicate Heap<T>(s: seq<T>, le: Order<T>) {
    HeapFrom(s, 0, le)
  }

  // ----- the operations

  function Swap<T>(s: seq<T>, i: nat, j: nat): (r: seq<T>)
    requires i < |s| && j < |s|
    ensures |r| == |s|
  {
    s[i := s[j]][j := s[i]]
  }

  /** The child that must take the place of node `i`, or `i` itself. */
  function Largest<T>(s: seq<T>, i: nat, g: Greater<T>): (m: nat)
    requires i < |s|
    ensures m == i || m == 2 * i + 1 || m == 2 * i + 2
    ensures m < |s|
  {
    var l, r := 2 * i + 1, 2 * i + 2;
    var m := if l < |s| && g(s[l], s[i]) then l else i;
    if r < |s| && g(s[r], s[m]) then r else m
  }

  function SiftDown<T>(s: seq<T>, i: nat, g: Greater<T>): (r: seq<T>)
    ensures |r| == |s|
    decreases |s| - i
  {
    if i >= |s| then s
    else
      var m := Largest(s, i, g);
      if m == i then s else SiftDown(Swap(s, m, i), m, g)
  }

  function SiftUp<T>(s: seq<T>, i: nat, g: Greater<T>): (r: seq<T>)
    requires i < |s|
    ensures |r| == |s|
    decreases i
  {
    if i == 0 || g(s[(i - 1) / 2], s[i]) then s
    else SiftUp(Swap(s, (i - 1) / 2, i), (i - 1) / 2, g)
  }

  /** Sifts down the nodes below `i`, last one first. */
  function BuildBelow<T>(s: seq<T>, i: nat, g: Greater<T>): (r: seq<T>)
    ensures |r| == |s|
    decreases i
  {
    if i == 0 then s else BuildBelow(SiftDown(s, i - 1, g), i - 1, g)
  }

  /** Division that truncates toward zero. */
  function TruncatedHalf(n: int): int {
    if n >= 0 then n / 2 else -((-n) / 2)
  }

  function Build<T>(s: seq<T>, g: Greater<T>): (r: seq<T>)
    ensures |r| == |s|
  {
    if s == [] then s else BuildBelow(s, TruncatedHalf(|s| - 2) + 1, g)
  }

  function Push<T>(s: seq<T>, x: T, g: Greater<T>): (r: seq<T>)
    ensures |r| == |s| + 1
  {
    SiftUp(s + [x], |s|, g)
  }

  function Pop<T>(s: seq<T>, g: Greater<T>): (r: seq<T>)
    ensures |r| == if s == [] then 0 else |s| - 1
  {
    if s == [] then s
    else
      var t := s[0 := s[|s| - 1]][..|s| - 1];
      if t == [] then t else SiftDown(t, 0, g)
  }

  /** The sequence obtained by taking the first element and popping until nothing is left. */
  function Drain<T>(s: seq<T>, g: Greater<T>): (r: seq<T>)
    decreases |s|
  {
    if s == [] then [] else [s[0]] + Drain(Pop(s, g), g)
  }

  // ----- nothing is lost

  lemma SwapMembers<T>(s: seq<T>, i: nat, j: nat)
    requires i < |s| && j < |s|
    ensures multiset(Swap(s, i, j)) == multiset(s)
  {
  }

  lemma {:induction false} SiftDownMembers<T>(s: seq<T>, i: nat, g: Greater<T>)
    ensures multiset(SiftDown(s, i, g)) == multiset(s)
    decreases |s| - i
  {
    if i < |s| && Largest(s, i, g) != i {
      var m := Largest(s, i, g);
      SwapMembers(s, m, i);
      SiftDownMembers(Swap(s, m, i), m, g);
    }
  }

  lemma {:induction false} SiftUpMembers<T>(s: seq<T>, i: nat, g: Greater<T>)
    requires i < |s|
    ensures multiset(SiftUp(s, i, g)) == multiset(s)
    decreases i
  {
    if i != 0 && !g(s[(i - 1) / 2], s[i]) {
      SwapMembers(s, (i - 1) / 2, i);
      SiftUpMembers(Swap(s, (i - 1) / 2, i), (i - 1) / 2, g);
    }
  }

  lemma {:induction false} BuildBelowMembers<T>(s: seq<T>, i: nat, g: Greater<T>)
    ensures multiset(BuildBelow(s, i, g)) == multiset(s)
    decreases i
  {
    if i > 0 {
      SiftDownMembers(s, i - 1, g);
      BuildBelowMembers(SiftDown(s, i - 1, g), i - 1, g);
    }
  }

  lemma PushMembers<T>(s: seq<T>, x: T, g: Greater<T>)
    ensures multiset(Push(s, x, g)) == multiset(s) + multiset{x}
  {
    SiftUpMembers(s + [x], |s|, g);
  }

  lemma PopMembers<T>(s: seq<T>, g: Greater<T>)
    requires s != []
    ensures multiset(s) == multiset{s[0]} + multiset(Pop(s, g))
  {
    var n := |s| - 1;
    var t := s[0 := s[n]][..n];
    SiftDownMembers(t, 0, g);
    LastForFirst(s);
  }

  lemma LastForFirst<T>(s: seq<T>)
    requires s != []
    ensures var n := |s| - 1; multiset(s) == multiset{s[0]} + multiset(s[0 := s[n]][..n])
  {
    var n := |s| - 1;
    var t := s[0 := s[n]][..n];
    if n == 0 {
      assert s == [s[0]];
    } else {
      EndsAndMiddle(s);
      assert t == [s[n]] + s[1..n];
    }
  }

  lemma EndsAndMiddle<T>(s: seq<T>)
    requires |s| > 1
    ensures multiset(s) == multiset{s[0]} + multiset([s[|s| - 1]] + s[1..|s| - 1])
  {
    var n := |s| - 1;
    assert s == [s[0]] + (s[1..n] + [s[n]]);
  }

  lemma WithinSame<T>(s: seq<T>, t: seq<T>, S: set<T>)
    requires multiset(t) <= multiset(s) && Within(s, S)
    ensures Within(t, S)
  {
    forall i | 0 <= i < |t| ensures t[i] in S {
      assert t[i] in multiset(t);
      assert t[i] in s;
    }
  }

  // ----- heap order

  /** Heap order below every node from `lo` on, except possibly just below `i`; and the
      parent of `i`, if it counts, is no later than the children of `i`. */
  ghost predicate HoleDown<T>(s: seq<T>, lo: nat, i: nat, le: Order<T>)
    requires i < |s|
  {
    && (forall p: nat | lo <= p && p != i :: EdgesOk(s, p, le))
    && forall p: nat | lo <= p && (i == 2 * p + 1 || i == 2 * p + 2) ::
         (2 * i + 1 < |s| ==> le(s[p], s[2 * i + 1])) && (2 * i + 2 < |s| ==> le(s[p], s[2 * i + 2]))
  }

  lemma LargestIsBest<T>(s: seq<T>, i: nat, g: Greater<T>, le: Order<T>, S: set<T>)
    requires Realizes(g, le, S) && Within(s, S) && i < |s|
    ensures var m := Largest(s, i, g);
            le(s[m], s[i]) && (2 * i + 1 < |s| ==> le(s[m], s[2 * i + 1]))
                && (2 * i + 2 < |s| ==> le(s[m], s[2 * i + 2]))
  {
  }

  lemma SwapKeepsHole<T>(s: seq<T>, lo: nat, i: nat, g: Greater<T>, le: Order<T>, S: set<T>)
    requires Realizes(g, le, S) && Within(s, S) && lo <= i < |s| && HoleDown(s, lo, i, le) && Largest(s, i, g) != i
    ensures var m := Largest(s, i, g); HoleDown(Swap(s, m, i), lo, m, le) && Within(Swap(s, m, i), S)
  {
    var m := Largest(s, i, g);
    var t := Swap(s, m, i);
    LargestIsBest(s, i, g, le, S);
    forall p: nat | lo <= p && p != m ensures EdgesOk(t, p, le) {
      if p != i {
        assert EdgesOk(s, p, le);
      }
    }
    assert EdgesOk(s, m, le);
  }

  lemma {:induction false} SiftDownHeap<T>(s: seq<T>, lo: nat, i: nat, g: Greater<T>, le: Order<T>, S: set<T>)
    requires Realizes(g, le, S) && Within(s, S) && lo <= i < |s| && HoleDown(s, lo, i, le)
    ensures HeapFrom(SiftDown(s, i, g), lo, le)
    decreases |s| - i
  {
    var m := Largest(s, i, g);
    if m == i {
      LargestIsBest(s, i, g, le, S);
      assert EdgesOk(s, i, le);
    } else {
      SwapKeepsHole(s, lo, i, g, le, S);
      SiftDownHeap(Swap(s, m, i), lo, m, g, le, S);
    }
  }

  /** Heap order everywhere, except possibly between `i` and its parent; and that parent is
      no later than the children of `i`. */
  ghost predicate HoleUp<T>(s: seq<T>, i: nat, le: Order<T>)
    requires i < |s|
  {
    && (forall p: nat | i != 2 * p + 1 && i != 2 * p + 2 :: EdgesOk(s, p, le))
    && (i > 0 ==>
          var q := (i - 1) / 2;
          && (2 * q + 1 < |s| && 2 * q + 1 != i ==> le(s[q], s[2 * q + 1]))
          && (2 * q + 2 < |s| && 2 * q + 2 != i ==> le(s[q], s[2 * q + 2]))
          && (2 * i + 1 < |s| ==> le(s[q], s[2 * i + 1]))
          && (2 * i + 2 < |s| ==> le(s[q], s[2 * i + 2])))
  }

  lemma Chain<T>(x: T, y: T, z: T, g: Greater<T>, le: Order<T>, S: set<T>)
    requires Realizes(g, le, S) && x in S && y in S && z in S && le(x, y) && le(y, z)
    ensures le(x, z)
  {
  }

  lemma SwapEdges<T>(s: seq<T>, i: nat, p: nat, g: Greater<T>, le: Order<T>, S: set<T>)
    requires Realizes(g, le, S) && Within(s, S) && 0 < i < |s| && HoleUp(s, i, le) && !g(s[(i - 1) / 2], s[i])
    requires var q := (i - 1) / 2; q != 2 * p + 1 && q != 2 * p + 2
    ensures EdgesOk(Swap(s, (i - 1) / 2, i), p, le)
  {
    var q := (i - 1) / 2;
    assert le(s[i], s[q]);
    hide Realizes;
    if p == q {
      var c := if i == 2 * q + 1 then 2 * q + 2 else 2 * q + 1;
      if c < |s| {
        Chain(s[i], s[q], s[c], g, le, S);
      }
    } else {
      assert EdgesOk(s, p, le);
    }
  }

  lemma SwapAbove<T>(s: seq<T>, i: nat, g: Greater<T>, le: Order<T>, S: set<T>)
    requires Realizes(g, le, S) && Within(s, S) && 0 < i < |s| && HoleUp(s, i, le)
    requires (i - 1) / 2 > 0
    ensures var q := (i - 1) / 2;
            var r, t := (q - 1) / 2, Swap(s, q, i);
            EdgesOk(s, r, le) && (2 * q + 1 < |s| ==> le(t[r], t[2 * q + 1]))
                && (2 * q + 2 < |s| ==> le(t[r], t[2 * q + 2]))
  {
    hide Realizes;
    var q := (i - 1) / 2;
    var r := (q - 1) / 2;
    var c := if i == 2 * q + 1 then 2 * q + 2 else 2 * q + 1;
    assert i == 2 * q + 1 || i == 2 * q + 2;
    assert q == 2 * r + 1 || q == 2 * r + 2;
    assert EdgesOk(s, r, le);
    if c < |s| {
      Chain(s[r], s[q], s[c], g, le, S);
    }
  }

  lemma SwapKeepsHoleUp<T>(s: seq<T>, i: nat, g: Greater<T>, le: Order<T>, S: set<T>)
    requires Realizes(g, le, S) && Within(s, S) && 0 < i < |s| && HoleUp(s, i, le) && !g(s[(i - 1) / 2], s[i])
    ensures var q := (i - 1) / 2; HoleUp(Swap(s, q, i), q, le) && Within(Swap(s, q, i), S)
  {
    hide Realizes;
    var q := (i - 1) / 2;
    forall p: nat | q != 2 * p + 1 && q != 2 * p + 2 ensures EdgesOk(Swap(s, q, i), p, le) {
      SwapEdges(s, i, p, g, le, S);
    }
    if q > 0 {
      SwapAbove(s, i, g, le, S);
    }
  }

  lemma HoleClosed<T>(s: seq<T>, i: nat, le: Order<T>)
    requires i < |s| && HoleUp(s, i, le) && (i > 0 ==> le(s[(i - 1) / 2], s[i]))
    ensures Heap(s, le)
  {
    forall p: nat ensures EdgesOk(s, p, le) {
      if i == 2 * p + 1 || i == 2 * p + 2 {
        assert p == (i - 1) / 2;
      }
    }
  }

  lemma {:induction false} SiftUpHeap<T>(s: seq<T>, i: nat, g: Greater<T>, le: Order<T>, S: set<T>)
    requires Realizes(g, le, S) && Within(s, S) && i < |s| && HoleUp(s, i, le)
    ensures Heap(SiftUp(s, i, g), le)
    decreases i
  {
    if i == 0 || g(s[(i - 1) / 2], s[i]) {
      HoleClosed(s, i, le);
    } else {
      SwapKeepsHoleUp(s, i, g, le, S);
      SiftUpHeap(Swap(s, (i - 1) / 2, i), (i - 1) / 2, g, le, S);
    }
  }

  lemma PushHeap<T>(s: seq<T>, x: T, g: Greater<T>, le: Order<T>, S: set<T>)
    requires Realizes(g, le, S) && Within(s, S) && x in S && Heap(s, le)
    ensures Heap(Push(s, x, g), le)
  {
    var t := s + [x];
    forall p: nat | |s| != 2 * p + 1 && |s| != 2 * p + 2 ensures EdgesOk(t, p, le) {
      assert EdgesOk(s, p, le);
    }
    if |s| > 0 {
      assert EdgesOk(s, (|s| - 1) / 2, le);
    }
    SiftUpHeap(t, |s|, g, le, S);
  }

  lemma PopHeap<T>(s: seq<T>, g: Greater<T>, le: Order<T>, S: set<T>)
    requires Realizes(g, le, S) && Within(s, S) && Heap(s, le)
    ensures Heap(Pop(s, g), le)
  {
    if |s| > 1 {
      var t := s[0 := s[|s| - 1]][..|s| - 1];
      forall p: nat | p != 0 ensures EdgesOk(t, p, le) {
        assert EdgesOk(s, p, le);
      }
      SiftDownHeap(t, 0, 0, g, le, S);
    }
  }

  lemma {:induction false} BuildBelowHeap<T>(s: seq<T>, i: nat, g: Greater<T>, le: Order<T>, S: set<T>)
    requires Realizes(g, le, S) && Within(s, S) && i <= |s| && HeapFrom(s, i, le)
    ensures Heap(BuildBelow(s, i, g), le)
    decreases i
  {
    hide Realizes, SiftDown;
    if i > 0 {
      SiftDownHeap(s, i - 1, i - 1, g, le, S);
      SiftDownMembers(s, i - 1, g);
      WithinSame(s, SiftDown(s, i - 1, g), S);
      BuildBelowHeap(SiftDown(s, i - 1, g), i - 1, g, le, S);
    }
  }

  /** Building makes a heap of any sequence, of the same elements. */
  lemma BuildHeap<T>(s: seq<T>, g: Greater<T>, le: Order<T>, S: set<T>)
    requires Realizes(g, le, S) && Within(s, S)
    ensures Heap(Build(s, g), le) && multiset(Build(s, g)) == multiset(s)
  {
    if s != [] {
      var n := TruncatedHalf(|s| - 2) + 1;
      forall p: nat | n <= p ensures EdgesOk(s, p, le) {
        assert 2 * p + 1 >= |s|;
      }
      BuildBelowHeap(s, n, g, le, S);
      BuildBelowMembers(s, n, g);
    }
  }

  /** The root of a heap is no later than any element. */
  lemma {:induction false} RootIsLeast<T>(s: seq<T>, i: nat, le: Order<T>, S: set<T>)
    requires PreorderOn(le, S) && Within(s, S) && Heap(s, le) && i < |s|
    ensures le(s[0], s[i])
  {
    if i > 0 {
      var p := (i - 1) / 2;
      RootIsLeast(s, p, le, S);
      assert EdgesOk(s, p, le);
    }
  }

  ghost predicate SortedBy<T>(s: seq<T>, le: Order<T>) {
    forall i, j | 0 <= i < j < |s| :: le(s[i], s[j])
  }

  /** Draining a heap gives its elements in sorted order. */
  lemma {:induction false} DrainSorts<T>(s: seq<T>, g: Greater<T>, le: Order<T>, S: set<T>)
    requires Realizes(g, le, S) && Within(s, S) && Heap(s, le)
    ensures SortedBy(Drain(s, g), le) && multiset(Drain(s, g)) == multiset(s)
    decreases |s|
  {
    if s != [] {
      var rest := Drain(Pop(s, g), g);
      PopHeap(s, g, le, S);
      PopMembers(s, g);
      WithinSame(s, Pop(s, g), S);
      DrainSorts(Pop(s, g), g, le, S);
      forall j | 0 <= j < |rest| ensures le(s[0], rest[j]) {
        assert rest[j] in multiset(rest);
        assert rest[j] in s;
        var k :| 0 <= k < |s| && s[k] == rest[j];
        RootIsLeast(s, k, le, S);
      }
    }
  }

  /** Building and draining sorts any sequence. */
  lemma HeapSort<T>(s: seq<T>, g: Greater<T>, le: Order<T>, S: set<T>)
    requires Realizes(g, le, S) && Within(s, S)
    ensures SortedBy(Drain(Build(s, g), g), le) && multiset(Drain(Build(s, g), g)) == multiset(s)
  {
    BuildHeap(s, g, le, S);
    WithinSame(s, Build(s, g), S);
    DrainSorts(Build(s, g), g, le, S);
  }
}

/** The merge sort of the list and hash macros on real nodes: one pass relinks
    the `next` and `prev` fields in place, run by run. */
module ListSort {
  import opened Nodes
  import opened StableSort
  import opened Orders

  /** The local variables of a merge: the output list, and the unread rests of both runs. */
  datatype Cursors = Cursors(head: Node?, tail: Node?, p: Node?, psize: nat, q: Node?, qsize: nat)

  /** What the cursors stand for: the nodes already put out, the rest of the first run,
      all nodes from `q` on, and how often the comparator has been called. */
  datatype View = View(out: seq<Node>, ps: seq<Node>, qs: seq<Node>, cost: nat) {
    /** The output once the current merge is over. */
    ghost function Merged(n: nat, cmp: Comparator<Node>): seq<Node> {
      out + Merge(ps, Take(qs, n), cmp)
    }

    /** The comparator calls once the current merge is over. */
    ghost function Bill(n: nat, cmp: Comparator<Node>): nat {
      cost + MergeCost(ps, Take(qs, n), cmp)
    }
  }

  ghost predicate Fresh(e: Node, s: seq<Node>) {
    forall i | 0 <= i < |s| :: s[i] != e
  }

  /** No node occurs in both sequences. */
  ghost predicate Apart(s: seq<Node>, t: seq<Node>) {
    forall i, j | 0 <= i < |s| && 0 <= j < |t| :: s[i] != t[j]
  }

  /** All nodes of the view are different nodes of `N`. */
  ghost predicate Separate(v: View, N: set<Node>) {
    && Within(v.out, N) && Within(v.ps, N) && Within(v.qs, N)
    && Distinct(v.out) && Distinct(v.ps) && Distinct(v.qs)
    && Apart(v.ps, v.out) && Apart(v.qs, v.out) && Apart(v.ps, v.qs)
  }

  ghost predicate Linked(v: View, N: set<Node>)
    requires Separate(v, N)
    reads N`next, N`prev
  {
    && RunLinked(v.out) && PrevLinked(v.out)
    && RunLinked(v.ps) && NextLinked(v.qs)
  }

  ghost predicate Unread(c: Cursors, v: View) {
    && c.psize == |v.ps| && (v.ps != [] ==> c.p == v.ps[0])
    && c.q == First(v.qs)
  }

  ghost predicate At(c: Cursors, v: View) {
    && c.head == First(v.out) && c.tail == Last(v.out)
    && Unread(c, v)
  }

  /** Links `e` behind `tail`, the last node of the output list. */
  method Emit(tail: Node?, e: Node, ghost out: seq<Node>)
    requires RunLinked(out) && PrevLinked(out) && tail == Last(out)
    requires Distinct(out) && Fresh(e, out)
    modifies {tail}`next, e`prev
    ensures RunLinked(out + [e]) && PrevLinked(out + [e])
  {
    if tail != null {
      tail.next := e;
    }
    e.prev := tail;
  }

  /** Counts off the first run: at most `k` steps along `next`. */
  method SplitRun(p: Node, k: nat, ghost s: seq<Node>) returns (q: Node?, psize: nat)
    requires s != [] && p == s[0] && NextLinked(s) && k > 0
    ensures psize == Min(k, |s|)
    ensures q == First(Drop(s, k))
  {
    q, psize := p, 0;
    var i := 0;
    while i < k
      invariant 0 <= i <= k && psize == i < |s| && q == s[i]
    {
      psize := psize + 1;
      q := q.next;
      if q == null {
        return;
      }
      i := i + 1;
    }
  }

  /** The view after putting out the first unread node of the first run. */
  ghost function NextP(v: View, n: nat): View
    requires v.ps != []
  {
    View(v.out + [v.ps[0]], v.ps[1..], v.qs, v.cost + if v.qs == [] || n == 0 then 0 else 1)
  }

  /** The view after putting out the first unread node of the second run. */
  ghost function NextQ(v: View): View
    requires v.qs != []
  {
    View(v.out + [v.qs[0]], v.ps, v.qs[1..], v.cost + if v.ps == [] then 0 else 1)
  }

  /** Whether the next node comes from the second run, of which `n` nodes may still be taken. */
  ghost predicate TakesQ(v: View, n: nat, cmp: Comparator<Node>) {
    v.qs != [] && n > 0 && (v.ps == [] || !AtMost(cmp, v.ps[0], v.qs[0]))
  }

  /** What stays the same while a merge goes on. */
  ghost predicate Continues(v: View, n: nat, w: View, m: nat, cmp: Comparator<Node>) {
    && w.Merged(m, cmp) == v.Merged(n, cmp)
    && w.Bill(m, cmp) == v.Bill(n, cmp)
    && Drop(w.qs, m) == Drop(v.qs, n)
  }

  lemma MergeP(v: View, n: nat, cmp: Comparator<Node>)
    requires v.ps != [] && !TakesQ(v, n, cmp)
    ensures Continues(v, n, NextP(v, n), n, cmp)
  {
  }

  lemma MergeQ(v: View, n: nat, cmp: Comparator<Node>)
    requires TakesQ(v, n, cmp)
    ensures Continues(v, n, NextQ(v), n - 1, cmp)
  {
    assert Take(v.qs, n)[1..] == Take(v.qs[1..], n - 1);
  }

  lemma SeparateP(v: View, n: nat, N: set<Node>)
    requires Separate(v, N) && v.ps != []
    ensures Separate(NextP(v, n), N) && Fresh(v.ps[0], v.out)
  {
  }

  lemma SeparateQ(v: View, N: set<Node>)
    requires Separate(v, N) && v.qs != []
    ensures Separate(NextQ(v), N) && Fresh(v.qs[0], v.out)
  {
  }

  /** `e` is the next node to put out, and `w` the view after it. */
  ghost predicate Chosen(v: View, n: nat, w: View, m: int, e: Node, cmp: Comparator<Node>) {
    if TakesQ(v, n, cmp) then w == NextQ(v) && e == v.qs[0] && m == n - 1
    else v.ps != [] && w == NextP(v, n) && e == v.ps[0] && m == n
  }

  lemma ChosenStep(v: View, n: nat, w: View, m: nat, e: Node, N: set<Node>, cmp: Comparator<Node>)
    requires Separate(v, N) && Chosen(v, n, w, m, e, cmp)
    ensures Separate(w, N) && Fresh(e, v.out) && Continues(v, n, w, m, cmp)
    ensures w.out == v.out + [e] && |w.ps| + |w.qs| < |v.ps| + |v.qs|
  {
    if TakesQ(v, n, cmp) {
      MergeQ(v, n, cmp);
      SeparateQ(v, N);
    } else {
      MergeP(v, n, cmp);
      SeparateP(v, n, N);
    }
  }

  lemma NextTail(s: seq<Node>)
    requires NextLinked(s) && s != []
    ensures NextLinked(s[1..]) && s[0].next == First(s[1..])
  {
  }

  lemma RunTail(s: seq<Node>)
    requires RunLinked(s) && s != []
    ensures RunLinked(s[1..]) && (s[1..] != [] ==> s[0].next == s[1..][0])
  {
  }

  /** Chooses the next node to put out and steps its cursor; relinks nothing. */
  method Choose(c: Cursors, cmp: Comparator<Node>, ghost v: View)
    returns (e: Node, d: Cursors, ghost w: View)
    requires RunLinked(v.ps) && NextLinked(v.qs) && Unread(c, v)
    requires c.psize > 0 || (c.qsize > 0 && c.q != null)
    ensures Chosen(v, c.qsize, w, d.qsize, e, cmp)
    ensures RunLinked(w.ps) && NextLinked(w.qs) && Unread(d, w) && d.head == c.head && d.tail == c.tail
  {
    if c.psize == 0 {
      NextTail(v.qs);
      e, d, w := c.q, c.(q := c.q.next, qsize := c.qsize - 1), NextQ(v);
    } else if c.qsize == 0 || c.q == null {
      RunTail(v.ps);
      e, d, w := c.p, c.(p := c.p.next, psize := c.psize - 1), NextP(v, c.qsize);
    } else if cmp(c.p, c.q) <= 0 {
      RunTail(v.ps);
      e, d, w := c.p, c.(p := c.p.next, psize := c.psize - 1), NextP(v, c.qsize);
    } else {
      NextTail(v.qs);
      e, d, w := c.q, c.(q := c.q.next, qsize := c.qsize - 1), NextQ(v);
    }
  }

  /** Puts the chosen node out; the links of the unread rests stay as they are. */
  method Put(c: Cursors, e: Node, ghost v: View, ghost w: View, ghost N: set<Node>)
    requires Separate(w, N) && w.out == v.out + [e] && RunLinked(w.ps) && NextLinked(w.qs)
    requires Separate(v, N) && RunLinked(v.out) && PrevLinked(v.out) && c.tail == Last(v.out) && Fresh(e, v.out)
    modifies N`next, N`prev
    ensures Linked(w, N)
  {
    assert c.tail != null ==> c.tail == w.out[|v.out| - 1];
    assert e == w.out[|v.out|];
    Emit(c.tail, e, v.out);
  }

  /** Puts the next node out; the links of the unread rests stay as they are. */
  method PutNext(c: Cursors, cmp: Comparator<Node>, ghost v: View, ghost N: set<Node>)
    returns (d: Cursors, ghost w: View)
    requires Separate(v, N) && Linked(v, N) && At(c, v)
    requires c.psize > 0 || (c.qsize > 0 && c.q != null)
    modifies N`next, N`prev
    ensures Separate(w, N) && Linked(w, N) && At(d, w)
    ensures Continues(v, c.qsize, w, d.qsize, cmp)
    ensures |w.ps| + |w.qs| < |v.ps| + |v.qs|
  {
    var e;
    e, d, w := Choose(c, cmp, v);
    ChosenStep(v, c.qsize, w, d.qsize, e, N, cmp);
    Put(d, e, v, w, N);
    d := d.(head := if c.tail == null then e else c.head, tail := e);
  }

  /** Merges the run of `psize` nodes at `p` with the run of at most `qsize` nodes at `q`,
      appending to the output list. */
  method MergeRuns(c0: Cursors, cmp: Comparator<Node>, ghost v0: View, ghost N: set<Node>)
    returns (c: Cursors, ghost v: View)
    requires Separate(v0, N) && Linked(v0, N) && At(c0, v0)
    modifies N`next, N`prev
    ensures Separate(v, N) && Linked(v, N) && At(c, v)
    ensures v == View(v0.Merged(c0.qsize, cmp), [], Drop(v0.qs, c0.qsize), v0.Bill(c0.qsize, cmp))
  {
    c, v := c0, v0;
    while c.psize > 0 || (c.qsize > 0 && c.q != null)
      invariant Separate(v, N) && Linked(v, N) && At(c, v)
      invariant Continues(v0, c0.qsize, v, c.qsize, cmp)
      decreases |v.ps| + |v.qs|
    {
      c, v := PutNext(c, cmp, v, N);
    }
  }

  /** Cutting the first run off the unread nodes. */
  lemma CutRun(v: View, k: nat, N: set<Node>)
    requires v.ps == [] && Separate(v, N) && Linked(v, N) && v.qs != [] && k > 0
    ensures var w := View(v.out, Take(v.qs, k), Drop(v.qs, k), v.cost); Separate(w, N) && Linked(w, N)
  {
  }

  /** The output and the number of comparator calls that a whole pass over `s` ends with. */
  ghost predicate Passing(v: View, s: seq<Node>, k: nat, cmp: Comparator<Node>)
    requires k > 0
  {
    && v.out + MergePass(v.qs, k, cmp) == MergePass(s, k, cmp)
    && v.cost + PassCost(v.qs, k, cmp) == PassCost(s, k, cmp)
  }

  lemma RoundLength(qs: seq<Node>, k: nat)
    requires k > 0 && qs != []
    ensures var n := |Drop(Drop(qs, k), k)|; n < |qs| && PassMerges(|qs|, k) == 1 + PassMerges(n, k)
  {
  }

  lemma PassStep(out: seq<Node>, qs: seq<Node>, cost: nat, s: seq<Node>, k: nat, cmp: Comparator<Node>)
    requires k > 0 && qs != [] && Passing(View(out, [], qs, cost), s, k, cmp)
    ensures var v := View(out, Take(qs, k), Drop(qs, k), cost);
            Passing(View(v.Merged(k, cmp), [], Drop(v.qs, k), v.Bill(k, cmp)), s, k, cmp)
  {
    MergePassStep(qs, k, cmp);
    PassCostStep(qs, k, cmp);
    Assoc(out, Merge(Take(qs, k), Take(Drop(qs, k), k), cmp), MergePass(Drop(Drop(qs, k), k), k, cmp));
  }

  lemma PassEnds(v: View, s: seq<Node>, k: nat, cmp: Comparator<Node>)
    requires k > 0
    ensures Passing(View([], [], s, 0), s, k, cmp)
    ensures Passing(v, s, k, cmp) && v.qs == [] ==> v.out == MergePass(s, k, cmp) && v.cost == PassCost(s, k, cmp)
  {
    assert [] + MergePass(s, k, cmp) == MergePass(s, k, cmp);
    assert v.out + [] == v.out;
  }

  /** One round of a pass: merges the next two runs of length `k`. */
  method MergeNext(c0: Cursors, k: nat, cmp: Comparator<Node>, ghost v0: View, ghost s: seq<Node>,
                   ghost N: set<Node>)
    returns (c: Cursors, ghost v: View)
    requires k > 0 && Passing(v0, s, k, cmp)
    requires v0.ps == [] && Separate(v0, N) && Linked(v0, N) && At(c0, v0) && c0.q != null
    modifies N`next, N`prev
    ensures v.ps == [] && Separate(v, N) && Linked(v, N) && At(c, v)
    ensures Passing(v, s, k, cmp)
    ensures |v.qs| < |v0.qs| && PassMerges(|v0.qs|, k) == 1 + PassMerges(|v.qs|, k)
  {
    var q, psize := SplitRun(c0.q, k, v0.qs);
    CutRun(v0, k, N);
    c, v := MergeRuns(c0.(p := c0.q, psize := psize, q := q, qsize := k), cmp,
                      View(v0.out, Take(v0.qs, k), Drop(v0.qs, k), v0.cost), N);
    RoundLength(v0.qs, k);
    PassStep(v0.out, v0.qs, v0.cost, s, k, cmp);
  }

  /** One pass over the whole list `s` with run length `k`. */
  method SortPass(list: Node, k: nat, cmp: Comparator<Node>, ghost s: seq<Node>, ghost N: set<Node>)
    returns (head: Node?, tail: Node?, nmerges: nat, ghost v: View)
    requires k > 0 && s != [] && list == s[0] && NextLinked(s) && Distinct(s) && Within(s, N)
    modifies N`next, N`prev
    ensures v.out == MergePass(s, k, cmp) && v.cost == PassCost(s, k, cmp) && Separate(v, N) && Linked(v, N)
    ensures head == First(v.out) && tail == Last(v.out)
    ensures nmerges == PassMerges(|s|, k)
  {
    var c := Cursors(null, null, null, 0, list, 0);
    nmerges, v := 0, View([], [], s, 0);
    PassEnds(v, s, k, cmp);
    while c.q != null
      invariant v.ps == [] && Separate(v, N) && Linked(v, N) && At(c, v)
      invariant Passing(v, s, k, cmp)
      invariant nmerges + PassMerges(|v.qs|, k) == PassMerges(|s|, k)
      decreases |v.qs|
    {
      nmerges := nmerges + 1;
      c, v := MergeNext(c, k, cmp, v, s, N);
    }
    PassEnds(v, s, k, cmp);
    head, tail := c.head, c.tail;
  }

  /** A pass ends by closing the list at its last node. */
  method ClosePass(tail: Node?, ghost v: View, ghost N: set<Node>)
    requires Separate(v, N) && Linked(v, N) && v.out != [] && tail == Last(v.out)
    modifies N`next
    ensures NextLinked(v.out) && PrevLinked(v.out)
  {
    tail.next := null;
  }

  /** The list `t`, the passes made and the comparator calls so far lead to the sort of `s`. */
  ghost predicate Sorting(t: seq<Node>, insize: nat, passes: nat, calls: nat, s: seq<Node>, cmp: Comparator<Node>)
    requires insize > 0
  {
    && BottomUp(t, insize, cmp) == MergeSort(s, cmp)
    && passes + Passes(|t|, insize) == Passes(|s|, 1)
    && calls + SortCost(t, insize, cmp) == SortCost(s, 1, cmp)
  }

  ghost predicate SortedList(t: seq<Node>, passes: nat, calls: nat, s: seq<Node>, cmp: Comparator<Node>) {
    t == MergeSort(s, cmp) && passes == Passes(|s|, 1) && calls == SortCost(s, 1, cmp)
  }

  lemma SortRound(t: seq<Node>, insize: nat, passes: nat, calls: nat, s: seq<Node>, cmp: Comparator<Node>)
    requires insize > 0 && Sorting(t, insize, passes, calls, s, cmp)
    ensures var u, c := MergePass(t, insize, cmp), calls + PassCost(t, insize, cmp);
            if PassMerges(|t|, insize) <= 1 then SortedList(u, passes + 1, c, s, cmp)
            else |t| > 2 * insize && Sorting(u, insize * 2, passes + 1, c, s, cmp)
  {
    BottomUpStep(t, insize, cmp);
    SortCostStep(t, insize, cmp);
    PassesStep(|t|, insize);
  }

  /** All passes: run lengths 1, 2, 4, ... until a pass has made at most one merge. */
  method SortList(list: Node, cmp: Comparator<Node>, ghost s: seq<Node>, ghost N: set<Node>)
    returns (head: Node?, tail: Node?, ghost passes: nat, ghost calls: nat)
    requires s != [] && list == s[0] && NextLinked(s) && Distinct(s) && Within(s, N)
    modifies N`next, N`prev
    ensures var t := MergeSort(s, cmp);
            NextLinked(t) && PrevLinked(t) && Distinct(t) && Within(t, N) && head == First(t) && tail == Last(t)
    ensures passes == Passes(|s|, 1) && calls == SortCost(s, 1, cmp)
  {
    var insize, looping := 1, true;
    head, tail, passes, calls := list, null, 0, 0;
    ghost var t := s;
    while looping
      invariant insize > 0 && t != [] && head == First(t)
      invariant NextLinked(t) && Distinct(t) && Within(t, N)
      invariant if looping then Sorting(t, insize, passes, calls, s, cmp)
                else SortedList(t, passes, calls, s, cmp) && PrevLinked(t) && tail == Last(t)
      decreases looping, |t| - insize
    {
      var nmerges; ghost var v;
      head, tail, nmerges, v := SortPass(head, insize, cmp, t, N);
      ClosePass(tail, v, N);
      SortRound(t, insize, passes, calls, s, cmp);
      t, passes, calls := v.out, passes + 1, calls + v.cost;
      if nmerges <= 1 {
        looping := false;
      }
      insize := insize * 2;
    }
  }
}

/** Bucket arrays and bucket chains of the hash table. */
module Chains {
  import opened Nodes
  import opened BitMask

  type Hash = Key -> nat

  /** A bucket: its chain's first node, the chain length, and how many extra multiples of
      the capacity threshold the chain may reach before the next expansion. */
  datatype Bucket = Bucket(head: Node?, count: nat, expandMult: nat)

  /** The bucket index of a node under a bucket mask. */
  ghost function Slot(hash: Hash, e: Node, mask: nat): nat {
    And(hash(e.key), mask)
  }

  /** The `hhNext` links of `c` are in place and end in null. */
  ghost predicate ForwardLinked(c: seq<Node>)
    reads c`hhNext
  {
    && (forall i {:trigger c[i].hhNext} | 0 <= i < |c| - 1 :: c[i].hhNext == c[i + 1])
    && (c != [] ==> c[|c| - 1].hhNext == null)
  }

  /** A proper chain: linked both ways, null at both ends. */
  ghost predicate ChainLinked(c: seq<Node>)
    reads c`hhNext, c`hhPrev
  {
    && ForwardLinked(c)
    && (c != [] ==> c[0].hhPrev == null)
    && (forall i {:trigger c[i].hhPrev} | 0 < i < |c| :: c[i].hhPrev == c[i - 1])
  }

  /** The chains hold exactly the nodes of `D`, each in the chain of its slot, once. */
  ghost predicate Filed(chains: seq<seq<Node>>, hash: Hash, D: set<Node>) {
    && chains != []
    && (forall b, i | 0 <= b < |chains| && 0 <= i < |chains[b]| ::
          chains[b][i] in D && Slot(hash, chains[b][i], |chains| - 1) == b)
    && (forall b | 0 <= b < |chains| :: Distinct(chains[b]))
    && (forall e | e in D :: var b := Slot(hash, e, |chains| - 1); b < |chains| && e in chains[b])
  }

  ghost predicate AllLinked(chains: seq<seq<Node>>, hash: Hash, D: set<Node>)
    requires Filed(chains, hash, D)
    reads D`hhNext, D`hhPrev
  {
    forall b | 0 <= b < |chains| :: ChainLinked(chains[b])
  }

  ghost predicate Headed(buckets: array<Bucket>, chains: seq<seq<Node>>)
    reads buckets
  {
    && buckets.Length == |chains|
    && forall b | 0 <= b < |chains| ::
         buckets[b].head == First(chains[b]) && buckets[b].count == |chains[b]|
  }

  /** The bucket array and the links represent the chains. */
  ghost predicate Represents(buckets: array<Bucket>, chains: seq<seq<Node>>, hash: Hash, D: set<Node>)
    requires Filed(chains, hash, D)
    reads buckets, D`hhNext, D`hhPrev
  {
    Headed(buckets, chains) && AllLinked(chains, hash, D)
  }

  /** Puts `e` in front of the chain `c`. */
  method PushFront(head: Node?, e: Node, ghost c: seq<Node>)
    requires head == First(c) && ChainLinked(c) && Distinct(c) && forall i | 0 <= i < |c| :: c[i] != e
    modifies e`hhNext, e`hhPrev, {head}`hhPrev
    ensures ChainLinked([e] + c)
  {
    e.hhNext := head;
    e.hhPrev := null;
    if head != null {
      head.hhPrev := e;
    }
  }

  /** The chains after adding `e` in front of chain `b`. */
  ghost function AddedTo(chains: seq<seq<Node>>, b: nat, e: Node): seq<seq<Node>>
    requires b < |chains|
  {
    chains[b := [e] + chains[b]]
  }

  lemma AddFiled(chains: seq<seq<Node>>, hash: Hash, D: set<Node>, e: Node, b: nat)
    requires Filed(chains, hash, D) && e !in D && b < |chains| && Slot(hash, e, |chains| - 1) == b
    ensures Filed(AddedTo(chains, b, e), hash, D + {e})
  {
    var after := AddedTo(chains, b, e);
    forall x | x in D + {e} ensures var k := Slot(hash, x, |after| - 1); k < |after| && x in after[k] {
      if x == e {
        assert after[b][0] == e;
      } else {
        var k := Slot(hash, x, |chains| - 1);
        assert x in chains[k];
        assert after[b] == [e] + chains[b];
      }
    }
  }

  /** A node of one chain, or of none, is in no other chain. */
  lemma NotElsewhere(chains: seq<seq<Node>>, hash: Hash, D: set<Node>, e: Node?, b: nat)
    requires Filed(chains, hash, D) && b < |chains|
    requires e != null && e in D ==> Slot(hash, e, |chains| - 1) == b
    ensures forall j, i | 0 <= j < |chains| && j != b && 0 <= i < |chains[j]| :: chains[j][i] != e
  {
  }

  /** A chain whose nodes keep their links stays linked. */
  twostate lemma ChainKept(c: seq<Node>)
    requires old(ChainLinked(c))
    requires forall i | 0 <= i < |c| :: c[i].hhNext == old(c[i].hhNext) && c[i].hhPrev == old(c[i].hhPrev)
    ensures ChainLinked(c)
  {
  }

  /** The link half of filing `e` in bucket `b`. */
  method PlaceLinks(head: Node?, e: Node, b: nat, ghost chains: seq<seq<Node>>, ghost hash: Hash, ghost D: set<Node>)
    requires Filed(chains, hash, D) && AllLinked(chains, hash, D)
    requires e !in D && b < |chains| && Slot(hash, e, |chains| - 1) == b && head == First(chains[b])
    requires Filed(AddedTo(chains, b, e), hash, D + {e})
    modifies e`hhNext, e`hhPrev, D`hhPrev
    ensures AllLinked(AddedTo(chains, b, e), hash, D + {e})
  {
    NotElsewhere(chains, hash, D, e, b);
    NotElsewhere(chains, hash, D, head, b);
    assert forall i | 0 <= i < |chains[b]| :: chains[b][i] in D;
    PushFront(head, e, chains[b]);
    forall j | 0 <= j < |chains| && j != b ensures ChainLinked(chains[j]) {
      ChainKept(chains[j]);
    }
  }

  /** Files `e` in bucket `b`, with the given expansion multiplier. */
  method Place(buckets: array<Bucket>, e: Node, b: nat, mult: nat,
               ghost chains: seq<seq<Node>>, ghost hash: Hash, ghost D: set<Node>)
    requires Filed(chains, hash, D) && Represents(buckets, chains, hash, D)
    requires e !in D && b < |chains| && Slot(hash, e, |chains| - 1) == b
    modifies buckets, e`hhNext, e`hhPrev, D`hhPrev
    ensures Filed(AddedTo(chains, b, e), hash, D + {e})
    ensures Represents(buckets, AddedTo(chains, b, e), hash, D + {e})
    ensures buckets[b].expandMult == mult
    ensures forall j | 0 <= j < |chains| && j != b :: buckets[j] == old(buckets[j])
  {
    AddFiled(chains, hash, D, e, b);
    PlaceLinks(buckets[b].head, e, b, chains, hash, D);
    buckets[b] := Bucket(e, buckets[b].count + 1, mult);
  }

  /** Takes the node at position `k` out of the chain `c`. */
  method UnlinkChain(head: Node?, del: Node, ghost c: seq<Node>, ghost k: nat) returns (head': Node?)
    requires k < |c| && del == c[k] && head == First(c) && ChainLinked(c) && Distinct(c)
    modifies c`hhNext, c`hhPrev
    ensures ChainLinked(RemoveAt(c, k)) && head' == First(RemoveAt(c, k))
  {
    head' := head;
    if head == del {
      head' := del.hhNext;
    }
    if del.hhPrev != null {
      del.hhPrev.hhNext := del.hhNext;
    }
    if del.hhNext != null {
      del.hhNext.hhPrev := del.hhPrev;
    }
  }

  /** The chains after taking `e` out of chain `b`. */
  ghost function TakenFrom(chains: seq<seq<Node>>, b: nat, e: Node): seq<seq<Node>>
    requires b < |chains| && e in chains[b]
  {
    chains[b := RemoveAt(chains[b], IndexOf(chains[b], e))]
  }

  lemma RemovedMembers(c: seq<Node>, k: nat)
    requires k < |c| && Distinct(c)
    ensures Distinct(RemoveAt(c, k)) && c[k] !in RemoveAt(c, k)
    ensures forall x | x in c && x != c[k] :: x in RemoveAt(c, k)
    ensures forall x | x in RemoveAt(c, k) :: x in c
  {
    var t := RemoveAt(c, k);
    assert forall i | 0 <= i < |t| :: t[i] == c[if i < k then i else i + 1];
    forall x | x in c && x != c[k] ensures x in t {
      var i :| 0 <= i < |c| && c[i] == x;
      assert t[if i < k then i else i - 1] == x;
    }
  }

  lemma TakeFiled(chains: seq<seq<Node>>, hash: Hash, D: set<Node>, e: Node, b: nat)
    requires Filed(chains, hash, D) && e in D && b == Slot(hash, e, |chains| - 1)
    ensures b < |chains| && e in chains[b]
    ensures Filed(TakenFrom(chains, b, e), hash, D - {e})
  {
    var k := IndexOf(chains[b], e);
    var after := TakenFrom(chains, b, e);
    RemovedMembers(chains[b], k);
    forall j, i | 0 <= j < |after| && 0 <= i < |after[j]|
      ensures after[j][i] in D - {e} && Slot(hash, after[j][i], |after| - 1) == j
    {
      var x := after[j][i];
      assert x in after[j] && x in chains[j];
    }
    forall x | x in D - {e} ensures var j := Slot(hash, x, |after| - 1); j < |after| && x in after[j] {
      assert x in chains[Slot(hash, x, |chains| - 1)];
    }
  }

  /** The link half of taking `e` out of bucket `b`. */
  method UnplaceLinks(head: Node?, e: Node, b: nat, ghost chains: seq<seq<Node>>, ghost hash: Hash, ghost D: set<Node>)
    returns (head': Node?)
    requires Filed(chains, hash, D) && AllLinked(chains, hash, D)
    requires b < |chains| && e in chains[b] && head == First(chains[b])
    requires Filed(TakenFrom(chains, b, e), hash, D - {e})
    modifies D`hhNext, D`hhPrev
    ensures AllLinked(TakenFrom(chains, b, e), hash, D - {e})
    ensures head' == First(TakenFrom(chains, b, e)[b])
  {
    assert forall i | 0 <= i < |chains[b]| :: chains[b][i] in D;
    assert forall j, i, k | 0 <= j < |chains| && j != b && 0 <= i < |chains[j]| && 0 <= k < |chains[b]| ::
        chains[j][i] != chains[b][k];
    head' := UnlinkChain(head, e, chains[b], IndexOf(chains[b], e));
    forall j | 0 <= j < |chains| && j != b ensures ChainLinked(chains[j]) {
      ChainKept(chains[j]);
    }
  }

  /** Takes `e` out of bucket `b`. */
  method Unplace(buckets: array<Bucket>, e: Node, b: nat,
                 ghost chains: seq<seq<Node>>, ghost hash: Hash, ghost D: set<Node>)
    requires Filed(chains, hash, D) && Represents(buckets, chains, hash, D)
    requires e in D && b == Slot(hash, e, |chains| - 1) && b < |chains| && e in chains[b]
    modifies buckets, D`hhNext, D`hhPrev
    ensures Filed(TakenFrom(chains, b, e), hash, D - {e})
    ensures Represents(buckets, TakenFrom(chains, b, e), hash, D - {e})
  {
    TakeFiled(chains, hash, D, e, b);
    var head := UnplaceLinks(buckets[b].head, e, b, chains, hash, D);
    buckets[b] := buckets[b].(head := head, count := buckets[b].count - 1);
  }

  // ----- load statistics

  /** Chain positions beyond the ideal chain length, over all chains. */
  ghost function Excess(chains: seq<seq<Node>>, ideal: nat): nat {
    if chains == [] then 0
    else (if |chains[0]| > ideal then |chains[0]| - ideal else 0) + Excess(chains[1..], ideal)
  }

  lemma {:induction false} ExcessAfterAdd(chains: seq<seq<Node>>, b: nat, e: Node, ideal: nat)
    requires b < |chains|
    ensures Excess(AddedTo(chains, b, e), ideal) == Excess(chains, ideal) + if |chains[b]| + 1 > ideal then 1 else 0
  {
    var after := AddedTo(chains, b, e);
    if b == 0 {
      assert after[1..] == chains[1..];
    } else {
      assert after[1..] == AddedTo(chains[1..], b - 1, e);
      ExcessAfterAdd(chains[1..], b - 1, e, ideal);
    }
  }

  lemma {:induction false} NoExcess(chains: seq<seq<Node>>, ideal: nat)
    requires forall b | 0 <= b < |chains| :: chains[b] == []
    ensures Excess(chains, ideal) == 0
  {
    if chains != [] {
      NoExcess(chains[1..], ideal);
    }
  }

  /** The multiplier of a bucket holding `count` nodes right after an expansion. */
  function MultiplierOf(count: nat, ideal: nat): nat
    requires ideal > 0
  {
    if count > ideal then count / ideal else 0
  }

  /** How often the ideal length goes into that of an overfull chain. */
  lemma MultiplierMeans(count: nat, ideal: nat)
    requires ideal > 0
    ensures var m := MultiplierOf(count, ideal);
            if count > ideal then m >= 1 && m * ideal <= count < (m + 1) * ideal else m == 0
  {
    if count > ideal {
      DivisionMeans(count, ideal);
    }
  }

  lemma DivisionMeans(a: nat, d: nat)
    requires a >= d > 0
    ensures a / d >= 1 && (a / d) * d <= a < (a / d + 1) * d
  {
    assert a == (a / d) * d + a % d;
    assert (a / d + 1) * d == (a / d) * d + d;
  }

  ghost predicate Measured(buckets: array<Bucket>, chains: seq<seq<Node>>, ideal: nat, nonideal: nat)
    requires Headed(buckets, chains) && ideal > 0
    reads buckets
  {
    && nonideal == Excess(chains, ideal)
    && forall b | 0 <= b < |chains| :: buckets[b].expandMult == MultiplierOf(|chains[b]|, ideal)
  }

  /** A bucket array under construction: it represents its chains, and its statistics are exact. */
  ghost predicate NewTable(buckets: array<Bucket>, chains: seq<seq<Node>>, hash: Hash, D: set<Node>, ideal: nat,
                           nonideal: nat)
    reads buckets, D`hhNext, D`hhPrev
  {
    && Filed(chains, hash, D) && Represents(buckets, chains, hash, D)
    && ideal > 0 && Measured(buckets, chains, ideal, nonideal)
  }

  /** A chain waiting to be moved: its cached hash values are right, its slots exist in the
      new array, and none of its nodes has been moved yet. */
  ghost predicate Pending(c: seq<Node>, hash: Hash, n: nat, D: set<Node>)
    requires n > 0
    reads c`hhNext, c`hashv
  {
    && ForwardLinked(c) && Distinct(c)
    && forall i | 0 <= i < |c| :: c[i].hashv == hash(c[i].key) && Slot(hash, c[i], n - 1) < n && c[i] !in D
  }

  /** Moves one node into the new bucket array. */
  method MoveNode(e: Node, newBuckets: array<Bucket>, ideal: nat, nonideal0: nat,
                  ghost chains0: seq<seq<Node>>, ghost hash: Hash, ghost D: set<Node>)
    returns (nonideal: nat, ghost chains: seq<seq<Node>>)
    requires NewTable(newBuckets, chains0, hash, D, ideal, nonideal0)
    requires e !in D && e.hashv == hash(e.key) && Slot(hash, e, |chains0| - 1) < |chains0|
    modifies newBuckets, e`hhNext, e`hhPrev, D`hhPrev
    ensures NewTable(newBuckets, chains, hash, D + {e}, ideal, nonideal) && |chains| == |chains0|
  {
    var bkt := And(e.hashv, newBuckets.Length - 1);
    nonideal := nonideal0;
    var count, mult := newBuckets[bkt].count + 1, newBuckets[bkt].expandMult;
    if count > ideal {
      nonideal := nonideal + 1;
      mult := count / ideal;
    }
    chains := AddedTo(chains0, bkt, e);
    ExcessAfterAdd(chains0, bkt, e, ideal);
    assert count == |chains[bkt]| && mult == MultiplierOf(count, ideal);
    Place(newBuckets, e, bkt, mult, chains0, hash, D);
  }

  /** Moves the first node of a pending chain and steps to the next one. */
  method MoveFirst(thh: Node, newBuckets: array<Bucket>, ideal: nat, nonideal0: nat,
                   ghost c: seq<Node>, ghost chains0: seq<seq<Node>>, ghost hash: Hash, ghost D: set<Node>)
    returns (next: Node?, nonideal: nat, ghost chains: seq<seq<Node>>)
    requires NewTable(newBuckets, chains0, hash, D, ideal, nonideal0)
    requires c != [] && thh == c[0] && Pending(c, hash, |chains0|, D)
    modifies newBuckets, thh`hhNext, thh`hhPrev, D`hhPrev
    ensures NewTable(newBuckets, chains, hash, D + {thh}, ideal, nonideal) && |chains| == |chains0|
    ensures next == First(c[1..]) && Pending(c[1..], hash, |chains|, D + {thh})
  {
    next := thh.hhNext;
    nonideal, chains := MoveNode(thh, newBuckets, ideal, nonideal0, chains0, hash, D);
  }

  lemma MembersTail(c: seq<Node>)
    requires c != []
    ensures Members(c) == {c[0]} + Members(c[1..])
  {
    assert c == [c[0]] + c[1..];
  }

  /** Moves the whole chain starting at `head` into the new bucket array. */
  method MoveChain(head: Node?, newBuckets: array<Bucket>, ideal: nat, nonideal0: nat,
                   ghost c: seq<Node>, ghost chains0: seq<seq<Node>>, ghost hash: Hash, ghost D0: set<Node>,
                   ghost N: set<Node>)
    returns (nonideal: nat, ghost chains: seq<seq<Node>>)
    requires NewTable(newBuckets, chains0, hash, D0, ideal, nonideal0)
    requires head == First(c) && Pending(c, hash, |chains0|, D0)
    requires D0 + Members(c) <= N
    modifies newBuckets, Members(c)`hhNext, N`hhPrev
    ensures NewTable(newBuckets, chains, hash, D0 + Members(c), ideal, nonideal) && |chains| == |chains0|
  {
    var thh := head;
    nonideal, chains := nonideal0, chains0;
    ghost var rest, D := c, D0;
    while thh != null
      invariant NewTable(newBuckets, chains, hash, D, ideal, nonideal) && |chains| == |chains0|
      invariant thh == First(rest) && Pending(rest, hash, |chains|, D)
      invariant D + Members(rest) == D0 + Members(c)
      invariant Members(rest) <= Members(c)
      decreases |rest|
    {
      MembersTail(rest);
      ghost var e: Node := thh;
      thh, nonideal, chains := MoveFirst(thh, newBuckets, ideal, nonideal, rest, chains, hash, D);
      D, rest := D + {e}, rest[1..];
    }
    assert D == D0 + Members(c);
  }

  /** The nodes whose old slot is below `i`. */
  ghost function Below(N: set<Node>, hash: Hash, n: nat, i: nat): set<Node>
    requires n > 0
  {
    set e | e in N && Slot(hash, e, n - 1) < i
  }

  lemma BelowNext(chains: seq<seq<Node>>, hash: Hash, N: set<Node>, i: nat)
    requires Filed(chains, hash, N) && i < |chains|
    ensures Below(N, hash, |chains|, i + 1) == Below(N, hash, |chains|, i) + Members(chains[i])
  {
    forall e | e in Below(N, hash, |chains|, i + 1) ensures e in Below(N, hash, |chains|, i) + Members(chains[i]) {
      assert e in chains[Slot(hash, e, |chains| - 1)];
    }
    forall e | e in Members(chains[i]) ensures e in Below(N, hash, |chains|, i + 1) {
      assert e in chains[i];
    }
  }

  lemma BelowAll(chains: seq<seq<Node>>, hash: Hash, N: set<Node>)
    requires Filed(chains, hash, N)
    ensures Below(N, hash, |chains|, 0) == {} && Below(N, hash, |chains|, |chains|) == N
  {
    forall e | e in N ensures e in Below(N, hash, |chains|, |chains|) {
      assert Slot(hash, e, |chains| - 1) < |chains|;
    }
  }

  /** The chains from `i` on still wait to be moved. */
  ghost predicate AllPending(chains: seq<seq<Node>>, i: nat, hash: Hash, n: nat, N: set<Node>, D: set<Node>)
    requires Filed(chains, hash, N) && n > 0
    reads N`hhNext, N`hashv
  {
    forall j | i <= j < |chains| :: Pending(chains[j], hash, n, D)
  }

  ghost predicate CachedHashes(N: set<Node>, hash: Hash)
    reads N`hashv
  {
    forall e | e in N :: e.hashv == hash(e.key)
  }

  lemma InitiallyPending(chains: seq<seq<Node>>, k: nat, hash: Hash, N: set<Node>)
    requires Filed(chains, hash, N) && AllLinked(chains, hash, N) && CachedHashes(N, hash) && |chains| == Pow2(k)
    ensures AllPending(chains, 0, hash, 2 * |chains|, N, {})
  {
    forall j | 0 <= j < |chains| ensures Pending(chains[j], hash, 2 * |chains|, {}) {
      assert ChainLinked(chains[j]);
      forall i | 0 <= i < |chains[j]|
        ensures chains[j][i].hashv == hash(chains[j][i].key)
            && Slot(hash, chains[j][i], 2 * |chains| - 1) < 2 * |chains|
      {
        assert chains[j][i] in N;
        WiderMask(hash(chains[j][i].key), k);
      }
    }
  }

  lemma ChainsApart(chains: seq<seq<Node>>, hash: Hash, N: set<Node>, i: nat)
    requires Filed(chains, hash, N) && i < |chains|
    ensures forall j, m | i < j < |chains| && 0 <= m < |chains[j]| ::
              chains[j][m] in N && chains[j][m] !in Members(chains[i])
  {
  }

  /** Moves the chain of bucket `i`. */
  method MoveBucket(head: Node?, newBuckets: array<Bucket>, ideal: nat, nonideal0: nat,
                    ghost chains0: seq<seq<Node>>, i: nat, ghost chains1: seq<seq<Node>>, ghost hash: Hash,
                    ghost N: set<Node>)
    returns (nonideal: nat, ghost chains: seq<seq<Node>>)
    requires Filed(chains0, hash, N) && i < |chains0| && head == First(chains0[i])
    requires |chains1| == 2 * |chains0|
    requires NewTable(newBuckets, chains1, hash, Below(N, hash, |chains0|, i), ideal, nonideal0)
    requires AllPending(chains0, i, hash, |chains1|, N, Below(N, hash, |chains0|, i))
    modifies newBuckets, N`hhNext, N`hhPrev
    ensures NewTable(newBuckets, chains, hash, Below(N, hash, |chains0|, i + 1), ideal, nonideal)
        && |chains| == |chains1|
    ensures AllPending(chains0, i + 1, hash, |chains|, N, Below(N, hash, |chains0|, i + 1))
  {
    hide NewTable, ChainLinked;
    BelowNext(chains0, hash, N, i);
    ChainsApart(chains0, hash, N, i);
    ghost var D := Below(N, hash, |chains0|, i);
    assert Pending(chains0[i], hash, |chains1|, D);
    nonideal, chains := MoveChain(head, newBuckets, ideal, nonideal0, chains0[i], chains1, hash, D, N);
  }

  /** A zeroed bucket array. */
  method MakeBuckets(n: nat, ideal: nat, ghost hash: Hash)
      returns (buckets: array<Bucket>, ghost chains: seq<seq<Node>>)
    requires n > 0 && ideal > 0
    ensures fresh(buckets) && |chains| == n && NewTable(buckets, chains, hash, {}, ideal, 0)
    ensures forall b | 0 <= b < n :: chains[b] == []
  {
    buckets := new Bucket[n](_ => Bucket(null, 0, 0));
    chains := seq(n, _ => []);
    NoExcess(chains, ideal);
  }

  /** The buckets below `i` have been moved, the others wait. */
  ghost predicate Halfway(newBuckets: array<Bucket>, chains: seq<seq<Node>>, chains0: seq<seq<Node>>, i: nat,
                          hash: Hash, N: set<Node>, ideal: nat, nonideal: nat)
    requires Filed(chains0, hash, N)
    reads newBuckets, N`hhNext, N`hhPrev, N`hashv
  {
    && |chains| == 2 * |chains0|
    && NewTable(newBuckets, chains, hash, Below(N, hash, |chains0|, i), ideal, nonideal)
    && AllPending(chains0, i, hash, |chains|, N, Below(N, hash, |chains0|, i))
  }

  /** Moves all chains, bucket by bucket. */
  method MoveAll(buckets: array<Bucket>, newBuckets: array<Bucket>, ideal: nat, ghost chains0: seq<seq<Node>>,
                 ghost chains1: seq<seq<Node>>, ghost hash: Hash, ghost N: set<Node>)
    returns (nonideal: nat, ghost chains: seq<seq<Node>>)
    requires Filed(chains0, hash, N) && Headed(buckets, chains0) && buckets != newBuckets
    requires Halfway(newBuckets, chains1, chains0, 0, hash, N, ideal, 0)
    modifies newBuckets, N`hhNext, N`hhPrev
    ensures Halfway(newBuckets, chains, chains0, |chains0|, hash, N, ideal, nonideal)
  {
    nonideal, chains := 0, chains1;
    var i := 0;
    while i < buckets.Length
      invariant 0 <= i <= buckets.Length && Headed(buckets, chains0)
      invariant Halfway(newBuckets, chains, chains0, i, hash, N, ideal, nonideal)
    {
      nonideal, chains := MoveBucket(buckets[i].head, newBuckets, ideal, nonideal, chains0, i, chains, hash, N);
      i := i + 1;
    }
  }

  /** Doubles the number of buckets and files every node again under the wider mask. */
  method Redistribute(buckets: array<Bucket>, ideal: nat, ghost chains0: seq<seq<Node>>, ghost hash: Hash,
                      ghost N: set<Node>, ghost k: nat)
    returns (newBuckets: array<Bucket>, nonideal: nat, ghost chains: seq<seq<Node>>)
    requires Filed(chains0, hash, N) && Represents(buckets, chains0, hash, N)
    requires CachedHashes(N, hash) && |chains0| == Pow2(k) && ideal > 0
    modifies N`hhNext, N`hhPrev
    ensures NewTable(newBuckets, chains, hash, N, ideal, nonideal)
    ensures fresh(newBuckets) && |chains| == 2 * |chains0|
  {
    newBuckets, chains := MakeBuckets(2 * buckets.Length, ideal, hash);
    InitiallyPending(chains0, k, hash, N);
    BelowAll(chains0, hash, N);
    nonideal, chains := MoveAll(buckets, newBuckets, ideal, chains0, chains, hash, N);
  }
}


/** The hash table: every element sits in one bucket chain and in the application-order
    list. The table macros and the head pointer they update are one object here; while
    `head` is null there is no table and the other fields mean nothing. */
module HashTable {
  import opened Nodes
  import opened BitMask
  import opened Chains
  import opened StableSort
  import opened ListSort
  import Bloom

  const INITIAL_NUM_BUCKETS := 32
  const INITIAL_NUM_BUCKETS_LOG2 := 5
  const BKT_CAPACITY_THRESH := 10

  ghost predicate UniqueKeys(s: seq<Node>) {
    forall i, j | 0 <= i < j < |s| :: s[i].key != s[j].key
  }

  /** The element that an insertion-ordered association list has for a key. */
  ghost function Lookup(s: seq<Node>, key: Key): Node? {
    if s == [] then null else if s[0].key == key then s[0] else Lookup(s[1..], key)
  }

  ghost function Hashes(D: set<Node>, hash: Hash): set<nat> {
    set e | e in D :: hash(e.key)
  }

  /** How many of the latest expansions in a row were ineffective. */
  ghost function Trailing(log: seq<bool>): nat {
    if log == [] || !log[|log| - 1] then 0 else 1 + Trailing(log[..|log| - 1])
  }

  /** A chain has reached the length at which the table expands. */
  predicate Crowded(length: nat, expandMult: nat) {
    length >= 10 * (expandMult + 1)
  }

  lemma IdealIsCeiling(n: nat, k: nat)
    requires n > 0
    ensures Shr(n, k + 1) + (if And(n, Pow2(k) * 2 - 1) != 0 then 1 else 0) == CeilShift(n, k + 1) > 0
  {
    CeilShiftIsCeiling(n, k + 1);
  }

  // ----- the application order as an association list

  lemma {:induction false} LookupFinds(s: seq<Node>, key: Key)
    ensures var r := Lookup(s, key); if r == null then forall i | 0 <= i < |s| :: s[i].key != key
        else r in s && r.key == key
  {
    if s != [] {
      assert s == [s[0]] + s[1..];
      LookupFinds(s[1..], key);
    }
  }

  /** With unique keys, the element of a key is the only one that has it. */
  lemma {:induction false} LookupIs(s: seq<Node>, e: Node)
    requires UniqueKeys(s) && e in s
    ensures Lookup(s, e.key) == e
  {
    if s[0] != e {
      assert s == [s[0]] + s[1..];
      LookupIs(s[1..], e);
    }
  }

  /** Adding an element changes the element of its own key, and of no other. */
  lemma {:induction false} LookupAfterAdd(s: seq<Node>, e: Node, key: Key)
    requires Lookup(s, e.key) == null
    ensures Lookup(s + [e], key) == if key == e.key then e else Lookup(s, key)
  {
    if s != [] {
      assert (s + [e])[1..] == s[1..] + [e];
      LookupAfterAdd(s[1..], e, key);
    }
  }

  /** Deleting an element takes its key away, and no other. */
  lemma {:induction false} LookupAfterDelete(s: seq<Node>, e: Node, key: Key)
    requires UniqueKeys(s) && e in s
    ensures Lookup(RemoveAt(s, IndexOf(s, e)), key) == if key == e.key then null else Lookup(s, key)
  {
    if s[0] == e {
      assert RemoveAt(s, 0) == s[1..];
      LookupFinds(s[1..], e.key);
    } else {
      assert s == [s[0]] + s[1..];
      assert RemoveAt(s, IndexOf(s, e))[1..] == RemoveAt(s[1..], IndexOf(s[1..], e));
      LookupAfterDelete(s[1..], e, key);
    }
  }

  /** Sorting, or any other rearrangement, changes no lookup. */
  lemma LookupAfterRearranging(s: seq<Node>, t: seq<Node>, key: Key)
    requires UniqueKeys(s) && UniqueKeys(t) && forall e: Node :: e in s <==> e in t
    ensures Lookup(t, key) == Lookup(s, key)
  {
    LookupFinds(s, key);
    LookupFinds(t, key);
    if Lookup(s, key) != null {
      LookupIs(t, Lookup(s, key));
    }
  }

  lemma RemoveKeepsUnique(s: seq<Node>, k: nat)
    requires k < |s| && UniqueKeys(s)
    ensures UniqueKeys(RemoveAt(s, k)) && Members(RemoveAt(s, k)) == Members(s) - {s[k]}
  {
    var t := RemoveAt(s, k);
    assert forall i | 0 <= i < |t| :: t[i] == s[if i < k then i else i + 1];
    forall x | x in Members(s) - {s[k]} ensures x in t {
      var i :| 0 <= i < |s| && s[i] == x;
      assert t[if i < k then i else i - 1] == x;
    }
  }

  lemma ChainHas(chains: seq<seq<Node>>, hash: Hash, D: set<Node>, e: Node, b: nat)
    requires Filed(chains, hash, D) && e in D && b == Slot(hash, e, |chains| - 1)
    ensures b < |chains| && e in chains[b]
  {
  }

  lemma EmptyChain(chains: seq<seq<Node>>, hash: Hash, D: set<Node>, b: nat)
    requires Filed(chains, hash, D) && b < |chains|
    ensures chains[b] != [] ==> D != {}
  {
    if chains[b] != [] {
      assert chains[b][0] in D;
    }
  }

  lemma AddedUnique(s: seq<Node>, e: Node)
    requires UniqueKeys(s) && Lookup(s, e.key) == null
    ensures UniqueKeys(s + [e]) && e !in Members(s) && Members(s + [e]) == Members(s) + {e}
  {
    LookupFinds(s, e.key);
  }

  class Table {
    const hash: Hash
    const useBloom: bool
    const bloomNbits: nat

    var head: Node?
    var tail: Node?
    var numItems: nat
    var buckets: array<Bucket>
    var numBuckets: nat
    var log2NumBuckets: nat
    var idealChainMaxlen: nat
    var nonidealItems: nat
    var ineffExpands: nat
    var noexpand: nat
    var bloomBv: array<bv8>

    ghost var items: seq<Node>             // application order
    ghost var chains: seq<seq<Node>>       // bucket chains
    ghost var expansions: seq<bool>        // was each expansion so far ineffective?

    /** The application-order list: links, tail and count. */
    ghost predicate OrderOk()
      reads this`head, this`tail, this`numItems, this`items, items`next, items`prev
    {
      && head == First(items) && (items != [] ==> tail == Last(items) && numItems == |items|)
      && Distinct(items) && NextLinked(items) && PrevLinked(items)
    }

    /** The bucket structure holds exactly `D`. */
    ghost predicate Stores(D: set<Node>)
      reads this`buckets, this`numBuckets, this`chains, buckets, D`hhNext, D`hhPrev, D`hashv
    {
      && |chains| == numBuckets
      && Filed(chains, hash, D) && Represents(buckets, chains, hash, D)
      && CachedHashes(D, hash)
    }

    ghost predicate BucketsOk(D: set<Node>)
      reads this`buckets, this`numBuckets, this`log2NumBuckets, this`chains, buckets, D`hhNext, D`hhPrev, D`hashv
    {
      Stores(D) && numBuckets == Pow2(log2NumBuckets)
    }

    /** Expansion is frozen exactly when the last two expansions were ineffective. */
    ghost predicate ExpansionOk()
      reads this`log2NumBuckets, this`ineffExpands, this`noexpand, this`expansions
    {
      && log2NumBuckets == INITIAL_NUM_BUCKETS_LOG2 + |expansions|
      && ineffExpands == Trailing(expansions) <= 2
      && noexpand == if Trailing(expansions) == 2 then 1 else 0
    }

    ghost predicate BloomOk(D: set<Node>)
      reads this`bloomBv, bloomBv
    {
      useBloom ==>
        && bloomBv.Length == Bloom.ByteLength(bloomNbits)
        && Bloom.Covers(bloomBv[..], bloomNbits, Hashes(D, hash))
    }

    /** The whole table below the list, holding exactly `D`. */
    ghost predicate TableOk(D: set<Node>)
      reads this`buckets, this`numBuckets, this`log2NumBuckets, this`chains, this`ineffExpands, this`noexpand,
            this`expansions, this`bloomBv, buckets, bloomBv, D`hhNext, D`hhPrev, D`hashv
    {
      BucketsOk(D) && BloomOk(D) && ExpansionOk() && buckets as object != bloomBv
    }

    ghost predicate Valid()
      reads this, buckets, bloomBv, Members(items)
    {
      && OrderOk() && UniqueKeys(items)
      && (items != [] ==> TableOk(Members(items)))
    }

    constructor (hash: Hash, useBloom: bool, bloomNbits: nat)
      ensures Valid() && items == []
      ensures this.hash == hash && this.useBloom == useBloom && this.bloomNbits == bloomNbits
    {
      this.hash, this.useBloom, this.bloomNbits := hash, useBloom, bloomNbits;
      head, tail, numItems := null, null, 0;
      buckets, bloomBv := new Bucket[0], new bv8[0];
      items, chains := [], [];
    }

    /** Filing one more element in bucket `b` makes the table expand. */
    ghost predicate Full(b: nat)
      reads this`chains, this`buckets, this`noexpand, buckets
    {
      && b < |chains| && b < buckets.Length && noexpand != 1
      && Crowded(|chains[b]| + 1, buckets[b].expandMult)
    }

    /** The statistics an expansion leaves behind. */
    ghost predicate JustExpanded()
      reads this`chains, this`buckets, this`numBuckets, this`log2NumBuckets, this`numItems, this`idealChainMaxlen,
            this`nonidealItems, this`expansions, buckets
    {
      && Headed(buckets, chains) && idealChainMaxlen > 0
      && idealChainMaxlen == CeilShift(numItems, log2NumBuckets)
      && Measured(buckets, chains, idealChainMaxlen, nonidealItems)
      && expansions != [] && expansions[|expansions| - 1] == (nonidealItems > numItems / 2)
    }

    /** A new table with empty buckets, no expansions and a clear filter. */
    method MakeTable()
      modifies this`buckets, this`numBuckets, this`log2NumBuckets, this`idealChainMaxlen, this`nonidealItems,
               this`ineffExpands, this`noexpand, this`bloomBv, this`chains, this`expansions
      ensures TableOk({}) && fresh(buckets) && fresh(bloomBv) && expansions == [] && numBuckets == 32
    {
      numBuckets, log2NumBuckets := INITIAL_NUM_BUCKETS, INITIAL_NUM_BUCKETS_LOG2;
      idealChainMaxlen, nonidealItems, ineffExpands, noexpand := 0, 0, 0, 0;
      buckets, chains := MakeBuckets(INITIAL_NUM_BUCKETS, 1, hash);
      expansions := [];
      assert Pow2(5) == 32;
      MakeBloom();
    }

    method MakeBloom()
      modifies this`bloomBv
      ensures BloomOk({}) && fresh(bloomBv)
    {
      bloomBv := new bv8[0];
      if useBloom {
        bloomBv := Bloom.Make(bloomNbits);
      }
    }

    /** Counts consecutive ineffective expansions, and freezes the table at the second. */
    method RecordExpansion()
      requires ExpansionOk() && noexpand != 1
      modifies this`log2NumBuckets, this`ineffExpands, this`noexpand, this`expansions
      ensures ExpansionOk() && log2NumBuckets == old(log2NumBuckets) + 1
      ensures expansions == old(expansions) + [nonidealItems > numItems / 2]
    {
      log2NumBuckets := log2NumBuckets + 1;
      ineffExpands := if nonidealItems > Shr(numItems, 1) then ineffExpands + 1 else 0;
      if ineffExpands > 1 {
        noexpand := 1;
      }
      assert Shr(numItems, 1) == numItems / 2;
      assert (expansions + [nonidealItems > numItems / 2])[..|expansions|] == expansions;
      expansions := expansions + [nonidealItems > numItems / 2];
    }

    method DoubleBuckets(ghost D: set<Node>)
      requires BucketsOk(D) && idealChainMaxlen > 0
      modifies this`buckets, this`numBuckets, this`nonidealItems, this`chains, D`hhNext, D`hhPrev
      ensures Stores(D) && fresh(buckets) && numBuckets == 2 * old(numBuckets)
      ensures Measured(buckets, chains, idealChainMaxlen, nonidealItems)
    {
      hide Filed, AllLinked, CachedHashes, ChainLinked;
      buckets, nonidealItems, chains := Redistribute(buckets, idealChainMaxlen, chains, hash, D, log2NumBuckets);
      numBuckets := numBuckets * 2;
    }

    /** Bucket doubling, with the load statistics it leaves behind. */
    method ExpandBuckets(ghost D: set<Node>)
      requires BucketsOk(D) && ExpansionOk() && noexpand != 1 && numItems > 0
      modifies this`buckets, this`numBuckets, this`log2NumBuckets, this`idealChainMaxlen, this`nonidealItems,
               this`ineffExpands, this`noexpand, this`chains, this`expansions, D`hhNext, D`hhPrev
      ensures BucketsOk(D) && ExpansionOk() && fresh(buckets)
      ensures numBuckets == 2 * old(numBuckets)
      ensures JustExpanded() && expansions == old(expansions) + [nonidealItems > numItems / 2]
    {
      hide Filed, AllLinked, CachedHashes, Measured, ChainLinked;
      IdealIsCeiling(numItems, log2NumBuckets);
      idealChainMaxlen := Shr(numItems, log2NumBuckets + 1) + (if And(numItems, numBuckets * 2 - 1) != 0 then 1 else 0);
      DoubleBuckets(D);
      RecordExpansion();
    }

    /** Puts `e` at the end of the application order. */
    method AppendItem(e: Node)
      requires OrderOk() && e !in items
      modifies this`head, this`tail, this`numItems, this`items, Members(items)`next, e`next, e`prev
      ensures OrderOk() && items == old(items) + [e]
    {
      e.next := null;
      if head == null {
        head, numItems := e, 0;
        e.prev := null;
        tail := e;
      } else {
        tail.next := e;
        e.prev := tail;
        tail := e;
      }
      numItems := numItems + 1;
      items := items + [e];
    }

    /** Files `e` in its bucket, and expands when the chain has become too long. */
    method AddToBucket(e: Node, ghost D: set<Node>)
      requires BucketsOk(D) && ExpansionOk() && e !in D && e.hashv == hash(e.key) && numItems > 0
      modifies this`buckets, this`numBuckets, this`log2NumBuckets, this`idealChainMaxlen, this`nonidealItems,
               this`ineffExpands, this`noexpand, this`chains, this`expansions, buckets, e`hhNext, e`hhPrev, D`hhNext,
                   D`hhPrev
      ensures BucketsOk(D + {e}) && ExpansionOk()
      ensures buckets == old(buckets) || fresh(buckets)
      ensures if old(Full(And(e.hashv, numBuckets - 1)))
              then JustExpanded() && |expansions| == |old(expansions)| + 1 && old(expansions) <= expansions
                   && numBuckets == 2 * old(numBuckets)
              else expansions == old(expansions) && numBuckets == old(numBuckets) && noexpand == old(noexpand)
    {
      hide CachedHashes, ChainLinked, AllLinked, JustExpanded, ExpansionOk;
      var bkt := And(e.hashv, numBuckets - 1);
      SplitAtBit(e.hashv, log2NumBuckets);
      FileIn(e, bkt, D);
      if buckets[bkt].count >= (buckets[bkt].expandMult + 1) * BKT_CAPACITY_THRESH && noexpand != 1 {
        ExpandBuckets(D + {e});
      }
    }

    method FileIn(e: Node, bkt: nat, ghost D: set<Node>)
      requires BucketsOk(D) && e !in D && e.hashv == hash(e.key)
      requires bkt < numBuckets && bkt == Slot(hash, e, numBuckets - 1)
      modifies this`chains, buckets, e`hhNext, e`hhPrev, D`hhPrev
      ensures BucketsOk(D + {e}) && buckets.Length == numBuckets
      ensures buckets[bkt].expandMult == old(buckets[bkt].expandMult) && buckets[bkt].count == |old(chains)[bkt]| + 1
    {
      hide Filed, AllLinked, ChainLinked;
      Place(buckets, e, bkt, buckets[bkt].expandMult, chains, hash, D);
      chains := AddedTo(chains, bkt, e);
    }

    /** Adds an element whose key is not in the table yet. */
    method Add(e: Node)
      requires Valid() && e !in items && Lookup(items, e.key) == null
      modifies this, buckets, bloomBv, Members(items), e
      ensures Valid() && items == old(items) + [e]
      ensures if old(items) == [] then expansions == [] && numBuckets == 32
              else if old(Full(And(hash(e.key), numBuckets - 1)))
              then JustExpanded() && |expansions| == |old(expansions)| + 1 && old(expansions) <= expansions
                   && numBuckets == 2 * old(numBuckets)
              else expansions == old(expansions) && numBuckets == old(numBuckets) && noexpand == old(noexpand)
      ensures buckets == old(buckets) || fresh(buckets)
      ensures bloomBv == old(bloomBv) || fresh(bloomBv)
    {
      hide TableOk, OrderOk, Full, JustExpanded, UniqueKeys, Lookup;
      ghost var D := Members(items);
      AddedUnique(items, e);
      assert items == [] ==> D == {};
      FirstTable();
      AppendItem(e);
      e.hashv := hash(e.key);
      StoreItem(e, D);
    }

    method StoreItem(e: Node, ghost D: set<Node>)
      requires TableOk(D) && e !in D && e.hashv == hash(e.key) && numItems > 0
      modifies this`buckets, this`numBuckets, this`log2NumBuckets, this`idealChainMaxlen, this`nonidealItems,
               this`ineffExpands, this`noexpand, this`chains, this`expansions, buckets, bloomBv,
               e`hhNext, e`hhPrev, D`hhNext, D`hhPrev
      ensures TableOk(D + {e})
      ensures buckets == old(buckets) || fresh(buckets)
      ensures if old(Full(And(e.hashv, numBuckets - 1)))
              then JustExpanded() && |expansions| == |old(expansions)| + 1 && old(expansions) <= expansions
                   && numBuckets == 2 * old(numBuckets)
              else expansions == old(expansions) && numBuckets == old(numBuckets) && noexpand == old(noexpand)
    {
      hide Stores, ExpansionOk, Full;
      AddToBucket(e, D);
      AddToBloom(e, D);
    }

    /** Makes the table if this is the first element. */
    method FirstTable()
      requires OrderOk() && (items != [] ==> TableOk(Members(items)))
      modifies this`buckets, this`numBuckets, this`log2NumBuckets, this`idealChainMaxlen, this`nonidealItems,
               this`ineffExpands, this`noexpand, this`bloomBv, this`chains, this`expansions
      ensures TableOk(Members(items))
      ensures if items == [] then fresh(buckets) && fresh(bloomBv)
              else unchanged(this)
      ensures items == [] ==> expansions == [] && numBuckets == 32 && forall b: nat :: !Full(b)
    {
      hide Stores;
      assert items == [] ==> Members(items) == {};
      if head == null {
        MakeTable();
        NoneFull();
      }
    }

    lemma NoneFull()
      requires TableOk({})
      ensures forall b: nat :: !Full(b)
    {
      hide AllLinked, CachedHashes;
      forall b: nat ensures !Full(b) {
        if b < |chains| {
          EmptyChain(chains, hash, {}, b);
        }
      }
    }

    method AddToBloom(e: Node, ghost D: set<Node>)
      requires BloomOk(D) && e.hashv == hash(e.key)
      modifies bloomBv
      ensures BloomOk(D + {e})
    {
      if useBloom {
        Bloom.AddCovers(bloomBv[..], bloomNbits, e.hashv, Hashes(D, hash));
        Bloom.Add(bloomBv, bloomNbits, e.hashv);
        assert Hashes(D + {e}, hash) == Hashes(D, hash) + {e.hashv};
      }
    }

    /** Walks one bucket chain; keys are equal when their lengths and their bytes are. */
    method FindInBucket(b: nat, key: Key, ghost D: set<Node>) returns (out: Node?)
      requires BucketsOk(D) && b < numBuckets
      ensures out == null ==> forall i | 0 <= i < |chains[b]| :: chains[b][i].key != key
      ensures out != null ==> out in D && out.key == key
    {
      ghost var c, t := chains[b], 0;
      assert ChainLinked(c);
      out := buckets[b].head;
      while out != null
        invariant 0 <= t <= |c| && out == (if t < |c| then c[t] else null)
        invariant forall i | 0 <= i < t :: c[i].key != key
        decreases |c| - t
      {
        if |out.key| == |key| && out.key == key {
          assert c[t] in D;
          return;
        }
        out := out.hhNext;
        t := t + 1;
      }
    }

    /** Finds the element of a key. The filter may skip the search, but never an element. */
    method Find(key: Key) returns (out: Node?)
      requires Valid()
      ensures out == Lookup(items, key)
    {
      hide Represents;
      out := null;
      if head != null {
        var hashv := hash(key);
        var bkt := And(hashv, numBuckets - 1);
        SplitAtBit(hashv, log2NumBuckets);
        var pass := true;
        if useBloom {
          pass := Bloom.Test(bloomBv, bloomNbits, hashv);
        }
        if pass {
          out := FindInBucket(bkt, key, Members(items));
        }
        Reachable(key);
        if out != null {
          LookupIs(items, out);
        }
      }
    }

    /** A stored element passes the filter and is in the chain of its key's bucket. */
    lemma Reachable(key: Key)
      requires Valid() && items != []
      ensures And(hash(key), numBuckets - 1) < |chains|
      ensures var e := Lookup(items, key); e != null ==> e in chains[And(hash(key), numBuckets - 1)] && e.key == key
      ensures useBloom && Lookup(items, key) != null ==> Bloom.IsSet(bloomBv[..], Bloom.BitOf(hash(key), bloomNbits))
    {
      hide Represents;
      SplitAtBit(hash(key), log2NumBuckets);
      LookupFinds(items, key);
      var e := Lookup(items, key);
      if e != null {
        ChainHas(chains, hash, Members(items), e, Slot(hash, e, |chains| - 1));
        assert hash(e.key) in Hashes(Members(items), hash);
      }
    }

    /** Deletes an element; with the last one the whole table goes. */
    method Delete(e: Node)
      requires Valid() && e in items
      modifies this, buckets, Members(items)`next, Members(items)`prev, Members(items)`hhNext, Members(items)`hhPrev
      ensures Valid() && items == RemoveAt(old(items), IndexOf(old(items), e))
      ensures items != [] ==> unchanged(this`expansions) && unchanged(this`noexpand) && unchanged(this`numBuckets)
      ensures unchanged(this`buckets) && unchanged(this`bloomBv)
    {
      hide TableOk, OrderOk;
      ghost var k, D := IndexOf(items, e), Members(items);
      RemoveKeepsUnique(items, k);
      SingleItem(k);
      if e.prev == null && e.next == null {
        head := null;
        items := [];
        EmptyIsOk();
      } else {
        UnlinkItem(e, k);
        DropItem(e, D);
      }
    }

    lemma SingleItem(k: nat)
      requires OrderOk() && k < |items|
      ensures items[k].prev == null && items[k].next == null <==> |items| == 1
      ensures |items| == 1 ==> RemoveAt(items, k) == []
    {
    }

    lemma EmptyIsOk()
      requires head == null && items == []
      ensures OrderOk()
    {
    }

    /** Takes item `k` out of the application order. */
    method UnlinkItem(e: Node, ghost k: nat)
      requires OrderOk() && k < |items| && e == items[k] && |items| > 1
      modifies this`head, this`tail, this`numItems, this`items, Members(items)`next, Members(items)`prev
      ensures OrderOk() && items == RemoveAt(old(items), k)
    {
      hide NextLinked, PrevLinked, Distinct;
      Neighbours(items, k);
      RemoveDistinct(items, k);
      if e == tail {
        tail := e.prev;
      }
      if e.prev == null {
        head := e.next;
      }
      SkipNext(e.prev, e, items, k);
      SkipPrev(e.next, e, items, k);
      numItems := numItems - 1;
      items := RemoveAt(items, k);
      assert items[0] == old(items)[if k == 0 then 1 else 0];
      assert |items| == |old(items)| - 1;
      assert Last(items) == old(items)[if k == |items| then k - 1 else |items|];
    }

    method DropFromBucket(e: Node, ghost D: set<Node>)
      requires BucketsOk(D) && e in D
      modifies this`chains, buckets, D`hhNext, D`hhPrev
      ensures BucketsOk(D - {e})
    {
      hide Filed, AllLinked, ChainLinked;
      var bkt := And(e.hashv, numBuckets - 1);
      ChainHas(chains, hash, D, e, bkt);
      Unplace(buckets, e, bkt, chains, hash, D);
      chains := TakenFrom(chains, bkt, e);
    }

    /** Takes `e` out of its bucket; the filter keeps its bit. */
    method DropItem(e: Node, ghost D: set<Node>)
      requires TableOk(D) && e in D
      modifies this`chains, buckets, D`hhNext, D`hhPrev
      ensures TableOk(D - {e})
    {
      hide Stores;
      DropFromBucket(e, D);
    }

    /** Sorts the application order in place; the bucket chains keep every node and its place. */
    method Sort(cmp: Comparator<Node>)
      requires Valid()
      modifies this`head, this`tail, this`items, Members(items)`next, Members(items)`prev
      ensures Valid() && items == MergeSort(old(items), cmp)
    {
      hide TableOk;
      if head != null {
        SortItems(cmp);
      }
    }

    method SortItems(cmp: Comparator<Node>)
      requires OrderOk() && UniqueKeys(items) && items != []
      modifies this`head, this`tail, this`items, Members(items)`next, Members(items)`prev
      ensures OrderOk() && UniqueKeys(items) && items == MergeSort(old(items), cmp)
      ensures items != [] && Members(items) == old(Members(items))
    {
      hide MergeSort, NextLinked, PrevLinked, Distinct, UniqueKeys;
      ghost var passes, calls;
      ghost var t := MergeSort(items, cmp);
      head, tail, passes, calls := SortList(head, cmp, items, Members(items));
      SortKeepsMembers(items, t, cmp);
      items := t;
    }

    /** The iteration has still to visit `rest`; the next element after the current one is
        already known, so that the current one may be deleted. */
    ghost predicate AtElement(kept: seq<Node>, rest: seq<Node>, el: Node?, tmp: Node?)
      reads this`items
    {
      items == kept + rest && el == First(rest) && (rest != [] ==> tmp == First(rest[1..]))
    }

    /** One round of the iteration: the current element goes if it has expired. */
    method VisitElement(el0: Node, tmp0: Node?, expired: bool, ghost kept: seq<Node>, ghost rest: seq<Node>)
      returns (el: Node?, tmp: Node?)
      requires Valid() && AtElement(kept, rest, el0, tmp0)
      modifies this, buckets, Members(items)`next, Members(items)`prev, Members(items)`hhNext, Members(items)`hhPrev
      ensures Valid() && AtElement(if expired then kept else kept + [el0], rest[1..], el, tmp)
      ensures unchanged(this`buckets) && unchanged(this`bloomBv) && Members(items) <= old(Members(items))
    {
      hide OrderOk, TableOk;
      Position(kept, rest);
      if expired {
        Delete(el0);
      }
      el := tmp0;
      tmp := null;
      if tmp0 != null {
        Position(if expired then kept else kept + [el0], rest[1..]);
        tmp := tmp0.next;
      }
    }

    lemma HeadIsFirst()
      requires OrderOk()
      ensures head == First(items) && [] + items == items
    {
    }

    lemma Position(kept: seq<Node>, rest: seq<Node>)
      requires OrderOk() && items == kept + rest && rest != []
      ensures rest[0] in items && IndexOf(items, rest[0]) == |kept|
      ensures RemoveAt(items, |kept|) == kept + rest[1..] && items == (kept + [rest[0]]) + rest[1..]
      ensures rest[0].next == First(rest[1..])
    {
      hide PrevLinked;
      assert items[|kept|] == rest[0];
      assert rest[1..] != [] ==> items[|kept| + 1] == rest[1..][0];
    }

    /** Iterates in application order and deletes the current element when its time stamp has
        expired at the clock reading taken for it. */
    method RemoveExpired(clock: nat -> int, lifetime: int)
      requires Valid()
      modifies this, buckets, Members(items)`next, Members(items)`prev, Members(items)`hhNext, Members(items)`hhPrev
      ensures Valid() && items == Survivors(old(items), old(Stamps(items)), clock, lifetime)
    {
      hide OrderOk, TableOk, UniqueKeys, Survivors, Stamps, IndexOf, RemoveAt;
      NoVisits(clock, lifetime);
      var i, el, tmp := 0, head, null;
      ghost var kept, visited, rest := [], [], items;
      HeadIsFirst();
      if head != null {
        Position(kept, rest);
        tmp := head.next;
      }
      while el != null
        invariant Valid() && AtElement(kept, rest, el, tmp) && Members(items) <= old(Members(items))
        invariant visited + rest == old(items) && |visited| == i
        invariant kept == Survivors(visited, Stamps(visited), clock, lifetime)
            && Stamps(old(items)) == old(Stamps(items))
        invariant unchanged(this`buckets) && unchanged(this`bloomBv)
        decreases |rest|
      {
        var expired := el.stamp + lifetime < clock(i);
        ghost var e: Node := el;
        SurvivorsNext(visited, e, clock, lifetime);
        Requeue(visited, rest);
        el, tmp := VisitElement(el, tmp, expired, kept, rest);
        kept, visited, rest := if expired then kept else kept + [e], visited + [e], rest[1..];
        i := i + 1;
      }
      assert visited + [] == visited && kept + [] == kept;
    }
  }

  /** The time stamps of a list of elements. */
  ghost function Stamps(s: seq<Node>): (t: seq<int>)
    reads s`stamp
    ensures |t| == |s|
  {
    if s == [] then [] else Stamps(s[..|s| - 1]) + [s[|s| - 1].stamp]
  }

  /** The elements that are not expired when element `i` is visited at clock reading `i`, in order. */
  ghost function Survivors(s: seq<Node>, stamps: seq<int>, clock: nat -> int, lifetime: int): seq<Node>
    requires |s| == |stamps|
  {
    if s == [] then []
    else
      var n := |s| - 1;
      Survivors(s[..n], stamps[..n], clock, lifetime) + if stamps[n] + lifetime < clock(n) then [] else [s[n]]
  }

  lemma {:induction false} SurvivorFrom(s: seq<Node>, stamps: seq<int>, clock: nat -> int, lifetime: int, a: nat)
    returns (i: nat)
    requires |s| == |stamps| && a < |Survivors(s, stamps, clock, lifetime)|
    ensures i < |s| && s[i] == Survivors(s, stamps, clock, lifetime)[a] && stamps[i] + lifetime >= clock(i)
  {
    var n := |s| - 1;
    if a < |Survivors(s[..n], stamps[..n], clock, lifetime)| {
      i := SurvivorFrom(s[..n], stamps[..n], clock, lifetime, a);
    } else {
      i := n;
    }
  }

  lemma {:induction false} SurvivorAt(s: seq<Node>, stamps: seq<int>, clock: nat -> int, lifetime: int, i: nat)
    requires |s| == |stamps| && i < |s| && stamps[i] + lifetime >= clock(i)
    ensures s[i] in Survivors(s, stamps, clock, lifetime)
  {
    var n := |s| - 1;
    if i < n {
      SurvivorAt(s[..n], stamps[..n], clock, lifetime, i);
    }
  }

  /** Exactly the elements survive whose stamp is at most `lifetime` before the reading for them. */
  lemma WhoSurvives(s: seq<Node>, stamps: seq<int>, clock: nat -> int, lifetime: int)
    requires |s| == |stamps| && Distinct(s)
    ensures forall k | 0 <= k < |s| ::
              s[k] in Survivors(s, stamps, clock, lifetime) <==> stamps[k] + lifetime >= clock(k)
  {
    var r := Survivors(s, stamps, clock, lifetime);
    forall k | 0 <= k < |s| ensures s[k] in r <==> stamps[k] + lifetime >= clock(k) {
      if stamps[k] + lifetime >= clock(k) {
        SurvivorAt(s, stamps, clock, lifetime, k);
      } else if s[k] in r {
        var a :| 0 <= a < |r| && r[a] == s[k];
        var i := SurvivorFrom(s, stamps, clock, lifetime, a);
      }
    }
  }

  /** Survivors keep their order. */
  lemma {:induction false} SurvivorsInOrder(s: seq<Node>, stamps: seq<int>, clock: nat -> int, lifetime: int,
                                            a: nat, b: nat) returns (i: nat, j: nat)
    requires |s| == |stamps| && a < b < |Survivors(s, stamps, clock, lifetime)|
    ensures i < j < |s|
    ensures s[i] == Survivors(s, stamps, clock, lifetime)[a] && s[j] == Survivors(s, stamps, clock, lifetime)[b]
  {
    var n := |s| - 1;
    if b < |Survivors(s[..n], stamps[..n], clock, lifetime)| {
      i, j := SurvivorsInOrder(s[..n], stamps[..n], clock, lifetime, a, b);
    } else {
      i := SurvivorFrom(s[..n], stamps[..n], clock, lifetime, a);
      j := n;
    }
  }

  lemma NoVisits(clock: nat -> int, lifetime: int)
    ensures Survivors([], Stamps([]), clock, lifetime) == []
  {
  }

  lemma Requeue(visited: seq<Node>, rest: seq<Node>)
    requires rest != []
    ensures (visited + [rest[0]]) + rest[1..] == visited + rest
  {
  }

  lemma SurvivorsNext(s: seq<Node>, e: Node, clock: nat -> int, lifetime: int)
    ensures Survivors(s + [e], Stamps(s + [e]), clock, lifetime)
         == Survivors(s, Stamps(s), clock, lifetime) + if e.stamp + lifetime < clock(|s|) then [] else [e]
  {
    assert (s + [e])[..|s|] == s;
    assert Stamps(s + [e])[..|s|] == Stamps(s);
  }

  lemma SortKeepsMembers(s: seq<Node>, t: seq<Node>, cmp: Comparator<Node>)
    requires UniqueKeys(s) && t == MergeSort(s, cmp) && Distinct(t)
    ensures Members(t) == Members(s) && UniqueKeys(t) && |t| == |s|
  {
    hide BottomUp;
    BottomUpMembers(s, 1, cmp);
    hide MergeSort;
    SameMembers(s, t);
    SameMembers(t, s);
    forall i, j | 0 <= i < j < |t| ensures t[i].key != t[j].key {
      assert t[i] in s && t[j] in s;
    }
  }

  // ----- the element counts of the integrity check

  ghost function TotalLength(chains: seq<seq<Node>>): nat {
    if chains == [] then 0 else TotalLength(chains[..|chains| - 1]) + |chains[|chains| - 1]|
  }

  lemma {:induction false} DistinctCount(s: seq<Node>)
    requires Distinct(s)
    ensures |Members(s)| == |s|
  {
    if s != [] {
      var n := |s| - 1;
      assert s == s[..n] + [s[n]];
      assert Members(s) == Members(s[..n]) + {s[n]};
      DistinctCount(s[..n]);
    } else {
      assert Members(s) == {};
    }
  }

  lemma {:induction false} CountBelow(chains: seq<seq<Node>>, hash: Hash, D: set<Node>, b: nat)
    requires Filed(chains, hash, D) && b <= |chains|
    ensures TotalLength(chains[..b]) == |Below(D, hash, |chains|, b)|
  {
    if b == 0 {
      assert Below(D, hash, |chains|, 0) == {};
    } else {
      CountBelow(chains, hash, D, b - 1);
      assert chains[..b][..b - 1] == chains[..b - 1];
      DistinctCount(chains[b - 1]);
      BelowNext(chains, hash, D, b - 1);
      assert Below(D, hash, |chains|, b - 1) !! Members(chains[b - 1]);
    }
  }

  /** The two counts of the integrity check: the bucket counts add up to the item count. */
  lemma CountsAgree(chains: seq<seq<Node>>, hash: Hash, items: seq<Node>)
    requires Filed(chains, hash, Members(items)) && Distinct(items)
    ensures TotalLength(chains) == |items|
  {
    CountBelow(chains, hash, Members(items), |chains|);
    assert chains[..|chains|] == chains;
    BelowAll(chains, hash, Members(items));
    DistinctCount(items);
  }

  /** After a doubling, each node of bucket `i` is in bucket `i` or `i + n`. */
  lemma DoublingSplits(before: seq<seq<Node>>, after: seq<seq<Node>>, hash: Hash, D: set<Node>, k: nat, e: Node)
    requires Filed(before, hash, D) && Filed(after, hash, D) && |before| == Pow2(k) && |after| == 2 * Pow2(k) && e in D
    ensures exists i | 0 <= i < |before| ::
              e in before[i] && (if e in after[i] then e !in after[i + |before|] else e in after[i + |before|])
  {
    WiderMask(hash(e.key), k);
    ChainHas(before, hash, D, e, Slot(hash, e, |before| - 1));
    ChainHas(after, hash, D, e, Slot(hash, e, |after| - 1));
    var i, j := Slot(hash, e, |before| - 1), Slot(hash, e, |after| - 1);
    assert j == i || j == i + |before|;
    if j == i {
      assert e !in after[i + |before|];
    }
  }

  /** Two ineffective expansions in a row stop all further ones: the count never exceeds two,
      and it is two exactly when the last two expansions were ineffective. */
  lemma TrailingIsTwo(log: seq<bool>)
    requires Trailing(log) <= 2
    ensures Trailing(log) == 2 <==> |log| >= 2 && log[|log| - 1] && log[|log| - 2]
  {
  }
}

/** Runs of table operations by a caller that keeps keys unique, and the map they refine. */
module TableRuns {
  import opened Nodes
  import opened StableSort
  import opened HashTable

  datatype Op = AddOp(e: Node) | DeleteOp(key: Key) | FindOp(key: Key) | SortOp(cmp: Comparator<Node>)

  /** What a caller that keeps keys unique does to the application order: it adds only after an
      unsuccessful find, and deletes what it has found. */
  ghost function Effect(s: seq<Node>, op: Op): seq<Node> {
    match op
    case AddOp(e) => if Lookup(s, e.key) == null then s + [e] else s
    case DeleteOp(key) => Without(s, Lookup(s, key))
    case FindOp(_) => s
    case SortOp(cmp) => MergeSort(s, cmp)
  }

  ghost function Without(s: seq<Node>, e: Node?): seq<Node> {
    if e == null || e !in s then s else RemoveAt(s, IndexOf<Node>(s, e))
  }

  ghost function Effects(s: seq<Node>, ops: seq<Op>): seq<Node> {
    if ops == [] then s else Effect(Effects(s, ops[..|ops| - 1]), ops[|ops| - 1])
  }

  ghost function Touched(op: Op): set<Node> {
    if op.AddOp? then {op.e} else {}
  }

  ghost function AllTouched(ops: seq<Op>): set<Node> {
    if ops == [] then {} else AllTouched(ops[..|ops| - 1]) + Touched(ops[|ops| - 1])
  }

  /** What an operation keeps of the expansions, if the table is not emptied: none is undone,
      and a frozen table stays frozen and keeps its number of buckets. */
  twostate predicate KeepsExpansions(t: Table)
    reads t
  {
    && old(t.expansions) <= t.expansions
    && (old(t.noexpand) == 1 ==>
          t.noexpand == 1 && t.expansions == old(t.expansions) && t.numBuckets == old(t.numBuckets))
  }

  method AddIfAbsent(t: Table, e: Node) returns (found: Node?)
    requires t.Valid()
    modifies t, t.buckets, t.bloomBv, Members(t.items), e
    ensures t.Valid() && t.items == Effect(old(t.items), AddOp(e)) && found == Lookup(old(t.items), e.key)
    ensures t.buckets == old(t.buckets) || fresh(t.buckets)
    ensures t.bloomBv == old(t.bloomBv) || fresh(t.bloomBv)
    ensures Members(t.items) <= old(Members(t.items)) + {e}
    ensures old(t.items) != [] ==> KeepsExpansions(t)
  {
    hide t.OrderOk, t.TableOk, UniqueKeys;
    found := t.Find(e.key);
    if found == null {
      LookupFinds(t.items, e.key);
      t.Add(e);
    }
  }

  method DeleteKey(t: Table, key: Key) returns (found: Node?)
    requires t.Valid()
    modifies t, t.buckets, Members(t.items)
    ensures t.Valid() && t.items == Effect(old(t.items), DeleteOp(key)) && found == Lookup(old(t.items), key)
    ensures t.buckets == old(t.buckets) && t.bloomBv == old(t.bloomBv)
    ensures Members(t.items) <= old(Members(t.items))
    ensures t.items != [] ==> KeepsExpansions(t)
  {
    hide t.OrderOk, t.TableOk, UniqueKeys;
    found := t.Find(key);
    LookupFinds(t.items, key);
    if found != null {
      t.Delete(found);
    }
  }

  /** Performs one operation the way a caller that keeps keys unique does. */
  method Perform(t: Table, op: Op) returns (found: Node?)
    requires t.Valid()
    modifies t, t.buckets, t.bloomBv, Members(t.items), Touched(op)
    ensures t.Valid() && t.items == Effect(old(t.items), op)
    ensures op.FindOp? ==> found == Lookup(t.items, op.key)
    ensures t.buckets == old(t.buckets) || fresh(t.buckets)
    ensures t.bloomBv == old(t.bloomBv) || fresh(t.bloomBv)
    ensures Members(t.items) <= old(Members(t.items)) + Touched(op)
    ensures old(t.items) != [] && t.items != [] ==> KeepsExpansions(t)
  {
    hide t.OrderOk, t.TableOk, UniqueKeys, MergeSort, Lookup;
    found := null;
    match op
    case AddOp(e) =>
      found := AddIfAbsent(t, e);
    case DeleteOp(key) =>
      found := DeleteKey(t, key);
    case FindOp(key) =>
      found := t.Find(key);
    case SortOp(cmp) =>
      SortMembers(t.items, cmp);
      t.Sort(cmp);
  }

  lemma SortMembers(s: seq<Node>, cmp: Comparator<Node>)
    ensures Members(MergeSort(s, cmp)) <= Members(s)
  {
    BottomUpMembers(s, 1, cmp);
    SameMembers(s, MergeSort(s, cmp));
  }

  /** Every run of operations keeps the table valid and has the specified effect on it. */
  method Run(t: Table, ops: seq<Op>)
    requires t.Valid()
    modifies t, t.buckets, t.bloomBv, Members(t.items), AllTouched(ops)
    ensures t.Valid() && t.items == Effects(old(t.items), ops)
    ensures t.buckets == old(t.buckets) || fresh(t.buckets)
    ensures t.bloomBv == old(t.bloomBv) || fresh(t.bloomBv)
    ensures Members(t.items) <= old(Members(t.items)) + AllTouched(ops)
    ensures StaysFilled(old(t.items), ops) ==> KeepsExpansions(t)
  {
    hide t.Valid, Effect, Touched;
    if ops != [] {
      var n := |ops| - 1;
      FilledPrefix(t.items, ops);
      Run(t, ops[..n]);
      var found := Perform(t, ops[n]);
    }
  }

  /** No prefix of the run empties the table. */
  ghost predicate StaysFilled(s: seq<Node>, ops: seq<Op>) {
    forall k | 0 <= k <= |ops| :: Effects(s, ops[..k]) != []
  }

  lemma FilledPrefix(s: seq<Node>, ops: seq<Op>)
    requires ops != []
    ensures StaysFilled(s, ops) ==>
              StaysFilled(s, ops[..|ops| - 1]) && Effects(s, ops[..|ops| - 1]) != [] && Effects(s, ops) != []
  {
    var n := |ops| - 1;
    assert ops[..|ops|] == ops;
    forall k | 0 <= k <= n ensures ops[..n][..k] == ops[..k] {
    }
  }

  // ----- refinement of an abstract map

  ghost function MapEffect(m: map<Key, Node>, op: Op): map<Key, Node> {
    match op
    case AddOp(e) => if e.key in m then m else m[e.key := e]
    case DeleteOp(key) => m - {key}
    case FindOp(_) => m
    case SortOp(_) => m
  }

  ghost function MapEffects(m: map<Key, Node>, ops: seq<Op>): map<Key, Node> {
    if ops == [] then m else MapEffect(MapEffects(m, ops[..|ops| - 1]), ops[|ops| - 1])
  }

  /** The list and the map answer every lookup alike. */
  ghost predicate Agree(s: seq<Node>, m: map<Key, Node>) {
    forall key :: Lookup(s, key) == if key in m then m[key] else null
  }

  lemma {:induction false} OccursOnce(s: seq<Node>, e: Node)
    requires UniqueKeys(s)
    ensures multiset(s)[e] <= 1
  {
    if s != [] {
      assert s == [s[0]] + s[1..];
      OccursOnce(s[1..], e);
      if s[0] == e {
        assert e !in s[1..];
      }
    }
  }

  lemma RearrangedUnique(s: seq<Node>, t: seq<Node>)
    requires UniqueKeys(s) && multiset(t) == multiset(s)
    ensures UniqueKeys(t)
  {
    SameMembers(s, t);
    forall i, j | 0 <= i < j < |t| ensures t[i].key != t[j].key {
      assert t[i] in s && t[j] in s;
      if t[i] == t[j] {
        OccursOnce(s, t[i]);
        Twice(t, i, j);
      }
    }
  }

  lemma Twice(t: seq<Node>, i: nat, j: nat)
    requires i < j < |t| && t[i] == t[j]
    ensures multiset(t)[t[i]] >= 2
  {
    assert t == t[..j] + t[j..];
    assert t[i] in t[..j] && t[j] in t[j..];
  }

  lemma EffectKeepsUnique(s: seq<Node>, op: Op)
    requires UniqueKeys(s)
    ensures UniqueKeys(Effect(s, op))
  {
    match op
    case AddOp(e) => LookupFinds(s, e.key);
    case DeleteOp(key) =>
      LookupFinds(s, key);
      if Lookup(s, key) != null {
        RemoveKeepsUnique(s, IndexOf(s, Lookup(s, key)));
      }
    case FindOp(_) =>
    case SortOp(cmp) =>
      BottomUpMembers(s, 1, cmp);
      RearrangedUnique(s, MergeSort(s, cmp));
  }

  lemma EffectAgrees(s: seq<Node>, m: map<Key, Node>, op: Op)
    requires UniqueKeys(s) && Agree(s, m)
    ensures Agree(Effect(s, op), MapEffect(m, op))
  {
    EffectKeepsUnique(s, op);
    forall key ensures Lookup(Effect(s, op), key) == if key in MapEffect(m, op) then MapEffect(m, op)[key] else null {
      assert Lookup(s, key) == if key in m then m[key] else null;
      match op
      case AddOp(e) =>
        assert Lookup(s, e.key) == if e.key in m then m[e.key] else null;
        if Lookup(s, e.key) == null {
          LookupAfterAdd(s, e, key);
        }
      case DeleteOp(k) =>
        LookupFinds(s, k);
        assert Lookup(s, k) == if k in m then m[k] else null;
        if Lookup(s, k) != null {
          LookupAfterDelete(s, Lookup(s, k), key);
        }
      case FindOp(_) =>
      case SortOp(cmp) =>
        BottomUpMembers(s, 1, cmp);
        SameMembers(s, MergeSort(s, cmp));
        SameMembers(MergeSort(s, cmp), s);
        LookupAfterRearranging(s, MergeSort(s, cmp), key);
    }
  }

  /** Over every run from the empty table, keys stay unique and lookups are those of a map. */
  lemma {:induction false} RunRefinesMap(ops: seq<Op>)
    ensures UniqueKeys(Effects([], ops)) && Agree(Effects([], ops), MapEffects(map[], ops))
  {
    if ops != [] {
      var n := |ops| - 1;
      RunRefinesMap(ops[..n]);
      EffectKeepsUnique(Effects([], ops[..n]), ops[n]);
      EffectAgrees(Effects([], ops[..n]), MapEffects(map[], ops[..n]), ops[n]);
    }
  }
}

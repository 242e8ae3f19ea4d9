/** The linkable element: list links for the application order and for the
    doubly linked lists, and hash links for the bucket chains. */
module Nodes {

  /** A key is compared as raw memory: by length, then byte by byte. */
  type Key = seq<bv8>

  class Node {
    const key: Key
    var stamp: int        // the element's other data, a time stamp for clients
    var prev: Node?
    var next: Node?
    var hashv: nat
    var hhPrev: Node?
    var hhNext: Node?

    constructor (key: Key, stamp: int)
      ensures this.key == key && this.stamp == stamp
    {
      this.key := key;
      this.stamp := stamp;
      this.prev, this.next, this.hhPrev, this.hhNext := null, null, null, null;
      this.hashv := 0;
    }
  }

  ghost predicate Distinct<T>(s: seq<T>) {
    forall i, j | 0 <= i < j < |s| :: s[i] != s[j]
  }

  ghost function First(s: seq<Node>): Node? {
    if s == [] then null else s[0]
  }

  ghost function Last(s: seq<Node>): Node? {
    if s == [] then null else s[|s| - 1]
  }

  /** The `next` links inside `s` are in place; the link out of its last node is not looked at. */
  ghost predicate RunLinked(s: seq<Node>)
    reads s`next
  {
    forall i {:trigger s[i].next} | 0 <= i < |s| - 1 :: s[i].next == s[i + 1]
  }

  /** `s[0]` starts a null-terminated `next` chain that is exactly `s`. */
  ghost predicate NextLinked(s: seq<Node>)
    reads s`next
  {
    RunLinked(s) && (s != [] ==> s[|s| - 1].next == null)
  }

  /** Every node points back to its predecessor in `s`, the first to nothing. */
  ghost predicate PrevLinked(s: seq<Node>)
    reads s`prev
  {
    && (s != [] ==> s[0].prev == null)
    && forall i {:trigger s[i].prev} | 0 < i < |s| :: s[i].prev == s[i - 1]
  }

  ghost function IndexOf<T>(s: seq<T>, x: T): (k: nat)
    requires x in s
    ensures k < |s| && s[k] == x
  {
    if s[0] == x then 0 else 1 + IndexOf(s[1..], x)
  }

  function RemoveAt<T>(s: seq<T>, k: nat): seq<T>
    requires k < |s|
  {
    s[..k] + s[k + 1..]
  }

  ghost function Members(s: seq<Node>): (N: set<Node>)
    ensures forall i | 0 <= i < |s| :: s[i] in N
    ensures forall n | n in N :: n in s
  {
    set n | n in s
  }

  lemma RemoveDistinct(s: seq<Node>, k: nat)
    requires k < |s| && Distinct(s)
    ensures Distinct(RemoveAt(s, k))
  {
  }

  lemma Neighbours(s: seq<Node>, k: nat)
    requires k < |s| && NextLinked(s) && PrevLinked(s)
    ensures s[k].prev == if k == 0 then null else s[k - 1]
    ensures s[k].next == if k + 1 == |s| then null else s[k + 1]
  {
  }

  /** Leads the `next` chain past node `k`, given the node before it. */
  method SkipNext(prev: Node?, e: Node, ghost s: seq<Node>, ghost k: nat)
    requires k < |s| && e == s[k] && prev == (if k == 0 then null else s[k - 1]) && Distinct(s) && NextLinked(s)
    modifies {prev}`next
    ensures NextLinked(RemoveAt(s, k)) && e.next == old(e.next)
  {
    if prev != null {
      prev.next := e.next;
    }
  }

  /** Leads the `prev` links past node `k`, given the node after it. */
  method SkipPrev(next: Node?, e: Node, ghost s: seq<Node>, ghost k: nat)
    requires k < |s| && e == s[k] && next == (if k + 1 == |s| then null else s[k + 1]) && Distinct(s) && PrevLinked(s)
    modifies {next}`prev
    ensures PrevLinked(RemoveAt(s, k))
  {
    if next != null {
      next.prev := e.prev;
    }
  }
}

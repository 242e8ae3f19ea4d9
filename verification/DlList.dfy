/** The doubly linked list of the list macros: the last node ends in null, and the
    first node's `prev` is the last node, so that appending needs no traversal. */
module DlList {
  import opened Nodes
  import opened StableSort
  import opened ListSort

  /** Back links of the list: circular at the head. */
  ghost predicate BackLinked(s: seq<Node>)
    reads s`prev
  {
    && (s != [] ==> s[0].prev == s[|s| - 1])
    && forall i {:trigger s[i].prev} | 0 < i < |s| :: s[i].prev == s[i - 1]
  }

  /** Points the first node back at the last one. */
  method CloseBack(head: Node, tail: Node?, ghost s: seq<Node>)
    requires Distinct(s) && PrevLinked(s) && head == First(s) && tail == Last(s)
    modifies head`prev
    ensures BackLinked(s)
  {
    head.prev := tail;
  }

  /** Takes a node other than the first out of the links. */
  method DeleteLater(head: Node, del: Node, ghost s: seq<Node>, ghost k: nat)
    requires 0 < k < |s| && del == s[k] && head == s[0] && Distinct(s) && NextLinked(s) && BackLinked(s)
    modifies Members(s)`next, Members(s)`prev
    ensures NextLinked(RemoveAt(s, k)) && BackLinked(RemoveAt(s, k))
  {
    SkipNext(del.prev, del, s, k);
    if del.next != null {
      del.next.prev := del.prev;
    } else {
      head.prev := del.prev;
    }
  }

  class List {
    var head: Node?
    ghost var items: seq<Node>

    ghost predicate Valid()
      reads this, items`next, items`prev
    {
      && head == First(items)
      && Distinct(items)
      && NextLinked(items)
      && BackLinked(items)
    }

    constructor ()
      ensures Valid() && items == []
    {
      head := null;
      items := [];
    }

    method Append(add: Node)
      requires Valid() && add !in items
      modifies this, add`next, add`prev, items`next, items`prev
      ensures Valid() && items == old(items) + [add]
    {
      if head != null {
        add.prev := head.prev;
        head.prev.next := add;
        head.prev := add;
        add.next := null;
      } else {
        head := add;
        head.prev := head;
        head.next := null;
      }
      items := items + [add];
    }

    method Delete(del: Node)
      requires Valid() && del in items
      modifies this, items`next, items`prev
      ensures Valid() && items == RemoveAt(old(items), IndexOf(old(items), del))
    {
      ghost var k := IndexOf(items, del);
      RemoveDistinct(items, k);
      if del.prev == del {
        head := null;
      } else if del == head {
        del.next.prev := del.prev;
        head := del.next;
      } else {
        DeleteLater(head, del, items, k);
      }
      items := RemoveAt(items, k);
    }

    /** Relinks the very same nodes in sorted order. */
    method Sort(cmp: Comparator<Node>)
      requires Valid()
      modifies this, items`next, items`prev
      ensures Valid() && items == MergeSort(old(items), cmp)
    {
      if head != null {
        ghost var N := Members(items);
        var tail; ghost var passes, calls;
        head, tail, passes, calls := SortList(head, cmp, items, N);
        items := MergeSort(items, cmp);
        CloseBack(head, tail, items);
      }
    }
  }
}

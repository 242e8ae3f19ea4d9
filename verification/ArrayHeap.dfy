/** The array heap on a growable array, sifted in place. */
module ArrayHeap {
  import opened HeapModel
  import opened Orders
  import opened Vectors

  method SwapElements<T(0)>(v: Vector<T>, i: nat, j: nat)
    requires v.Valid() && i < v.len && j < v.len
    modifies v.d
    ensures v.Valid() && v.Contents() == Swap(old(v.Contents()), i, j)
  {
    var tmp := v.d[i];
    v.d[i] := v.d[j];
    v.d[j] := tmp;
  }

  /** Sifts the element at `index` down. */
  method Heapify<T(0)>(v: Vector<T>, g: Greater<T>, index: nat)
    requires v.Valid()
    modifies v.d
    ensures v.Valid() && v.Contents() == SiftDown(old(v.Contents()), index, g)
    decreases v.len - index
  {
    hide Swap;
    if index >= v.len {
      return;
    }
    var largest, left, right := index, 2 * index + 1, 2 * index + 2;
    if left < v.len && g(v.d[left], v.d[largest]) {
      largest := left;
    }
    if right < v.len && g(v.d[right], v.d[largest]) {
      largest := right;
    }
    if largest != index {
      SwapElements(v, largest, index);
      Heapify(v, g, largest);
    }
  }

  method HeapBuild<T(0)>(v: Vector<T>, g: Greater<T>)
    requires v.Valid()
    modifies v.d
    ensures v.Valid() && v.Contents() == Build(old(v.Contents()), g)
  {
    hide SiftDown;
    if v.len == 0 {
      return;
    }
    var i := TruncatedHalf(v.len - 2);
    while i >= 0
      invariant -1 <= i
      invariant v.Valid() && BuildBelow(v.Contents(), i + 1, g) == Build(old(v.Contents()), g)
    {
      Heapify(v, g, i);
      i := i - 1;
    }
  }

  method HeapPush<T(0)>(v: Vector<T>, g: Greater<T>, x: T)
    requires v.Valid()
    modifies v, v.d
    ensures v.Valid() && v.Contents() == Push(old(v.Contents()), x, g)
    ensures v.d == old(v.d) || fresh(v.d)
  {
    v.PushBack(x);
    ghost var all := v.Contents();
    var i := v.len - 1;
    while i > 0
      invariant 0 <= i < v.len && v.Valid() && (v.d == old(v.d) || fresh(v.d))
      invariant SiftUp(v.Contents(), i, g) == SiftUp(all, |all| - 1, g)
    {
      var parent := (i - 1) / 2;
      if g(v.d[parent], v.d[i]) {
        break;
      }
      SwapElements(v, parent, i);
      i := parent;
    }
  }

  method HeapPop<T(0)>(v: Vector<T>, g: Greater<T>)
    requires v.Valid()
    modifies v, v.d
    ensures v.Valid() && v.Contents() == Pop(old(v.Contents()), g) && v.d == old(v.d)
  {
    if v.len == 0 {
      return;
    }
    v.d[0] := v.d[v.len - 1];
    v.PopBack();
    if v.len != 0 {
      Heapify(v, g, 0);
    }
  }

  /** The element that goes first; the caller knows that there is one. */
  method HeapFirst<T(0)>(v: Vector<T>) returns (x: T)
    requires v.Valid() && v.len > 0
    ensures x == v.Contents()[0]
  {
    x := v.d[0];
  }

  /** On a heap, what `HeapFirst` returns is no later than any element. */
  method HeapLeast<T(0)>(v: Vector<T>, g: Greater<T>, ghost le: Order<T>, ghost S: set<T>) returns (x: T)
    requires v.Valid() && v.len > 0
    requires Realizes(g, le, S) && Within(v.Contents(), S) && Heap(v.Contents(), le)
    ensures x in v.Contents() && forall i | 0 <= i < v.len :: le(x, v.Contents()[i])
  {
    x := HeapFirst(v);
    forall i | 0 <= i < v.len ensures le(x, v.Contents()[i]) {
      RootIsLeast(v.Contents(), i, le, S);
    }
  }
}

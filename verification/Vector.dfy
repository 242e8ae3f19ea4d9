/** The growable array: `len` elements in use out of `cap` slots. */
module Vectors {
  import opened BitMask

  /** The capacity that has room for `need` elements. */
  function Grown(cap: nat, need: nat): nat
    decreases need - cap
  {
    if need <= cap then cap else Grown(if cap != 0 then 2 * cap else 8, need)
  }

  /** It is the old one, or 8 if there was none, doubled just as often as necessary. */
  lemma {:induction false} GrownIsDoubled(cap: nat, need: nat) returns (k: nat)
    requires cap < need
    ensures need <= Grown(cap, need) == Shl(if cap == 0 then 8 else cap, k)
    ensures Grown(cap, need) == 8 || Grown(cap, need) < 2 * need
    decreases need - cap
  {
    var twice := if cap != 0 then 2 * cap else 8;
    k := 0;
    if twice < need {
      k := GrownIsDoubled(twice, need);
    }
    if cap != 0 {
      ShlTwice(cap, k);
      k := k + 1;
    }
  }

  lemma {:induction false} ShlTwice(a: nat, k: nat)
    ensures Shl(2 * a, k) == Shl(a, k + 1)
  {
    if k > 0 {
      ShlTwice(a, k - 1);
    }
  }


  class Vector<T(0)> {
    var len: nat
    var cap: nat
    var d: array<T>

    ghost predicate Valid()
      reads this
    {
      len <= cap == d.Length
    }

    ghost function Contents(): (s: seq<T>)
      requires Valid()
      reads this, d
      ensures |s| == len
    {
      d[..len]
    }

    constructor ()
      ensures Valid() && Contents() == [] && fresh(d)
    {
      len, cap := 0, 0;
      d := new T[0];
    }

    /** Makes room for `more` further elements: doubles the capacity, from 8 on, until it suffices. */
    method Reserve(more: nat)
      requires Valid()
      modifies this`cap, this`d
      ensures Valid() && Contents() == old(Contents()) && len + more <= cap
      ensures d == old(d) || fresh(d)
      ensures old(len + more <= cap) ==> unchanged(this)
      ensures cap == Grown(old(cap), len + more)
    {
      if len + more > cap {
        while len + more > cap
          invariant d == old(d) && cap >= old(cap) && Grown(cap, len + more) == Grown(old(cap), len + more)
          decreases len + more - cap
        {
          cap := if cap != 0 then 2 * cap else 8;
        }
        var e := new T[cap];
        forall k | 0 <= k < len {
          e[k] := d[k];
        }
        d := e;
      }
    }

    method PushBack(x: T)
      requires Valid()
      modifies this, d
      ensures Valid() && Contents() == old(Contents()) + [x]
      ensures d == old(d) || fresh(d)
    {
      Reserve(1);
      d[len] := x;
      len := len + 1;
    }

    method PopBack()
      requires Valid() && len > 0
      modifies this`len
      ensures Valid() && Contents() == old(Contents())[..old(len) - 1]
    {
      len := len - 1;
    }

    /** Inserts `x` before position `j`; does nothing beyond the end. */
    method Insert(x: T, j: nat)
      requires Valid()
      modifies this, d
      ensures Valid() && (d == old(d) || fresh(d))
      ensures Contents() == if j > old(len) then old(Contents()) else old(Contents())[..j] + [x] + old(Contents())[j..]
    {
      Reserve(1);
      if j > len {
        return;
      }
      forall k | j <= k < len {
        d[k + 1] := d[k];
      }
      d[j] := x;
      len := len + 1;
    }

    /** Inserts all of a vector before position `j`; does nothing beyond the end. A vector can be
        appended to itself; inserted into itself it would be copied over its own source. */
    method InsertAll(w: Vector<T>, j: nat)
      requires Valid() && w.Valid()
      requires if w == this then len == 0 || j >= len else w.d != d
      modifies this, d
      ensures Valid() && (d == old(d) || fresh(d))
      ensures w != this ==> w.Contents() == old(w.Contents())
      ensures Contents() == if j > old(len) then old(Contents())
                            else old(Contents())[..j] + old(w.Contents()) + old(Contents())[j..]
    {
      ghost var before, added := Contents(), w.Contents();
      if w.len == 0 || j > len {
        assert j <= len ==> before == before[..j] + added + before[j..];
        return;
      }
      Reserve(w.len);
      var n := w.len;
      forall k | j + n <= k < len + n {
        d[k] := d[k - n];
      }
      forall k | j <= k < j + n {
        d[k] := w.d[k - j];
      }
      assert forall k | 0 <= k < j :: d[k] == before[k];
      assert forall k | j <= k < j + n :: d[k] == added[k - j];
      assert forall k | j + n <= k < len + n :: d[k] == before[k - n];
      assert d[..len + n] == before[..j] + added + before[j..];
      len := len + n;
    }

    /** Removes `n` elements from position `pos` on. */
    method Erase(pos: nat, n: nat)
      requires Valid() && pos + n <= len
      modifies this`len, d
      ensures Valid() && Contents() == old(Contents())[..pos] + old(Contents())[pos + n..]
    {
      if len > pos + n {
        forall k | pos <= k < len - n {
          d[k] := d[k + n];
        }
      }
      len := len - n;
    }

    /** Cuts the vector off at `num` elements, or fills it up with `zero`. */
    method Resize(num: nat, zero: T)
      requires Valid()
      modifies this, d
      ensures Valid() && (d == old(d) || fresh(d))
      ensures Contents() == if num <= old(len) then old(Contents())[..num]
                            else old(Contents()) + seq(num - old(len), _ => zero)
    {
      if len < num {
        Reserve(num - len);
        forall k | len <= k < num {
          d[k] := zero;
        }
      }
      len := num;
    }
  }
}

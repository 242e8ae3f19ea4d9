/** Total preorders. */
module Orders {

  type Order<!T> = (T, T) -> bool

  ghost predicate PreorderOn<T>(le: Order<T>, S: set<T>) {
    && (forall x, y | x in S && y in S :: le(x, y) || le(y, x))
    && (forall x, y, z | x in S && y in S && z in S && le(x, y) && le(y, z) :: le(x, z))
  }

  ghost predicate Within<T>(s: seq<T>, S: set<T>) {
    forall i | 0 <= i < |s| :: s[i] in S
  }
}

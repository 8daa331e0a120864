/** Removal from a hole-free prefix: the last element takes the place of the one that goes. */
module GapFill {
  function IndexOf<T(==)>(list: seq<T>, x: T): (j: nat)
    ensures j <= |list| && (j < |list| <==> x in list)
    ensures j < |list| ==> list[j] == x
    ensures forall i :: 0 <= i < j ==> list[i] != x
  {
    if list == [] || list[0] == x then 0 else 1 + IndexOf(list[1..], x)
  }

  function Remove<T(==)>(list: seq<T>, x: T): seq<T> {
    if x in list then list[IndexOf(list, x) := list[|list| - 1]][..|list| - 1] else list
  }

  /** Without duplicates exactly the given element goes; what is left has its elements at distinct old places. */
  lemma RemoveDrops<T>(list: seq<T>, x: T)
    requires forall i, j :: 0 <= i < j < |list| ==> list[i] != list[j]
    ensures |Remove(list, x)| == |list| - if x in list then 1 else 0
    ensures forall i, j :: 0 <= i < j < |Remove(list, x)| ==> Remove(list, x)[i] != Remove(list, x)[j]
    ensures forall y :: y in Remove(list, x) <==> y in list && y != x
  {
    var r := Remove(list, x);
    if x in list {
      var j, last := IndexOf(list, x), |list| - 1;
      assert forall i :: 0 <= i < last ==> r[i] == if i == j then list[last] else list[i];
      forall y
        ensures y in r <==> y in list && y != x
      {
        if y in list && y != x {
          var i :| 0 <= i < |list| && list[i] == y;
          assert if i == last then r[j] == y else r[i] == y;
        }
      }
    }
  }
}

/** Lists without repetition, their members, and the members of a set as a list. */
module Sequences {

  ghost predicate Distinct<T>(s: seq<T>) {
    forall i, j :: 0 <= i < j < |s| ==> s[i] != s[j]
  }

  function Members<T(==)>(s: seq<T>): set<T> {
    set x | x in s
  }

  /** Some order of a set; where the original sorts by name, any order will do. */
  method ListOf<T(==)>(items: set<T>) returns (list: seq<T>)
    ensures Distinct(list) && Members(list) == items
  {
    list := [];
    var rest := items;
    while rest != {}
      invariant Distinct(list) && Members(list) == items - rest && rest <= items
    {
      var x :| x in rest;
      assert x !in Members(list) && Members(list + [x]) == Members(list) + {x};
      list := list + [x];
      rest := rest - {x};
    }
  }
}

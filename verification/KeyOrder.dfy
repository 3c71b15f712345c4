/** The order in which SQLite lists text keys: by code point, a prefix first. */
module KeyOrder {

  predicate Before(a: string, b: string) {
    b != "" && (a == "" || a[0] < b[0] || (a[0] == b[0] && Before(a[1..], b[1..])))
  }

  lemma {:induction false} BeforeIsTotal(a: string, b: string)
    ensures a == b || Before(a, b) || Before(b, a)
    ensures !(Before(a, b) && Before(b, a)) && !Before(a, a)
  {
    if a != "" && b != "" {
      BeforeIsTotal(a[1..], b[1..]);
      BeforeIsTotal(a[1..], a[1..]);
      assert a == [a[0]] + a[1..] && b == [b[0]] + b[1..];
    } else if a != "" {
      BeforeIsTotal(a[1..], a[1..]);
    }
  }

  lemma {:induction false} BeforeIsTransitive(a: string, b: string, c: string)
    requires Before(a, b) && Before(b, c)
    ensures Before(a, c)
  {
    if a != "" && a[0] == b[0] == c[0] {
      BeforeIsTransitive(a[1..], b[1..], c[1..]);
    }
  }

  ghost predicate Increasing(list: seq<string>) {
    forall i, j :: 0 <= i < j < |list| ==> Before(list[i], list[j])
  }

  /** The place of a key: behind everything before it. */
  method PlaceOf(list: seq<string>, key: string) returns (n: nat)
    requires Increasing(list) && key !in list
    ensures n <= |list|
    ensures forall i :: 0 <= i < n ==> Before(list[i], key)
    ensures forall i :: n <= i < |list| ==> Before(key, list[i])
  {
    n := 0;
    while n < |list| && Before(list[n], key)
      invariant n <= |list|
      invariant forall i :: 0 <= i < n ==> Before(list[i], key)
    {
      n := n + 1;
    }
    forall i | n <= i < |list|
      ensures Before(key, list[i])
    {
      BeforeIsTotal(list[n], key);
      if n < i {
        BeforeIsTransitive(key, list[n], list[i]);
      }
    }
  }

  lemma Inserted(list: seq<string>, n: nat, key: string, more: seq<string>)
    requires n <= |list| && more == list[..n] + [key] + list[n..]
    ensures forall k :: k in more <==> k in list || k == key
  {
    assert list == list[..n] + list[n..];
  }

  /** ORDER BY: the keys in increasing order, each once. */
  method Ordered(keys: set<string>) returns (list: seq<string>)
    ensures Increasing(list) && forall k :: k in list <==> k in keys
  {
    list := [];
    var rest := keys;
    while rest != {}
      invariant rest <= keys && Increasing(list)
      invariant forall k :: k in list <==> k in keys - rest
    {
      var key :| key in rest;
      var n := PlaceOf(list, key);
      ghost var before := list;
      list := list[..n] + [key] + list[n..];
      Inserted(before, n, key, list);
      rest := rest - {key};
    }
  }
}

/** Detaching error details: lists and mappings are objects with identity, which may be
    shared and may form cycles; the result is a finite JSON tree. */
module SafeJson {
  import opened Options
  import opened Digraphs

  type Id = nat

  /** A value: plain data, a number JSON cannot hold, something unsupported, or a
      reference to a list or mapping object. */
  datatype Value = Atom(text: string) | NonFinite | Unsupported | Ref(id: Id)

  datatype Key = Text(name: string) | OtherKey

  datatype Object = ListObject(items: seq<Value>) | MappingObject(entries: seq<(Key, Value)>)

  type Heap = map<Id, Object>

  datatype Json = JAtom(text: string) | JList(items: seq<Json>) | JMapping(entries: seq<(string, Json)>)

  datatype Problem = Cycle | NotFinite | NotSupported | KeyNotText

  /** The values an object holds. */
  function Held(o: Object): seq<Value> {
    match o
    case ListObject(items) => items
    case MappingObject(entries) => seq(|entries|, i requires 0 <= i < |entries| => entries[i].1)
  }

  ghost predicate ValidHeap(h: Heap) {
    forall id :: id in h ==> forall v :: v in Held(h[id]) && v.Ref? ==> v.id in h
  }

  // ----- what the result has to be -----

  /** t is v with every reference replaced by what it refers to. */
  ghost predicate Unfolds(h: Heap, v: Value, t: Json)
    decreases t
  {
    match t
    case JAtom(text) => v == Atom(text)
    case JList(items) =>
      && v.Ref? && v.id in h && h[v.id].ListObject? && |items| == |h[v.id].items|
      && forall i :: 0 <= i < |items| ==> Unfolds(h, h[v.id].items[i], items[i])
    case JMapping(entries) =>
      && v.Ref? && v.id in h && h[v.id].MappingObject? && |entries| == |h[v.id].entries|
      && forall i :: 0 <= i < |entries| ==>
        h[v.id].entries[i].0 == Text(entries[i].0) && Unfolds(h, h[v.id].entries[i].1, entries[i].1)
  }

  /** A value has at most one unfolding. */
  lemma {:induction false} UnfoldingIsUnique(h: Heap, v: Value, t: Json, u: Json)
    requires Unfolds(h, v, t) && Unfolds(h, v, u)
    ensures t == u
    decreases t
  {
    match t
    case JAtom(_) =>
    case JList(items) =>
      forall i | 0 <= i < |items| ensures items[i] == u.items[i] {
        UnfoldingIsUnique(h, h[v.id].items[i], items[i], u.items[i]);
      }
    case JMapping(entries) =>
      forall i | 0 <= i < |entries| ensures entries[i] == u.entries[i] {
        UnfoldingIsUnique(h, h[v.id].entries[i].1, entries[i].1, u.entries[i].1);
      }
  }

  /** References from object to object. */
  ghost function References(h: Heap): Graph<Id> {
    map id | id in h :: set v | v in Held(h[id]) && v.Ref? :: v.id
  }

  /** Everything an unfolded object refers to is unfolded by a smaller tree. */
  lemma ReferenceUnfoldsSmaller(h: Heap, a: Id, b: Id, t: Json) returns (u: Json)
    requires Unfolds(h, Ref(a), t) && b in Succ(References(h), a)
    ensures Unfolds(h, Ref(b), u) && u < t
  {
    var held := Held(h[a]);
    var i :| 0 <= i < |held| && held[i] == Ref(b);
    match t
    case JList(items) => u := items[i];
    case JMapping(entries) => u := entries[i].1;
  }

  lemma {:induction false} WalkUnfoldsSmaller(h: Heap, p: seq<Id>, n: nat, t: Json) returns (u: Json)
    requires IsWalk(References(h), p) && n < |p| && Unfolds(h, Ref(p[0]), t)
    ensures Unfolds(h, Ref(p[n]), u) && (u == t || u < t)
  {
    u := t;
    if n > 0 {
      var s := WalkUnfoldsSmaller(h, p, n - 1, t);
      assert p[n - 1 + 1] in Succ(References(h), p[n - 1]);
      u := ReferenceUnfoldsSmaller(h, p[n - 1], p[n], s);
    }
  }

  lemma BeyondUnfoldsSmaller(h: Heap, a: Id, b: Id, t: Json) returns (u: Json)
    requires Unfolds(h, Ref(a), t) && Beyond(References(h), a, b)
    ensures Unfolds(h, Ref(b), u) && u < t
  {
    var c :| c in Succ(References(h), a) && Reaches(References(h), c, b);
    var s := ReferenceUnfoldsSmaller(h, a, c, t);
    ReachesIsWalk(References(h), c, b);
    var p: seq<Id> :| WalkBetween(References(h), p, c, b);
    u := WalkUnfoldsSmaller(h, p, |p| - 1, s);
  }

  /** An object on a cycle has no unfolding. */
  lemma {:induction false} CycleHasNoUnfolding(h: Heap, a: Id, t: Json)
    requires Beyond(References(h), a, a)
    ensures !Unfolds(h, Ref(a), t)
    decreases t
  {
    if Unfolds(h, Ref(a), t) {
      var u := BeyondUnfoldsSmaller(h, a, a, t);
      CycleHasNoUnfolding(h, a, u);
    }
  }

  // ----- what can be wrong below a value -----

  ghost predicate Below(h: Heap, v: Value, id: Id) {
    v.Ref? && Reaches(References(h), v.id, id)
  }

  ghost predicate CycleBelow(h: Heap, v: Value) {
    exists id :: Below(h, v, id) && Beyond(References(h), id, id)
  }

  /** v itself, or a value held by an object below it. */
  ghost predicate Occurs(h: Heap, v: Value, w: Value) {
    v == w || exists id :: Below(h, v, id) && id in h && w in Held(h[id])
  }

  ghost predicate OtherKeyBelow(h: Heap, v: Value) {
    exists id :: Below(h, v, id) && id in h && h[id].MappingObject? && exists e :: e in h[id].entries && e.0 == OtherKey
  }

  /** The problem reported is really there. */
  ghost predicate Justified(h: Heap, v: Value, p: Problem) {
    match p
    case Cycle => CycleBelow(h, v)
    case NotFinite => Occurs(h, v, NonFinite)
    case NotSupported => Occurs(h, v, Unsupported)
    case KeyNotText => OtherKeyBelow(h, v)
  }

  /** Every value and key below v is acceptable; only cycles may stand in the way. */
  ghost predicate CleanBelow(h: Heap, v: Value) {
    !Occurs(h, v, NonFinite) && !Occurs(h, v, Unsupported) && !OtherKeyBelow(h, v)
  }

  /** Nothing with a cycle below it has an unfolding. */
  lemma UnfoldedHasNoCycle(h: Heap, v: Value, t: Json)
    requires Unfolds(h, v, t)
    ensures !CycleBelow(h, v)
  {
    if CycleBelow(h, v) {
      var id :| Below(h, v, id) && Beyond(References(h), id, id);
      ReachesIsWalk(References(h), v.id, id);
      var p: seq<Id> :| WalkBetween(References(h), p, v.id, id);
      var u := WalkUnfoldsSmaller(h, p, |p| - 1, t);
      CycleHasNoUnfolding(h, id, u);
    }
  }

  lemma ProblemSpreads(h: Heap, a: Id, w: Value, p: Problem)
    requires a in h && w in Held(h[a]) && Justified(h, w, p)
    ensures Justified(h, Ref(a), p)
  {
    var g := References(h);
    ReachesSelf(g, a);
    assert Below(h, Ref(a), a);
    if w.Ref? {
      assert w.id in Succ(g, a);
      forall id | Below(h, w, id) ensures Below(h, Ref(a), id) {
        ReachesStep(g, a, w.id, id);
      }
    }
  }

  // ----- the recursion -----

  /** `seen` is shared by the whole recursion: the objects being unfolded. */
  class Normalizer {
    const h: Heap
    var seen: set<Id>

    constructor (h: Heap)
      ensures this.h == h && seen == {}
    {
      this.h := h;
      seen := {};
    }

    /** Every object being unfolded leads to the value at hand. */
    ghost predicate OnPath(v: Value)
      reads this
    {
      seen <= h.Keys && (v.Ref? ==> v.id in h && forall s :: s in seen ==> Beyond(References(h), s, v.id))
    }

    /** `_safe_json_value`: the unfolding if there is one, else a problem that is there;
        `seen` is left as it was found either way. */
    method Normalize(v: Value) returns (r: Result<Json, Problem>)
      requires ValidHeap(h) && OnPath(v)
      modifies `seen
      ensures seen == old(seen)
      ensures r.Ok? ==> Unfolds(h, v, r.value)
      ensures r.Err? ==> Justified(h, v, r.error) && forall t :: !Unfolds(h, v, t)
      decreases h.Keys - seen, 1
    {
      hide Reaches;
      match v
      case Atom(text) => r := Ok(JAtom(text));
      case NonFinite => r := Err(NotFinite);
      case Unsupported => r := Err(NotSupported);
      case Ref(id) =>
        if id in seen {
          ReachesSelf(References(h), id);
          forall t ensures !Unfolds(h, v, t) {
            CycleHasNoUnfolding(h, id, t);
          }
          return Err(Cycle);
        }
        seen := seen + {id};
        match h[id] {
          case ListObject(_) => r := NormalizeList(id);
          case MappingObject(_) => r := NormalizeMapping(id);
        }
        seen := seen - {id};
    }

    /** An object just entered leads on to what it holds. */
    lemma HeldIsOnPath(id: Id, w: Value)
      requires ValidHeap(h) && id in h && w in Held(h[id]) && seen <= h.Keys && id in seen
      requires forall s :: s in seen && s != id ==> Beyond(References(h), s, id)
      ensures OnPath(w)
    {
      if w.Ref? {
        assert w.id in Succ(References(h), id);
        BeyondEdge(References(h), id, w.id);
        forall s | s in seen && s != id ensures Beyond(References(h), s, w.id) {
          BeyondStep(References(h), s, id, w.id);
        }
      }
    }

    method NormalizeList(id: Id) returns (r: Result<Json, Problem>)
      requires ValidHeap(h) && id in h && h[id].ListObject? && seen <= h.Keys && id in seen
      requires forall s :: s in seen && s != id ==> Beyond(References(h), s, id)
      modifies `seen
      ensures seen == old(seen)
      ensures r.Ok? ==> Unfolds(h, Ref(id), r.value)
      ensures r.Err? ==> Justified(h, Ref(id), r.error) && forall t :: !Unfolds(h, Ref(id), t)
      decreases h.Keys - seen, 2
    {
      hide Reaches, Beyond, Justified;
      var items := h[id].items;
      var result: seq<Json> := [];
      for i := 0 to |items|
        invariant seen == old(seen) && |result| == i
        invariant forall j :: 0 <= j < i ==> Unfolds(h, items[j], result[j])
      {
        HeldIsOnPath(id, items[i]);
        var item := Normalize(items[i]);
        if item.Err? {
          ProblemSpreads(h, id, items[i], item.error);
          return Err(item.error);
        }
        result := result + [item.value];
      }
      r := Ok(JList(result));
    }

    method NormalizeMapping(id: Id) returns (r: Result<Json, Problem>)
      requires ValidHeap(h) && id in h && h[id].MappingObject? && seen <= h.Keys && id in seen
      requires forall s :: s in seen && s != id ==> Beyond(References(h), s, id)
      modifies `seen
      ensures seen == old(seen)
      ensures r.Ok? ==> Unfolds(h, Ref(id), r.value)
      ensures r.Err? ==> Justified(h, Ref(id), r.error) && forall t :: !Unfolds(h, Ref(id), t)
      decreases h.Keys - seen, 2
    {
      hide Reaches, Beyond;
      var entries := h[id].entries;
      var result: seq<(string, Json)> := [];
      for i := 0 to |entries|
        invariant seen == old(seen) && |result| == i
        invariant forall j :: 0 <= j < i ==> entries[j].0 == Text(result[j].0) && Unfolds(h, entries[j].1, result[j].1)
      {
        if entries[i].0.OtherKey? {
          ReachesSelf(References(h), id);
          assert Below(h, Ref(id), id) && entries[i] in h[id].entries;
          return Err(KeyNotText);
        }
        assert Held(h[id])[i] == entries[i].1;
        HeldIsOnPath(id, entries[i].1);
        var item := Normalize(entries[i].1);
        if item.Err? {
          ProblemSpreads(h, id, entries[i].1, item.error);
          return Err(item.error);
        }
        result := result + [(entries[i].0.name, item.value)];
      }
      r := Ok(JMapping(result));
    }
  }

  /** A whole value: it is detached exactly when it has an unfolding; when leaves and keys
      are acceptable, that is exactly when no cycle is below it. */
  method Detach(h: Heap, v: Value) returns (r: Result<Json, Problem>)
    requires ValidHeap(h) && (v.Ref? ==> v.id in h)
    ensures r.Ok? ==> Unfolds(h, v, r.value) && !CycleBelow(h, v)
    ensures r.Err? ==> Justified(h, v, r.error) && forall t :: !Unfolds(h, v, t)
    ensures CleanBelow(h, v) ==> (r.Err? <==> CycleBelow(h, v))
  {
    var n := new Normalizer(h);
    r := n.Normalize(v);
    if r.Ok? {
      UnfoldedHasNoCycle(h, v, r.value);
    }
  }
}

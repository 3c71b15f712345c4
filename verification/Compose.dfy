/** Resolved Compose services as far as ordering and recovery look at them, and the
    stable dependency order of runtime/compose.py. */
module Compose {
  import opened Options
  import opened Digraphs
  import opened Sequences

  type Service = string

  /** The options of one declared dependency edge. */
  datatype Dependency = Dependency(restart: bool, required: bool)

  /** `namespaces` are the services whose containers are bound into this one. */
  datatype Spec = Spec(dependsOn: map<Service, Dependency>, links: set<Service>, namespaces: set<Service>)

  type Definitions = map<Service, Spec>

  /** `service_dependencies`: declared edges, and implicit ones with default options. */
  function Dependencies(spec: Spec): map<Service, Dependency> {
    (map n | n in spec.links + spec.namespaces :: Dependency(false, true)) + spec.dependsOn
  }

  lemma NamespacesAreDependencies(spec: Spec)
    ensures spec.namespaces <= Dependencies(spec).Keys
  {
  }

  // ----- the order -----

  /** Edges to selected services; the rest are dropped. */
  function Edges(selected: set<Service>, definitions: Definitions): Graph<Service>
    requires selected <= definitions.Keys
  {
    map s | s in selected :: Dependencies(definitions[s]).Keys * selected
  }

  /** A required dependency that is not selected. */
  predicate MissingDependency(selected: set<Service>, definitions: Definitions, s: Service, d: Service) {
    && s in selected && s in definitions && d in Dependencies(definitions[s]) && d !in selected
    && Dependencies(definitions[s])[d].required
  }

  datatype OrderError = Unselected(service: Service, dependency: Service) | DependencyCycle

  /** Dependencies come first. */
  ghost predicate Respects(g: Graph<Service>, order: seq<Service>) {
    forall i, d :: 0 <= i < |order| && d in Succ(g, order[i]) ==> d in order[..i]
  }

  ghost predicate ReadyAfter(g: Graph<Service>, done: seq<Service>, s: Service) {
    forall d :: d in Succ(g, s) ==> d in done
  }

  /** At every place stands the first listed service that is ready there. */
  ghost predicate Stable(g: Graph<Service>, selected: seq<Service>, order: seq<Service>) {
    forall i, k :: 0 <= i < |order| && 0 <= k < |selected| && selected[k] !in order[..i] && ReadyAfter(g, order[..i], selected[k])
      ==> order[i] in selected[..k + 1]
  }

  ghost predicate IsStableOrder(g: Graph<Service>, selected: seq<Service>, order: seq<Service>) {
    Distinct(order) && Members(order) == Members(selected) && Respects(g, order) && Stable(g, selected, order)
  }

  // ----- no order on a cycle, a cycle when stuck -----

  /** In an order that respects the edges, a walk only goes towards the front. */
  lemma {:induction false} WalkGoesForward(g: Graph<Service>, order: seq<Service>, p: seq<Service>, n: nat) returns (first: nat, k: nat)
    requires Respects(g, order) && IsWalk(g, p) && p[0] in order && n < |p|
    ensures k < |order| && order[k] == p[n]
    ensures first < |order| && order[first] == p[0] && k + n <= first
  {
    if n == 0 {
      k :| 0 <= k < |order| && order[k] == p[0];
      first := k;
    } else {
      var m;
      first, m := WalkGoesForward(g, order, p, n - 1);
      assert p[n - 1 + 1] in Succ(g, p[n - 1]);
      assert p[n] in order[..m];
      k :| 0 <= k < m && order[k] == p[n];
    }
  }

  lemma OrderExcludesCycles(g: Graph<Service>, order: seq<Service>)
    requires Distinct(order) && Respects(g, order)
    requires forall s :: s in g ==> s in order
    ensures !HasCycle(g)
  {
    if p: seq<Service> :| ClosedWalk(g, p) {
      assert p[0 + 1] in Succ(g, p[0]);
      var first, k := WalkGoesForward(g, order, p, |p| - 1);
      assert false;
    }
  }

  lemma {:induction false} SmallerSet<T>(a: set<T>, b: set<T>)
    requires a <= b
    ensures |a| <= |b|
  {
    if a != {} {
      var x :| x in a;
      SmallerSet(a - {x}, b - {x});
    }
  }

  /** `order_services`: an error for a required dependency outside the selection, an
      error for a cycle, otherwise the stable order. */
  method OrderServices(selected: seq<Service>, definitions: Definitions) returns (r: Result<seq<Service>, OrderError>)
    requires Distinct(selected) && Members(selected) <= definitions.Keys
    ensures var chosen := Members(selected); var g := Edges(chosen, definitions);
      match r
      case Err(Unselected(s, d)) => MissingDependency(chosen, definitions, s, d)
      case Err(DependencyCycle) => HasCycle(g) && forall s, d :: !MissingDependency(chosen, definitions, s, d)
      case Ok(order) => !HasCycle(g) && IsStableOrder(g, selected, order) && forall s, d :: !MissingDependency(chosen, definitions, s, d)
  {
    hide Respects, Stable, HasCycle, ReadyAfter, Ready, Reaches, MissingDependency, Dependencies;
    ghost var g := Edges(Members(selected), definitions);
    var missing := FindMissing(selected, definitions);
    if missing.Some? {
      return Err(missing.value);
    }
    var order: seq<Service> := [];
    EmptyOrder(g, selected);
    while |order| < |selected|
      invariant Distinct(order) && Members(order) <= Members(selected) && |order| <= |selected|
      invariant Respects(g, order) && Stable(g, selected, order)
    {
      var next := FirstReady(selected, definitions, order);
      ReadyIsReadyAfter(selected, definitions, order);
      if next == |selected| {
        NobodyReady(selected, definitions, order);
        return Err(DependencyCycle);
      }
      StableExtends(g, selected, order, next);
      order := order + [selected[next]];
    }
    FullOrder(selected, order);
    OrderExcludesCycles(g, order);
    r := Ok(order);
  }

  /** The first required dependency outside the selection. */
  method FindMissing(selected: seq<Service>, definitions: Definitions) returns (r: Option<OrderError>)
    requires Members(selected) <= definitions.Keys
    ensures r.Some? ==> r.value.Unselected? && MissingDependency(Members(selected), definitions, r.value.service, r.value.dependency)
    ensures r.None? ==> forall s, d :: !MissingDependency(Members(selected), definitions, s, d)
  {
    ghost var chosen := Members(selected);
    for i := 0 to |selected|
      invariant forall j, d :: 0 <= j < i ==> !MissingDependency(chosen, definitions, selected[j], d)
    {
      var missing := set d | d in Dependencies(definitions[selected[i]]) && d !in selected && Dependencies(definitions[selected[i]])[d].required;
      if missing != {} {
        var d :| d in missing;
        return Some(Unselected(selected[i], d));
      }
      assert forall d :: MissingDependency(chosen, definitions, selected[i], d) ==> d in missing;
    }
    r := None;
  }

  /** The first listed service that is not placed and whose dependencies are. */
  method FirstReady(selected: seq<Service>, definitions: Definitions, order: seq<Service>) returns (next: nat)
    requires Members(selected) <= definitions.Keys
    ensures next <= |selected|
    ensures forall k :: 0 <= k < next ==> selected[k] in order || !Ready(selected, definitions, order, selected[k])
    ensures next < |selected| ==> selected[next] !in order && Ready(selected, definitions, order, selected[next])
  {
    next := 0;
    while next < |selected| && (selected[next] in order || !Ready(selected, definitions, order, selected[next]))
      invariant next <= |selected|
      invariant forall k :: 0 <= k < next ==> selected[k] in order || !Ready(selected, definitions, order, selected[k])
      decreases |selected| - next
    {
      next := next + 1;
    }
  }

  lemma EmptyOrder(g: Graph<Service>, selected: seq<Service>)
    ensures Respects(g, []) && Stable(g, selected, [])
  {
  }

  /** The test of the loop: no selected dependency is still pending. */
  predicate Ready(selected: seq<Service>, definitions: Definitions, order: seq<Service>, s: Service)
    requires s in definitions
  {
    forall d :: d in Dependencies(definitions[s]) && d in selected ==> d in order
  }

  lemma ReadyIsReadyAfter(selected: seq<Service>, definitions: Definitions, order: seq<Service>)
    requires Members(selected) <= definitions.Keys
    ensures forall k :: 0 <= k < |selected| ==>
      (Ready(selected, definitions, order, selected[k]) <==> ReadyAfter(Edges(Members(selected), definitions), order, selected[k]))
  {
    var g := Edges(Members(selected), definitions);
    forall k | 0 <= k < |selected|
      ensures Ready(selected, definitions, order, selected[k]) <==> ReadyAfter(g, order, selected[k])
    {
      assert forall d :: d in Succ(g, selected[k]) <==> d in Dependencies(definitions[selected[k]]) && d in selected;
    }
  }

  lemma NobodyReady(selected: seq<Service>, definitions: Definitions, order: seq<Service>)
    requires Distinct(selected) && Members(selected) <= definitions.Keys && |order| < |selected|
    requires forall k :: 0 <= k < |selected| ==> selected[k] in order || !Ready(selected, definitions, order, selected[k])
    ensures HasCycle(Edges(Members(selected), definitions))
  {
    hide HasCycle, Edges, Ready, Succ;
    var g := Edges(Members(selected), definitions);
    var s := Members(selected) - Members(order);
    SomebodyPending(selected, order);
    forall v | v in s ensures Succ(g, v) * s != {} {
      var k :| 0 <= k < |selected| && selected[k] == v;
      PendingNeedsPending(selected, definitions, order, v);
    }
    StuckSetHasCycle(g, s);
  }

  lemma PendingNeedsPending(selected: seq<Service>, definitions: Definitions, order: seq<Service>, v: Service)
    requires Members(selected) <= definitions.Keys && v in selected && v in definitions && !Ready(selected, definitions, order, v)
    ensures Succ(Edges(Members(selected), definitions), v) * (Members(selected) - Members(order)) != {}
  {
    var d :| d in Dependencies(definitions[v]) && d in selected && d !in order;
    assert d in Succ(Edges(Members(selected), definitions), v) * (Members(selected) - Members(order));
  }

  lemma SomebodyPending(selected: seq<Service>, order: seq<Service>)
    requires Distinct(selected) && |order| < |selected|
    ensures Members(selected) - Members(order) != {}
  {
    DistinctSize(selected);
    MembersSize(order);
    var a, b := Members(selected), Members(order);
    assert a - b == {} ==> a <= b by {
      assert forall x :: x in a && x !in b ==> x in a - b;
    }
    if a <= b {
      SmallerSet(a, b);
    }
  }

  lemma {:induction false} DistinctSize<T>(s: seq<T>)
    requires Distinct(s)
    ensures |Members(s)| == |s|
  {
    if s != [] {
      var last := |s| - 1;
      DistinctSize(s[..last]);
      assert Members(s) == Members(s[..last]) + {s[last]};
      assert s[last] !in s[..last];
    }
  }

  lemma {:induction false} MembersSize<T>(s: seq<T>)
    ensures |Members(s)| <= |s|
  {
    if s != [] {
      var last := |s| - 1;
      MembersSize(s[..last]);
      assert Members(s) == Members(s[..last]) + {s[last]};
    }
  }

  lemma FullOrder(selected: seq<Service>, order: seq<Service>)
    requires Distinct(selected) && Distinct(order) && Members(order) <= Members(selected) && |order| >= |selected|
    ensures Members(order) == Members(selected)
  {
    DistinctSize(selected);
    DistinctSize(order);
    SameSizeSubset(Members(order), Members(selected));
  }

  lemma SameSizeSubset<T>(a: set<T>, b: set<T>)
    requires a <= b && |a| >= |b|
    ensures a == b
  {
    SmallerSet(b - a, b - a);
    assert b == a + (b - a);
  }

  lemma StableExtends(g: Graph<Service>, selected: seq<Service>, order: seq<Service>, next: nat)
    requires next < |selected| && selected[next] !in order && ReadyAfter(g, order, selected[next])
    requires forall k :: 0 <= k < next ==> selected[k] in order || !ReadyAfter(g, order, selected[k])
    requires Respects(g, order) && Stable(g, selected, order)
    ensures Respects(g, order + [selected[next]]) && Stable(g, selected, order + [selected[next]])
  {
    var longer := order + [selected[next]];
    forall i, d | 0 <= i < |longer| && d in Succ(g, longer[i]) ensures d in longer[..i] {
      assert longer[..i] == order[..i];
      assert order[..|order|] == order;
    }
    forall i, k | 0 <= i < |longer| && 0 <= k < |selected| && selected[k] !in longer[..i] && ReadyAfter(g, longer[..i], selected[k])
      ensures longer[i] in selected[..k + 1]
    {
      assert longer[..i] == order[..i];
      if i == |order| {
        assert order[..i] == order;
        assert selected[..k + 1][next] == selected[next];
      }
    }
  }

  /** The stable order is unique, so the result does not depend on how sets are iterated. */
  lemma {:induction false} StableOrderIsUnique(g: Graph<Service>, selected: seq<Service>, a: seq<Service>, b: seq<Service>, n: nat)
    requires Distinct(selected) && IsStableOrder(g, selected, a) && IsStableOrder(g, selected, b) && n <= |a|
    ensures n <= |b| && a[..n] == b[..n]
  {
    hide Respects, Stable, ReadyAfter;
    DistinctSize(a);
    DistinctSize(b);
    if n > 0 {
      StableOrderIsUnique(g, selected, a, b, n - 1);
      var i := n - 1;
      var k := FirstReadyWins(g, selected, a, b, i);
      var l := FirstReadyWins(g, selected, b, a, i);
      assert a[..n] == a[..i] + [a[i]] && b[..n] == b[..i] + [b[i]];
    }
  }

  /** After a common front, a's next service is listed no later than b's. */
  lemma FirstReadyWins(g: Graph<Service>, selected: seq<Service>, a: seq<Service>, b: seq<Service>, i: nat) returns (k: nat)
    requires IsStableOrder(g, selected, a) && IsStableOrder(g, selected, b) && i < |a| && i < |b| && a[..i] == b[..i]
    ensures k < |selected| && selected[k] == b[i] && a[i] in selected[..k + 1]
  {
    assert b[i] in Members(b) && b[i] in Members(selected);
    k :| 0 <= k < |selected| && selected[k] == b[i];
    assert b[i] !in b[..i];
    assert ReadyAfter(g, a[..i], b[i]);
  }

  /** A specification with its edges cut down to the given services. */
  function Cut(spec: Spec, names: seq<Service>): Spec {
    var all := Dependencies(spec);
    Spec(map d | d in all && d in names :: all[d], {}, {})
  }

  lemma CutDependencies(spec: Spec, names: seq<Service>)
    ensures Dependencies(Cut(spec, names)).Keys == Dependencies(spec).Keys * Members(names)
  {
  }

  function Restricted(names: seq<Service>, definitions: Definitions): Definitions
    requires Members(names) <= definitions.Keys
  {
    map s | s in names :: Cut(definitions[s], names)
  }

  lemma RestrictedEdges(names: seq<Service>, definitions: Definitions)
    requires Members(names) <= definitions.Keys
    ensures Members(names) <= Restricted(names, definitions).Keys
    ensures Edges(Members(names), Restricted(names, definitions)) == Edges(Members(names), definitions)
    ensures forall s, d :: !MissingDependency(Members(names), Restricted(names, definitions), s, d)
  {
    hide Dependencies, Cut;
    forall s | s in names
      ensures Dependencies(Cut(definitions[s], names)).Keys == Dependencies(definitions[s]).Keys * Members(names)
    {
      CutDependencies(definitions[s], names);
    }
  }

  /** `order_service_subset`: the same order among the given services alone; it can only
      fail on a cycle among them. */
  method OrderServiceSubset(names: seq<Service>, definitions: Definitions) returns (r: Option<seq<Service>>)
    requires Distinct(names) && Members(names) <= definitions.Keys
    ensures r.None? <==> HasCycle(Edges(Members(names), definitions))
    ensures r.Some? ==> IsStableOrder(Edges(Members(names), definitions), names, r.value)
  {
    RestrictedEdges(names, definitions);
    var ordered := OrderServices(names, Restricted(names, definitions));
    match ordered
    case Ok(order) => r := Some(order);
    case Err(e) => r := None;
  }
}

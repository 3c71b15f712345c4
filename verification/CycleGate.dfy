/** The import-cycle gate of the architecture check: cycles among modules, and cycles
    among the public areas ("owners") that the modules belong to. */
module CycleGate {
  import opened Digraphs
  import opened Tarjan

  /** A dotted name, as its parts. */
  type Name = seq<string>

  const AI_ROOT: Name := ["linktools", "ai"]
  const ROOT_OWNER: Name := ["__root__"]

  datatype Owner = Nobody | Area(name: Name)

  // ----- owners -----

  predicate Private(part: string) {
    |part| > 0 && part[0] == '_'
  }

  /** Packages are the modules whose file is an `__init__.py`. */
  predicate PublicPackage(namespace: Name, packages: set<Name>) {
    (forall i :: 0 <= i < |namespace| ==> !Private(namespace[i])) && AI_ROOT + namespace in packages
  }

  /** The longest public package among the first `length` prefixes, else the first part. */
  function LongestPublic(parts: Name, length: nat, packages: set<Name>): Name
    requires 0 < |parts| && length <= |parts|
  {
    if length == 0 then parts[..1]
    else if PublicPackage(parts[..length], packages) then parts[..length]
    else LongestPublic(parts, length - 1, packages)
  }

  function OwnerOf(m: Name, packages: set<Name>): Owner {
    if m == AI_ROOT then Area(ROOT_OWNER)
    else if AI_ROOT <= m then Area(LongestPublic(m[|AI_ROOT|..], |m| - |AI_ROOT|, packages))
    else Nobody
  }

  lemma {:induction false} LongestPublicIsLongest(parts: Name, length: nat, packages: set<Name>)
    requires 0 < |parts| && length <= |parts|
    ensures var r := LongestPublic(parts, length, packages);
      && 0 < |r| && r <= parts
      && (PublicPackage(r, packages) || r == parts[..1])
      && (forall n :: 0 < n <= length && PublicPackage(parts[..n], packages) ==> PublicPackage(r, packages) && n <= |r|)
  {
    if length > 0 && !PublicPackage(parts[..length], packages) {
      LongestPublicIsLongest(parts, length - 1, packages);
    }
  }

  /** The gate leaves out modules of no area and those of the root package. */
  predicate Counted(o: Owner) {
    o.Area? && o.name != ROOT_OWNER
  }

  /** A package without a part that starts with an underscore. */
  ghost predicate IsPublic(namespace: Name, packages: set<Name>) {
    ["linktools", "ai"] + namespace in packages && forall part :: part in namespace ==> !("_" <= part)
  }

  /** A module below linktools.ai belongs to the longest public package around it, and to its
      first part when there is none; the area called "__root__" does not count. */
  ghost predicate BelongsTo(m: Name, packages: set<Name>, a: Name) {
    |m| > 2 && m[..2] == ["linktools", "ai"] && IsAreaOf(m[2..], packages, a) && a != ["__root__"]
  }

  ghost predicate IsAreaOf(parts: Name, packages: set<Name>, a: Name) {
    || (a != [] && a <= parts && IsPublic(a, packages) && forall n :: |a| < n <= |parts| ==> !IsPublic(parts[..n], packages))
    || (|parts| > 0 && a == [parts[0]] && forall n :: 0 < n <= |parts| ==> !IsPublic(parts[..n], packages))
  }

  lemma PublicIsPublic(packages: set<Name>)
    ensures forall n :: PublicPackage(n, packages) <==> IsPublic(n, packages)
  {
    forall n: Name
      ensures PublicPackage(n, packages) <==> IsPublic(n, packages)
    {
      assert forall i :: 0 <= i < |n| ==> n[i] in n;
      forall part | part in n
        ensures Private(part) <==> "_" <= part
        ensures exists i :: 0 <= i < |n| && n[i] == part
      {
        assert part != "" ==> part[..1] == [part[0]];
      }
    }
  }

  /** The owner the code finds is the area the module belongs to. */
  lemma OwnerIsArea(m: Name, packages: set<Name>)
    ensures forall a :: BelongsTo(m, packages, a) <==> OwnerOf(m, packages) == Area(a) && Counted(Area(a))
  {
    hide PublicPackage, IsPublic;
    PublicIsPublic(packages);
    if AI_ROOT <= m && m != AI_ROOT {
      var parts := m[|AI_ROOT|..];
      LongestPublicIsLongest(parts, |parts|, packages);
      var r := LongestPublic(parts, |parts|, packages);
      assert parts[..|r|] == r && parts[..1] == [parts[0]];
      forall a
        ensures IsAreaOf(parts, packages, a) <==> a == r
      {
        if IsAreaOf(parts, packages, a) {
          assert parts[..|a|] == a;
        }
      }
    }
  }

  // ----- the quotient by owner -----

  ghost predicate CrossImport(edges: Graph<Name>, packages: set<Name>, u: Name, v: Name, a: Name, b: Name) {
    u in edges && v in edges[u] && a != b && BelongsTo(u, packages, a) && BelongsTo(v, packages, b)
  }

  lemma OwnersAreAreas(packages: set<Name>)
    ensures forall m, a :: BelongsTo(m, packages, a) <==> OwnerOf(m, packages) == Area(a) && Counted(Area(a))
  {
    forall m
      ensures forall a :: BelongsTo(m, packages, a) <==> OwnerOf(m, packages) == Area(a) && Counted(Area(a))
    {
      OwnerIsArea(m, packages);
    }
  }

  /** Some module of area a imports some module of area b. */
  ghost predicate QuotientEdge(edges: Graph<Name>, packages: set<Name>, a: Name, b: Name) {
    exists u, v :: CrossImport(edges, packages, u, v, a, b)
  }

  ghost predicate IsQuotient(edges: Graph<Name>, packages: set<Name>, q: Graph<Name>) {
    forall a, b :: b in Succ(q, a) <==> QuotientEdge(edges, packages, a, b)
  }

  function AddEdge(q: Graph<Name>, a: Name, b: Name): Graph<Name>
    requires a in q
  {
    var q' := q[a := q[a] + {b}];
    if b in q' then q' else q'[b := {}]
  }

  /** The edges already folded in: those of the sources done, and of the source at hand
      those to targets done. */
  ghost predicate FoldedIn(edges: Graph<Name>, packages: set<Name>, q: Graph<Name>, sources: set<Name>,
                           source: Name, targets: set<Name>) {
    forall a, b :: b in Succ(q, a) <==> FoldedEdge(edges, packages, sources, source, targets, a, b)
  }

  ghost predicate FoldedEdge(edges: Graph<Name>, packages: set<Name>, sources: set<Name>,
                             source: Name, targets: set<Name>, a: Name, b: Name) {
    exists u, v :: CrossImport(edges, packages, u, v, a, b) && (u in sources || (u == source && v in targets))
  }

  /** The loop that builds `owner_edges`. */
  method OwnerEdges(edges: Graph<Name>, packages: set<Name>) returns (q: Graph<Name>)
    ensures IsQuotient(edges, packages, q) && forall a :: a in q ==> q[a] <= q.Keys
  {
    hide BelongsTo, OwnerOf;
    OwnersAreAreas(packages);
    q := map[];
    var sources := edges.Keys;
    while sources != {}
      invariant sources <= edges.Keys
      invariant FoldedIn(edges, packages, q, edges.Keys - sources, [], {}) && forall a :: a in q ==> q[a] <= q.Keys
      decreases sources
    {
      var source :| source in sources;
      ghost var done := edges.Keys - sources;
      sources := sources - {source};
      var owner := OwnerOf(source, packages);
      if Counted(owner) {
        ghost var before := q;
        q := if owner.name in q then q else q[owner.name := {}];
        assert forall c :: Succ(q, c) == Succ(before, c);
        assert forall c, d :: FoldedEdge(edges, packages, done, [], {}, c, d) <==> FoldedEdge(edges, packages, done, source, {}, c, d);
        assert FoldedIn(edges, packages, q, done, source, {});
        var targets := edges[source];
        while targets != {}
          invariant targets <= edges[source] && owner.name in q && forall a :: a in q ==> q[a] <= q.Keys
          invariant FoldedIn(edges, packages, q, done, source, edges[source] - targets)
          decreases targets
        {
          var target :| target in targets;
          ghost var seen := edges[source] - targets;
          targets := targets - {target};
          var to := OwnerOf(target, packages);
          ghost var before := q;
          if Counted(to) && to != owner {
            q := AddEdge(q, owner.name, to.name);
            FoldCross(edges, packages, before, done, source, seen, target, owner.name, to.name);
          } else {
            FoldNothing(edges, packages, q, done, source, seen, target);
          }
          assert edges[source] - targets == seen + {target};
        }
      } else {
        assert forall v, a, b :: !CrossImport(edges, packages, source, v, a, b);
      }
      assert edges.Keys - sources == done + {source};
    }
    assert forall u, v, a, b :: CrossImport(edges, packages, u, v, a, b) ==> u in edges.Keys - sources;
  }

  lemma FoldCross(edges: Graph<Name>, packages: set<Name>, q: Graph<Name>, sources: set<Name>,
                  source: Name, targets: set<Name>, target: Name, a: Name, b: Name)
    requires FoldedIn(edges, packages, q, sources, source, targets) && a in q
    requires CrossImport(edges, packages, source, target, a, b)
    ensures FoldedIn(edges, packages, AddEdge(q, a, b), sources, source, targets + {target})
  {
    hide BelongsTo, OwnerOf;
    OwnersAreAreas(packages);
    var q' := AddEdge(q, a, b);
    forall c, d
      ensures d in Succ(q', c) <==> FoldedEdge(edges, packages, sources, source, targets + {target}, c, d)
    {
      assert d in Succ(q', c) <==> d in Succ(q, c) || (c == a && d == b);
      assert CrossImport(edges, packages, source, target, c, d) ==> c == a && d == b;
    }
  }

  lemma FoldNothing(edges: Graph<Name>, packages: set<Name>, q: Graph<Name>, sources: set<Name>,
                    source: Name, targets: set<Name>, target: Name)
    requires FoldedIn(edges, packages, q, sources, source, targets)
    requires forall a, b :: !CrossImport(edges, packages, source, target, a, b)
    ensures FoldedIn(edges, packages, q, sources, source, targets + {target})
  {
    hide BelongsTo, OwnerOf;
    OwnersAreAreas(packages);
  }

  // ----- the gate -----

  /** `_is_cycle` */
  predicate IsCycle<V(==)>(component: seq<V>, g: Graph<V>) {
    |component| > 1 || (|component| == 1 && component[0] in Succ(g, component[0]))
  }

  ghost predicate OnCycle<V(!new)>(g: Graph<V>, v: V) {
    exists p: seq<V> :: ClosedWalk(g, p) && p[0] == v
  }

  /** A component is called a cycle exactly when its members lie on closed walks. */
  lemma ComponentCycleIsClosedWalk<V(!new)>(g: Graph<V>, comps: seq<seq<V>>, k: int, v: V)
    requires IsCondensation(g, comps) && InComponent(comps, k, v)
    ensures IsCycle(comps[k], g) <==> OnCycle(g, v)
  {
    var c := comps[k];
    if IsCycle(c, g) {
      if |c| > 1 {
        var w := if c[0] == v then c[1] else c[0];
        assert w != v && InComponent(comps, k, w);
        ReachesSplit(g, v, w);
        var x :| x in Succ(g, v) && Reaches(g, x, w);
        ReturningEdgeIsCycle(g, v, x);
      } else {
        assert c[0] == v;
        ReturningEdgeIsCycle(g, v, v);
      }
    }
    if OnCycle(g, v) {
      CycleFromReturnsTo(g, v);
      var b :| b in Succ(g, v) && Reaches(g, b, v);
      assert b in Nodes(g);
      var l :| InComponent(comps, l, b);
      ReachesEdge(g, v, b);
      assert l == k;
    }
  }

  lemma CycleFromReturnsTo<V(!new)>(g: Graph<V>, v: V)
    requires OnCycle(g, v)
    ensures exists b :: b in Succ(g, v) && Reaches(g, b, v)
  {
    var p: seq<V> :| ClosedWalk(g, p) && p[0] == v;
    var q := p[1..];
    forall i | 0 <= i < |q| - 1 ensures q[i + 1] in Succ(g, q[i]) {
      assert p[i + 1 + 1] in Succ(g, p[i + 1]);
    }
    WalkReaches(g, q, p[1], v);
    assert p[0 + 1] in Succ(g, p[0]);
  }

  /** The reported components: together they hold exactly the nodes on closed walks, each
      once; two reported nodes share one exactly when each reaches the other; none is empty. */
  ghost predicate ReportsCycles<V(!new)>(g: Graph<V>, reports: seq<seq<V>>) {
    && NoRepeats(reports) && (forall k :: 0 <= k < |reports| ==> reports[k] != [])
    && (forall v :: OnCycle(g, v) <==> Emitted(reports, v))
    && (forall k, l, v, w :: InComponent(reports, k, v) && InComponent(reports, l, w) ==>
          (k == l <==> Reaches(g, v, w) && Reaches(g, w, v)))
  }

  method ReportCycles<V(!new, ==)>(g: Graph<V>) returns (reports: seq<seq<V>>)
    ensures ReportsCycles(g, reports)
    ensures reports != [] <==> HasCycle(g)
  {
    var comps := StronglyConnectedComponents(g);
    reports := [];
    ghost var from: seq<nat> := [];
    for k := 0 to |comps|
      invariant |from| == |reports|
      invariant forall i :: 0 <= i < |from| ==> from[i] < k && reports[i] == comps[from[i]] && IsCycle(comps[from[i]], g)
      invariant forall i, j :: 0 <= i < j < |from| ==> from[i] < from[j]
      invariant forall l :: 0 <= l < k && IsCycle(comps[l], g) ==> l in from
    {
      if IsCycle(comps[k], g) {
        reports := reports + [comps[k]];
        from := from + [k];
      }
    }
    SelectedComponentsReport(g, comps, reports, from);
  }

  lemma SelectedComponentsReport<V(!new)>(g: Graph<V>, comps: seq<seq<V>>, reports: seq<seq<V>>, from: seq<nat>)
    requires IsCondensation(g, comps) && |from| == |reports|
    requires forall i :: 0 <= i < |from| ==> from[i] < |comps| && reports[i] == comps[from[i]] && IsCycle(comps[from[i]], g)
    requires forall i, j :: 0 <= i < j < |from| ==> from[i] < from[j]
    requires forall l :: 0 <= l < |comps| && IsCycle(comps[l], g) ==> l in from
    ensures ReportsCycles(g, reports)
    ensures reports != [] <==> HasCycle(g)
  {
    forall v | OnCycle(g, v) ensures Emitted(reports, v) {
      CycleFromReturnsTo(g, v);
      assert v in Nodes(g);
      var k :| InComponent(comps, k, v);
      ComponentCycleIsClosedWalk(g, comps, k, v);
      var i :| 0 <= i < |from| && from[i] == k;
      assert InComponent(reports, i, v);
    }
    forall v | Emitted(reports, v) ensures OnCycle(g, v) {
      var i :| InComponent(reports, i, v);
      assert InComponent(comps, from[i], v);
      ComponentCycleIsClosedWalk(g, comps, from[i], v);
    }
    forall k, l, v | InComponent(reports, k, v) && InComponent(reports, l, v)
      ensures k == l
    {
      assert InComponent(comps, from[k], v) && InComponent(comps, from[l], v);
      assert from[k] == from[l] <==> k == l;
    }
    forall k, l, v, w | InComponent(reports, k, v) && InComponent(reports, l, w)
      ensures k == l <==> Reaches(g, v, w) && Reaches(g, w, v)
    {
      assert InComponent(comps, from[k], v) && InComponent(comps, from[l], w);
      assert from[k] == from[l] <==> k == l;
    }
    if reports != [] {
      assert InComponent(reports, 0, reports[0][0]);
      assert OnCycle(g, reports[0][0]);
    }
    if p: seq<V> :| ClosedWalk(g, p) {
      assert OnCycle(g, p[0]);
      assert Emitted(reports, p[0]);
    }
  }

  datatype GateResult = GateResult(moduleCycles: seq<seq<Name>>, ownerCycles: seq<seq<Name>>)

  /** `_validate_runtime_cycles`: module cycles, then owner cycles. */
  method ValidateRuntimeCycles(edges: Graph<Name>, packages: set<Name>) returns (r: GateResult, ghost q: Graph<Name>)
    ensures IsQuotient(edges, packages, q)
    ensures ReportsCycles(edges, r.moduleCycles) && ReportsCycles(q, r.ownerCycles)
    ensures r.moduleCycles != [] <==> HasCycle(edges)
    ensures r.ownerCycles != [] <==> HasCycle(q)
    ensures r.ownerCycles == [] <==> exists layer :: Layered(edges, packages, layer)
  {
    var moduleCycles := ReportCycles(edges);
    var ownerEdges := OwnerEdges(edges, packages);
    var ownerCycles := ReportCycles(ownerEdges);
    r, q := GateResult(moduleCycles, ownerCycles), ownerEdges;
    OwnerCycleMeansNoLayers(edges, packages, q);
  }

  // ----- how the two reports relate -----

  /** Along a walk through modules of areas the areas reach each other. */
  lemma {:induction false} AreasFollowWalk(edges: Graph<Name>, packages: set<Name>, q: Graph<Name>, p: seq<Name>, areas: seq<Name>, i: nat, j: nat)
    requires IsQuotient(edges, packages, q) && IsWalk(edges, p) && i <= j < |p|
    requires |areas| == |p| && forall n :: 0 <= n < |p| ==> BelongsTo(p[n], packages, areas[n])
    ensures Reaches(q, areas[i], areas[j])
    decreases j - i
  {
    hide BelongsTo, Reaches;
    if i < j {
      AreasFollowWalk(edges, packages, q, p, areas, i, j - 1);
      assert p[j - 1 + 1] in Succ(edges, p[j - 1]);
      if areas[j - 1] != areas[j] {
        assert CrossImport(edges, packages, p[j - 1], p[j], areas[j - 1], areas[j]);
        assert QuotientEdge(edges, packages, areas[j - 1], areas[j]);
        ReachesThenStep(q, areas[i], areas[j - 1], areas[j]);
      }
    } else {
      ReachesSelf(q, areas[i]);
    }
  }

  lemma {:induction false} AreaChangesSomewhere(areas: seq<Name>, i: nat, j: nat) returns (n: nat)
    requires i <= j < |areas| && areas[i] != areas[j]
    ensures i <= n < j && areas[n] != areas[n + 1]
    decreases j - i
  {
    if areas[j - 1] != areas[j] {
      n := j - 1;
    } else {
      n := AreaChangesSomewhere(areas, i, j - 1);
    }
  }

  /** Every import from one area into another leads to a lower layer. */
  ghost predicate Layered(edges: Graph<Name>, packages: set<Name>, layer: map<Name, nat>) {
    forall u, v, a, b :: CrossImport(edges, packages, u, v, a, b) ==> LeadsDown(layer, a, b)
  }

  /** There is an owner cycle exactly when the areas cannot be layered. */
  lemma OwnerCycleMeansNoLayers(edges: Graph<Name>, packages: set<Name>, q: Graph<Name>)
    requires IsQuotient(edges, packages, q)
    ensures HasCycle(q) <==> forall layer :: !Layered(edges, packages, layer)
  {
    hide HasCycle, CrossImport;
    AcyclicIsLayered(q);
    forall layer ensures Layered(edges, packages, layer) <==> Descends(q, layer) {
      if Layered(edges, packages, layer) {
        forall a, b | b in Succ(q, a) ensures LeadsDown(layer, a, b) {
          var u, v :| CrossImport(edges, packages, u, v, a, b);
        }
      }
      if Descends(q, layer) {
        forall u, v, a, b | CrossImport(edges, packages, u, v, a, b) ensures LeadsDown(layer, a, b) {
          assert QuotientEdge(edges, packages, a, b);
        }
      }
    }
  }

  /** The imports along a walk, and no others. */
  ghost function ImportsAlong(p: seq<Name>): Graph<Name> {
    map u | u in p :: set v | v in p && exists n :: StepAt(p, n, u, v)
  }

  predicate StepAt(p: seq<Name>, n: int, u: Name, v: Name) {
    0 <= n < |p| - 1 && p[n] == u && p[n + 1] == v
  }

  /** A module cycle forces an owner cycle, whatever else is imported, exactly when its own
      imports already leave the areas without layers. */
  lemma CycleForcesOwnerCycle(packages: set<Name>, p: seq<Name>)
    requires |p| >= 2 && p[0] == p[|p| - 1]
    ensures (forall edges, q :: ClosedWalk(edges, p) && IsQuotient(edges, packages, q) ==> HasCycle(q))
      <==> forall layer :: !Layered(ImportsAlong(p), packages, layer)
  {
    hide HasCycle, IsQuotient, BelongsTo;
    var along := ImportsAlong(p);
    assert ClosedWalk(along, p) by {
      assert forall n :: 0 <= n < |p| - 1 ==> StepAt(p, n, p[n], p[n + 1]);
    }
    var own := QuotientOf(along, packages);
    OwnerCycleMeansNoLayers(along, packages, own);
    forall edges, q | ClosedWalk(edges, p) && IsQuotient(edges, packages, q) && HasCycle(own)
      ensures HasCycle(q)
    {
      OwnerCycleMeansNoLayers(edges, packages, q);
      forall layer ensures !Layered(edges, packages, layer) {
        if Layered(edges, packages, layer) {
          FewerImportsStayLayered(edges, packages, p, layer);
        }
      }
    }
  }

  lemma FewerImportsStayLayered(edges: Graph<Name>, packages: set<Name>, p: seq<Name>, layer: map<Name, nat>)
    requires ClosedWalk(edges, p) && Layered(edges, packages, layer)
    ensures Layered(ImportsAlong(p), packages, layer)
  {
    hide BelongsTo, LeadsDown;
    forall u, v, a, b | CrossImport(ImportsAlong(p), packages, u, v, a, b) ensures LeadsDown(layer, a, b) {
      var n :| StepAt(p, n, u, v);
      assert p[n + 1] in Succ(edges, p[n]);
      assert CrossImport(edges, packages, u, v, a, b);
    }
  }

  /** Every import graph has a quotient. */
  lemma QuotientOf(edges: Graph<Name>, packages: set<Name>) returns (q: Graph<Name>)
    ensures IsQuotient(edges, packages, q)
  {
    hide BelongsTo, OwnerOf;
    OwnersAreAreas(packages);
    var areas := set u | u in Nodes(edges) && OwnerOf(u, packages).Area? :: OwnerOf(u, packages).name;
    q := map a | a in areas :: set b | b in areas && QuotientEdge(edges, packages, a, b);
    forall a, b | QuotientEdge(edges, packages, a, b) ensures a in areas && b in areas {
      var u, v :| CrossImport(edges, packages, u, v, a, b);
      assert u in Nodes(edges) && v in Nodes(edges);
    }
  }

  /** A module cycle through modules of areas, two of them different, forces an owner cycle. */
  lemma SpanningCycleForcesOwnerCycle(edges: Graph<Name>, packages: set<Name>, q: Graph<Name>, p: seq<Name>, areas: seq<Name>, i: nat, j: nat)
    requires IsQuotient(edges, packages, q) && ClosedWalk(edges, p)
    requires |areas| == |p| && forall n :: 0 <= n < |p| ==> BelongsTo(p[n], packages, areas[n])
    requires i < j < |p| && areas[i] != areas[j]
    ensures HasCycle(q)
  {
    var n := AreaChangesSomewhere(areas, i, j);
    var a, b := areas[n], areas[n + 1];
    assert p[n + 1] in Succ(edges, p[n]);
    AreasFollowWalk(edges, packages, q, p, areas, n + 1, |p| - 1);
    AreasFollowWalk(edges, packages, q, p, areas, 0, n);
    OneArea(p[0], packages, areas[0], areas[|p| - 1]);
    hide BelongsTo, HasCycle;
    assert CrossImport(edges, packages, p[n], p[n + 1], a, b);
    assert QuotientEdge(edges, packages, a, b);
    CycleIsReturningEdge(q);
  }

  lemma OneArea(m: Name, packages: set<Name>, a: Name, b: Name)
    requires BelongsTo(m, packages, a) && BelongsTo(m, packages, b)
    ensures a == b
  {
    OwnerIsArea(m, packages);
  }

  /** The condition is needed: two areas that import each other only through the root
      package are a module cycle and no owner cycle. */
  lemma RootHidesOwnerCycle(q: Graph<Name>)
    requires IsQuotient(ROOT_DETOUR, {}, q)
    ensures HasCycle(ROOT_DETOUR) && !HasCycle(q)
    ensures BelongsTo(["linktools", "ai", "a"], {}, ["a"]) && BelongsTo(["linktools", "ai", "b"], {}, ["b"])
  {
    var a, b := ["linktools", "ai", "a"], ["linktools", "ai", "b"];
    AreasOfDetour();
    hide BelongsTo;
    var p := [a, b, AI_ROOT, a];
    assert ClosedWalk(ROOT_DETOUR, p) by {
      assert forall i :: 0 <= i < 3 ==> p[i + 1] in Succ(ROOT_DETOUR, p[i]);
    }
    assert Layered(ROOT_DETOUR, {}, map[["a"] := 1, ["b"] := 0]);
    OwnerCycleMeansNoLayers(ROOT_DETOUR, {}, q);
  }

  lemma AreasOfDetour()
    ensures AI_ROOT + ["a"] == ["linktools", "ai", "a"] && AI_ROOT + ["b"] == ["linktools", "ai", "b"]
    ensures forall x :: BelongsTo(["linktools", "ai", "a"], {}, x) <==> x == ["a"]
    ensures forall x :: BelongsTo(["linktools", "ai", "b"], {}, x) <==> x == ["b"]
    ensures forall x :: !BelongsTo(["linktools", "ai"], {}, x)
  {
    var a, b := ["linktools", "ai", "a"], ["linktools", "ai", "b"];
    assert a[2..] == ["a"] && b[2..] == ["b"] && a[..2] == ["linktools", "ai"] && b[..2] == ["linktools", "ai"];
    assert forall part :: IsAreaOf([part], {}, [part]);
    OwnerIsArea(a, {});
    OwnerIsArea(b, {});
  }

  const ROOT_DETOUR: Graph<Name> :=
    map[AI_ROOT + ["a"] := {AI_ROOT + ["b"]}, AI_ROOT + ["b"] := {AI_ROOT}, AI_ROOT := {AI_ROOT + ["a"]}]
}

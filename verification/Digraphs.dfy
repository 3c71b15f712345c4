/** Finite directed graphs as the repository holds them: a mapping from a node to the
    set of its targets.  A target need not be a key; such a node has no targets. */
module Digraphs {

  type Graph<V> = map<V, set<V>>

  /** The targets of a node; a node that is not a key has none. */
  function Succ<V>(g: Graph<V>, v: V): set<V> {
    if v in g then g[v] else {}
  }

  /** Every key and every target. */
  ghost function Nodes<V>(g: Graph<V>): set<V> {
    g.Keys + (set v, w | v in g && w in g[v] :: w)
  }

  // ----- walks -----

  /** A walk: consecutive elements are joined by edges. */
  ghost predicate IsWalk<V>(g: Graph<V>, p: seq<V>) {
    |p| > 0 && forall i :: 0 <= i < |p| - 1 ==> p[i + 1] in Succ(g, p[i])
  }

  ghost predicate WalkBetween<V>(g: Graph<V>, p: seq<V>, a: V, b: V) {
    IsWalk(g, p) && p[0] == a && p[|p| - 1] == b
  }

  /** A walk with at least one edge that ends where it starts; a self-loop is one. */
  ghost predicate ClosedWalk<V>(g: Graph<V>, p: seq<V>) {
    |p| >= 2 && WalkBetween(g, p, p[0], p[0])
  }

  ghost predicate HasCycle<V(!new)>(g: Graph<V>) {
    exists p: seq<V> :: ClosedWalk(g, p)
  }

  // ----- reachability -----

  /** No edge leaves the set. */
  ghost predicate ClosedUnder<V(!new)>(g: Graph<V>, s: set<V>) {
    forall v :: v in s ==> Succ(g, v) <= s
  }

  /** b lies in every closed set around a.  `ReachesIsWalk` shows that this is the
      existence of a walk; this form is the cheaper one to reason with. */
  ghost predicate Reaches<V(!new)>(g: Graph<V>, a: V, b: V) {
    forall s: set<V> :: ClosedUnder(g, s) && a in s ==> b in s
  }

  lemma ReachesSelf<V(!new)>(g: Graph<V>, a: V)
    ensures Reaches(g, a, a)
  {
  }

  lemma ReachesEdge<V(!new)>(g: Graph<V>, a: V, b: V)
    requires b in Succ(g, a)
    ensures Reaches(g, a, b)
  {
    forall s | ClosedUnder(g, s) && a in s ensures b in s {
      assert Succ(g, a) <= s;
    }
  }

  /** Following an edge and then reaching. */
  lemma ReachesStep<V(!new)>(g: Graph<V>, a: V, b: V, c: V)
    requires b in Succ(g, a) && Reaches(g, b, c)
    ensures Reaches(g, a, c)
  {
    ReachesEdge(g, a, b);
  }

  /** Reaching and then following an edge. */
  lemma ReachesThenStep<V(!new)>(g: Graph<V>, a: V, b: V, c: V)
    requires Reaches(g, a, b) && c in Succ(g, b)
    ensures Reaches(g, a, c)
  {
    ReachesEdge(g, b, c);
  }

  /** More edges reach no less. */
  lemma MoreEdgesReachMore<V(!new)>(g: Graph<V>, h: Graph<V>, a: V, b: V)
    requires Reaches(g, a, b) && forall v :: Succ(g, v) <= Succ(h, v)
    ensures Reaches(h, a, b)
  {
    forall s | ClosedUnder(h, s) && a in s ensures b in s {
      assert ClosedUnder(g, s);
    }
  }

  lemma {:induction false} WalkStaysInClosedSet<V(!new)>(g: Graph<V>, s: set<V>, p: seq<V>, n: nat)
    requires IsWalk(g, p) && p[0] in s && ClosedUnder(g, s) && n < |p|
    ensures p[n] in s
  {
    if n > 0 {
      WalkStaysInClosedSet(g, s, p, n - 1);
      assert p[n - 1 + 1] in Succ(g, p[n - 1]);
    }
  }

  lemma WalkReaches<V(!new)>(g: Graph<V>, p: seq<V>, a: V, b: V)
    requires WalkBetween(g, p, a, b)
    ensures Reaches(g, a, b)
  {
    forall s | ClosedUnder(g, s) && a in s ensures b in s {
      WalkStaysInClosedSet(g, s, p, |p| - 1);
    }
  }

  lemma WalkExtend<V>(g: Graph<V>, p: seq<V>, a: V, b: V, c: V)
    requires WalkBetween(g, p, a, b) && c in Succ(g, b)
    ensures WalkBetween(g, p + [c], a, c)
  {
    var q := p + [c];
    forall i | 0 <= i < |q| - 1 ensures q[i + 1] in Succ(g, q[i]) {
      if i < |p| - 1 { assert p[i + 1] in Succ(g, p[i]); }
    }
  }

  /** Reachability is the existence of a walk. */
  lemma ReachesIsWalk<V(!new)>(g: Graph<V>, a: V, b: V)
    ensures Reaches(g, a, b) <==> exists p: seq<V> :: WalkBetween(g, p, a, b)
  {
    if p: seq<V> :| WalkBetween(g, p, a, b) {
      WalkReaches(g, p, a, b);
    }
    if Reaches(g, a, b) {
      var s := set v | v in {a} + Nodes(g) && exists p: seq<V> :: WalkBetween(g, p, a, v);
      assert WalkBetween(g, [a], a, a);
      forall v | v in s ensures Succ(g, v) <= s {
        var p: seq<V> :| WalkBetween(g, p, a, v);
        forall w | w in Succ(g, v) ensures w in s {
          WalkExtend(g, p, a, v, w);
          assert w in Nodes(g);
        }
      }
      assert ClosedUnder(g, s);
    }
  }

  /** Reaching something else begins with an edge. */
  lemma ReachesSplit<V(!new)>(g: Graph<V>, a: V, b: V)
    requires Reaches(g, a, b) && a != b
    ensures exists c :: c in Succ(g, a) && Reaches(g, c, b)
  {
    ReachesIsWalk(g, a, b);
    var p: seq<V> :| WalkBetween(g, p, a, b);
    var q := p[1..];
    forall i | 0 <= i < |q| - 1 ensures q[i + 1] in Succ(g, q[i]) {
      assert p[i + 1 + 1] in Succ(g, p[i + 1]);
    }
    assert p[0 + 1] in Succ(g, a);
    WalkReaches(g, q, p[1], b);
  }

  /** A cycle is exactly an edge whose target reaches its source. */
  lemma CycleIsReturningEdge<V(!new)>(g: Graph<V>)
    ensures HasCycle(g) <==> exists a, b :: b in Succ(g, a) && Reaches(g, b, a)
  {
    if p: seq<V> :| ClosedWalk(g, p) {
      var q := p[1..];
      forall i | 0 <= i < |q| - 1 ensures q[i + 1] in Succ(g, q[i]) {
        assert p[i + 1 + 1] in Succ(g, p[i + 1]);
      }
      WalkReaches(g, q, p[1], p[0]);
      assert p[0 + 1] in Succ(g, p[0]);
    }
    if a, b :| b in Succ(g, a) && Reaches(g, b, a) {
      ReturningEdgeIsCycle(g, a, b);
    }
  }

  lemma ReturningEdgeIsCycle<V(!new)>(g: Graph<V>, a: V, b: V)
    requires b in Succ(g, a) && Reaches(g, b, a)
    ensures exists p: seq<V> :: ClosedWalk(g, p) && p[0] == a
  {
    ReachesIsWalk(g, b, a);
    var q: seq<V> :| WalkBetween(g, q, b, a);
    var p := [a] + q;
    forall i | 0 <= i < |p| - 1 ensures p[i + 1] in Succ(g, p[i]) {
      if i > 0 { assert q[i - 1 + 1] in Succ(g, q[i - 1]); }
    }
    assert ClosedWalk(g, p);
  }

  /** b lies one or more edges beyond a. */
  ghost predicate Beyond<V(!new)>(g: Graph<V>, a: V, b: V) {
    exists c :: c in Succ(g, a) && Reaches(g, c, b)
  }

  lemma BeyondEdge<V(!new)>(g: Graph<V>, a: V, b: V)
    requires b in Succ(g, a)
    ensures Beyond(g, a, b)
  {
    ReachesSelf(g, b);
  }

  lemma BeyondStep<V(!new)>(g: Graph<V>, a: V, b: V, c: V)
    requires Beyond(g, a, b) && c in Succ(g, b)
    ensures Beyond(g, a, c)
  {
    var d :| d in Succ(g, a) && Reaches(g, d, b);
    ReachesThenStep(g, d, b, c);
  }

  lemma BeyondSelfIsCycle<V(!new)>(g: Graph<V>, a: V)
    requires Beyond(g, a, a)
    ensures HasCycle(g)
  {
    var c :| c in Succ(g, a) && Reaches(g, c, a);
    ReturningEdgeIsCycle(g, a, c);
  }

  // ----- layers -----

  /** A non-empty set in which everybody has a successor inside it contains a cycle. */
  lemma {:induction false} StuckSetHasCycle<V(!new)>(g: Graph<V>, s: set<V>)
    requires s != {} && forall v :: v in s ==> Succ(g, v) * s != {}
    ensures HasCycle(g)
    decreases s
  {
    hide Beyond, HasCycle, Succ;
    var v :| v in s;
    var t := set w | w in s && Beyond(g, v, w);
    if v in t {
      BeyondSelfIsCycle(g, v);
    } else {
      var c :| c in Succ(g, v) * s;
      BeyondEdge(g, v, c);
      assert c in t;
      forall w | w in t ensures Succ(g, w) * t != {} {
        var x :| x in Succ(g, w) * s;
        BeyondStep(g, v, w, x);
        assert x in Succ(g, w) * t;
      }
      StuckSetHasCycle(g, t);
    }
  }

  /** Every edge leads to a lower layer. */
  ghost predicate Descends<V(!new)>(g: Graph<V>, layer: map<V, nat>) {
    forall v, w :: w in Succ(g, v) ==> LeadsDown(layer, v, w)
  }

  predicate LeadsDown<V(==)>(layer: map<V, nat>, v: V, w: V) {
    v in layer && w in layer && layer[w] < layer[v]
  }

  /** Below all other members of the set goes one without successors in it. */
  lemma {:induction false} LayersWithin<V(!new)>(g: Graph<V>, s: set<V>) returns (layer: map<V, nat>)
    requires !HasCycle(g)
    ensures layer.Keys == s && forall v, w :: v in s && w in Succ(g, v) * s ==> layer[w] < layer[v]
    decreases s
  {
    hide HasCycle, Succ;
    layer := map[];
    if s != {} {
      if forall v :: v in s ==> Succ(g, v) * s != {} {
        StuckSetHasCycle(g, s);
        assert false;
      }
      var last :| last in s && Succ(g, last) * s == {};
      var above := LayersWithin(g, s - {last});
      layer := map v | v in s :: if v == last then 0 else above[v] + 1;
      forall v, w | v in s && w in Succ(g, v) * s ensures layer[w] < layer[v] {
        assert v != last;
        assert w != last ==> w in Succ(g, v) * (s - {last});
      }
    }
  }

  lemma {:induction false} WalkDescends<V(!new)>(g: Graph<V>, layer: map<V, nat>, p: seq<V>, n: nat)
    requires Descends(g, layer) && IsWalk(g, p) && 0 < n < |p|
    ensures LeadsDown(layer, p[0], p[n])
  {
    assert p[n - 1 + 1] in Succ(g, p[n - 1]);
    if n > 1 {
      WalkDescends(g, layer, p, n - 1);
    }
  }

  /** A graph has no cycle exactly when it can be laid out in layers. */
  lemma AcyclicIsLayered<V(!new)>(g: Graph<V>)
    ensures !HasCycle(g) <==> exists layer: map<V, nat> :: Descends(g, layer)
  {
    if layer: map<V, nat> :| Descends(g, layer) {
      if p: seq<V> :| ClosedWalk(g, p) {
        WalkDescends(g, layer, p, |p| - 1);
        assert false;
      }
    }
    if !HasCycle(g) {
      var layer := LayersWithin(g, Nodes(g));
      assert Descends(g, layer);
    }
  }
}

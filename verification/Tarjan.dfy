/** Tarjan's strongly connected components, as the architecture check runs it:
    a recursive visit over shared state (counter, stack, indices, lowlinks, emitted
    components).  The order in which a node's targets and the roots are taken is left
    open, so what is proved holds for every order. */
module Tarjan {
  import opened Digraphs
  import opened Sequences

  // ----- what the result has to be -----

  /** `v` was emitted in the k-th component. */
  ghost predicate InComponent<V>(comps: seq<seq<V>>, k: int, v: V) {
    0 <= k < |comps| && v in comps[k]
  }

  ghost predicate Emitted<V>(comps: seq<seq<V>>, v: V) {
    exists k :: InComponent(comps, k, v)
  }

  /** Nobody appears twice, neither in one component nor in two. */
  ghost predicate NoRepeats<V(!new)>(comps: seq<seq<V>>) {
    && (forall k, i, j :: 0 <= k < |comps| && 0 <= i < j < |comps[k]| ==> comps[k][i] != comps[k][j])
    && (forall k, l, v :: InComponent(comps, k, v) && InComponent(comps, l, v) ==> k == l)
  }

  /** An edge never leaves a component for one emitted later. */
  ghost predicate EdgesGoBack<V(!new)>(g: Graph<V>, comps: seq<seq<V>>) {
    forall k, v, w :: InComponent(comps, k, v) && w in Succ(g, v) ==> EmittedUpTo(comps, k, w)
  }

  ghost predicate EmittedUpTo<V>(comps: seq<seq<V>>, k: int, v: V) {
    exists l :: l <= k && InComponent(comps, l, v)
  }

  /** The components partition the nodes, two nodes share one exactly when each
      reaches the other, and edges between components go to earlier ones. */
  ghost predicate IsCondensation<V(!new)>(g: Graph<V>, comps: seq<seq<V>>) {
    && (forall v :: v in Nodes(g) <==> Emitted(comps, v))
    && NoRepeats(comps)
    && (forall k :: 0 <= k < |comps| ==> comps[k] != [])
    && (forall k, l, v, w :: InComponent(comps, k, v) && InComponent(comps, l, w) ==>
          (k == l <==> Reaches(g, v, w) && Reaches(g, w, v)))
    && EdgesGoBack(g, comps)
  }

  /** Members of one component reach each other. */
  ghost predicate Connected<V(!new)>(g: Graph<V>, comps: seq<seq<V>>) {
    forall k, v, w :: InComponent(comps, k, v) && InComponent(comps, k, w) ==> Reaches(g, v, w)
  }

  /** Maximality needs no bookkeeping of its own: it follows from the emission order. */
  lemma ReachableIsEmittedEarlier<V(!new)>(g: Graph<V>, comps: seq<seq<V>>, k: int, v: V, w: V)
    requires EdgesGoBack(g, comps)
    requires InComponent(comps, k, v) && Reaches(g, v, w)
    ensures EmittedUpTo(comps, k, w)
  {
    var s := set l, u | 0 <= l <= k && l < |comps| && u in comps[l] :: u;
    assert v in s;
    forall x | x in s ensures Succ(g, x) <= s {
      var l :| 0 <= l <= k && l < |comps| && x in comps[l];
      assert InComponent(comps, l, x);
      forall y | y in Succ(g, x) ensures y in s {
        assert EmittedUpTo(comps, l, y);
      }
    }
    assert ClosedUnder(g, s);
    var l :| 0 <= l <= k && l < |comps| && w in comps[l];
    assert InComponent(comps, l, w);
  }

  lemma ComponentsAreMaximal<V(!new)>(g: Graph<V>, comps: seq<seq<V>>, k: int, l: int, v: V, w: V)
    requires EdgesGoBack(g, comps) && NoRepeats(comps)
    requires InComponent(comps, k, v) && InComponent(comps, l, w)
    requires Reaches(g, v, w) && Reaches(g, w, v)
    ensures k == l
  {
    ReachableIsEmittedEarlier(g, comps, k, v, w);
    ReachableIsEmittedEarlier(g, comps, l, w, v);
  }

  // ----- the invariant of the search -----

  /** The state of a running search.  `gray` holds the nodes whose visit has begun and
      not returned; the program has it on its call stack. */
  datatype Snapshot<V> = Snapshot(
    index: nat, stack: seq<V>, indices: map<V, nat>, comps: seq<seq<V>>, gray: set<V>)

  /** The stack lists distinct discovered nodes in the order of discovery. */
  ghost predicate StackOrdered<V>(s: Snapshot<V>) {
    && (forall i :: 0 <= i < |s.stack| ==> s.stack[i] in s.indices)
    && (forall i, j :: 0 <= i < j < |s.stack| ==> s.indices[s.stack[i]] < s.indices[s.stack[j]])
    && (forall v :: v in s.indices ==> s.indices[v] < s.index)
  }

  /** A discovered node is on the stack or emitted, never both. */
  ghost predicate Accounted<V(!new)>(s: Snapshot<V>) {
    forall v :: (v in s.indices <==> v in s.stack || Emitted(s.comps, v))
             && !(v in s.stack && Emitted(s.comps, v))
  }

  /** A node whose visit has returned has only discovered targets. */
  ghost predicate NoBlackToWhite<V>(g: Graph<V>, s: Snapshot<V>) {
    forall v, w :: v in s.indices && v !in s.gray && w in Succ(g, v) ==> w in s.indices
  }

  /** Lower stack entries reach higher ones ... */
  ghost predicate LowReachesHigh<V(!new)>(g: Graph<V>, s: Snapshot<V>) {
    forall i, j :: 0 <= i <= j < |s.stack| ==> Reaches(g, s.stack[i], s.stack[j])
  }

  /** ... and every entry reaches some node still being visited, no later than itself. */
  ghost predicate HighReachesGray<V(!new)>(g: Graph<V>, s: Snapshot<V>) {
    forall v {:trigger HasGrayBelow(g, s, v)} :: v in s.stack && v in s.indices ==> HasGrayBelow(g, s, v)
  }

  ghost predicate HasGrayBelow<V(!new)>(g: Graph<V>, s: Snapshot<V>, v: V)
    requires v in s.indices
  {
    exists u :: u in s.gray && u in s.indices && s.indices[u] <= s.indices[v] && Reaches(g, v, u)
  }

  /** What the state looks like, without any reachability. */
  ghost predicate Shape<V(!new)>(g: Graph<V>, s: Snapshot<V>) {
    && s.indices.Keys <= Nodes(g)
    && StackOrdered(s)
    && Accounted(s)
    && (forall v :: v in s.gray ==> v in s.stack)
    && NoBlackToWhite(g, s)
  }

  /** What is known of the components already emitted. */
  ghost predicate Done<V(!new)>(g: Graph<V>, comps: seq<seq<V>>) {
    && NoRepeats(comps)
    && (forall k :: 0 <= k < |comps| ==> comps[k] != [])
    && Connected(g, comps)
    && EdgesGoBack(g, comps)
  }

  ghost predicate Inv<V(!new)>(g: Graph<V>, s: Snapshot<V>) {
    && Shape(g, s)
    && LowReachesHigh(g, s)
    && HighReachesGray(g, s)
    && Done(g, s.comps)
  }

  lemma StackIsOrdered<V(!new)>(g: Graph<V>, s: Snapshot<V>)
    requires Inv(g, s)
    ensures StackOrdered(s)
  {
  }

  /** When the search is over (nothing gray, every node discovered) the emitted
      components are the condensation. */
  lemma FinishedSearch<V(!new)>(g: Graph<V>, s: Snapshot<V>)
    requires Inv(g, s) && s.gray == {} && Nodes(g) <= s.indices.Keys
    ensures IsCondensation(g, s.comps)
  {
    NothingGrayNothingStacked(g, s);
    forall k, l, v, w | InComponent(s.comps, k, v) && InComponent(s.comps, l, w)
      ensures k == l <==> Reaches(g, v, w) && Reaches(g, w, v)
    {
      if Reaches(g, v, w) && Reaches(g, w, v) {
        ComponentsAreMaximal(g, s.comps, k, l, v, w);
      }
    }
  }

  lemma NothingGrayNothingStacked<V(!new)>(g: Graph<V>, s: Snapshot<V>)
    requires StackOrdered(s) && HighReachesGray(g, s) && s.gray == {}
    ensures forall v :: v !in s.stack
  {
    assert forall v :: v in s.stack && v in s.indices ==> HasGrayBelow(g, s, v);
  }

  // ----- the three state changes keep it -----

  /** Discovery of a node. */
  function Enter<V>(s: Snapshot<V>, node: V): Snapshot<V> {
    Snapshot(s.index + 1, s.stack + [node], s.indices[node := s.index], s.comps, s.gray + {node})
  }

  lemma EnterKeepsInv<V(!new)>(g: Graph<V>, s: Snapshot<V>, node: V)
    requires Inv(g, s) && node !in s.indices && node in Nodes(g)
    requires forall u :: u in s.gray ==> Reaches(g, u, node)
    ensures Inv(g, Enter(s, node))
  {
    EnterKeepsShape(g, s, node);
    EnterKeepsLowReachesHigh(g, s, node);
    EnterKeepsHighReachesGray(g, s, node);
  }

  lemma EnterKeepsShape<V(!new)>(g: Graph<V>, s: Snapshot<V>, node: V)
    requires Shape(g, s) && node !in s.indices && node in Nodes(g)
    ensures Shape(g, Enter(s, node))
  {
  }

  lemma EnterKeepsLowReachesHigh<V(!new)>(g: Graph<V>, s: Snapshot<V>, node: V)
    requires StackOrdered(s) && LowReachesHigh(g, s) && HighReachesGray(g, s)
    requires forall u :: u in s.gray ==> Reaches(g, u, node)
    ensures LowReachesHigh(g, Enter(s, node))
  {
    var t := Enter(s, node);
    forall i, j | 0 <= i <= j < |t.stack| ensures Reaches(g, t.stack[i], t.stack[j]) {
      if i == |s.stack| {
      } else if j == |s.stack| {
        StackReaches(g, s, s.stack[i], node);
      } else {
        assert Reaches(g, s.stack[i], s.stack[j]);
      }
    }
  }

  /** What every node being visited reaches, every stack entry reaches. */
  lemma StackReaches<V(!new)>(g: Graph<V>, s: Snapshot<V>, v: V, node: V)
    requires StackOrdered(s) && HighReachesGray(g, s) && v in s.stack
    requires forall u :: u in s.gray ==> Reaches(g, u, node)
    ensures Reaches(g, v, node)
  {
    assert HasGrayBelow(g, s, v);
    var u :| u in s.gray && u in s.indices && s.indices[u] <= s.indices[v] && Reaches(g, v, u);
  }

  lemma EnterKeepsHighReachesGray<V(!new)>(g: Graph<V>, s: Snapshot<V>, node: V)
    requires StackOrdered(s) && HighReachesGray(g, s) && node !in s.indices
    ensures HighReachesGray(g, Enter(s, node))
  {
    var t := Enter(s, node);
    forall v | v in t.stack && v in t.indices ensures HasGrayBelow(g, t, v) {
      if v == node {
      } else {
        assert v in s.stack && HasGrayBelow(g, s, v);
        var u :| u in s.gray && u in s.indices && s.indices[u] <= s.indices[v] && Reaches(g, v, u);
        assert u in t.gray && t.indices[u] <= t.indices[v];
      }
    }
  }

  /** A visit that returns without emitting: the node stays on the stack. */
  lemma LeaveKeepsInv<V(!new)>(g: Graph<V>, s: Snapshot<V>, node: V, y: V)
    requires Inv(g, s) && node in s.gray && Succ(g, node) <= s.indices.Keys
    requires y in s.stack && Reaches(g, node, y) && node in s.indices && s.indices[y] < s.indices[node]
    ensures Inv(g, s.(gray := s.gray - {node}))
  {
    var t := s.(gray := s.gray - {node});
    LeaveKeepsHighReachesGray(g, s, node, y);
    assert NoBlackToWhite(g, t) by { LeaveKeepsNoBlackToWhite(g, s, node); }
  }

  lemma LeaveKeepsNoBlackToWhite<V(!new)>(g: Graph<V>, s: Snapshot<V>, node: V)
    requires NoBlackToWhite(g, s) && Succ(g, node) <= s.indices.Keys
    ensures NoBlackToWhite(g, s.(gray := s.gray - {node}))
  {
  }

  lemma LeaveKeepsHighReachesGray<V(!new)>(g: Graph<V>, s: Snapshot<V>, node: V, y: V)
    requires StackOrdered(s) && HighReachesGray(g, s)
    requires y in s.stack && Reaches(g, node, y) && node in s.indices && s.indices[y] < s.indices[node]
    ensures HighReachesGray(g, s.(gray := s.gray - {node}))
  {
    var t := s.(gray := s.gray - {node});
    assert HasGrayBelow(g, s, y);
    var u :| u in s.gray && u in s.indices && s.indices[u] <= s.indices[y] && Reaches(g, y, u);
    forall v | v in t.stack && v in t.indices ensures HasGrayBelow(g, t, v) {
      assert HasGrayBelow(g, s, v);
      var x :| x in s.gray && x in s.indices && s.indices[x] <= s.indices[v] && Reaches(g, v, x);
      if x == node {
        assert u in t.gray;
      } else {
        assert x in t.gray;
      }
    }
  }

  /** What `EmitKeepsInv` asks of the state: `node` sits at position n, nothing above it
      is still being visited, and no edge leads from there to below it. */
  ghost predicate ReadyToEmit<V(!new)>(g: Graph<V>, s: Snapshot<V>, node: V, n: nat) {
    && n < |s.stack| && s.stack[n] == node && node in s.gray
    && (forall i :: n < i < |s.stack| ==> s.stack[i] !in s.gray)
    && Succ(g, node) <= s.indices.Keys
    && (forall i, w :: n <= i < |s.stack| && w in Succ(g, s.stack[i]) ==> w !in s.stack[..n])
  }

  /** `component` is the stack from position n upwards, top first. */
  ghost predicate Popped<V>(s: Snapshot<V>, n: nat, component: seq<V>) {
    && n <= |s.stack|
    && |component| == |s.stack| - n
    && forall i :: 0 <= i < |component| ==> component[i] == s.stack[|s.stack| - 1 - i]
  }

  function Emit<V>(s: Snapshot<V>, node: V, n: nat, component: seq<V>): Snapshot<V>
    requires n <= |s.stack|
  {
    Snapshot(s.index, s.stack[..n], s.indices, s.comps + [component], s.gray - {node})
  }

  /** A visit that emits everything from its node upwards. */
  lemma EmitKeepsInv<V(!new)>(g: Graph<V>, s: Snapshot<V>, node: V, n: nat, component: seq<V>)
    requires Inv(g, s) && ReadyToEmit(g, s, node, n) && Popped(s, n, component)
    ensures Inv(g, Emit(s, node, n, component))
  {
    EmitKeepsShape(g, s, node, n, component);
    EmitKeepsHighReachesGray(g, s, node, n, component);
    EmitKeepsDone(g, s, node, n, component);
    var t := Emit(s, node, n, component);
    forall i, j | 0 <= i <= j < |t.stack| ensures Reaches(g, t.stack[i], t.stack[j]) {
      assert Reaches(g, s.stack[i], s.stack[j]);
    }
  }

  lemma EmitKeepsShape<V(!new)>(g: Graph<V>, s: Snapshot<V>, node: V, n: nat, component: seq<V>)
    requires Shape(g, s) && ReadyToEmit(g, s, node, n) && Popped(s, n, component)
    ensures Shape(g, Emit(s, node, n, component))
  {
    PoppedMembers(s, n, component);
    EmittedAppend(s.comps, component);
    var t := Emit(s, node, n, component);
    forall v | v in t.gray ensures v in t.stack {
      var i :| 0 <= i < |s.stack| && s.stack[i] == v;
    }
  }

  lemma EmitKeepsHighReachesGray<V(!new)>(g: Graph<V>, s: Snapshot<V>, node: V, n: nat, component: seq<V>)
    requires StackOrdered(s) && HighReachesGray(g, s) && ReadyToEmit(g, s, node, n) && Popped(s, n, component)
    ensures HighReachesGray(g, Emit(s, node, n, component))
  {
    var t := Emit(s, node, n, component);
    forall v | v in t.stack && v in t.indices ensures HasGrayBelow(g, t, v) {
      assert v in s.stack && HasGrayBelow(g, s, v);
      var u :| u in s.gray && u in s.indices && s.indices[u] <= s.indices[v] && Reaches(g, v, u);
      var i :| 0 <= i < n && s.stack[i] == v;
      assert s.indices[v] < s.indices[s.stack[n]];
      assert u in t.gray;
    }
  }

  lemma EmitKeepsDone<V(!new)>(g: Graph<V>, s: Snapshot<V>, node: V, n: nat, component: seq<V>)
    requires Inv(g, s) && ReadyToEmit(g, s, node, n) && Popped(s, n, component)
    ensures Done(g, s.comps + [component])
  {
    EmitKeepsNoRepeats(s, n, component);
    EmitKeepsConnected(g, s, node, n, component);
    EmitKeepsEdgesGoBack(g, s, node, n, component);
  }

  lemma PoppedMembers<V(!new)>(s: Snapshot<V>, n: nat, component: seq<V>)
    requires StackOrdered(s) && Popped(s, n, component)
    ensures forall v :: v in s.stack <==> v in s.stack[..n] || v in component
    ensures forall v :: !(v in s.stack[..n] && v in component)
    ensures forall v :: v in component ==> v in s.stack[n..]
  {
    forall v | v in s.stack && v !in s.stack[..n] ensures v in component {
      var i :| 0 <= i < |s.stack| && s.stack[i] == v;
      assert forall j :: 0 <= j < n ==> s.stack[..n][j] == s.stack[j];
      assert component[|s.stack| - 1 - i] == v;
    }
    forall v | v in component ensures v in s.stack[n..] && v in s.stack && v !in s.stack[..n] {
      var i :| 0 <= i < |component| && component[i] == v;
      assert s.stack[n..][|s.stack| - 1 - i - n] == v;
    }
  }

  lemma EmittedAppend<V(!new)>(comps: seq<seq<V>>, c: seq<V>)
    ensures forall k, v :: InComponent(comps + [c], k, v) <==> InComponent(comps, k, v) || (k == |comps| && v in c)
    ensures forall v :: Emitted(comps + [c], v) <==> Emitted(comps, v) || v in c
  {
    var all := comps + [c];
    forall v | Emitted(comps, v) || v in c ensures Emitted(all, v) {
      if v in c {
        assert InComponent(all, |comps|, v);
      } else {
        var k :| InComponent(comps, k, v);
        assert InComponent(all, k, v);
      }
    }
    forall v | Emitted(all, v) ensures Emitted(comps, v) || v in c {
      var k :| InComponent(all, k, v);
      if k < |comps| { assert InComponent(comps, k, v); }
    }
  }

  lemma EmitKeepsNoRepeats<V(!new)>(s: Snapshot<V>, n: nat, component: seq<V>)
    requires StackOrdered(s) && Accounted(s) && NoRepeats(s.comps) && Popped(s, n, component)
    ensures NoRepeats(s.comps + [component])
  {
    var all := s.comps + [component];
    EmittedAppend(s.comps, component);
    PoppedMembers(s, n, component);
    forall k, l, v | InComponent(all, k, v) && InComponent(all, l, v) ensures k == l {
      if v in component {
        assert !Emitted(s.comps, v);
      }
    }
    forall i, j | 0 <= i < j < |component| ensures component[i] != component[j] {
      assert s.indices[component[j]] < s.indices[component[i]];
    }
  }

  /** Whatever is about to be popped and the node reach each other. */
  lemma PoppedReachesNode<V(!new)>(g: Graph<V>, s: Snapshot<V>, node: V, n: nat, v: V)
    requires StackOrdered(s) && LowReachesHigh(g, s) && HighReachesGray(g, s)
    requires forall u :: u in s.gray ==> u in s.stack
    requires n < |s.stack| && s.stack[n] == node && v in s.stack[n..]
    requires forall i :: n < i < |s.stack| ==> s.stack[i] !in s.gray
    ensures Reaches(g, v, node) && Reaches(g, node, v)
  {
    var i :| n <= i < |s.stack| && s.stack[i] == v;
    assert Reaches(g, s.stack[n], s.stack[i]);
    forall u | u in s.gray ensures Reaches(g, u, node) {
      var j :| 0 <= j < |s.stack| && s.stack[j] == u;
      assert Reaches(g, s.stack[j], s.stack[n]);
    }
    StackReaches(g, s, v, node);
  }

  lemma EmitKeepsConnected<V(!new)>(g: Graph<V>, s: Snapshot<V>, node: V, n: nat, component: seq<V>)
    requires StackOrdered(s) && LowReachesHigh(g, s) && HighReachesGray(g, s)
    requires forall u :: u in s.gray ==> u in s.stack
    requires ReadyToEmit(g, s, node, n) && Popped(s, n, component) && Connected(g, s.comps)
    ensures Connected(g, s.comps + [component])
  {
    PoppedMembers(s, n, component);
    forall v | v in component ensures Reaches(g, v, node) && Reaches(g, node, v) {
      PoppedReachesNode(g, s, node, n, v);
    }
    ConnectedAppend(g, s.comps, component, node);
  }

  lemma ConnectedAppend<V(!new)>(g: Graph<V>, comps: seq<seq<V>>, c: seq<V>, node: V)
    requires Connected(g, comps)
    requires forall v :: v in c ==> Reaches(g, v, node) && Reaches(g, node, v)
    ensures Connected(g, comps + [c])
  {
    var all := comps + [c];
    forall k, v, w | InComponent(all, k, v) && InComponent(all, k, w) ensures Reaches(g, v, w) {
      if k < |comps| {
        assert InComponent(comps, k, v) && InComponent(comps, k, w);
      }
    }
  }

  lemma EmitKeepsEdgesGoBack<V(!new)>(g: Graph<V>, s: Snapshot<V>, node: V, n: nat, component: seq<V>)
    requires Shape(g, s) && EdgesGoBack(g, s.comps) && ReadyToEmit(g, s, node, n) && Popped(s, n, component)
    ensures EdgesGoBack(g, s.comps + [component])
  {
    var all := s.comps + [component];
    EmittedAppend(s.comps, component);
    PoppedMembers(s, n, component);
    forall k, v, w | InComponent(all, k, v) && w in Succ(g, v) ensures EmittedUpTo(all, k, w) {
      if k < |s.comps| {
        assert InComponent(s.comps, k, v);
        assert EmittedUpTo(s.comps, k, w);
        var l :| l <= k && InComponent(s.comps, l, w);
        assert InComponent(all, l, w);
      } else {
        var i :| n <= i < |s.stack| && s.stack[i] == v;
        assert w in s.indices && w !in s.stack[..n];
        assert Emitted(all, w);
      }
    }
  }

  // ----- what one visit achieves -----

  /** Nothing discovered is forgotten, the old stack stays at the bottom and emitted
      components stay first. */
  ghost predicate Extends<V(!new)>(s: Snapshot<V>, t: Snapshot<V>) {
    && (forall v :: v in s.indices ==> v in t.indices && t.indices[v] == s.indices[v])
    && s.stack <= t.stack
    && s.comps <= t.comps
    && s.index <= t.index
  }

  /** Edges from stack positions `from` onwards into the lowest `floor` entries lead to
      indices of at least `low`. */
  ghost predicate LowBounds<V(!new)>(g: Graph<V>, s: Snapshot<V>, floor: nat, from: nat, low: nat) {
    && floor <= from <= |s.stack|
    && forall i, w {:trigger w in Succ(g, s.stack[i])} :: from <= i < |s.stack| && w in Succ(g, s.stack[i]) && w in s.stack[..floor]
         ==> w in s.indices && low <= s.indices[w]
  }

  /** Some stack entry has index `low` and `node` reaches it. */
  ghost predicate LowWitnessed<V(!new)>(g: Graph<V>, s: Snapshot<V>, node: V, low: nat) {
    exists y :: y in s.stack && y in s.indices && s.indices[y] == low && Reaches(g, node, y)
  }

  /** A visit of `node` turned s into t: the node is still on the stack with a lowlink it
      reaches below its own index, or it is emitted and its lowlink is its index. */
  ghost predicate Visited<V(!new)>(g: Graph<V>, s: Snapshot<V>, t: Snapshot<V>, node: V, low: nat) {
    && Inv(g, t) && Extends(s, t) && t.gray == s.gray
    && node in t.indices && s.index <= t.indices[node]
    && LowBounds(g, t, |s.stack|, |s.stack|, low)
    && (if node in t.stack then low < t.indices[node] && LowWitnessed(g, t, node, low)
        else low == t.indices[node])
  }

  /** Half-way through a visit that began in s: t is the present state, `low` the lowlink
      so far and `rest` the targets not yet looked at. */
  ghost predicate Visiting<V(!new)>(g: Graph<V>, s: Snapshot<V>, t: Snapshot<V>, node: V, low: nat, rest: set<V>) {
    && Inv(g, t) && Extends(s, t) && t.gray == s.gray + {node}
    && s.stack + [node] <= t.stack
    && node in t.indices && t.indices[node] == s.index
    && low <= s.index && LowWitnessed(g, t, node, low)
    && LowBounds(g, t, |s.stack|, |s.stack| + 1, low)
    && Handled(g, s, t, node, low, rest)
    && (forall u :: u in t.gray ==> Reaches(g, u, node))
  }

  ghost predicate Handled<V(!new)>(g: Graph<V>, s: Snapshot<V>, t: Snapshot<V>, node: V, low: nat, rest: set<V>) {
    forall w :: w in Succ(g, node) && w !in rest ==>
      w in t.indices && (w in s.stack ==> low <= t.indices[w])
  }

  lemma VisitBegins<V(!new)>(g: Graph<V>, s: Snapshot<V>, node: V)
    requires Inv(g, s) && node !in s.indices && node in Nodes(g)
    requires forall u :: u in s.gray ==> Reaches(g, u, node)
    ensures Visiting(g, s, Enter(s, node), node, s.index, Succ(g, node))
  {
    EnterKeepsInv(g, s, node);
    assert Enter(s, node).stack[|s.stack|] == node;
  }

  /** An undiscovered target may be visited. */
  lemma TargetReady<V(!new)>(g: Graph<V>, s: Snapshot<V>, t: Snapshot<V>, node: V, target: V)
    requires Inv(g, t) && target in Succ(g, node) && target !in t.indices
    requires s.stack + [node] <= t.stack && t.gray == s.gray + {node}
    requires forall u :: u in t.gray ==> Reaches(g, u, node)
    ensures target in Nodes(g)
    ensures forall u :: u in t.gray ==> Reaches(g, u, target)
  {
    forall u | u in t.gray ensures Reaches(g, u, target) {
      ReachesThenStep(g, u, node, target);
    }
  }

  /** The recursive visit of an undiscovered target. */
  lemma TargetVisited<V(!new)>(g: Graph<V>, s: Snapshot<V>, t: Snapshot<V>, u: Snapshot<V>,
                               node: V, target: V, low: nat, lowTarget: nat, rest: set<V>)
    requires Visiting(g, s, t, node, low, rest) && target in rest && target in Succ(g, node)
    requires target !in t.indices && Visited(g, t, u, target, lowTarget)
    ensures Visiting(g, s, u, node, Min(low, lowTarget), rest - {target})
  {
    hide Inv, StackOrdered, Handled, LowBounds, LowWitnessed, Reaches;
    StackIsOrdered(g, t);
    TargetWitness(g, s, t, u, node, target, low, lowTarget);
    TargetBounds(g, s, t, u, node, low, lowTarget, rest);
    TargetHandled(g, s, t, u, node, target, low, lowTarget, rest);
  }

  lemma TargetHandled<V(!new)>(g: Graph<V>, s: Snapshot<V>, t: Snapshot<V>, u: Snapshot<V>,
                               node: V, target: V, low: nat, lowTarget: nat, rest: set<V>)
    requires Extends(t, u) && Handled(g, s, t, node, low, rest) && target in u.indices
    requires target in s.stack ==> target in t.indices
    requires target !in t.indices
    ensures Handled(g, s, u, node, Min(low, lowTarget), rest - {target})
  {
  }

  lemma TargetWitness<V(!new)>(g: Graph<V>, s: Snapshot<V>, t: Snapshot<V>, u: Snapshot<V>,
                               node: V, target: V, low: nat, lowTarget: nat)
    requires target in Succ(g, node) && low <= s.index <= t.index && LowWitnessed(g, t, node, low)
    requires node in t.indices && t.indices[node] == s.index < t.index
    requires Visited(g, t, u, target, lowTarget)
    ensures LowWitnessed(g, u, node, Min(low, lowTarget))
  {
    if target in u.stack && lowTarget < low {
      var y :| y in u.stack && y in u.indices && u.indices[y] == lowTarget && Reaches(g, target, y);
      ReachesStep(g, node, target, y);
    } else {
      var y :| y in t.stack && y in t.indices && t.indices[y] == low && Reaches(g, node, y);
      assert y in u.stack && u.indices[y] == low;
    }
  }

  lemma TargetBounds<V(!new)>(g: Graph<V>, s: Snapshot<V>, t: Snapshot<V>, u: Snapshot<V>,
                              node: V, low: nat, lowTarget: nat, rest: set<V>)
    requires StackOrdered(t) && s.stack + [node] <= t.stack && Extends(t, u)
    requires LowBounds(g, t, |s.stack|, |s.stack| + 1, low)
    requires LowBounds(g, u, |t.stack|, |t.stack|, lowTarget)
    ensures LowBounds(g, u, |s.stack|, |s.stack| + 1, Min(low, lowTarget))
  {
    assert t.stack[..|s.stack|] == u.stack[..|s.stack|];
    forall i, w | |s.stack| + 1 <= i < |u.stack| && w in Succ(g, u.stack[i]) && w in u.stack[..|s.stack|]
      ensures w in u.indices && Min(low, lowTarget) <= u.indices[w]
    {
      assert w in t.stack[..|s.stack|] && w in t.stack;
      if i < |t.stack| {
        assert u.stack[i] == t.stack[i];
      } else {
        assert w in u.stack[..|t.stack|];
      }
    }
  }

  /** A target that was discovered before. */
  lemma TargetKnown<V(!new)>(g: Graph<V>, s: Snapshot<V>, t: Snapshot<V>, node: V, target: V, low: nat, rest: set<V>)
    requires Visiting(g, s, t, node, low, rest) && target in Succ(g, node) && target in t.indices
    ensures Visiting(g, s, t, node, if target in t.stack then Min(low, t.indices[target]) else low, rest - {target})
  {
    if target in t.stack {
      ReachesEdge(g, node, target);
      assert LowWitnessed(g, t, node, Min(low, t.indices[target]));
    } else {
      forall v | v in s.stack ensures v in t.stack { }
    }
  }

  /** The lowlink went below the index: the node waits on the stack. */
  lemma VisitEndsWaiting<V(!new)>(g: Graph<V>, s: Snapshot<V>, t: Snapshot<V>, node: V, low: nat)
    requires Inv(g, s) && node !in s.indices
    requires Visiting(g, s, t, node, low, {}) && low != s.index
    ensures Visited(g, s, t.(gray := t.gray - {node}), node, low)
  {
    var u := t.(gray := t.gray - {node});
    var y :| y in t.stack && y in t.indices && t.indices[y] == low && Reaches(g, node, y);
    LeaveKeepsInv(g, t, node, y);
    assert t.stack[|s.stack|] == node;
    WholeBounds(g, s, t, node, low);
    assert LowWitnessed(g, u, node, low);
  }

  lemma WholeBounds<V(!new)>(g: Graph<V>, s: Snapshot<V>, t: Snapshot<V>, node: V, low: nat)
    requires StackOrdered(t) && s.stack + [node] <= t.stack
    requires LowBounds(g, t, |s.stack|, |s.stack| + 1, low)
    requires Handled(g, s, t, node, low, {})
    ensures LowBounds(g, t, |s.stack|, |s.stack|, low)
  {
    assert t.stack[..|s.stack|] == s.stack && t.stack[|s.stack|] == node;
  }

  /** The lowlink is the index: everything from the node upwards is one component. */
  lemma VisitEndsEmitting<V(!new)>(g: Graph<V>, s: Snapshot<V>, t: Snapshot<V>, node: V, component: seq<V>)
    requires Inv(g, s) && node !in s.indices
    requires Visiting(g, s, t, node, s.index, {}) && Popped(t, |s.stack|, component)
    ensures Visited(g, s, Emit(t, node, |s.stack|, component), node, s.index)
  {
    var n := |s.stack|;
    var u := Emit(t, node, n, component);
    assert t.stack[..n] == s.stack && t.stack[n] == node;
    WholeBounds(g, s, t, node, s.index);
    assert ReadyToEmit(g, t, node, n) by {
      forall i | n < i < |t.stack| ensures t.stack[i] !in t.gray {
        var x := t.stack[i];
        assert t.indices[x] > s.index;
        assert x in s.gray ==> x in s.stack && x in s.indices;
      }
      forall i, w | n <= i < |t.stack| && w in Succ(g, t.stack[i]) ensures w !in t.stack[..n] {
        assert forall v :: v in s.indices ==> s.indices[v] < s.index;
      }
    }
    EmitKeepsInv(g, t, node, n, component);
    assert node !in s.stack by { assert node in s.stack ==> node in s.indices; }
  }

  lemma PopMember<V(!new)>(s: Snapshot<V>, k: nat)
    requires StackOrdered(s) && 0 < k <= |s.stack|
    ensures Members(s.stack[..k - 1]) == Members(s.stack[..k]) - {s.stack[k - 1]}
    ensures s.stack[..k][..k - 1] == s.stack[..k - 1]
  {
    forall i | 0 <= i < k - 1 ensures s.stack[i] != s.stack[k - 1] {
      assert s.indices[s.stack[i]] < s.indices[s.stack[k - 1]];
    }
    assert s.stack[..k] == s.stack[..k - 1] + [s.stack[k - 1]];
  }

  function Min(a: nat, b: nat): nat {
    if a <= b then a else b
  }

  // ----- the search itself -----

  /** The variables that the nested visit function shares.  `state` is what the proofs
      speak about; `Valid` ties the variables to it. */
  class Search<V(!new, ==)> {
    const graph: Graph<V>
    var index: nat
    var stack: seq<V>
    var indices: map<V, nat>
    var lowlinks: map<V, nat>
    var onStack: set<V>
    var components: seq<seq<V>>
    ghost var state: Snapshot<V>

    ghost predicate Mirrors()
      reads this
    {
      && index == state.index && stack == state.stack && indices == state.indices && components == state.comps
      && onStack == Members(stack)
      && lowlinks.Keys == indices.Keys
    }

    constructor (graph: Graph<V>)
      ensures this.graph == graph && Mirrors()
      ensures state == Snapshot(0, [], map[], [], {})
    {
      this.graph := graph;
      index, stack, indices, lowlinks, onStack, components := 0, [], map[], map[], {}, [];
      state := Snapshot(0, [], map[], [], {});
    }

    /** First part of a visit: number the node and push it. */
    method Discover(node: V)
      requires Mirrors()
      modifies this
      ensures Mirrors() && state == Enter(old(state), node)
      ensures lowlinks == old(lowlinks)[node := old(index)]
    {
      indices := indices[node := index];
      lowlinks := lowlinks[node := index];
      index := index + 1;
      stack := stack + [node];
      onStack := onStack + {node};
      state := Enter(state, node);
    }

    /** Take the stack down to and including `node`, which sits at position n. */
    method PopDownTo(node: V, ghost n: nat) returns (component: seq<V>)
      requires Mirrors() && StackOrdered(state)
      requires n < |stack| && stack[n] == node
      modifies `stack, `onStack
      ensures stack == state.stack[..n] && Popped(state, n, component)
      ensures onStack == Members(stack)
    {
      hide StackOrdered;
      component := [];
      while true
        invariant n < |stack| <= |state.stack| && stack == state.stack[..|stack|]
        invariant |component| == |state.stack| - |stack|
        invariant forall i :: 0 <= i < |component| ==> component[i] == state.stack[|state.stack| - 1 - i]
        invariant onStack == Members(stack)
        decreases |stack|
      {
        var item := stack[|stack| - 1];
        PopMember(state, |stack|);
        stack := stack[..|stack| - 1];
        onStack := onStack - {item};
        component := component + [item];
        if item == node {
          break;
        }
      }
    }

    /** A visit that began in s looks at a target nobody has discovered. */
    method FollowNew(node: V, target: V, ghost s: Snapshot<V>, ghost rest: set<V>)
      requires Mirrors() && node in lowlinks
      requires Visiting(graph, s, state, node, lowlinks[node], rest)
      requires target in rest && target in Succ(graph, node) && target !in indices
      modifies this
      ensures Mirrors() && node in lowlinks
      ensures Visiting(graph, s, state, node, lowlinks[node], rest - {target})
      ensures forall v :: v in old(lowlinks) && v != node ==> v in lowlinks && lowlinks[v] == old(lowlinks[v])
      decreases Nodes(graph) - indices.Keys, 1
    {
      hide Inv, LowBounds, Handled, LowWitnessed, Reaches;
      ghost var before, low := state, lowlinks[node];
      TargetReady(graph, s, before, node, target);
      Visit(target);
      TargetVisited(graph, s, before, state, node, target, low, lowlinks[target], rest);
      lowlinks := lowlinks[node := Min(lowlinks[node], lowlinks[target])];
    }

    /** A visit that began in s looks at a target discovered before. */
    method FollowKnown(node: V, target: V, ghost s: Snapshot<V>, ghost rest: set<V>)
      requires Mirrors() && node in lowlinks
      requires Visiting(graph, s, state, node, lowlinks[node], rest)
      requires target in Succ(graph, node) && target in indices
      modifies `lowlinks
      ensures Mirrors() && node in lowlinks
      ensures Visiting(graph, s, state, node, lowlinks[node], rest - {target})
      ensures forall v :: v in old(lowlinks) && v != node ==> v in lowlinks && lowlinks[v] == old(lowlinks[v])
    {
      TargetKnown(graph, s, state, node, target, lowlinks[node], rest);
      if target in onStack {
        lowlinks := lowlinks[node := Min(lowlinks[node], indices[target])];
      }
    }

    /** End of a visit that began in s and emits a component. */
    method EmitComponent(node: V, ghost s: Snapshot<V>)
      requires Mirrors() && node in lowlinks
      requires Inv(graph, s) && node !in s.indices
      requires Visiting(graph, s, state, node, s.index, {})
      modifies `stack, `onStack, `components, `state
      ensures Mirrors() && Visited(graph, s, state, node, s.index)
    {
      hide Inv, StackOrdered, LowBounds, Handled, LowWitnessed, Reaches;
      StackIsOrdered(graph, state);
      var component := PopDownTo(node, |s.stack|);
      components := components + [component];
      VisitEndsEmitting(graph, s, state, node, component);
      state := Emit(state, node, |s.stack|, component);
    }

    /** Explore everything reachable from `node` that is not discovered yet. */
    method Visit(node: V)
      requires Mirrors() && Inv(graph, state) && node !in indices && node in Nodes(graph)
      requires forall u :: u in state.gray ==> Reaches(graph, u, node)
      modifies this
      ensures Mirrors() && node in lowlinks
      ensures Visited(graph, old(state), state, node, lowlinks[node])
      ensures forall v :: v in old(lowlinks) ==> v in lowlinks && lowlinks[v] == old(lowlinks[v])
      decreases Nodes(graph) - indices.Keys, 0
    {
      hide Inv, LowBounds, Handled, LowWitnessed, Reaches;
      VisitBegins(graph, state, node);
      Discover(node);
      var targets := Succ(graph, node);
      while targets != {}
        invariant Mirrors() && node in lowlinks && targets <= Succ(graph, node)
        invariant Visiting(graph, old(state), state, node, lowlinks[node], targets)
        invariant forall v :: v in old(lowlinks) ==> v in lowlinks && lowlinks[v] == old(lowlinks[v])
        decreases targets
      {
        var target :| target in targets;
        if target !in indices {
          FollowNew(node, target, old(state), targets);
        } else {
          FollowKnown(node, target, old(state), targets);
        }
        targets := targets - {target};
      }
      if lowlinks[node] != indices[node] {
        VisitEndsWaiting(graph, old(state), state, node, lowlinks[node]);
        state := state.(gray := state.gray - {node});
      } else {
        EmitComponent(node, old(state));
      }
    }
  }

  /** `_strongly_connected_components`: the condensation of the graph. */
  method StronglyConnectedComponents<V(!new, ==)>(graph: Graph<V>) returns (components: seq<seq<V>>)
    ensures IsCondensation(graph, components)
  {
    var search := new Search(graph);
    var nodes := graph.Keys;
    var keys := graph.Keys;
    while keys != {}
      invariant keys <= graph.Keys
      invariant nodes == graph.Keys + (set v, w | v in graph.Keys - keys && w in graph[v] :: w)
      decreases keys
    {
      var key :| key in keys;
      nodes := nodes + graph[key];
      keys := keys - {key};
    }
    assert nodes == Nodes(graph);
    var roots := nodes;
    while roots != {}
      invariant search.graph == graph && search.Mirrors() && Inv(graph, search.state)
      invariant search.state.gray == {} && roots <= nodes
      invariant nodes - roots <= search.indices.Keys
      decreases roots
    {
      var node :| node in roots;
      roots := roots - {node};
      if node !in search.indices {
        search.Visit(node);
      }
    }
    FinishedSearch(graph, search.state);
    components := search.components;
  }
}

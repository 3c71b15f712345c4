/** Restarts and recreations that follow from changed services: one pass in dependency
    order against the simultaneous least fixpoint of the propagation rules. */
module DependentActions {
  import opened Options
  import opened Digraphs
  import opened Compose
  import opened Sequences

  // ----- the rules -----

  /** The two growing sets: services updated, and services recreated. */
  datatype Changed = Changed(updated: set<Service>, recreated: set<Service>)

  predicate Within(a: Changed, b: Changed) {
    a.updated <= b.updated && a.recreated <= b.recreated
  }

  /** A provider of one of the namespaces was recreated. */
  predicate MustRecreate(spec: Spec, recreated: set<Service>) {
    spec.namespaces * recreated != {}
  }

  /** A dependency that asks for restarts was updated. */
  predicate MustRestart(spec: Spec, updated: set<Service>, namespaceOnly: bool) {
    !namespaceOnly && exists d :: d in Dependencies(spec) && Dependencies(spec)[d].restart && d in updated
  }

  /** `_dependency_action`: Some(true) recreates, Some(false) restarts. */
  function DependencyAction(spec: Spec, c: Changed, namespaceOnly: bool): Option<bool> {
    if MustRecreate(spec, c.recreated) then Some(true)
    else if MustRestart(spec, c.updated, namespaceOnly) then Some(false)
    else None
  }

  /** Closed under the rules, for the given services. */
  ghost predicate Stationary(pending: Definitions, c: Changed, namespaceOnly: bool) {
    forall s :: s in pending ==>
      && (MustRecreate(pending[s], c.recreated) ==> s in c.recreated && s in c.updated)
      && (MustRestart(pending[s], c.updated, namespaceOnly) ==> s in c.updated)
  }

  ghost predicate IsLeastStationary(pending: Definitions, start: Changed, c: Changed, namespaceOnly: bool) {
    && Within(start, c) && Stationary(pending, c, namespaceOnly)
    && forall d :: Within(start, d) && Stationary(pending, d, namespaceOnly) ==> Within(c, d)
  }

  /** The action list says for each service what the final sets demand of it. */
  ghost predicate ActionsMatch(pending: Definitions, c: Changed, namespaceOnly: bool, actions: seq<(Service, bool)>) {
    && (forall i, j :: 0 <= i < j < |actions| ==> actions[i].0 != actions[j].0)
    && (forall i :: 0 <= i < |actions| ==> actions[i].0 in pending)
    && (forall s :: s in pending ==>
          DependencyAction(pending[s], c, namespaceOnly) == ActionOf(actions, s))
  }

  ghost function ActionOf(actions: seq<(Service, bool)>, s: Service): Option<bool> {
    if actions == [] then None
    else if actions[|actions| - 1].0 == s then Some(actions[|actions| - 1].1)
    else ActionOf(actions[..|actions| - 1], s)
  }

  predicate DependsOn(pending: Definitions, s: Service, d: Service) {
    s in pending && d in Dependencies(pending[s])
  }

  /** Each listed service comes after everything it depends on that is listed. */
  ghost predicate ActionsOrdered(pending: Definitions, actions: seq<(Service, bool)>) {
    forall i, j :: 0 <= i < |actions| && 0 <= j < |actions| && DependsOn(pending, actions[i].0, actions[j].0) ==> j < i
  }

  // ----- the pass -----

  /** What the pass knows after the first n services of the order. */
  ghost predicate Passed(pending: Definitions, order: seq<Service>, n: nat, start: Changed, c: Changed,
                         namespaceOnly: bool, actions: seq<(Service, bool)>)
    requires n <= |order|
  {
    && Within(start, c)
    && (forall d :: Within(start, d) && Stationary(pending, d, namespaceOnly) ==> Within(c, d))
    && (forall s :: s in c.updated && s !in start.updated ==> s in order[..n])
    && (forall s :: s in c.recreated && s !in start.recreated ==> s in order[..n])
    && (forall s :: s in order[..n] && s in pending ==> Consistent(pending[s], s, c, namespaceOnly, actions))
    && (forall i :: 0 <= i < |actions| ==> actions[i].0 in order[..n])
  }

  ghost predicate Consistent(spec: Spec, s: Service, c: Changed, namespaceOnly: bool, actions: seq<(Service, bool)>) {
    && DependencyAction(spec, c, namespaceOnly) == ActionOf(actions, s)
    && (MustRecreate(spec, c.recreated) ==> s in c.recreated && s in c.updated)
    && (MustRestart(spec, c.updated, namespaceOnly) ==> s in c.updated)
  }

  function Update(c: Changed, s: Service, rebuild: bool): Changed {
    Changed(c.updated + {s}, if rebuild then c.recreated + {s} else c.recreated)
  }

  /** What a service looks at does not change once its dependencies are done. */
  lemma LaterChangesDoNotMatter(spec: Spec, c: Changed, s: Service, rebuild: bool, namespaceOnly: bool)
    requires s !in Dependencies(spec)
    ensures DependencyAction(spec, Update(c, s, rebuild), namespaceOnly) == DependencyAction(spec, c, namespaceOnly)
    ensures MustRecreate(spec, Update(c, s, rebuild).recreated) == MustRecreate(spec, c.recreated)
    ensures MustRestart(spec, Update(c, s, rebuild).updated, namespaceOnly) == MustRestart(spec, c.updated, namespaceOnly)
  {
    NamespacesAreDependencies(spec);
    assert s !in spec.namespaces;
    var d := Update(c, s, rebuild);
    assert spec.namespaces * d.recreated == spec.namespaces * c.recreated;
  }

  /** A service that must change is in every stationary pair above. */
  lemma ForcedChange(pending: Definitions, s: Service, c: Changed, d: Changed, namespaceOnly: bool, rebuild: bool)
    requires s in pending && Within(c, d) && Stationary(pending, d, namespaceOnly)
    requires DependencyAction(pending[s], c, namespaceOnly) == Some(rebuild)
    ensures Within(Update(c, s, rebuild), d)
  {
    assert MustRecreate(pending[s], c.recreated) ==> MustRecreate(pending[s], d.recreated) by {
      if x :| x in pending[s].namespaces * c.recreated {
        assert x in pending[s].namespaces * d.recreated;
      }
    }
  }

  lemma {:induction false} NoActionYet(actions: seq<(Service, bool)>, s: Service)
    requires forall i :: 0 <= i < |actions| ==> actions[i].0 != s
    ensures ActionOf(actions, s) == None
  {
    if actions != [] {
      NoActionYet(actions[..|actions| - 1], s);
    }
  }

  /** Dependencies among the pending services stand in front. */
  lemma DependenciesStandInFront(pending: Definitions, order: seq<Service>, i: nat, d: Service)
    requires Members(order) == pending.Keys && i < |order|
    requires Respects(Edges(pending.Keys, pending), order)
    requires order[i] in pending && d in pending && d in Dependencies(pending[order[i]])
    ensures d in order[..i]
  {
    assert d in Succ(Edges(pending.Keys, pending), order[i]);
  }

  lemma EarlierDoNotDependOn(pending: Definitions, order: seq<Service>, n: nat, s: Service)
    requires Distinct(order) && Members(order) == pending.Keys && n < |order|
    requires Respects(Edges(pending.Keys, pending), order)
    requires s in order[..n + 1] && s in pending && order[n] in pending
    ensures order[n] !in Dependencies(pending[s])
  {
    var i :| 0 <= i < n + 1 && order[i] == s;
    if order[n] in Dependencies(pending[s]) {
      DependenciesStandInFront(pending, order, i, order[n]);
    }
  }

  lemma PassService(pending: Definitions, order: seq<Service>, n: nat, start: Changed, c: Changed,
                    namespaceOnly: bool, actions: seq<(Service, bool)>)
    requires Distinct(order) && Members(order) == pending.Keys && n < |order|
    requires Respects(Edges(pending.Keys, pending), order)
    requires Passed(pending, order, n, start, c, namespaceOnly, actions)
    ensures order[n] in pending
    ensures var action := DependencyAction(pending[order[n]], c, namespaceOnly);
      if action.Some?
      then Passed(pending, order, n + 1, start, Update(c, order[n], action.value), namespaceOnly, actions + [(order[n], action.value)])
      else Passed(pending, order, n + 1, start, c, namespaceOnly, actions)
  {
    assert order[n] in Members(order);
    assert order[..n + 1] == order[..n] + [order[n]];
    NoActionYet(actions, order[n]);
    if DependencyAction(pending[order[n]], c, namespaceOnly).Some? {
      PassAction(pending, order, n, start, c, namespaceOnly, actions);
    }
  }

  lemma PassAction(pending: Definitions, order: seq<Service>, n: nat, start: Changed, c: Changed,
                   namespaceOnly: bool, actions: seq<(Service, bool)>)
    requires Distinct(order) && Members(order) == pending.Keys && n < |order| && order[n] in pending
    requires Respects(Edges(pending.Keys, pending), order)
    requires Passed(pending, order, n, start, c, namespaceOnly, actions)
    requires DependencyAction(pending[order[n]], c, namespaceOnly).Some?
    ensures var rebuild := DependencyAction(pending[order[n]], c, namespaceOnly).value;
      Passed(pending, order, n + 1, start, Update(c, order[n], rebuild), namespaceOnly, actions + [(order[n], rebuild)])
  {
    hide Respects, Edges, Stationary, MustRecreate, MustRestart;
    var s := order[n];
    var rebuild := DependencyAction(pending[s], c, namespaceOnly).value;
    var c', longer := Update(c, s, rebuild), actions + [(s, rebuild)];
    forall d | Within(start, d) && Stationary(pending, d, namespaceOnly) ensures Within(c', d) {
      ForcedChange(pending, s, c, d, namespaceOnly, rebuild);
    }
    assert order[..n + 1] == order[..n] + [s];
    forall t | t in order[..n + 1] && t in pending ensures Consistent(pending[t], t, c', namespaceOnly, longer) {
      EarlierDoNotDependOn(pending, order, n, t);
      ActionKeepsConsistent(pending[t], t, c, namespaceOnly, actions, s, rebuild);
    }
  }

  lemma ActionKeepsConsistent(spec: Spec, t: Service, c: Changed, namespaceOnly: bool, actions: seq<(Service, bool)>,
                              s: Service, rebuild: bool)
    requires s !in Dependencies(spec)
    requires if t == s then DependencyAction(spec, c, namespaceOnly) == Some(rebuild)
             else Consistent(spec, t, c, namespaceOnly, actions)
    ensures Consistent(spec, t, Update(c, s, rebuild), namespaceOnly, actions + [(s, rebuild)])
  {
    LaterChangesDoNotMatter(spec, c, s, rebuild, namespaceOnly);
    assert (actions + [(s, rebuild)])[..|actions|] == actions;
  }

  /** The n-th place of the order each listed action came from. */
  ghost predicate ListedAt(order: seq<Service>, n: nat, actions: seq<(Service, bool)>, at: seq<nat>) {
    && |at| == |actions| && n <= |order|
    && (forall i :: 0 <= i < |at| ==> at[i] < n && order[at[i]] == actions[i].0)
    && (forall i, j :: 0 <= i < j < |at| ==> at[i] < at[j])
  }

  lemma ListedNext(order: seq<Service>, n: nat, actions: seq<(Service, bool)>, at: seq<nat>, rebuild: bool)
    requires ListedAt(order, n, actions, at) && n < |order|
    ensures ListedAt(order, n + 1, actions, at)
    ensures ListedAt(order, n + 1, actions + [(order[n], rebuild)], at + [n])
  {
  }

  /** `_dependent_actions` for the services left after filtering: fails on a dependency
      cycle among them; otherwise the actions and the two sets are those of the least
      simultaneous fixpoint, in dependency order. */
  method Propagate(names: seq<Service>, pending: Definitions, start: Changed, namespaceOnly: bool)
    returns (r: Option<(seq<(Service, bool)>, Changed)>)
    requires Distinct(names) && Members(names) == pending.Keys
    ensures r.None? <==> HasCycle(Edges(pending.Keys, pending))
    ensures r.Some? ==> IsLeastStationary(pending, start, r.value.1, namespaceOnly)
    ensures r.Some? ==> ActionsMatch(pending, r.value.1, namespaceOnly, r.value.0)
    ensures r.Some? ==> ActionsOrdered(pending, r.value.0)
  {
    hide Passed, ListedAt, IsLeastStationary, ActionsMatch, ActionsOrdered, DependencyAction, Respects, Stable, HasCycle, Edges;
    var ordered := OrderServiceSubset(names, pending);
    if ordered.None? {
      return None;
    }
    var order := ordered.value;
    var c, actions := start, [];
    ghost var at: seq<nat> := [];
    PassBegins(pending, order, start, namespaceOnly);
    for n := 0 to |order|
      invariant Passed(pending, order, n, start, c, namespaceOnly, actions)
      invariant ListedAt(order, n, actions, at)
    {
      PassService(pending, order, n, start, c, namespaceOnly, actions);
      var action := DependencyAction(pending[order[n]], c, namespaceOnly);
      ListedNext(order, n, actions, at, action.Some? && action.value);
      if action.Some? {
        c := Update(c, order[n], action.value);
        actions := actions + [(order[n], action.value)];
        at := at + [n];
      }
    }
    PassedAll(pending, order, start, c, namespaceOnly, actions, at);
    r := Some((actions, c));
  }

  lemma PassBegins(pending: Definitions, order: seq<Service>, start: Changed, namespaceOnly: bool)
    ensures Passed(pending, order, 0, start, start, namespaceOnly, []) && ListedAt(order, 0, [], [])
  {
  }

  lemma PassedAll(pending: Definitions, order: seq<Service>, start: Changed, c: Changed,
                  namespaceOnly: bool, actions: seq<(Service, bool)>, at: seq<nat>)
    requires Distinct(order) && Members(order) == pending.Keys && Respects(Edges(pending.Keys, pending), order)
    requires Passed(pending, order, |order|, start, c, namespaceOnly, actions)
    requires ListedAt(order, |order|, actions, at)
    ensures IsLeastStationary(pending, start, c, namespaceOnly)
    ensures ActionsMatch(pending, c, namespaceOnly, actions) && ActionsOrdered(pending, actions)
  {
    hide DependencyAction;
    assert order[..|order|] == order;
    forall s | s in pending ensures Consistent(pending[s], s, c, namespaceOnly, actions) {
      assert s in Members(order);
    }
    PassedInOrder(pending, order, actions, at);
  }

  lemma PassedInOrder(pending: Definitions, order: seq<Service>, actions: seq<(Service, bool)>, at: seq<nat>)
    requires Distinct(order) && Members(order) == pending.Keys && Respects(Edges(pending.Keys, pending), order)
    requires ListedAt(order, |order|, actions, at)
    ensures ActionsOrdered(pending, actions)
  {
    forall i, j | 0 <= i < |actions| && 0 <= j < |actions| && DependsOn(pending, actions[i].0, actions[j].0) ensures j < i {
      assert order[at[j]] in Members(order);
      DependenciesStandInFront(pending, order, at[i], order[at[j]]);
      var k :| 0 <= k < at[i] && order[k] == order[at[j]];
    }
  }

  /** The reading of the fixpoint that the recovery code relies on. */
  lemma FixpointReadsBack(pending: Definitions, start: Changed, c: Changed, namespaceOnly: bool, s: Service)
    requires IsLeastStationary(pending, start, c, namespaceOnly)
    ensures s in c.recreated <==> s in start.recreated || (s in pending && MustRecreate(pending[s], c.recreated))
    ensures s in c.updated <==> (s in start.updated || (s in pending && DependencyAction(pending[s], c, namespaceOnly).Some?))
  {
    var d := Changed(
      set x | x in c.updated && (x in start.updated ||
        (x in pending && (MustRecreate(pending[x], c.recreated) || MustRestart(pending[x], c.updated, namespaceOnly)))),
      set x | x in c.recreated && (x in start.recreated || (x in pending && MustRecreate(pending[x], c.recreated))));
    assert Within(start, d);
    forall x | x in pending
      ensures MustRecreate(pending[x], d.recreated) ==> x in d.recreated && x in d.updated
      ensures MustRestart(pending[x], d.updated, namespaceOnly) ==> x in d.updated
    {
      assert MustRecreate(pending[x], d.recreated) ==> MustRecreate(pending[x], c.recreated) by {
        if y :| y in pending[x].namespaces * d.recreated {
          assert y in pending[x].namespaces * c.recreated;
        }
      }
    }
    assert Stationary(pending, d, namespaceOnly);
    assert Within(c, d);
  }

  // ----- which services are looked at -----

  /** The operation as far as recovery reads it.  `previous` holds for each service the
      whole model it was last applied from; `targets` are the services of a named operation. */
  datatype Context = Context(composeModel: Definitions, previous: map<Service, Definitions>, full: bool, targets: set<Service>)

  /** A captured model contains its own service. */
  ghost predicate ValidContext(context: Context) {
    forall s :: s in context.previous ==> s in context.previous[s]
  }

  /** Running services with a trustworthy model, inside the operation's boundary. */
  function Considered(context: Context, running: set<Service>, applied: set<Service>): set<Service> {
    var known := context.previous.Keys + applied;
    var inProject := if context.full then known * context.composeModel.Keys else known;
    running * inProject * (if context.full then inProject else context.targets)
  }

  /** The model a running service is judged by: the new one if it was applied in this
      operation, else the previous one. */
  function DefinitionOf(context: Context, applied: set<Service>, s: Service): Spec
    requires ValidContext(context) && applied <= context.composeModel.Keys
    requires s in context.previous || s in applied
  {
    if s in applied || s !in context.previous then context.composeModel[s] else context.previous[s][s]
  }

  function PendingDefinitions(context: Context, selected: set<Service>, running: set<Service>, applied: set<Service>): Definitions
    requires ValidContext(context) && applied <= context.composeModel.Keys
  {
    map s | s in Considered(context, running, applied) - selected :: DefinitionOf(context, applied, s)
  }

  /** What a whole pass yields. */
  ghost predicate IsPropagation(pending: Definitions, start: Changed, c: Changed, namespaceOnly: bool, actions: seq<(Service, bool)>) {
    IsLeastStationary(pending, start, c, namespaceOnly) && ActionsMatch(pending, c, namespaceOnly, actions) && ActionsOrdered(pending, actions)
  }

  /** `_dependent_actions` as a whole. */
  method DependentActionsFor(context: Context, selected: set<Service>, running: set<Service>, start: Changed,
                             applied: set<Service>, namespaceOnly: bool) returns (r: Option<(seq<(Service, bool)>, Changed)>)
    requires ValidContext(context) && applied <= context.composeModel.Keys
    ensures var pending := PendingDefinitions(context, selected, running, applied);
      && (r.None? <==> HasCycle(Edges(pending.Keys, pending)))
      && (r.Some? ==> IsPropagation(pending, start, r.value.1, namespaceOnly, r.value.0))
  {
    var pending := PendingDefinitions(context, selected, running, applied);
    var names := ListOf(pending.Keys);
    r := Propagate(names, pending, start, namespaceOnly);
  }

  // ----- what the pass means for one service -----

  /** The service is looked at, and this is the definition it is judged by: the new one if it
      was applied, else the captured one. */
  ghost predicate JudgedBy(context: Context, running: set<Service>, applied: set<Service>, s: Service, spec: Spec) {
    && s in running && (if context.full then s in context.composeModel else s in context.targets)
    && (if s in applied then s in context.composeModel && spec == context.composeModel[s]
        else s in context.previous && s in context.previous[s] && spec == context.previous[s][s])
  }

  ghost predicate ReadsOneOf(spec: Spec, others: set<Service>) {
    exists x :: x in spec.namespaces && x in others
  }

  ghost predicate RestartsWithOneOf(spec: Spec, others: set<Service>) {
    exists x :: x in spec.dependsOn && spec.dependsOn[x].restart && x in others
  }

  /** Exactly who reads a namespace of a replaced or rebuilt service is rebuilt, and exactly who
      is rebuilt or declares a restart with a renewed or listed service is listed. */
  ghost predicate Answered(context: Context, running: set<Service>, applied: set<Service>, others: set<Service>,
                           renewed: set<Service>, replaced: set<Service>, listed: set<Service>, rebuilt: set<Service>) {
    && (forall s, spec :: s !in others && JudgedBy(context, running, applied, s, spec) ==>
          && (s in rebuilt <==> ReadsOneOf(spec, replaced + rebuilt))
          && (s in listed <==> s in rebuilt || RestartsWithOneOf(spec, renewed + listed)))
    && (forall s :: s in listed + rebuilt ==> s !in others && exists spec :: JudgedBy(context, running, applied, s, spec))
  }

  ghost function Listed(actions: seq<(Service, bool)>): set<Service> {
    set i | 0 <= i < |actions| :: actions[i].0
  }

  ghost function Rebuilt(actions: seq<(Service, bool)>): set<Service> {
    set i | 0 <= i < |actions| && actions[i].1 :: actions[i].0
  }

  lemma PendingIsJudged(context: Context, others: set<Service>, running: set<Service>, applied: set<Service>)
    requires ValidContext(context) && applied <= context.composeModel.Keys
    ensures var pending := PendingDefinitions(context, others, running, applied);
      forall s, spec :: s in pending && pending[s] == spec <==> s !in others && JudgedBy(context, running, applied, s, spec)
  {
  }

  lemma RulesRead(spec: Spec, c: Changed, namespaceOnly: bool)
    ensures MustRecreate(spec, c.recreated) <==> ReadsOneOf(spec, c.recreated)
    ensures DependencyAction(spec, c, namespaceOnly) == Some(true) <==> ReadsOneOf(spec, c.recreated)
    ensures DependencyAction(spec, c, namespaceOnly).Some? <==>
      ReadsOneOf(spec, c.recreated) || (!namespaceOnly && RestartsWithOneOf(spec, c.updated))
  {
    if x :| x in spec.namespaces && x in c.recreated {
      assert x in spec.namespaces * c.recreated;
    }
  }

  lemma {:induction false} ActionIsListed(actions: seq<(Service, bool)>, s: Service)
    requires forall i, j :: 0 <= i < j < |actions| ==> actions[i].0 != actions[j].0
    ensures ActionOf(actions, s).Some? <==> s in Listed(actions)
    ensures ActionOf(actions, s) == Some(true) <==> s in Rebuilt(actions)
  {
    if actions != [] {
      var last := |actions| - 1;
      ActionIsListed(actions[..last], s);
      assert Listed(actions) == Listed(actions[..last]) + {actions[last].0};
      assert Rebuilt(actions) == Rebuilt(actions[..last]) + if actions[last].1 then {actions[last].0} else {};
    }
  }

  lemma PropagationAnswers(context: Context, running: set<Service>, applied: set<Service>, others: set<Service>,
                           start: Changed, c: Changed, actions: seq<(Service, bool)>)
    requires ValidContext(context) && applied <= context.composeModel.Keys
    requires IsPropagation(PendingDefinitions(context, others, running, applied), start, c, false, actions)
    ensures Answered(context, running, applied, others, start.updated, start.recreated, Listed(actions), Rebuilt(actions))
    ensures c.updated == start.updated + Listed(actions) && c.recreated == start.recreated + Rebuilt(actions)
  {
    hide ActionsOrdered, JudgedBy, Listed, Rebuilt, MustRecreate, DependencyAction, ReadsOneOf, RestartsWithOneOf, IsLeastStationary;
    var pending := PendingDefinitions(context, others, running, applied);
    PendingIsJudged(context, others, running, applied);
    forall s
      ensures s in Listed(actions) <==> s in pending && DependencyAction(pending[s], c, false).Some?
      ensures s in Rebuilt(actions) <==> s in pending && DependencyAction(pending[s], c, false) == Some(true)
      ensures s in c.recreated <==> s in start.recreated + Rebuilt(actions)
      ensures s in c.updated <==> s in start.updated + Listed(actions)
    {
      ActionIsListed(actions, s);
      FixpointReadsBack(pending, start, c, false, s);
      OnlyPendingListed(pending, c, actions, s);
      if s in pending {
        RulesRead(pending[s], c, false);
      }
    }
    assert c.recreated == start.recreated + Rebuilt(actions) && c.updated == start.updated + Listed(actions);
    forall s, spec | s !in others && JudgedBy(context, running, applied, s, spec)
      ensures s in Rebuilt(actions) <==> ReadsOneOf(spec, start.recreated + Rebuilt(actions))
      ensures s in Listed(actions) <==> s in Rebuilt(actions) || RestartsWithOneOf(spec, start.updated + Listed(actions))
    {
      assert s in pending && pending[s] == spec;
      RulesRead(spec, c, false);
    }
    forall s | s in Listed(actions) + Rebuilt(actions)
      ensures s !in others && exists spec :: JudgedBy(context, running, applied, s, spec)
    {
      assert s in pending && JudgedBy(context, running, applied, s, pending[s]);
    }
  }

  lemma OnlyPendingListed(pending: Definitions, c: Changed, actions: seq<(Service, bool)>, s: Service)
    requires ActionsMatch(pending, c, false, actions)
    ensures s in pending ==> DependencyAction(pending[s], c, false) == ActionOf(actions, s)
    ensures s in Listed(actions) ==> s in pending
  {
    hide DependencyAction;
  }

  // ----- lists of actions, and the actions of a recovery -----

  /** The actions: every restored service is rebuilt, dependents as propagated. */
  function AllActions(restore: set<Service>, dependents: seq<(Service, bool)>): map<Service, bool> {
    if dependents == [] then map s | s in restore :: true
    else
      var last := dependents[|dependents| - 1];
      AllActions(restore, dependents[..|dependents| - 1])[last.0 := last.1]
  }

  lemma {:induction false} ActionsAreComplete(restore: set<Service>, dependents: seq<(Service, bool)>, s: Service)
    requires forall i :: 0 <= i < |dependents| ==> dependents[i].0 !in restore
    ensures s in restore ==> s in AllActions(restore, dependents) && AllActions(restore, dependents)[s]
    ensures s !in restore ==>
      (match ActionOf(dependents, s)
       case None => s !in AllActions(restore, dependents)
       case Some(rebuild) => s in AllActions(restore, dependents) && AllActions(restore, dependents)[s] == rebuild)
  {
    if dependents != [] {
      ActionsAreComplete(restore, dependents[..|dependents| - 1], s);
    }
  }

  lemma {:induction false} ActionKeys(restore: set<Service>, dependents: seq<(Service, bool)>)
    ensures forall s :: s in AllActions(restore, dependents) <==> s in restore || exists i :: 0 <= i < |dependents| && dependents[i].0 == s
  {
    if dependents != [] {
      ActionKeys(restore, dependents[..|dependents| - 1]);
    }
  }

  ghost predicate ListedBefore(actions: seq<(Service, bool)>, n: int, s: Service) {
    exists i :: 0 <= i < n && i < |actions| && actions[i].0 == s
  }

  lemma {:induction false} ListedHasAction(actions: seq<(Service, bool)>, s: Service)
    ensures ActionOf(actions, s).Some? <==> ListedBefore(actions, |actions|, s)
  {
    if actions != [] {
      var most := actions[..|actions| - 1];
      ListedHasAction(most, s);
      assert forall i :: 0 <= i < |most| ==> most[i] == actions[i];
      if ListedBefore(actions, |actions|, s) && actions[|actions| - 1].0 != s {
        var i :| 0 <= i < |actions| && actions[i].0 == s;
        assert most[i].0 == s;
      }
    }
  }

  lemma ListedIsPending(pending: Definitions, c: Changed, namespaceOnly: bool, actions: seq<(Service, bool)>, x: Service)
    requires ActionsMatch(pending, c, namespaceOnly, actions) && ListedBefore(actions, |actions|, x)
    ensures x in pending
  {
  }

  ghost predicate ActionsAre(pending: Definitions, restore: set<Service>, c: Changed, actions: map<Service, bool>) {
    forall s ::
      && (s in restore ==> s in actions && actions[s])
      && (s !in restore ==> (s in actions <==> s in pending && DependencyAction(pending[s], c, false).Some?))
      && (s !in restore && s in actions ==> DependencyAction(pending[s], c, false) == Some(actions[s]))
  }

  lemma ActionsAreDemanded(pending: Definitions, restore: set<Service>, dependents: seq<(Service, bool)>, c: Changed)
    requires ActionsMatch(pending, c, false, dependents)
    requires forall i :: 0 <= i < |dependents| ==> dependents[i].0 !in restore
    ensures ActionsAre(pending, restore, c, AllActions(restore, dependents))
  {
    hide DependencyAction;
    forall s
      ensures s in restore ==> s in AllActions(restore, dependents) && AllActions(restore, dependents)[s]
      ensures s !in restore ==> (s in AllActions(restore, dependents) <==> ActionOf(dependents, s).Some?)
      ensures s !in restore && s in AllActions(restore, dependents) ==> ActionOf(dependents, s) == Some(AllActions(restore, dependents)[s])
      ensures ActionOf(dependents, s).Some? ==> s in pending
    {
      ActionsAreComplete(restore, dependents, s);
      ListedHasAction(dependents, s);
      if ActionOf(dependents, s).Some? {
        ListedIsPending(pending, c, false, dependents, s);
      }
    }
  }

  lemma StaysApart(a: set<Service>, b: set<Service>, c: set<Service>)
    requires a * b == {} && c <= b
    ensures a !! c
  {
    forall x | x in a
      ensures x !in c
    {
      assert x !in a * b;
    }
  }
}

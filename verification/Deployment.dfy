/** Start and restart of a selection of services up to the step that fails, if one does.
    Docker is an environment: each command may fail part-way and leave the services it
    names in any state. */
module Deployment {
  import opened Options
  import opened Digraphs
  import opened Compose
  import opened Sequences
  import opened DependentActions
  import opened NamespaceProviders
  import opened SharedInputs

  type Hash = string

  /** What inspection shows of a service: running replicas, whether all instances have
      the wanted image, number and state, and their configuration hashes. */
  datatype Observed = Observed(live: nat, fits: bool, hashes: set<Option<Hash>>)

  const ABSENT := Observed(0, false, {})

  type Docker = map<Service, Observed>

  function At(d: Docker, s: Service): Observed {
    if s in d then d[s] else ABSENT
  }

  function LiveServices(d: Docker): set<Service> {
    set s | s in d && d[s].live > 0
  }

  /** The last thing the operation did to a service. */
  datatype Act = Untouched | Attempted | Halted | AppliedCurrent | AppliedPrevious | Restarted

  /** A command as given, whatever came of it. */
  datatype Command = Command(services: set<Service>, act: Act)

  /** The outside: Docker, the services whose recorded snapshot is the new model, what
      was done last, the observation a confirmed service was confirmed by, and the commands
      given so far. */
  datatype World = World(docker: Docker, recorded: set<Service>, last: map<Service, Act>, seen: map<Service, Observed>, log: seq<Command>)

  function LastAct(w: World, s: Service): Act {
    if s in w.last then w.last[s] else Untouched
  }

  /** The settled decisions before the first change. `before` is the first observation,
      `changed` the services whose definition differs from the recorded one, `legacy` what
      old declarations still resolve to. */
  datatype Plan = Plan(services: seq<Service>, context: Context, inputs: Inputs, actual: Actual, before: Docker,
                       changed: set<Service>, imageChanged: set<Service>, stopSet: set<Service>, legacy: Models)

  function Chosen(p: Plan): set<Service> {
    Members(p.services)
  }

  ghost predicate ValidPlan(p: Plan) {
    && Distinct(p.services) && Chosen(p) <= p.context.composeModel.Keys && ValidContext(p.context)
    && Respects(Edges(Chosen(p), p.context.composeModel), p.services)
    && p.stopSet <= Chosen(p)
    && ValidModels(p.legacy)
    && p.actual.running == LiveServices(p.before) && p.actual.running <= p.actual.existing
  }

  /** The local variables of the operation. */
  datatype Progress = Progress(running: set<Service>, failed: set<Service>, pendingRestart: set<Service>, applied: set<Service>,
                               updated: set<Service>, recreated: set<Service>,
                               stopAttempted: bool, stopped: bool, batchAttempted: bool, batchCompleted: bool)

  // ----- Docker commands -----

  ghost predicate OthersSame(w: World, w': World, services: set<Service>) {
    && (forall s :: s !in services ==> At(w'.docker, s) == At(w.docker, s) && LastAct(w', s) == LastAct(w, s))
    && w'.recorded == w.recorded && w'.seen == w.seen
  }

  function SetLast(last: map<Service, Act>, services: set<Service>, act: Act): map<Service, Act> {
    map s | s in last.Keys + services :: if s in services then act else last[s]
  }

  /** Whether a step of the outside fails; never when the outside works. */
  method Fails(works: bool) returns (failure: bool)
    ensures works ==> !failure
  {
    failure := *;
    failure := failure && !works;
  }

  /** Stopping: on success nothing named runs; on failure some replicas may be gone, and a
      service that lost none is as it was. */
  method DockerStop(w: World, services: set<Service>, works: bool) returns (ok: bool, w': World)
    ensures works ==> ok
    ensures OthersSame(w, w', services) && w'.log == w.log + [Command(services, Halted)]
    ensures ok ==> forall s :: s in services ==> LastAct(w', s) == Halted && At(w'.docker, s).live == 0
    ensures !ok ==> forall s :: s in services ==>
      && At(w'.docker, s).live <= At(w.docker, s).live
      && (if At(w'.docker, s).live < At(w.docker, s).live then LastAct(w', s) == Attempted
          else At(w'.docker, s) == At(w.docker, s) && LastAct(w', s) == LastAct(w, s))
  {
    hide OthersSame, BrokenStop, WholeStop;
    var failure := Fails(works);
    var left: Docker := *;
    if failure {
      ok, w' := false, BrokenStop(w, services, left);
    } else {
      ok, w' := true, WholeStop(w, services, left);
    }
  }

  /** Every named service may be left with fewer replicas, in whatever shape. */
  function BrokenStop(w: World, services: set<Service>, left: Docker): (w': World)
    ensures OthersSame(w, w', services) && w'.log == w.log + [Command(services, Halted)]
    ensures forall s :: s in services ==>
      && At(w'.docker, s).live <= At(w.docker, s).live
      && (if At(w'.docker, s).live < At(w.docker, s).live then LastAct(w', s) == Attempted
          else At(w'.docker, s) == At(w.docker, s) && LastAct(w', s) == LastAct(w, s))
  {
    var hit := set s | s in services && At(left, s).live < At(w.docker, s).live;
    var docker := map s | s in w.docker :: if s in hit then At(left, s) else w.docker[s];
    w.(docker := docker, last := SetLast(w.last, hit, Attempted), log := w.log + [Command(services, Halted)])
  }

  function WholeStop(w: World, services: set<Service>, left: Docker): (w': World)
    ensures OthersSame(w, w', services) && w'.log == w.log + [Command(services, Halted)]
    ensures forall s :: s in services ==> LastAct(w', s) == Halted && At(w'.docker, s).live == 0
  {
    var docker := map s | s in w.docker :: if s in services then At(left, s).(live := 0) else w.docker[s];
    w.(docker := docker, last := SetLast(w.last, services, Halted), log := w.log + [Command(services, Halted)])
  }

  /** Applying, restarting: on success the named services were acted on; on failure they
      are left in any state. */
  method DockerAct(w: World, services: set<Service>, act: Act, works: bool) returns (ok: bool, w': World)
    ensures works ==> ok
    ensures OthersSame(w, w', services) && w'.log == w.log + [Command(services, act)]
    ensures forall s :: s in services ==> LastAct(w', s) == if ok then act else Attempted
  {
    var failure := Fails(works);
    var left: Docker := *;
    var d := map s | s in w.docker.Keys + services :: if s in services then At(left, s) else w.docker[s];
    return !failure, w.(docker := d, last := SetLast(w.last, services, if failure then Attempted else act), log := w.log + [Command(services, act)]);
  }

  /** `AppliedServiceModels.record`: on failure some of the snapshots may be written. */
  method RecordCurrent(w: World, services: set<Service>, works: bool) returns (ok: bool, w': World)
    ensures works ==> ok
    ensures w' == w.(recorded := w'.recorded) && w.recorded <= w'.recorded <= w.recorded + services
    ensures ok ==> w'.recorded == w.recorded + services
  {
    var failure := Fails(works);
    var written: set<Service> :| written <= services && (!failure ==> written == services);
    return !failure, w.(recorded := w.recorded + written);
  }

  /** `AppliedServiceModels.restore`: back to the captured snapshots. */
  method RecordPrevious(w: World, services: set<Service>, works: bool) returns (ok: bool, w': World)
    ensures works ==> ok
    ensures w' == w.(recorded := w'.recorded) && w.recorded - services <= w'.recorded <= w.recorded
    ensures ok ==> w'.recorded == w.recorded - services
  {
    var failure := Fails(works);
    var written: set<Service> :| written <= services && (!failure ==> written == services);
    return !failure, w.(recorded := w.recorded - written);
  }

  // ----- which services the batch will recreate and update -----

  predicate Recreates(p: Plan, recreated: set<Service>, s: Service)
    requires s in p.context.composeModel
  {
    || s in p.changed || (s in p.actual.existing && s in p.imageChanged)
    || p.context.composeModel[s].namespaces * recreated != {}
  }

  predicate Cascades(p: Plan, updated: set<Service>, recreated: set<Service>, s: Service)
    requires s in p.context.composeModel
  {
    var deps := Dependencies(p.context.composeModel[s]);
    exists d :: d in deps && ((deps[d].restart && d in updated) || (d in recreated && d in p.actual.existing))
  }

  predicate Updates(p: Plan, updated: set<Service>, recreated: set<Service>, s: Service)
    requires s in p.context.composeModel
  {
    Recreates(p, recreated, s) || Cascades(p, updated, recreated, s) || s in p.stopSet || s !in p.actual.running
  }

  /** The two sets solve their defining equations for the given services. */
  ghost predicate EffectsSolve(p: Plan, services: set<Service>, updated: set<Service>, recreated: set<Service>)
    requires services <= p.context.composeModel.Keys
  {
    updated <= services && recreated <= services && forall s :: s in services ==> EffectSolved(p, updated, recreated, s)
  }

  ghost predicate EffectSolved(p: Plan, updated: set<Service>, recreated: set<Service>, s: Service)
    requires s in p.context.composeModel
  {
    && (s in recreated <==> Recreates(p, recreated, s) || s !in p.actual.existing)
    && (s in updated <==> Updates(p, updated, recreated, s))
  }

  /** Exactly those selected services are recreated whose definition or image changed, which are
      new, or which read a namespace of one that is recreated; exactly those are updated which are
      recreated, which depend on one updated and ask to restart with it, or on an existing one that
      is recreated, which are to be stopped, or which do not run. */
  ghost predicate EffectsAreExact(p: Plan, updated: set<Service>, recreated: set<Service>)
    requires Chosen(p) <= p.context.composeModel.Keys
  {
    && updated <= Chosen(p) && recreated <= Chosen(p)
    && forall s :: s in p.services ==> var spec := p.context.composeModel[s];
      && (s in recreated <==>
            || s in p.changed || s in p.imageChanged || s !in p.actual.existing || ReadsOneOf(spec, recreated))
      && (s in updated <==>
            || s in p.changed || (s in p.actual.existing && s in p.imageChanged) || ReadsOneOf(spec, recreated)
            || RestartsWithOneOf(spec, updated) || DependsOnOneOf(spec, recreated * p.actual.existing)
            || s in p.stopSet || s !in p.actual.running)
  }

  ghost predicate DependsOnOneOf(spec: Spec, others: set<Service>) {
    exists x :: x in others && (x in spec.dependsOn || x in spec.links || x in spec.namespaces)
  }

  lemma SolutionIsExact(p: Plan, updated: set<Service>, recreated: set<Service>)
    requires Chosen(p) <= p.context.composeModel.Keys && EffectsSolve(p, Chosen(p), updated, recreated)
    ensures EffectsAreExact(p, updated, recreated)
  {
    hide ReadsOneOf, RestartsWithOneOf, DependsOnOneOf, Recreates, Cascades;
    forall s | s in p.services
      ensures EffectSolved(p, updated, recreated, s)
      ensures Recreates(p, recreated, s) <==>
        s in p.changed || (s in p.actual.existing && s in p.imageChanged) || ReadsOneOf(p.context.composeModel[s], recreated)
      ensures Cascades(p, updated, recreated, s) <==>
        RestartsWithOneOf(p.context.composeModel[s], updated) || DependsOnOneOf(p.context.composeModel[s], recreated * p.actual.existing)
    {
      assert s in Chosen(p);
      RecreatesReads(p, recreated, s);
      CascadesReads(p, updated, recreated, s);
    }
  }

  lemma RecreatesReads(p: Plan, recreated: set<Service>, s: Service)
    requires s in p.context.composeModel
    ensures Recreates(p, recreated, s) <==>
      s in p.changed || (s in p.actual.existing && s in p.imageChanged) || ReadsOneOf(p.context.composeModel[s], recreated)
  {
    if x :| x in p.context.composeModel[s].namespaces && x in recreated {
      assert x in p.context.composeModel[s].namespaces * recreated;
    }
  }

  lemma CascadesReads(p: Plan, updated: set<Service>, recreated: set<Service>, s: Service)
    requires s in p.context.composeModel
    ensures Cascades(p, updated, recreated, s) <==>
      RestartsWithOneOf(p.context.composeModel[s], updated) || DependsOnOneOf(p.context.composeModel[s], recreated * p.actual.existing)
  {
  }

  /** The loop over the selection before the batch. */
  method PlanEffects(p: Plan) returns (updated: set<Service>, recreated: set<Service>)
    requires ValidPlan(p)
    ensures EffectsSolve(p, Chosen(p), updated, recreated) && EffectsAreExact(p, updated, recreated)
  {
    updated, recreated := {}, {};
    for i := 0 to |p.services|
      invariant Members(p.services[..i]) <= p.context.composeModel.Keys
      invariant EffectsSolve(p, Members(p.services[..i]), updated, recreated)
    {
      var s := p.services[i];
      assert s in Chosen(p);
      EffectsStep(p, i, updated, recreated);
      var recreate, cascade := Recreates(p, recreated, s), Cascades(p, updated, recreated, s);
      if recreate || s !in p.actual.existing {
        recreated := recreated + {s};
      }
      if recreate || cascade || s in p.stopSet || s !in p.actual.running {
        updated := updated + {s};
      }
    }
    assert p.services[..|p.services|] == p.services;
    SolutionIsExact(p, updated, recreated);
  }

  /** A service's own turn does not change what it or an earlier service looks at. */
  lemma EffectsStep(p: Plan, i: nat, updated: set<Service>, recreated: set<Service>)
    requires ValidPlan(p) && i < |p.services|
    requires Members(p.services[..i]) <= p.context.composeModel.Keys && p.services[i] in p.context.composeModel
    requires EffectsSolve(p, Members(p.services[..i]), updated, recreated)
    ensures var s := p.services[i];
      var recreated' := if Recreates(p, recreated, s) || s !in p.actual.existing then recreated + {s} else recreated;
      var updated' := if Updates(p, updated, recreated, s) then updated + {s} else updated;
      && Members(p.services[..i + 1]) <= p.context.composeModel.Keys
      && EffectsSolve(p, Members(p.services[..i + 1]), updated', recreated')
  {
    var s := p.services[i];
    var recreated' := if Recreates(p, recreated, s) || s !in p.actual.existing then recreated + {s} else recreated;
    var updated' := if Updates(p, updated, recreated, s) then updated + {s} else updated;
    assert p.services[..i + 1] == p.services[..i] + [s];
    assert s !in Members(p.services[..i]);
    hide Recreates, Updates, Edges, Respects, EffectSolved;
    forall t | t in p.services[..i + 1]
      ensures t in p.context.composeModel && EffectSolved(p, updated', recreated', t)
    {
      EarlierDoesNotLookAhead(p, i, t);
      EffectStaysSolved(p, s, t, updated, updated', recreated, recreated');
    }
  }

  lemma EffectStaysSolved(p: Plan, s: Service, t: Service, updated: set<Service>, updated': set<Service>,
                          recreated: set<Service>, recreated': set<Service>)
    requires t in p.context.composeModel && s in p.context.composeModel && s !in Dependencies(p.context.composeModel[t])
    requires s !in updated && s !in recreated
    requires recreated' == if Recreates(p, recreated, s) || s !in p.actual.existing then recreated + {s} else recreated
    requires updated' == if Updates(p, updated, recreated, s) then updated + {s} else updated
    requires t == s || EffectSolved(p, updated, recreated, t)
    ensures EffectSolved(p, updated', recreated', t)
  {
    hide Recreates, Updates;
    LooksUnchanged(p, s, t, updated, updated', recreated, recreated');
  }

  lemma EarlierDoesNotLookAhead(p: Plan, i: nat, t: Service)
    requires ValidPlan(p) && i < |p.services| && t in p.services[..i + 1]
    ensures t in p.context.composeModel && p.services[i] !in Dependencies(p.context.composeModel[t])
  {
    var s := p.services[i];
    var j :| 0 <= j < i + 1 && p.services[j] == t;
    assert t in Chosen(p) && s in Chosen(p);
    forall d | d in Dependencies(p.context.composeModel[t]) && d in Chosen(p) ensures d in p.services[..j] {
      assert d in Succ(Edges(Chosen(p), p.context.composeModel), p.services[j]);
    }
  }

  lemma LooksUnchanged(p: Plan, s: Service, t: Service, updated: set<Service>, updated': set<Service>,
                       recreated: set<Service>, recreated': set<Service>)
    requires t in p.context.composeModel && s !in Dependencies(p.context.composeModel[t])
    requires updated <= updated' <= updated + {s} && recreated <= recreated' <= recreated + {s}
    ensures Recreates(p, recreated', t) == Recreates(p, recreated, t)
    ensures Updates(p, updated', recreated', t) == Updates(p, updated, recreated, t)
  {
    var spec := p.context.composeModel[t];
    NamespacesAreDependencies(spec);
    assert spec.namespaces * recreated' == spec.namespaces * recreated;
    assert Cascades(p, updated', recreated', t) == Cascades(p, updated, recreated, t);
  }

  // ----- the attempt -----

  /** Confirmed by inspection: the wanted instances run, and after a batch that broke off
      a changed service that existed before shows only new configuration hashes. */
  predicate FreshHashes(p: Plan, o: Observed, s: Service) {
    s in p.changed && s in p.actual.existing ==> None !in o.hashes && o.hashes * At(p.before, s).hashes == {}
  }

  /** The service is unchanged or new, or every instance has a configuration hash and none has
      one that an instance had before. */
  ghost predicate IsEvidence(p: Plan, o: Observed, s: Service) {
    || s !in p.changed || s !in p.actual.existing
    || (forall h :: h in o.hashes ==> h.Some? && !(s in p.before && h in p.before[s].hashes))
  }

  lemma FreshIsEvidence(p: Plan, o: Observed, s: Service)
    ensures FreshHashes(p, o, s) <==> IsEvidence(p, o, s)
  {
    forall h | h in o.hashes && h in At(p.before, s).hashes
      ensures h in o.hashes * At(p.before, s).hashes
    {
    }
  }

  ghost predicate Confirmed(p: Plan, w: World, completed: bool, s: Service) {
    s in w.seen && w.seen[s].fits && (completed || IsEvidence(p, w.seen[s], s))
  }

  /** A service nothing but a restart in place has happened to. */
  ghost predicate Quiet(w: World, s: Service) {
    LastAct(w, s) == Untouched || LastAct(w, s) == Restarted
  }

  /** A stopped service that the rest of the operation has not brought back. */
  ghost predicate AwaitsRestart(p: Plan, s: Service, g: Progress, w: World) {
    s in g.pendingRestart && (g.stopped || (g.stopAttempted && At(w.docker, s).live < At(p.before, s).live))
  }

  predicate BrokenBatch(g: Progress) {
    g.batchAttempted && !g.batchCompleted
  }

  /** What is known wherever the attempt breaks off: a selected service that was running
      is as it was, confirmed, counted as failed, or waits to be restarted. */
  ghost predicate Settled(p: Plan, g: Progress, w: World) {
    && Traced(p, w) && g.running <= Chosen(p) + p.actual.running
    && g.applied <= Chosen(p) && g.pendingRestart <= p.stopSet * p.actual.running
    && g.failed <= Chosen(p) + (p.actual.running * p.context.previous.Keys)
    && (forall s :: s in Chosen(p) && s in p.actual.running ==>
          Quiet(w, s) || s in g.applied || s in g.failed || AwaitsRestart(p, s, g, w))
    && w.recorded <= g.applied + g.failed
    && g.applied !! g.failed && g.applied <= w.recorded
    && (forall s :: s in g.applied ==> Confirmed(p, w, g.batchCompleted, s) && NewModelRuns(w, s) && At(w.docker, s) == w.seen[s])
  }

  /** Whatever no command named is as it was found, and commands name only selected and
      running services. */
  ghost predicate Traced(p: Plan, w: World) {
    && (forall s :: LastAct(w, s) == Untouched ==> At(w.docker, s) == At(p.before, s))
    && (forall s :: LastAct(w, s) != Untouched ==> s in Chosen(p) + p.actual.running)
  }

  /** Nothing that would undo the batch happened to the service after it. */
  ghost predicate NewModelRuns(w: World, s: Service) {
    LastAct(w, s) == Attempted || LastAct(w, s) == AppliedCurrent || LastAct(w, s) == Restarted
  }

  ghost predicate Interrupted(p: Plan, g: Progress, w: World) {
    Settled(p, g, w) && (BrokenBatch(g) ==> g.failed == Chosen(p) && g.applied == {} && BatchTried(p, w))
  }

  ghost predicate BatchTried(p: Plan, w: World) {
    forall s :: s in Chosen(p) ==> NewModelRuns(w, s)
  }

  /** At the very beginning. */
  ghost predicate Fresh(p: Plan, w: World) {
    w == World(p.before, {}, map[], map[], [])
  }

  function Begin(p: Plan): Progress {
    Progress(p.actual.running, {}, p.stopSet * p.actual.running, {}, {}, {}, false, false, false, false)
  }

  /** Docker shows everything selected as wanted, and it is recorded. */
  ghost predicate Deployed(p: Plan, w: World) {
    Chosen(p) <= w.recorded && forall s :: s in Chosen(p) ==> Confirmed(p, w, true, s) && At(w.docker, s).fits
  }

  /** Outside the selection nothing was done yet. */
  ghost predicate OutsideUntouched(p: Plan, w: World) {
    forall s :: s !in Chosen(p) ==> LastAct(w, s) == Untouched
  }

  /** The command that stops some services, if there are any. */
  function StopOf(services: set<Service>): seq<Command> {
    if services == {} then [] else [Command(services, Halted)]
  }

  /** The stop phase of a restart. */
  method StopPhase(p: Plan, w: World, works: bool) returns (ok: bool, g: Progress, w': World)
    requires ValidPlan(p) && Fresh(p, w)
    ensures works ==> ok
    ensures BeforeBatch(p, g, w') && OutsideUntouched(p, w')
    ensures ok ==> w'.log == StopOf(p.stopSet)
    ensures g == Progress(g.running, {}, g.pendingRestart, {}, {}, {}, g.stopAttempted, g.stopped, false, false)
    ensures forall s :: s in g.running <==> s in p.actual.running && !(g.stopped && s in p.stopSet)
    ensures forall s :: s in g.pendingRestart <==> s in p.stopSet && s in p.actual.running
    ensures w'.log == if g.stopAttempted then [Command(p.stopSet, Halted)] else []
    ensures g.stopped ==> g.stopAttempted && forall s :: s in p.stopSet ==> LastAct(w', s) == Halted && At(w'.docker, s).live == 0
    ensures ok && p.stopSet != {} ==> g.stopped && forall s :: s in p.stopSet ==> At(w'.docker, s).live == 0
  {
    g, w' := Begin(p), w;
    if p.stopSet == {} {
      return true, g, w';
    }
    var hookFails := Fails(works);
    if hookFails {
      return false, g, w';
    }
    g := g.(stopAttempted := true);
    ok, w' := DockerStop(w, p.stopSet, works);
    var interrupted := Fails(works);
    if !ok || interrupted {
      StopIsVisible(p, w, w', g);
      return false, g, w';
    }
    g := g.(stopped := true, running := g.running - p.stopSet);
    var stateFails := Fails(works);
    ok := !stateFails;
  }

  lemma StopIsVisible(p: Plan, w: World, w': World, g: Progress)
    requires ValidPlan(p) && Fresh(p, w) && g == Begin(p).(stopAttempted := true)
    requires OthersSame(w, w', p.stopSet)
    requires forall s :: s in p.stopSet ==>
      || (At(w'.docker, s).live < At(w.docker, s).live && LastAct(w', s) == Attempted)
      || (At(w'.docker, s) == At(w.docker, s) && LastAct(w', s) == LastAct(w, s))
      || (LastAct(w', s) == Halted && At(w'.docker, s).live == 0)
    ensures Interrupted(p, g, w')
  {
    StaysTraced(p, w, w', p.stopSet);
  }

  lemma StaysTraced(p: Plan, w: World, w': World, services: set<Service>)
    requires Traced(p, w) && services <= Chosen(p) + p.actual.running
    requires forall s :: s !in services ==> At(w'.docker, s) == At(w.docker, s) && LastAct(w', s) == LastAct(w, s)
    requires forall s :: s in services ==>
      LastAct(w', s) != Untouched || (At(w'.docker, s) == At(w.docker, s) && LastAct(w', s) == LastAct(w, s))
    ensures Traced(p, w')
  {
  }

  /** Before the batch: nothing applied, failed or recorded. */
  ghost predicate BeforeBatch(p: Plan, g: Progress, w: World) {
    Settled(p, g, w) && !g.batchAttempted && !g.batchCompleted && g.applied == {} && g.failed == {} && w.recorded == {}
  }

  /** Wherever the batch breaks off, every selected service counts as failed. */
  lemma BatchMayBreak(p: Plan, g: Progress, w: World, g': Progress, w': World)
    requires BeforeBatch(p, g, w) && w'.recorded <= Chosen(p) && Traced(p, w') && g'.running <= Chosen(p) + p.actual.running
    requires g'.failed == Chosen(p) && g'.applied == {} && g'.pendingRestart <= g.pendingRestart
    requires BrokenBatch(g') ==> BatchTried(p, w')
    ensures Interrupted(p, g', w')
  {
    hide Chosen;
  }

  lemma BatchDone(p: Plan, g: Progress, w: World, g': Progress, w': World)
    requires BeforeBatch(p, g, w) && BatchTried(p, w') && w'.recorded == Chosen(p)
    requires Traced(p, w') && g'.running <= Chosen(p) + p.actual.running
    requires forall s :: s in Chosen(p) ==> s in w'.seen && w'.seen[s].fits && At(w'.docker, s) == w'.seen[s]
    requires g'.failed == {} && g'.applied == Chosen(p) && g'.pendingRestart <= g.pendingRestart && g'.batchCompleted
    ensures AfterBatch(p, g', w')
  {
    hide Chosen;
  }

  /** The batch: apply the selection, verify it, record it. */
  method BatchPhase(p: Plan, g: Progress, w: World, works: bool) returns (ok: bool, g': Progress, w': World)
    requires BeforeBatch(p, g, w)
    ensures works && !ok ==> exists s :: s in Chosen(p) && !At(w'.docker, s).fits
    ensures ok ==> AfterBatch(p, g', w')
    ensures !ok ==> Interrupted(p, g', w') && g'.failed == Chosen(p) && g'.applied == {}
    ensures g' == g.(failed := g'.failed, applied := g'.applied, batchAttempted := g'.batchAttempted, batchCompleted := g'.batchCompleted,
                     running := g'.running, pendingRestart := g'.pendingRestart)
    ensures !g'.batchCompleted ==> g'.running == g.running && g'.pendingRestart == g.pendingRestart
    ensures g'.batchCompleted ==>
      && g'.pendingRestart == g.pendingRestart - Chosen(p)
      && forall s :: s in g'.running <==> if s in Chosen(p) then s in w'.docker && w'.docker[s].live > 0 else s in g.running
    ensures forall s :: s !in Chosen(p) ==> LastAct(w', s) == LastAct(w, s) && At(w'.docker, s) == At(w.docker, s)
    ensures w'.log == if g'.batchAttempted then w.log + [Command(Chosen(p), AppliedCurrent)] else w.log
    ensures g'.batchCompleted ==> g'.batchAttempted && Chosen(p) <= w'.recorded
    ensures ok ==> g'.batchAttempted && forall s :: s in Chosen(p) ==> LastAct(w', s) == AppliedCurrent
  {
    hide BeforeBatch, AfterBatch, Interrupted, Chosen, Traced, At;
    BatchStartsClean(p, g, w);
    g', w' := g.(failed := Chosen(p)), w;
    var interrupted := Fails(works);
    if interrupted {
      BatchMayBreak(p, g, w, g', w');
      return false, g', w';
    }
    g' := g'.(batchAttempted := true);
    ok, w' := DockerAct(w', Chosen(p), AppliedCurrent, works);
    StaysTraced(p, w, w', Chosen(p));
    BatchMayBreak(p, g, w, g', w');
    if !ok {
      return false, g', w';
    }
    var misfits := set s | s in Chosen(p) && !At(w'.docker, s).fits;
    if misfits != {} {
      ghost var s :| s in misfits;
      return false, g', w';
    }
    assert forall s :: s in Chosen(p) && !At(w'.docker, s).fits ==> s in misfits;
    ghost var acted := w';
    w' := w'.(seen := map s | s in Chosen(p) :: At(w'.docker, s));
    ok, w' := RecordCurrent(w', Chosen(p), works);
    StaysTraced(p, acted, w', {});
    BatchMayBreak(p, g, w, g', w');
    if !ok {
      return false, g', w';
    }
    var up := LiveServices(w'.docker);
    g' := g'.(batchCompleted := true, running := g'.running - Chosen(p) + (Chosen(p) * up), pendingRestart := g'.pendingRestart - Chosen(p));
    BatchMayBreak(p, g, w, g', w');
    var stateFails := Fails(works);
    if stateFails {
      return false, g', w';
    }
    g' := g'.(applied := Chosen(p), failed := {});
    BatchDone(p, g, w, g', w');
  }

  lemma BatchStartsClean(p: Plan, g: Progress, w: World)
    requires BeforeBatch(p, g, w)
    ensures !g.batchAttempted && !g.batchCompleted && g.applied == {} && g.failed == {} && w.recorded == {}
    ensures Traced(p, w) && g.running <= Chosen(p) + p.actual.running
  {
  }

  /** What a dependent gets. */
  function DependentAct(action: Option<bool>): Act {
    match action
    case None => Untouched
    case Some(rebuild) => if rebuild then AppliedPrevious else Restarted
  }

  function DependentCommands(actions: seq<(Service, bool)>): (commands: seq<Command>)
    ensures |commands| == |actions|
  {
    seq(|actions|, i requires 0 <= i < |actions| => Command({actions[i].0}, DependentAct(Some(actions[i].1))))
  }

  /** Every listed service had its command last, nobody else had one. */
  ghost predicate Followed(w: World, w': World, actions: seq<(Service, bool)>) {
    && w'.log == w.log + DependentCommands(actions)
    && forall s :: LastAct(w', s) == match ActionOf(actions, s) case None => LastAct(w, s) case Some(rebuild) => DependentAct(Some(rebuild))
  }

  /** The batch stays as it is, and no service but one running outside the selection is failed. */
  ghost predicate BatchStands(p: Plan, g: Progress, w: World) {
    && g.applied == Chosen(p) && Deployed(p, w) && w.recorded == Chosen(p)
    && (g.failed == {} || exists s :: g.failed == {s} && s !in Chosen(p) && s in p.actual.running)
  }

  /** Dependents outside the selection, one by one: on success every one that the updated and
      recreated services demand had its command, and nobody else. */
  method DependentsPhase(p: Plan, g: Progress, w: World, works: bool)
    returns (ok: bool, g': Progress, w': World, ghost c: Changed, ghost actions: seq<(Service, bool)>)
    requires ValidPlan(p) && AfterBatch(p, g, w)
    ensures Interrupted(p, g', w') && BatchStands(p, g', w') && g' == g.(failed := g'.failed)
    ensures works && !ok ==> HasCycle(Edges(DependentDefinitions(p).Keys, DependentDefinitions(p)))
    ensures ok ==>
      && g' == g && AfterBatch(p, g', w')
      && IsPropagation(DependentDefinitions(p), Changed(g.updated, g.recreated), c, false, actions)
      && Answered(p.context, p.actual.running, {}, Chosen(p), g.updated, g.recreated, Listed(actions), Rebuilt(actions))
      && Followed(w, w', actions)
  {
    hide ValidContext, Edges, Respects, HasCycle, Settled, Deployed, Followed, Answered;
    g', w' := g, w;
    c, actions := Changed(g.updated, g.recreated), [];
    var propagated := DependentActionsFor(p.context, Chosen(p), p.actual.running, Changed(g.updated, g.recreated), {}, false);
    if propagated.None? {
      return false, g', w', c, actions;
    }
    c, actions := propagated.value.1, propagated.value.0;
    PropagationAnswers(p.context, p.actual.running, {}, Chosen(p), Changed(g.updated, g.recreated), c, actions);
    DependentsAreOutside(p, actions, c, Changed(g.updated, g.recreated));
    ok, g', w' := RunDependents(p, g, w, propagated.value.0, works);
  }

  /** The running services outside the selection that have a captured model. */
  function DependentDefinitions(p: Plan): Definitions
    requires ValidPlan(p)
  {
    PendingDefinitions(p.context, Chosen(p), p.actual.running, {})
  }

  /** The loop over the dependents. */
  method RunDependents(p: Plan, g: Progress, w: World, actions: seq<(Service, bool)>, works: bool) returns (ok: bool, g': Progress, w': World)
    requires AfterBatch(p, g, w)
    requires forall i :: 0 <= i < |actions| ==> actions[i].0 !in Chosen(p) && actions[i].0 in p.actual.running * p.context.previous.Keys
    ensures Interrupted(p, g', w') && BatchStands(p, g', w') && g' == g.(failed := g'.failed)
    ensures works ==> ok
    ensures ok ==> g' == g && AfterBatch(p, g', w') && Followed(w, w', actions)
  {
    AfterBatchIsInterrupted(p, g, w);
    NobodyFollowed(w);
    hide AfterBatch, Interrupted, Chosen, Followed, BatchStands;
    ok, g', w' := true, g, w;
    for i := 0 to |actions|
      invariant ok && g' == g && AfterBatch(p, g', w') && Interrupted(p, g', w') && BatchStands(p, g', w')
      invariant Followed(w, w', actions[..i])
    {
      ghost var before := w';
      ok, g', w' := RunDependent(p, g', w', actions[i].0, actions[i].1, works);
      if !ok {
        return;
      }
      OneMoreFollowed(w, before, w', actions, i);
    }
    assert actions[..|actions|] == actions;
  }

  lemma NobodyFollowed(w: World)
    ensures Followed(w, w, [])
  {
  }

  lemma OneMoreFollowed(w: World, before: World, w': World, actions: seq<(Service, bool)>, i: nat)
    requires i < |actions| && Followed(w, before, actions[..i])
    requires w'.log == before.log + [Command({actions[i].0}, DependentAct(Some(actions[i].1)))]
    requires LastAct(w', actions[i].0) == DependentAct(Some(actions[i].1))
    requires forall s :: s != actions[i].0 ==> LastAct(w', s) == LastAct(before, s)
    ensures Followed(w, w', actions[..i + 1])
  {
    var more := actions[..i + 1];
    assert more[..|more| - 1] == actions[..i];
    assert DependentCommands(more) == DependentCommands(actions[..i]) + [Command({actions[i].0}, DependentAct(Some(actions[i].1)))];
  }

  lemma AfterBatchIsInterrupted(p: Plan, g: Progress, w: World)
    requires AfterBatch(p, g, w)
    ensures Interrupted(p, g, w) && BatchStands(p, g, w)
  {
  }

  /** Between dependents: the batch is done and nothing is counted as failed. */
  ghost predicate AfterBatch(p: Plan, g: Progress, w: World) {
    && Settled(p, g, w) && Deployed(p, w) && w.recorded == Chosen(p)
    && g.applied == Chosen(p) && g.failed == {} && g.batchCompleted
  }

  /** Recreate a dependent from its previous model, or restart it. */
  method RunDependent(p: Plan, g: Progress, w: World, s: Service, rebuild: bool, works: bool) returns (ok: bool, g': Progress, w': World)
    requires AfterBatch(p, g, w) && s !in Chosen(p) && s in p.actual.running * p.context.previous.Keys
    ensures Interrupted(p, g', w') && BatchStands(p, g', w') && g' == g.(failed := if ok then {} else {s})
    ensures works ==> ok
    ensures forall x :: x != s ==> LastAct(w', x) == LastAct(w, x)
    ensures ok ==>
      && AfterBatch(p, g', w')
      && LastAct(w', s) == DependentAct(Some(rebuild)) && w'.log == w.log + [Command({s}, DependentAct(Some(rebuild)))]
  {
    hide Confirmed;
    g', w' := g.(failed := {s}), w;
    var noModel := Fails(works);
    if noModel {
      return false, g', w';
    }
    ok, w' := DockerAct(w, {s}, if rebuild then AppliedPrevious else Restarted, works);
    DependentKeepsRest(p, g, w, w', s);
    var interrupted := Fails(works);
    ok := ok && !interrupted;
    if ok {
      g' := g;
    }
  }

  /** Only running services with a captured model are dependents, none of them selected. */
  lemma DependentsAreOutside(p: Plan, actions: seq<(Service, bool)>, c: Changed, start: Changed)
    requires ValidPlan(p)
    requires IsPropagation(DependentDefinitions(p), start, c, false, actions)
    ensures forall i :: 0 <= i < |actions| ==> actions[i].0 !in Chosen(p) && actions[i].0 in p.actual.running * p.context.previous.Keys
  {
  }

  lemma DependentKeepsRest(p: Plan, g: Progress, w: World, w': World, s: Service)
    requires AfterBatch(p, g, w) && OthersSame(w, w', {s}) && s !in Chosen(p) && s in p.actual.running * p.context.previous.Keys
    requires LastAct(w', s) != Untouched
    ensures AfterBatch(p, g, w') && Settled(p, g.(failed := {s}), w')
  {
    StaysTraced(p, w, w', {s});
  }

  // ----- a whole successful attempt -----

  /** What a successful operation has done, command by command. */
  ghost predicate CarriedThrough(p: Plan, g: Progress, w: World, c: Changed, actions: seq<(Service, bool)>)
    requires ValidPlan(p)
  {
    && Deployed(p, w)
    && EffectsAreExact(p, g.updated, g.recreated)
    && IsPropagation(DependentDefinitions(p), Changed(g.updated, g.recreated), c, false, actions)
    && Answered(p.context, p.actual.running, {}, Chosen(p), g.updated, g.recreated, Listed(actions), Rebuilt(actions))
    && w.log == StopOf(p.stopSet) + [Command(Chosen(p), AppliedCurrent)] + DependentCommands(actions)
    && (forall s :: s in Chosen(p) ==> LastAct(w, s) == AppliedCurrent)
    && forall s :: s !in Chosen(p) ==>
      LastAct(w, s) == DependentAct(ActionOf(actions, s)) && (ActionOf(actions, s).None? ==> At(w.docker, s) == At(p.before, s))
  }

  /** Nobody running outside the selection, judged by its captured definition, is left on a
      replaced namespace or behind a restarted dependency, and nobody is touched without cause. */
  lemma NobodyIsLeftBehind(p: Plan, g: Progress, w: World, c: Changed, actions: seq<(Service, bool)>, s: Service, spec: Spec)
    requires ValidPlan(p) && CarriedThrough(p, g, w, c, actions)
    requires s !in p.services && JudgedBy(p.context, p.actual.running, {}, s, spec)
    ensures LastAct(w, s) == AppliedPrevious <==> ReadsOneOf(spec, g.recreated + Rebuilt(actions))
    ensures LastAct(w, s) == Restarted <==> LastAct(w, s) != AppliedPrevious && RestartsWithOneOf(spec, g.updated + Listed(actions))
    ensures LastAct(w, s) == Untouched <==> s !in Listed(actions)
    ensures forall x :: x in Rebuilt(actions) ==> LastAct(w, x) == AppliedPrevious
  {
    hide Edges, Respects, EffectsAreExact, ActionsOrdered, Deployed, JudgedBy, ReadsOneOf, RestartsWithOneOf, IsLeastStationary, Listed, Rebuilt, DependencyAction;
    assert s !in Chosen(p);
    ActionIsListed(actions, s);
    forall x | x in Rebuilt(actions)
      ensures LastAct(w, x) == AppliedPrevious
    {
      ActionIsListed(actions, x);
      assert x !in Chosen(p);
    }
  }
}

/** The recovery when a start or restart fails at any step, and the operation as a whole.
    What the operation's own bookkeeping guarantees is proved for every way in which the
    steps can go. */
module Recovery {
  import opened Options
  import opened Digraphs
  import opened Compose
  import opened Sequences
  import opened DependentActions
  import opened NamespaceProviders
  import opened SharedInputs
  import opened Deployment

  /** What the recovery decides: services brought back to their previous model, new ones
      that are stopped, stopped providers that run only while others are restored. */
  datatype Decision = Decision(restore: set<Service>, cleanup: set<Service>, temporary: set<Service>, affected: set<Service>)

  function Successful(g: Progress, d: Decision): set<Service> {
    g.applied - d.restore - d.cleanup
  }

  /** The selected services that show what the operation wants of them. */
  function Shown(p: Plan, docker: Docker): set<Service> {
    set s | s in Chosen(p) && At(docker, s).fits && FreshHashes(p, At(docker, s), s)
  }

  /** Docker proves that a selected service was applied: it shows what is wanted, and the service
      is unchanged or new, or every instance has a configuration hash and none has one that an
      instance had before. */
  ghost predicate IsProved(p: Plan, docker: Docker, s: Service) {
    && s in p.services && s in docker && docker[s].fits
    && (s in p.changed && s in p.actual.existing ==>
          None !in docker[s].hashes && forall h :: s in p.before && h in p.before[s].hashes ==> h !in docker[s].hashes)
  }

  lemma ShownIsProved(p: Plan, docker: Docker)
    ensures forall s :: s in Shown(p, docker) <==> IsProved(p, docker, s)
  {
    hide FreshHashes;
    forall s
      ensures s in Shown(p, docker) <==> IsProved(p, docker, s)
    {
      FreshIsEvidence(p, At(docker, s), s);
    }
  }

  /** What is known once a broken batch was settled and an incomplete stop looked at: proved
      services count as applied and not as failed, and what runs is what Docker says. */
  ghost predicate IsInspected(p: Plan, g: Progress, docker: Docker, g': Progress) {
    && g' == g.(applied := g'.applied, failed := g'.failed, pendingRestart := g'.pendingRestart, running := g'.running)
    && (forall s :: s in g'.applied <==> s in g.applied || (BrokenBatch(g) && IsProved(p, docker, s)))
    && (forall s :: s in g'.failed <==> s in g.failed && !(BrokenBatch(g) && IsProved(p, docker, s)))
    && (forall s :: s in g'.pendingRestart <==> s in g.pendingRestart && !(BrokenBatch(g) && IsProved(p, docker, s)))
    && (forall s :: s in g'.running <==>
          if BrokenBatch(g) || (g.stopAttempted && !g.stopped) then s in docker && docker[s].live > 0 else s in g.running)
  }

  predicate StopBrokeOff(g: Progress) {
    g.stopAttempted && !g.stopped
  }

  /** After a broken batch exactly the proved services count as applied and are recorded, and the
      rest of the selection as failed; what runs is what Docker shows. */
  ghost predicate SettledByEvidence(p: Plan, g: Progress, w: World, g': Progress, w': World) {
    && (forall s :: s in g'.applied <==> IsProved(p, w.docker, s))
    && (forall s :: s in g'.failed <==> s in p.services && s !in g'.applied)
    && (forall s :: s in g'.running <==> s in w.docker && w.docker[s].live > 0)
    && g' == g.(applied := g'.applied, failed := g'.failed, pendingRestart := g.pendingRestart - g'.applied, running := g'.running)
    && w'.recorded == w.recorded + g'.applied && forall s :: s in g'.applied ==> s in w'.seen && w'.seen[s] == w.docker[s]
  }

  lemma ConfirmedByEvidence(p: Plan, g: Progress, w: World, confirmed: set<Service>, g': Progress, w': World)
    requires Interrupted(p, g, w) && BrokenBatch(g) && confirmed == Shown(p, w.docker)
    requires w' == w.(seen := map s | s in confirmed :: At(w.docker, s), recorded := w.recorded + confirmed)
    requires g' == g.(applied := g.applied + confirmed, failed := g.failed - confirmed, pendingRestart := g.pendingRestart - confirmed,
                      running := LiveServices(w.docker))
    ensures SettledByEvidence(p, g, w, g', w')
  {
    hide Settled, BatchTried, Shown;
    ShownIsProved(p, w.docker);
    assert g'.applied == confirmed;
  }

  /** Settle what a broken batch achieved: confirmed services count as applied. */
  method SettleBatch(p: Plan, g: Progress, w: World, works: bool) returns (ok: bool, g': Progress, w': World)
    requires ValidPlan(p) && Interrupted(p, g, w)
    ensures works ==> ok
    ensures ok ==> Settled(p, g', w')
    ensures ok && BrokenBatch(g) ==> SettledByEvidence(p, g, w, g', w')
    ensures ok && !BrokenBatch(g) ==> g' == g && w' == w
    ensures w'.docker == w.docker && w'.last == w.last && w'.log == w.log
  {
    hide ValidPlan, Settled, Shown, LiveServices, SettledByEvidence, At;
    if !BrokenBatch(g) {
      return true, g, w;
    }
    var unobserved := Fails(works);
    if unobserved {
      return false, g, w;
    }
    var confirmed := Shown(p, w.docker);
    w' := w.(seen := map s | s in confirmed :: At(w.docker, s));
    ok, w' := RecordCurrent(w', confirmed, works);
    g' := g.(applied := g.applied + confirmed, failed := g.failed - confirmed, pendingRestart := g.pendingRestart - confirmed,
             running := LiveServices(w.docker));
    if ok {
      ConfirmedByEvidence(p, g, w, confirmed, g', w');
      ConfirmedAreSettled(p, g, w, confirmed, g', w');
    }
  }

  lemma ConfirmedAreSettled(p: Plan, g: Progress, w: World, confirmed: set<Service>, g': Progress, w': World)
    requires ValidPlan(p) && Interrupted(p, g, w) && BrokenBatch(g)
    requires confirmed == Shown(p, w.docker)
    requires w' == w.(seen := map s | s in confirmed :: At(w.docker, s), recorded := w.recorded + confirmed)
    requires g' == g.(applied := g.applied + confirmed, failed := g.failed - confirmed, pendingRestart := g.pendingRestart - confirmed,
                      running := LiveServices(w.docker))
    ensures Settled(p, g', w')
  {
    StaysTraced(p, w, w', {});
    LiveAreKnown(p, w);
    SettledIsKnown(p, g, w);
    ShownAreConfirmed(p, w, confirmed, w', g'.batchCompleted);
    EverybodyIsAccountedFor(p, g, w, confirmed, g', w');
    hide IsEvidence, At, LiveServices, Traced, ValidPlan, Interrupted, Confirmed, Shown, BrokenBatch, Quiet, AwaitsRestart, NewModelRuns;
  }

  lemma SettledIsKnown(p: Plan, g: Progress, w: World)
    requires Interrupted(p, g, w) && BrokenBatch(g)
    ensures Traced(p, w) && g.failed == Chosen(p) && g.applied == {} && g.pendingRestart <= p.stopSet * p.actual.running
    ensures w.recorded <= Chosen(p) && forall s :: s in Chosen(p) ==> NewModelRuns(w, s)
  {
    hide Traced, Confirmed, Quiet, AwaitsRestart, NewModelRuns;
  }

  lemma EverybodyIsAccountedFor(p: Plan, g: Progress, w: World, confirmed: set<Service>, g': Progress, w': World)
    requires g.failed == Chosen(p) && g.applied == {} && confirmed <= Chosen(p) && w.recorded <= Chosen(p)
    requires w'.recorded == w.recorded + confirmed
    requires g'.applied == g.applied + confirmed && g'.failed == g.failed - confirmed && g'.pendingRestart == g.pendingRestart - confirmed
    ensures g'.applied == confirmed && g'.applied !! g'.failed && g'.pendingRestart <= g.pendingRestart
    ensures forall s :: s in Chosen(p) <==> s in g'.applied || s in g'.failed
    ensures w'.recorded <= g'.applied + g'.failed && g'.applied <= w'.recorded
  {
  }

  lemma ShownAreConfirmed(p: Plan, w: World, confirmed: set<Service>, w': World, completed: bool)
    requires confirmed == Shown(p, w.docker)
    requires w' == w.(seen := map s | s in confirmed :: At(w.docker, s), recorded := w'.recorded)
    ensures confirmed <= Chosen(p)
    ensures forall s :: s in confirmed ==> Confirmed(p, w', completed, s) && At(w'.docker, s) == w'.seen[s]
    ensures forall s :: NewModelRuns(w', s) <==> NewModelRuns(w, s)
  {
    hide IsEvidence, FreshHashes;
    forall s | s in confirmed
      ensures IsEvidence(p, w'.seen[s], s)
    {
      FreshIsEvidence(p, At(w.docker, s), s);
    }
  }

  /** Nothing runs that was not running or selected. */
  lemma LiveAreKnown(p: Plan, w: World)
    requires ValidPlan(p) && Traced(p, w)
    ensures LiveServices(w.docker) <= Chosen(p) + p.actual.running
  {
    hide ValidContext, Edges, Respects;
    forall s | s in LiveServices(w.docker)
      ensures s in Chosen(p) + p.actual.running
    {
      if LastAct(w, s) == Untouched {
        assert At(p.before, s).live > 0;
      }
    }
  }

  /** Services stopped for the restart and not brought back since. */
  function StoppedForRestart(p: Plan, g: Progress, w: World): set<Service> {
    if StopBrokeOff(g) then set s | s in g.pendingRestart && At(w.docker, s).live < At(p.before, s).live
    else if g.stopped then g.pendingRestart
    else {}
  }

  /** After a stop that broke off, what runs is looked up again. */
  method Reinspect(p: Plan, g: Progress, w: World, works: bool) returns (ok: bool, g': Progress)
    requires ValidPlan(p) && Settled(p, g, w)
    ensures works ==> ok
    ensures Settled(p, g', w) && g' == g.(running := g'.running)
    ensures ok ==> forall s :: s in g'.running <==> if g.stopAttempted && !g.stopped then s in w.docker && w.docker[s].live > 0 else s in g.running
  {
    ok, g' := true, g;
    if StopBrokeOff(g) {
      var unobserved := Fails(works);
      ok := !unobserved;
      if ok {
        LiveAreKnown(p, w);
        g' := g.(running := LiveServices(w.docker));
      }
    }
  }

  /** Outside the two sets no running service reads a namespace of a discarded service. */
  ghost predicate NothingDangles(p: Plan, running: set<Service>, applied: set<Service>, d: Decision)
    requires ValidPlan(p) && applied <= Chosen(p)
  {
    forall s :: s in Considered(p.context, running, applied) && s !in d.restore + d.cleanup ==>
      DefinitionOf(p.context, applied, s).namespaces !! d.cleanup + d.temporary
  }

  /** The temporary services are the discarded ones that live consumers need. */
  ghost predicate OnlyProvidersReturn(p: Plan, d: Decision)
    requires ValidPlan(p)
  {
    d.temporary == Providers(p.context.previous, (d.cleanup + d.temporary) * (p.actual.existing - p.actual.running), d.restore - d.temporary)
  }

  /** The services whose containers read a namespace of a recreated one. */
  function Readers(pending: Definitions, recreated: set<Service>): set<Service> {
    set s | s in pending && MustRecreate(pending[s], recreated)
  }

  /** Services brought back whether or not anything is discarded. */
  ghost function PutBack(p: Plan, g: Progress, w: World, affected: set<Service>): set<Service> {
    (set s | s in g.pendingRestart && AwaitsRestart(p, s, g, w)) + (affected * p.actual.running)
  }

  lemma StoppedAwait(p: Plan, g: Progress, w: World)
    ensures forall s :: s in StoppedForRestart(p, g, w) <==> AwaitsRestart(p, s, g, w)
    ensures forall affected :: PutBack(p, g, w, affected) == StoppedForRestart(p, g, w) + (affected * p.actual.running)
  {
    hide At;
    assert StoppedForRestart(p, g, w) == set s | s in g.pendingRestart && AwaitsRestart(p, s, g, w);
  }

  /** No more and no less: the services stopped for the restart, the affected ones, and the
      readers that discarding them drags along, each by whether it ran at the start. */
  ghost predicate NoFurther(p: Plan, g: Progress, w: World, d: Decision, c: Changed)
    requires ValidPlan(p) && g.applied <= Chosen(p)
  {
    var put, dropped := PutBack(p, g, w, d.affected), d.affected - p.actual.running;
    var pending := PendingDefinitions(p.context, put + dropped, g.running, g.applied - put);
    && IsLeastStationary(pending, Changed({}, dropped), c, true)
    && d.restore - d.temporary == put + (Readers(pending, c.recreated) * p.actual.running)
    && d.cleanup + d.temporary == dropped + (Readers(pending, c.recreated) - p.actual.running)
  }

  /** What the decision guarantees. */
  ghost predicate Decided(p: Plan, g: Progress, w: World, d: Decision)
    requires ValidPlan(p)
  {
    && d.restore !! d.cleanup && d.temporary <= d.restore * p.actual.existing
    && d.restore - d.temporary <= p.actual.running * (Chosen(p) + p.context.previous.Keys)
    && d.cleanup + d.temporary <= Chosen(p) - p.actual.running
    && (forall s :: AwaitsRestart(p, s, g, w) ==> s in d.restore)
    && IsAffected(p.inputs, g.failed, g.applied, d.affected)
    && (forall s, t :: s in d.affected && t in g.applied && Share(p.inputs, s, t) ==> t in d.affected)
    && d.affected <= d.restore + d.cleanup
    && OnlyProvidersReturn(p, d)
    && g.applied <= Chosen(p) && NothingDangles(p, g.running, g.applied, d)
    && exists c :: NoFurther(p, g, w, d, c)
  }

  /** The guarantees leave no choice. */
  lemma DecisionIsDetermined(p: Plan, g: Progress, w: World, d: Decision, e: Decision)
    requires ValidPlan(p) && Decided(p, g, w, d) && Decided(p, g, w, e)
    ensures d == e
  {
    hide ValidContext, Edges, Respects, NothingDangles, Share, Linked, Providers, Stationary, PendingDefinitions, AwaitsRestart;
    assert d.affected == e.affected;
    var c :| NoFurther(p, g, w, d, c);
    var f :| NoFurther(p, g, w, e, f);
    assert c.recreated == f.recreated;
    assert d.restore - d.temporary == e.restore - e.temporary && d.cleanup + d.temporary == e.cleanup + e.temporary;
    assert d.temporary == e.temporary;
    SameSplit(d.restore, d.cleanup, e.restore, e.cleanup, d.temporary);
  }

  lemma SameSplit(a: set<Service>, b: set<Service>, c: set<Service>, e: set<Service>, t: set<Service>)
    requires t <= a && t <= c && b !! a && e !! c && a - t == c - t && b + t == e + t
    ensures a == c && b == e
  {
    assert a == (a - t) + t && c == (c - t) + t;
    assert b == (b + t) - t && e == (e + t) - t;
  }

  /** Which services go back, which are discarded, which start for a while; or definitions
      that cannot be ordered. */
  method Decide(p: Plan, g: Progress, w: World) returns (r: Result<Decision, Definitions>)
    requires ValidPlan(p) && Settled(p, g, w)
    ensures r.Ok? ==> Decided(p, g, w, r.value)
    ensures r.Err? ==> Tangled(p, r.error)
  {
    hide Edges, Respects, IsAffected, Share, LastAct, Traced, Providers, IsPropagation, IsLeastStationary, NothingDangles, DefinitionOf;
    hide NoFurther, HasCycle, Tangled, PutBack, AwaitsRestart, StoppedForRestart;
    var restore := StoppedForRestart(p, g, w);
    RestartsAreRunning(p, g, w);
    StoppedAwait(p, g, w);
    if g.failed == {} {
      NothingFailedNothingAffected(p.inputs, g.applied);
      NothingDiscarded(p, g, w, Decision(restore, {}, {}, {}));
      return Ok(Decision(restore, {}, {}, {}));
    }
    var affected := AffectedServices(p.inputs, g.failed, g.applied);
    AffectedAreKnown(p, g, w, affected);
    restore := restore + (affected * p.actual.running);
    var cleanup := affected - p.actual.running;
    if cleanup == {} {
      assert affected <= p.actual.running by {
        assert forall s :: s in affected && s !in p.actual.running ==> s in cleanup;
      }
      NothingDiscarded(p, g, w, Decision(restore, {}, {}, affected));
      return Ok(Decision(restore, {}, {}, affected));
    }
    var propagated := DependentActionsFor(p.context, restore + cleanup, g.running, Changed({}, cleanup), g.applied - restore, true);
    if propagated.None? {
      PendingAreOfPlan(p, restore + cleanup, g.running, g.applied - restore);
      return Err(PendingDefinitions(p.context, restore + cleanup, g.running, g.applied - restore));
    }
    var actions := propagated.value.0;
    ghost var put, dropped := restore, cleanup;
    DependentsAreKnown(p, g, restore + cleanup, g.applied - restore, actions, propagated.value.1, Changed({}, cleanup), true);
    restore, cleanup := AddReaders(actions, p.actual.running, restore, cleanup);
    ReadersAreKnown(p, g, put, dropped, actions, restore, cleanup);
    var consumers := ListOf(restore);
    var temporary := StoppedNamespaceProviders(p.context.previous, p.actual, cleanup, consumers);
    var d := Decision(restore + temporary, cleanup - temporary, temporary, affected);
    ProvidersAreCandidates(p.context.previous, cleanup * (p.actual.existing - p.actual.running), restore);
    assert d.cleanup + d.temporary == cleanup && d.restore - d.temporary == restore;
    ReadersAreListed(p, g, w, put, dropped, actions, propagated.value.1, d);
    ConsumersAreDealtWith(p, g, put, dropped, actions, propagated.value.1, d);
    return Ok(d);
  }

  /** Each listed service goes to one of the two sets. */
  method AddReaders(actions: seq<(Service, bool)>, running: set<Service>, put: set<Service>, dropped: set<Service>)
    returns (restore: set<Service>, cleanup: set<Service>)
    ensures forall s :: s in restore <==> s in put || (s in running && ListedBefore(actions, |actions|, s))
    ensures forall s :: s in cleanup <==> s in dropped || (s !in running && ListedBefore(actions, |actions|, s))
  {
    restore, cleanup := put, dropped;
    for i := 0 to |actions|
      invariant forall s :: s in restore <==> s in put || (s in running && ListedBefore(actions, i, s))
      invariant forall s :: s in cleanup <==> s in dropped || (s !in running && ListedBefore(actions, i, s))
    {
      var s := actions[i].0;
      if s in running {
        restore := restore + {s};
      } else {
        cleanup := cleanup + {s};
      }
    }
  }

  lemma ReadersAreKnown(p: Plan, g: Progress, put: set<Service>, dropped: set<Service>, actions: seq<(Service, bool)>,
                        restore: set<Service>, cleanup: set<Service>)
    requires ValidPlan(p) && g.applied <= Chosen(p) && g.running <= Chosen(p) + p.actual.running
    requires forall i :: 0 <= i < |actions| ==>
      actions[i].0 in g.running && actions[i].0 in g.applied + p.context.previous.Keys
    requires put <= p.actual.running * (Chosen(p) + p.context.previous.Keys) && dropped <= Chosen(p) - p.actual.running
    requires forall s :: s in restore <==> s in put || (s in p.actual.running && ListedBefore(actions, |actions|, s))
    requires forall s :: s in cleanup <==> s in dropped || (s !in p.actual.running && ListedBefore(actions, |actions|, s))
    ensures put <= restore <= p.actual.running * (Chosen(p) + p.context.previous.Keys)
    ensures dropped <= cleanup <= Chosen(p) - p.actual.running
  {
    hide ValidPlan, Chosen;
  }

  /** Definitions the operation knows: new, captured, or older ones. */
  ghost predicate OfPlan(p: Plan, definitions: Definitions) {
    forall s :: s in definitions ==>
      || (s in p.context.composeModel && definitions[s] == p.context.composeModel[s])
      || (s in p.context.previous && s in p.context.previous[s] && definitions[s] == p.context.previous[s][s])
      || (s in p.legacy && s in p.legacy[s] && definitions[s] == p.legacy[s][s])
  }

  /** Known definitions that depend on each other in a circle. */
  ghost predicate Tangled(p: Plan, definitions: Definitions) {
    OfPlan(p, definitions) && HasCycle(Edges(definitions.Keys, definitions))
  }

  lemma PendingAreOfPlan(p: Plan, selected: set<Service>, running: set<Service>, applied: set<Service>)
    requires ValidPlan(p) && applied <= Chosen(p)
    requires var pending := PendingDefinitions(p.context, selected, running, applied); HasCycle(Edges(pending.Keys, pending))
    ensures Tangled(p, PendingDefinitions(p.context, selected, running, applied))
  {
    hide HasCycle, Respects, Edges;
  }

  lemma NothingDiscarded(p: Plan, g: Progress, w: World, d: Decision)
    requires ValidPlan(p) && d.cleanup == {} && d.temporary == {} && g.applied <= Chosen(p)
    requires d.restore == PutBack(p, g, w, d.affected) && d.affected <= p.actual.running
    ensures OnlyProvidersReturn(p, d) && NothingDangles(p, g.running, g.applied, d) && NoFurther(p, g, w, d, Changed({}, {}))
  {
    hide Edges, Respects, DefinitionOf, Provides, AwaitsRestart, PutBack;
    var dropped := d.affected - p.actual.running;
    assert dropped == {};
    var pending := PendingDefinitions(p.context, d.restore + dropped, g.running, g.applied - d.restore);
    assert IsLeastStationary(pending, Changed({}, {}), Changed({}, {}), true);
    assert Readers(pending, {}) == {};
  }

  /** What the pass lists are the readers of what is discarded. */
  lemma ReadersAreListed(p: Plan, g: Progress, w: World, put: set<Service>, dropped: set<Service>, actions: seq<(Service, bool)>,
                         c: Changed, d: Decision)
    requires ValidPlan(p) && g.applied <= Chosen(p)
    requires put == PutBack(p, g, w, d.affected) && dropped == d.affected - p.actual.running
    requires IsPropagation(PendingDefinitions(p.context, put + dropped, g.running, g.applied - put), Changed({}, dropped), c, true, actions)
    requires forall s :: s in d.restore - d.temporary <==> s in put || (s in p.actual.running && ListedBefore(actions, |actions|, s))
    requires forall s :: s in d.cleanup + d.temporary <==> s in dropped || (s !in p.actual.running && ListedBefore(actions, |actions|, s))
    ensures NoFurther(p, g, w, d, c)
  {
    hide Edges, Respects, ListedBefore, ActionsOrdered, IsLeastStationary, PutBack, DefinitionOf, Considered, PendingDefinitions, ValidContext, MustRecreate;
    var pending := PendingDefinitions(p.context, put + dropped, g.running, g.applied - put);
    forall s
      ensures ListedBefore(actions, |actions|, s) <==> s in Readers(pending, c.recreated)
    {
      ListedHasAction(actions, s);
      if ListedBefore(actions, |actions|, s) {
        ListedIsPending(pending, c, true, actions, s);
      }
    }
  }

  /** Propagating recreation alone lists exactly the readers of what is discarded. */
  lemma ConsumersAreDealtWith(p: Plan, g: Progress, put: set<Service>, dropped: set<Service>, actions: seq<(Service, bool)>,
                              c: Changed, d: Decision)
    requires ValidPlan(p) && g.applied <= Chosen(p)
    requires IsPropagation(PendingDefinitions(p.context, put + dropped, g.running, g.applied - put), Changed({}, dropped), c, true, actions)
    requires forall s :: s in d.restore + d.cleanup <==> s in put + dropped || ListedBefore(actions, |actions|, s)
    requires forall s :: s in d.cleanup + d.temporary && s !in dropped ==> ListedBefore(actions, |actions|, s)
    ensures NothingDangles(p, g.running, g.applied, d)
  {
    hide Edges, Respects, ListedBefore, ActionsOrdered;
    var pending := PendingDefinitions(p.context, put + dropped, g.running, g.applied - put);
    forall x | x in d.cleanup + d.temporary
      ensures x in c.recreated
    {
      if x !in dropped {
        ListedHasAction(actions, x);
        ListedIsPending(pending, c, true, actions, x);
      }
    }
    forall s | s in Considered(p.context, g.running, g.applied) && s !in d.restore + d.cleanup
      ensures DefinitionOf(p.context, g.applied, s).namespaces !! d.cleanup + d.temporary
    {
      ListedHasAction(actions, s);
      assert s in pending && pending[s] == DefinitionOf(p.context, g.applied, s);
      assert !MustRecreate(pending[s], c.recreated);
      StaysApart(pending[s].namespaces, c.recreated, d.cleanup + d.temporary);
    }
  }

  lemma NothingFailedNothingAffected(inputs: Inputs, applied: set<Service>)
    ensures IsAffected(inputs, {}, applied, {})
  {
  }

  lemma RestartsAreRunning(p: Plan, g: Progress, w: World)
    requires ValidPlan(p) && Settled(p, g, w)
    ensures StoppedForRestart(p, g, w) <= Chosen(p) * p.actual.running
  {
  }

  lemma AffectedAreKnown(p: Plan, g: Progress, w: World, affected: set<Service>)
    requires ValidPlan(p) && Settled(p, g, w) && IsAffected(p.inputs, g.failed, g.applied, affected)
    ensures affected * p.actual.running <= Chosen(p) + p.context.previous.Keys
    ensures affected - p.actual.running <= Chosen(p)
  {
    hide Edges, Respects, Traced;
  }

  lemma DependentsAreKnown(p: Plan, g: Progress, selected: set<Service>, applied: set<Service>, actions: seq<(Service, bool)>,
                           c: Changed, start: Changed, namespaceOnly: bool)
    requires ValidPlan(p) && applied <= Chosen(p)
    requires IsPropagation(PendingDefinitions(p.context, selected, g.running, applied), start, c, namespaceOnly, actions)
    ensures forall i :: 0 <= i < |actions| ==>
      actions[i].0 !in selected && actions[i].0 in applied + p.context.previous.Keys && actions[i].0 in g.running
  {
    hide Edges, Respects;
  }

  /** Stop what is discarded and put its snapshots back. */
  method Discard(p: Plan, g: Progress, w: World, d: Decision, works: bool) returns (ok: bool, g': Progress, w': World)
    requires ValidPlan(p) && Settled(p, g, w) && Decided(p, g, w, d)
    ensures works ==> ok
    ensures ok ==> Discarded(p, g, w, w', d) && g' == g.(running := g.running - d.cleanup)
    ensures w'.log == w.log + StopOf(d.cleanup)
  {
    hide ValidPlan, Settled, NothingDangles, OnlyProvidersReturn, IsAffected, Share, AwaitsRestart, NoFurther;
    var discarded := Chosen(p) * d.cleanup;
    assert discarded == d.cleanup;
    if discarded == {} {
      return true, g, w;
    }
    ok, w' := DockerStop(w, discarded, works);
    if !ok {
      return false, g, w';
    }
    ok, w' := RecordPrevious(w', discarded, works);
    g' := g.(running := g.running - d.cleanup);
  }

  ghost predicate Discarded(p: Plan, g: Progress, w: World, w': World, d: Decision) {
    && (forall s :: s in d.cleanup ==> LastAct(w', s) == Halted && At(w'.docker, s).live == 0 && s !in w'.recorded)
    && (forall s :: s !in d.cleanup ==>
          LastAct(w', s) == LastAct(w, s) && At(w'.docker, s) == At(w.docker, s) && (s in w'.recorded <==> s in w.recorded))
    && w'.seen == w.seen
  }

  /** The command recovery gives for one service. */
  function ActFor(rebuild: bool, successful: bool): Act {
    if !rebuild then Restarted else if successful then AppliedCurrent else AppliedPrevious
  }

  /** The definitions the actions are ordered by. */
  function ActionSpecs(p: Plan, actions: map<Service, bool>, successful: set<Service>): Definitions
    requires ValidPlan(p) && successful <= Chosen(p)
    requires forall s :: s in actions ==> s in successful || s in p.context.previous || s in p.legacy
  {
    map s | s in actions ::
      if s in successful then p.context.composeModel[s]
      else if s in p.context.previous then p.context.previous[s][s]
      else p.legacy[s][s]
  }

  /** After the commands for `done`: those services had their command and, if restored,
      their old snapshot back; nothing else changed. */
  ghost predicate CarriedOut(actions: map<Service, bool>, successful: set<Service>, restore: set<Service>,
                             start: World, w: World, done: set<Service>) {
    && done <= actions.Keys
    && (forall s :: s in done ==> LastAct(w, s) == ActFor(actions[s], s in successful))
    && (forall s :: s !in done ==> LastAct(w, s) == LastAct(start, s) && At(w.docker, s) == At(start.docker, s))
    && w.recorded == start.recorded - (done * restore) && w.seen == start.seen
  }

  /** One command of the recovery. */
  method CarryOutOne(actions: map<Service, bool>, successful: set<Service>, restore: set<Service>,
                     ghost start: World, w: World, ghost done: set<Service>, s: Service, works: bool) returns (ok: bool, w': World)
    requires CarriedOut(actions, successful, restore, start, w, done) && s in actions && s !in done
    ensures works ==> ok
    ensures ok ==> CarriedOut(actions, successful, restore, start, w', done + {s})
    ensures w'.log == w.log + [Command({s}, ActFor(actions[s], s in successful))]
  {
    ok, w' := DockerAct(w, {s}, ActFor(actions[s], s in successful), works);
    if ok && s in restore {
      ok, w' := RecordPrevious(w', {s}, works);
    }
    if ok {
      assert (done + {s}) * restore == (done * restore) + ({s} * restore);
    }
  }

  /** The commands for some services, one by one. */
  ghost function RecoveryCommands(actions: map<Service, bool>, successful: set<Service>, order: seq<Service>): (commands: seq<Command>)
    requires Members(order) <= actions.Keys
    ensures |commands| == |order|
  {
    seq(|order|, i requires 0 <= i < |order| =>
      assert order[i] in Members(order);
      Command({order[i]}, if !actions[order[i]] then Restarted else if order[i] in successful then AppliedCurrent else AppliedPrevious))
  }

  /** The commands in dependency order up to the one that fails, if one does, then the stop of
      the temporary services among them; or the definitions that have no order. */
  method CarryOutAll(actions: map<Service, bool>, specs: Definitions, successful: set<Service>, d: Decision, w: World, works: bool)
    returns (end: Ending, w': World, ghost executed: seq<Service>)
    requires specs.Keys == actions.Keys && d.temporary <= actions.Keys
    ensures !end.NoModel? && (works ==> !end.StepFailed?) && (end.Unordered? ==> w' == w)
    ensures end.Unordered? ==> end.definitions == specs && HasCycle(Edges(specs.Keys, specs))
    ensures Distinct(executed) && Members(executed) <= actions.Keys && Respects(Edges(actions.Keys, specs), executed)
    ensures w'.log == w.log + RecoveryCommands(actions, successful, executed) + StopOf(Members(executed) * d.temporary)
    ensures end.Completed? ==> Members(executed) == actions.Keys
    ensures end.Completed? ==> exists v :: CarriedOut(actions, successful, d.restore, w, v, actions.Keys) && TemporaryStopped(v, w', d.temporary)
  {
    hide CarriedOut, Respects, Edges, HasCycle, Stable, TemporaryStopped, RecoveryCommands;
    end, w', executed := StepFailed, w, [];
    NoCommands(actions, successful, specs, w, d.temporary);
    var names := ListOf(actions.Keys);
    var ordered := OrderServiceSubset(names, specs);
    if ordered.None? {
      end := Unordered(specs);
      return;
    }
    var order := ordered.value;
    var imageGone := Fails(works);
    if imageGone {
      return;
    }
    NothingCarriedOut(actions, successful, d.restore, w);
    assert Members(order[..0]) == {};
    for i := 0 to |order|
      invariant CarriedOut(actions, successful, d.restore, w, w', Members(order[..i]))
      invariant Members(order[..i]) <= actions.Keys && w'.log == w.log + RecoveryCommands(actions, successful, order[..i])
    {
      OneMore(actions, successful, order, i);
      var ok;
      ok, w' := CarryOutOne(actions, successful, d.restore, w, w', Members(order[..i]), order[i], works);
      if !ok {
        executed := order[..i + 1];
        FrontOfOrder(Edges(actions.Keys, specs), order, i + 1);
        ok, w' := StopTemporary(w', Members(order[..i + 1]) * d.temporary, works);
        return;
      }
    }
    assert order[..|order|] == order;
    executed := order;
    assert Members(order) * d.temporary == d.temporary;
    var ok;
    ghost var v := w';
    ok, w' := StopTemporary(w', d.temporary, works);
    if ok {
      end := Completed;
    }
  }

  lemma NoCommands(actions: map<Service, bool>, successful: set<Service>, specs: Definitions, w: World, temporary: set<Service>)
    requires specs.Keys == actions.Keys
    ensures Members<Service>([]) <= actions.Keys && Respects(Edges(actions.Keys, specs), [])
    ensures w.log == w.log + RecoveryCommands(actions, successful, []) + StopOf(Members<Service>([]) * temporary)
  {
    assert Members<Service>([]) * temporary == {};
  }

  lemma FrontOfOrder(g: Graph<Service>, order: seq<Service>, n: nat)
    requires Distinct(order) && Respects(g, order) && n <= |order|
    ensures Distinct(order[..n]) && Respects(g, order[..n])
  {
    forall i, x | 0 <= i < n && x in Succ(g, order[..n][i])
      ensures x in order[..n][..i]
    {
      assert order[..n][i] == order[i] && order[..n][..i] == order[..i];
    }
  }

  /** `stop_temporary` */
  method StopTemporary(w: World, services: set<Service>, works: bool) returns (ok: bool, w': World)
    ensures works ==> ok
    ensures ok ==> TemporaryStopped(w, w', services)
    ensures w'.log == w.log + StopOf(services)
  {
    ok, w' := true, w;
    if services != {} {
      ok, w' := DockerStop(w, services, works);
    }
  }

  lemma OneMore(actions: map<Service, bool>, successful: set<Service>, order: seq<Service>, i: nat)
    requires Distinct(order) && Members(order) <= actions.Keys && i < |order|
    ensures order[i] in actions && order[i] !in Members(order[..i])
    ensures Members(order[..i]) <= actions.Keys && Members(order[..i + 1]) <= actions.Keys
    ensures Members(order[..i + 1]) == Members(order[..i]) + {order[i]}
    ensures RecoveryCommands(actions, successful, order[..i + 1]) ==
      RecoveryCommands(actions, successful, order[..i]) + [Command({order[i]}, ActFor(actions[order[i]], order[i] in successful))]
  {
    assert order[..i + 1] == order[..i] + [order[i]];
    assert order[i] in Members(order);
  }

  lemma NothingCarriedOut(actions: map<Service, bool>, successful: set<Service>, restore: set<Service>, w: World)
    ensures CarriedOut(actions, successful, restore, w, w, {})
  {
  }

  ghost predicate TemporaryStopped(w: World, w': World, temporary: set<Service>) {
    && (forall s :: s in temporary ==> LastAct(w', s) == Halted && At(w'.docker, s).live == 0)
    && (forall s :: s !in temporary ==> LastAct(w', s) == LastAct(w, s) && At(w'.docker, s) == At(w.docker, s))
    && w'.recorded == w.recorded && w'.seen == w.seen
  }

  // ----- what a completed recovery guarantees -----

  /** How a selected service that was running at the start ends. */
  ghost predicate BackInService(p: Plan, g: Progress, d: Decision, w: World, actions: map<Service, bool>, s: Service) {
    || (s in Successful(g, d) && s in w.recorded && Confirmed(p, w, g.batchCompleted, s) && NewModelRuns(w, s) && KeptOrRenewed(w, actions, s))
    || (s in d.restore && LastAct(w, s) == AppliedPrevious && s !in w.recorded)
    || (s !in g.applied && s !in d.restore && s !in w.recorded && LeftAlone(p, w, s))
  }

  /** Docker still shows what it was confirmed by, or recovery gave it a command of its own. */
  ghost predicate KeptOrRenewed(w: World, actions: map<Service, bool>, s: Service) {
    if s in actions then LastAct(w, s) == (if actions[s] then AppliedCurrent else Restarted) else s in w.seen && At(w.docker, s) == w.seen[s]
  }

  /** As it was found, restarted in place, or rebuilt from its own previous model. */
  ghost predicate LeftAlone(p: Plan, w: World, s: Service) {
    || (LastAct(w, s) == Untouched && At(w.docker, s) == At(p.before, s))
    || LastAct(w, s) == Restarted || LastAct(w, s) == AppliedPrevious
  }

  /** Nothing of it runs and its old snapshot is recorded. */
  ghost predicate IsDown(w: World, s: Service) {
    LastAct(w, s) == Halted && At(w.docker, s).live == 0 && s !in w.recorded
  }

  ghost predicate Recovered(p: Plan, g: Progress, d: Decision, w: World, actions: map<Service, bool>) {
    && d.restore !! d.cleanup && d.restore !! Successful(g, d) && d.cleanup !! Successful(g, d)
    && (forall s :: s in Chosen(p) && s in p.actual.running ==> BackInService(p, g, d, w, actions, s))
    && (forall s :: s in d.cleanup || s in d.temporary ==> IsDown(w, s) && s !in p.actual.running)
    && (forall s :: s in g.failed && s !in p.actual.running ==> IsDown(w, s))
    && (forall s :: s !in Chosen(p) + p.actual.running ==> At(w.docker, s) == At(p.before, s))
    && g.failed <= d.affected <= d.restore + d.cleanup
    && (forall s, t :: s in d.affected && t in g.applied && Share(p.inputs, s, t) ==> t in d.affected)
  }

  /** No live service that is not itself dealt with keeps a namespace of a container that
      recovery replaced. */
  ghost predicate NoStaleNamespaces(p: Plan, g: Progress, d: Decision, w: World)
    requires ValidPlan(p) && g.applied <= Chosen(p)
  {
    var pending := PendingDefinitions(p.context, d.restore + d.cleanup, g.running, Successful(g, d));
    forall s :: s in pending && pending[s].namespaces * d.restore != {} ==>
      LastAct(w, s) == if s in Successful(g, d) then AppliedCurrent else AppliedPrevious
  }

  /** The bookkeeping of discarding and carrying out adds up to a recovery. */
  lemma RecoveryAddsUp(p: Plan, g: Progress, w: World, discarded: World, v: World, w': World, d: Decision, actions: map<Service, bool>)
    requires ValidPlan(p) && Settled(p, g, w) && Decided(p, g, w, d) && Discarded(p, g, w, discarded, d)
    requires forall s :: s in d.restore ==> s in actions && actions[s]
    requires forall s :: s in actions ==> s !in d.cleanup && s in Chosen(p) + p.actual.running
    requires CarriedOut(actions, Successful(g, d), d.restore, discarded, v, actions.Keys) && TemporaryStopped(v, w', d.temporary)
    ensures Recovered(p, g, d, w', actions)
  {
    hide IsAffected, Share, BackInService, Chosen, ValidPlan, Quiet, NothingDangles, OnlyProvidersReturn, AwaitsRestart;
    FailedAreAffected(p, g, w, d);
    StoppedStayDown(p, g, w, discarded, v, w', d, actions);
    forall s | s in Chosen(p) && s in p.actual.running
      ensures BackInService(p, g, d, w', actions, s)
    {
      SelectedIsBack(p, g, w, discarded, v, w', d, actions, s);
    }
    forall s | s !in Chosen(p) + p.actual.running
      ensures At(w'.docker, s) == At(p.before, s)
    {
      BystandersAreLeft(p, g, w, discarded, v, w', d, actions, s);
    }
  }

  lemma FailedAreAffected(p: Plan, g: Progress, w: World, d: Decision)
    requires ValidPlan(p) && Decided(p, g, w, d)
    ensures g.failed <= d.affected
  {
    hide ValidPlan, NothingDangles, OnlyProvidersReturn;
    assert forall t :: t in g.failed ==> t in d.affected;
  }

  /** What is discarded and what ran for a while is down in the end. */
  lemma StoppedStayDown(p: Plan, g: Progress, w: World, discarded: World, v: World, w': World, d: Decision, actions: map<Service, bool>)
    requires ValidPlan(p) && Decided(p, g, w, d) && Discarded(p, g, w, discarded, d)
    requires forall s :: s in d.restore ==> s in actions && actions[s]
    requires forall s :: s in actions ==> s !in d.cleanup
    requires CarriedOut(actions, Successful(g, d), d.restore, discarded, v, actions.Keys) && TemporaryStopped(v, w', d.temporary)
    ensures forall s :: s in d.cleanup || s in d.temporary ==> IsDown(w', s) && s !in p.actual.running
    ensures forall s :: s in d.restore - d.temporary ==> s in p.actual.running
  {
    hide ValidPlan, NothingDangles, OnlyProvidersReturn, IsAffected, Share, AwaitsRestart;
  }

  lemma BystandersAreLeft(p: Plan, g: Progress, w: World, discarded: World, v: World, w': World, d: Decision,
                          actions: map<Service, bool>, s: Service)
    requires ValidPlan(p) && Settled(p, g, w) && Decided(p, g, w, d) && Discarded(p, g, w, discarded, d)
    requires CarriedOut(actions, Successful(g, d), d.restore, discarded, v, actions.Keys) && TemporaryStopped(v, w', d.temporary)
    requires actions.Keys <= Chosen(p) + p.actual.running && s !in Chosen(p) + p.actual.running
    ensures At(w'.docker, s) == At(p.before, s)
  {
    hide ValidPlan, NothingDangles, OnlyProvidersReturn, IsAffected, Share, AwaitsRestart, Chosen;
    assert LastAct(w, s) == Untouched;
  }

  /** A running selected service ends in one of three ways. */
  lemma SelectedIsBack(p: Plan, g: Progress, w: World, discarded: World, v: World, w': World, d: Decision,
                       actions: map<Service, bool>, s: Service)
    requires ValidPlan(p) && Settled(p, g, w) && Decided(p, g, w, d) && Discarded(p, g, w, discarded, d)
    requires forall x :: x in d.restore ==> x in actions && actions[x]
    requires CarriedOut(actions, Successful(g, d), d.restore, discarded, v, actions.Keys) && TemporaryStopped(v, w', d.temporary)
    requires s in Chosen(p) && s in p.actual.running
    ensures BackInService(p, g, d, w', actions, s)
  {
    hide IsAffected, Share, IsEvidence, ValidPlan, NothingDangles, OnlyProvidersReturn, Chosen;
    FailedAreAffected(p, g, w, d);
    assert s !in d.cleanup && s !in d.temporary;
    if s in d.restore {
      assert LastAct(v, s) == AppliedPrevious;
    } else if s in g.applied {
      assert Confirmed(p, w, g.batchCompleted, s) && At(w.docker, s) == w.seen[s];
      assert s in actions ==> LastAct(v, s) == ActFor(actions[s], s in Successful(g, d));
    } else {
      assert s !in g.failed;
      assert !AwaitsRestart(p, s, g, w);
      assert Quiet(w, s);
    }
  }

  /** Readers of a restored provider are among the actions, and are rebuilt. */
  lemma NamespacesAreFresh(p: Plan, g: Progress, d: Decision, w: World, c: Changed, actions: map<Service, bool>)
    requires ValidPlan(p) && g.applied <= Chosen(p) && d.restore <= c.recreated
    requires ActionsAre(PendingDefinitions(p.context, d.restore + d.cleanup, g.running, Successful(g, d)), d.restore, c, actions)
    requires forall s :: s in actions && s !in d.restore ==> LastAct(w, s) == ActFor(actions[s], s in Successful(g, d))
    ensures NoStaleNamespaces(p, g, d, w)
  {
    hide Respects, Edges;
    var pending := PendingDefinitions(p.context, d.restore + d.cleanup, g.running, Successful(g, d));
    forall s | s in pending && pending[s].namespaces * d.restore != {}
      ensures LastAct(w, s) == if s in Successful(g, d) then AppliedCurrent else AppliedPrevious
    {
      var x :| x in pending[s].namespaces * d.restore;
      assert x in pending[s].namespaces * c.recreated;
      assert DependencyAction(pending[s], c, false) == Some(true);
    }
  }

  /** The services acted on and not stopped again were left by their command. */
  lemma CommandsAreLast(actions: map<Service, bool>, successful: set<Service>, d: Decision, start: World, v: World, w: World)
    requires CarriedOut(actions, successful, d.restore, start, v, actions.Keys) && TemporaryStopped(v, w, d.temporary)
    requires d.temporary <= d.restore
    ensures forall s :: s in actions && s !in d.restore ==> LastAct(w, s) == ActFor(actions[s], s in successful)
  {
  }

  /** The actions are the restored services and what the propagation from them and from the
      successful updates demands, no more. */
  ghost predicate OnlyDemanded(p: Plan, g: Progress, d: Decision, actions: map<Service, bool>)
    requires ValidPlan(p) && g.applied <= Chosen(p)
  {
    var successful := Successful(g, d);
    var pending := PendingDefinitions(p.context, d.restore + d.cleanup, g.running, successful);
    exists c :: IsLeastStationary(pending, StartOf(g, d), c, false) && ActionsAre(pending, d.restore, c, actions)
  }

  /** Restored services are rebuilt; of the others exactly those are acted on that the restored
      services, the standing updates and each other's actions demand. */
  ghost predicate DemandsAreMet(p: Plan, g: Progress, d: Decision, actions: map<Service, bool>) {
    && (forall s :: s in d.restore ==> s in actions && actions[s])
    && Answered(p.context, g.running, g.applied - d.restore - d.cleanup, d.restore + d.cleanup,
                (g.updated * g.applied - d.restore - d.cleanup) + d.restore,
                (g.recreated * g.applied - d.restore - d.cleanup) + d.restore,
                actions.Keys - d.restore, RebuiltBy(actions) - d.restore)
  }

  ghost function RebuiltBy(actions: map<Service, bool>): set<Service> {
    set s | s in actions && actions[s]
  }

  /** No dependent of a completed recovery is left behind: a service that runs and is neither
      restored nor discarded is rebuilt if it reads a namespace of something restored, rebuilt or
      recreated by a standing update, and at least restarted if it asks to restart with something
      restored, acted on or updated. */
  lemma NobodyIsForgotten(p: Plan, g: Progress, d: Decision, actions: map<Service, bool>, s: Service, spec: Spec, x: Service)
    requires DemandsAreMet(p, g, d, actions) && s !in d.restore + d.cleanup
    requires JudgedBy(p.context, g.running, g.applied - d.restore - d.cleanup, s, spec)
    ensures x in spec.namespaces && (x in d.restore || (x in actions && actions[x]) || (x in g.recreated * g.applied && x !in d.cleanup)) ==>
      s in actions && actions[s]
    ensures x in spec.dependsOn && spec.dependsOn[x].restart && (x in d.restore || x in actions || (x in g.updated * g.applied && x !in d.cleanup)) ==>
      s in actions
    ensures s in actions ==> exists y ::
      && (y in spec.namespaces || (y in spec.dependsOn && spec.dependsOn[y].restart))
      && (y in d.restore || y in actions || (y in (g.updated + g.recreated) * g.applied && y !in d.restore + d.cleanup))
  {
  }

  function StartOf(g: Progress, d: Decision): Changed {
    Changed((g.updated * Successful(g, d)) + d.restore, (g.recreated * Successful(g, d)) + d.restore)
  }

  /** Every service to be acted on has a model: the new one, or a captured or older one. */
  ghost predicate HasModels(p: Plan, successful: set<Service>, services: set<Service>) {
    forall s :: s in services ==> s in successful || s in p.context.previous || s in p.legacy
  }

  /** What the capture before the first change leaves behind. */
  ghost predicate RollbackSecured(p: Plan)
    requires ValidPlan(p)
  {
    && RollbackReady(p.context.previous, p.actual, Chosen(p), p.actual.running)
    && Chosen(p) * p.actual.running <= p.context.previous.Keys + p.legacy.Keys
  }

  /** The capture does secure a plan with the models it returns. */
  lemma CaptureSecures(p: Plan, models: Models)
    requires ValidPlan(p) && Secures(p.context.previous, p.legacy, p.actual, Chosen(p), models)
    ensures var q := p.(context := p.context.(previous := models)); ValidPlan(q) && RollbackSecured(q)
  {
    hide RollbackReady, Edges, Respects;
  }

  /** After such a capture recovery never lacks a model, nor an original image of what it
      restores of the selection or starts for a while. */
  lemma RecoveryIsEquipped(p: Plan, g: Progress, w: World, d: Decision)
    requires ValidPlan(p) && RollbackSecured(p) && Settled(p, g, w) && Decided(p, g, w, d)
    ensures HasModels(p, {}, d.restore)
    ensures d.temporary <= p.context.previous.Keys * p.actual.images
    ensures d.restore * Chosen(p) <= p.actual.runningImages + d.temporary
  {
    hide Edges, Respects, Providers, NothingDangles, Settled, AwaitsRestart, IsAffected, Share;
    ProvidersWithin(p.context.previous, (d.cleanup + d.temporary) * (p.actual.existing - p.actual.running),
                    Chosen(p) * (p.actual.existing - p.actual.running), d.restore - d.temporary, p.actual.running);
    forall s | s in d.restore
      ensures s in p.context.previous || s in p.legacy
    {
      assert s in d.temporary || s in d.restore - d.temporary;
    }
  }

  /** How the recovery block ends: completed, a step failed, definitions that are needed
      cannot be ordered, or a service to be rebuilt has no model. */
  datatype Ending = Completed | StepFailed | Unordered(definitions: Definitions) | NoModel(service: Service)

  /** What a completed recovery guarantees, from what was known when it decided. */
  ghost predicate RolledBackFrom(p: Plan, g: Progress, w: World, g': Progress, w': World, d: Decision,
                                 actions: map<Service, bool>, executed: seq<Service>)
    requires ValidPlan(p)
  {
    && Decided(p, g, w, d) && g' == g.(running := g.running - d.cleanup)
    && Recovered(p, g', d, w', actions) && g'.applied <= Chosen(p) && NoStaleNamespaces(p, g', d, w')
    && NothingDangles(p, g'.running, g'.applied, d)
    && OnlyDemanded(p, g', d, actions) && DemandsAreMet(p, g', d, actions) && StillShown(g', d, w', actions)
    && CommandsGiven(p, g', w, w', d, actions, executed)
  }

  /** x is a dependency of s in the definition s is commanded by: the new one if its update
      stands, else the captured one, else the older one. */
  ghost predicate NeedsFirst(p: Plan, standing: set<Service>, s: Service, x: Service) {
    exists spec :: CommandedBy(p, standing, s, spec) && (x in spec.dependsOn || x in spec.links || x in spec.namespaces)
  }

  ghost predicate CommandedBy(p: Plan, standing: set<Service>, s: Service, spec: Spec) {
    if s in standing then s in p.context.composeModel && spec == p.context.composeModel[s]
    else if s in p.context.previous then s in p.context.previous[s] && spec == p.context.previous[s][s]
    else s in p.legacy && s in p.legacy[s] && spec == p.legacy[s][s]
  }

  lemma NeededComeFirst(p: Plan, actions: map<Service, bool>, successful: set<Service>, executed: seq<Service>)
    requires ValidPlan(p) && successful <= Chosen(p) && HasModels(p, successful, actions.Keys)
    requires Distinct(executed) && Members(executed) == actions.Keys
    requires Respects(Edges(actions.Keys, ActionSpecs(p, actions, successful)), executed)
    ensures forall i, j :: 0 <= i < |executed| && 0 <= j < |executed| && NeedsFirst(p, successful, executed[i], executed[j]) ==> j < i
  {
    hide ValidPlan, Chosen;
    var specs := ActionSpecs(p, actions, successful);
    forall i, j | 0 <= i < |executed| && 0 <= j < |executed| && NeedsFirst(p, successful, executed[i], executed[j])
      ensures j < i
    {
      assert executed[i] in Members(executed) && executed[j] in Members(executed);
      assert executed[j] in Dependencies(specs[executed[i]]);
      assert executed[j] in Succ(Edges(actions.Keys, specs), executed[i]);
      var k :| 0 <= k < i && executed[k] == executed[j];
    }
  }

  /** The commands in the order of the definitions the services are commanded by. */
  ghost predicate CommandsGiven(p: Plan, g: Progress, w: World, w': World, d: Decision, actions: map<Service, bool>, executed: seq<Service>)
    requires ValidPlan(p) && g.applied <= Chosen(p)
  {
    && HasModels(p, Successful(g, d), actions.Keys)
    && Distinct(executed) && Members(executed) == actions.Keys
    && (forall i, j :: 0 <= i < |executed| && 0 <= j < |executed| && NeedsFirst(p, g.applied - d.restore - d.cleanup, executed[i], executed[j]) ==> j < i)
    && w'.log == w.log + StopOf(d.cleanup) + RecoveryCommands(actions, Successful(g, d), executed) + StopOf(d.temporary)
  }

  /** Applied services that had no command still show what the operation wants of them. */
  ghost predicate StillShown(g: Progress, d: Decision, w: World, actions: map<Service, bool>) {
    forall s :: s in Successful(g, d) && s !in actions ==> At(w.docker, s).fits
  }

  /** The recovery block.  When it completes, the failed operation is undone as far as it
      has to be and, by `DecisionIsDetermined` and `OnlyDemanded`, no further. */
  method Recover(p: Plan, g: Progress, w: World, works: bool)
    returns (end: Ending, g': Progress, w': World, d: Decision, ghost decided: Progress,
             ghost actions: map<Service, bool>, ghost executed: seq<Service>)
    requires ValidPlan(p) && Interrupted(p, g, w)
    ensures end.Completed? ==> IsInspected(p, g, w.docker, decided) && RolledBackFrom(p, decided, w, g', w', d, actions, executed)
    ensures end.Unordered? ==> Tangled(p, end.definitions)
    ensures RollbackSecured(p) ==> !end.NoModel?
    ensures works ==> !end.StepFailed?
    ensures !end.Completed? ==>
      || w'.log == w.log || w'.log == w.log + StopOf(d.cleanup)
      || (Members(executed) <= actions.Keys && Distinct(executed)
          && w'.log == w.log + StopOf(d.cleanup) + RecoveryCommands(actions, Successful(g', d), executed) + StopOf(Members(executed) * d.temporary))
  {
    hide Settled, Decided, Discarded, CarriedOut, TemporaryStopped, Recovered, NoStaleNamespaces, IsPropagation, Respects, Edges;
    hide HasCycle, NothingDangles, OnlyProvidersReturn, OnlyDemanded, RollbackSecured, Interrupted, ActionsAre, LiveServices, Considered;
    hide SettledByEvidence, RolledBackFrom, DefinitionOf, IsInspected, Tangled, StillShown, PendingDefinitions, DemandsAreMet, RecoveryCommands;
    d, decided, executed, actions := Decision({}, {}, {}, {}), g, [], map[];
    var ok;
    end := StepFailed;
    ok, g', w' := SettleBatch(p, g, w, works);
    if !ok {
      return;
    }
    ghost var batchSettled := g';
    ok, g' := Reinspect(p, g', w', works);
    if !ok {
      return;
    }
    ghost var settled := w';
    decided := g';
    InspectedInTwoSteps(p, g, w, batchSettled, settled, decided);
    var decision := Decide(p, g', w');
    if decision.Err? {
      end := Unordered(decision.error);
      return;
    }
    d := decision.value;
    ok, g', w' := Discard(p, g', w', d, works);
    if !ok {
      return;
    }
    ghost var discarded := w';
    SettledIsBounded(p, decided, settled, d);
    var successful := Successful(g', d);
    var commands;
    ghost var c;
    end, commands, c := ChooseActions(p, g', d);
    actions := commands;
    if !end.Completed? {
      if RollbackSecured(p) {
        RecoveryIsEquipped(p, decided, settled, d);
      }
      return;
    }
    var specs := ActionSpecs(p, commands, successful);
    end, w', executed := CarryOutAll(commands, specs, successful, d, w', works);
    if end.Unordered? {
      SpecsAreOfPlan(p, commands, successful);
    }
    if end.Completed? {
      assert actions.Keys * d.temporary == d.temporary;
      ghost var v :| CarriedOut(actions, successful, d.restore, discarded, v, actions.Keys) && TemporaryStopped(v, w', d.temporary);
      ItIsRolledBack(p, decided, w, settled, discarded, v, g', w', d, c, actions, executed);
    }
  }

  /** The parts of a completed recovery. */
  lemma ItIsRolledBack(p: Plan, g: Progress, w: World, settled: World, discarded: World, v: World, g': Progress, w': World, d: Decision,
                       c: Changed, actions: map<Service, bool>, executed: seq<Service>)
    requires ValidPlan(p) && Settled(p, g, settled) && settled.docker == w.docker && settled.log == w.log && Decided(p, g, settled, d)
    requires Discarded(p, g, settled, discarded, d) && discarded.log == w.log + StopOf(d.cleanup) && g' == g.(running := g.running - d.cleanup)
    requires g.applied <= Chosen(p) && OnlyDemanded(p, g', d, actions) && DemandsAreMet(p, g', d, actions) && HasModels(p, Successful(g', d), actions.Keys)
    requires ActionsAre(PendingDefinitions(p.context, d.restore + d.cleanup, g'.running, Successful(g', d)), d.restore, c, actions)
    requires d.restore <= c.recreated && actions.Keys <= Chosen(p) + p.actual.running && actions.Keys !! d.cleanup
    requires forall s :: s in d.restore ==> s in actions && actions[s]
    requires CarriedOut(actions, Successful(g', d), d.restore, discarded, v, actions.Keys) && TemporaryStopped(v, w', d.temporary)
    requires Distinct(executed) && Members(executed) == actions.Keys
    requires Respects(Edges(actions.Keys, ActionSpecs(p, actions, Successful(g', d))), executed)
    requires w'.log == discarded.log + RecoveryCommands(actions, Successful(g', d), executed) + StopOf(d.temporary)
    ensures RolledBackFrom(p, g, w, g', w', d, actions, executed)
  {
    hide ValidPlan, Settled, Decided, Discarded, CarriedOut, TemporaryStopped, Recovered, NoStaleNamespaces, Respects, Edges, RecoveryCommands, HasModels;
    hide NothingDangles, OnlyDemanded, DemandsAreMet, ActionsAre, StillShown, PendingDefinitions, NeedsFirst, Chosen, ActionSpecs;
    DecidedByDocker(p, g, settled, w, d);
    SettledIsBounded(p, g, settled, d);
    DanglesLess(p, g, g', settled, d);
    RecoveryAddsUpRunning(p, g, g', settled, discarded, v, w', d, actions);
    AppliedAreStillShown(p, g, g', settled, discarded, v, w', d, actions);
    CommandsAreLast(actions, Successful(g', d), d, discarded, v, w');
    NamespacesAreFresh(p, g', d, w', c, actions);
    NeededComeFirst(p, actions, Successful(g', d), executed);
  }

  lemma InspectedInTwoSteps(p: Plan, g: Progress, w: World, settled: Progress, w': World, g': Progress)
    requires Interrupted(p, g, w)
    requires if BrokenBatch(g) then SettledByEvidence(p, g, w, settled, w') else settled == g
    requires g' == settled.(running := g'.running)
    requires forall s :: s in g'.running <==> if settled.stopAttempted && !settled.stopped then s in w.docker && w.docker[s].live > 0 else s in settled.running
    ensures IsInspected(p, g, w.docker, g')
  {
    hide Settled, BatchTried;
    hide IsProved;
  }

  /** The restored services and what the propagation demands, each with a model. */
  method ChooseActions(p: Plan, g: Progress, d: Decision) returns (end: Ending, actions: map<Service, bool>, ghost c: Changed)
    requires ValidPlan(p) && g.applied <= Chosen(p) && g.running <= Chosen(p) + p.actual.running
    requires d.restore !! d.cleanup && d.restore <= Chosen(p) + p.actual.running
    ensures !end.StepFailed? && (end.Unordered? ==> Tangled(p, end.definitions))
    ensures end.NoModel? ==> end.service in d.restore && end.service !in p.context.previous && end.service !in p.legacy
    ensures end.Completed? ==>
      && OnlyDemanded(p, g, d, actions) && DemandsAreMet(p, g, d, actions) && HasModels(p, Successful(g, d), actions.Keys)
      && ActionsAre(PendingDefinitions(p.context, d.restore + d.cleanup, g.running, Successful(g, d)), d.restore, c, actions)
      && d.restore <= c.recreated && actions.Keys <= Chosen(p) + p.actual.running && actions.Keys !! d.cleanup
      && forall s :: s in d.restore ==> s in actions && actions[s]
  {
    hide IsPropagation, Respects, Edges, HasCycle, OnlyDemanded, DemandsAreMet, ActionsAre, Considered, DefinitionOf, Tangled, PendingDefinitions;
    end, actions, c := Completed, map[], Changed({}, {});
    var successful, start := Successful(g, d), StartOf(g, d);
    var propagated := DependentActionsFor(p.context, d.restore + d.cleanup, g.running, start, successful, false);
    if propagated.None? {
      PendingAreOfPlan(p, d.restore + d.cleanup, g.running, successful);
      end := Unordered(PendingDefinitions(p.context, d.restore + d.cleanup, g.running, successful));
      return;
    }
    var dependents := propagated.value.0;
    c := propagated.value.1;
    DependentsAreKnown(p, g, d.restore + d.cleanup, successful, dependents, c, start, false);
    actions := AllActions(d.restore, dependents);
    ActionKeys(d.restore, dependents);
    DemandedOnly(p, g, d, dependents, c);
    DemandsMet(p, g, d, dependents, c);
    var unsaved := set s | s in actions && s !in successful && s !in p.context.previous && s !in p.legacy;
    if unsaved != {} {
      var s :| s in unsaved;
      end := NoModel(s);
      return;
    }
    assert forall s :: s in actions && s !in successful && s !in p.context.previous && s !in p.legacy ==> s in unsaved;
  }

  /** What is decided looks at Docker alone. */
  lemma DecidedByDocker(p: Plan, g: Progress, w: World, w': World, d: Decision)
    requires ValidPlan(p) && Decided(p, g, w, d) && w'.docker == w.docker
    ensures Decided(p, g, w', d)
  {
    hide ValidPlan, NothingDangles, OnlyProvidersReturn, IsAffected, Share, IsLeastStationary, PendingDefinitions, Readers;
    assert forall s :: AwaitsRestart(p, s, g, w) <==> AwaitsRestart(p, s, g, w');
    assert PutBack(p, g, w, d.affected) == PutBack(p, g, w', d.affected);
    var c :| NoFurther(p, g, w, d, c);
    assert NoFurther(p, g, w', d, c);
  }

  lemma SpecsAreOfPlan(p: Plan, actions: map<Service, bool>, successful: set<Service>)
    requires ValidPlan(p) && successful <= Chosen(p) && HasModels(p, successful, actions.Keys)
    requires var specs := ActionSpecs(p, actions, successful); HasCycle(Edges(specs.Keys, specs))
    ensures Tangled(p, ActionSpecs(p, actions, successful))
  {
    hide HasCycle, Respects, Edges;
  }

  /** Nothing happens to an applied service without a command. */
  lemma AppliedAreStillShown(p: Plan, g: Progress, g': Progress, w: World, discarded: World, v: World, w': World, d: Decision,
                             actions: map<Service, bool>)
    requires ValidPlan(p) && Settled(p, g, w) && g'.applied == g.applied && Discarded(p, g, w, discarded, d)
    requires d.temporary <= d.restore
    requires CarriedOut(actions, Successful(g, d), d.restore, discarded, v, actions.Keys) && TemporaryStopped(v, w', d.temporary)
    ensures StillShown(g', d, w', actions)
  {
    hide ValidPlan, IsEvidence, Chosen, Traced, Quiet, AwaitsRestart, NewModelRuns, LastAct;
    forall s | s in Successful(g', d) && s !in actions
      ensures At(w'.docker, s).fits
    {
      assert s !in d.temporary && s !in d.cleanup;
      assert At(w'.docker, s) == At(w.docker, s);
      assert Confirmed(p, w, g.batchCompleted, s);
    }
  }

  lemma DemandedOnly(p: Plan, g: Progress, d: Decision, dependents: seq<(Service, bool)>, c: Changed)
    requires ValidPlan(p) && g.applied <= Chosen(p)
    requires IsPropagation(PendingDefinitions(p.context, d.restore + d.cleanup, g.running, Successful(g, d)), StartOf(g, d), c, false, dependents)
    requires forall i :: 0 <= i < |dependents| ==> dependents[i].0 !in d.restore + d.cleanup
    ensures OnlyDemanded(p, g, d, AllActions(d.restore, dependents))
    ensures ActionsAre(PendingDefinitions(p.context, d.restore + d.cleanup, g.running, Successful(g, d)), d.restore, c, AllActions(d.restore, dependents))
    ensures d.restore <= c.recreated
    ensures forall s :: s in d.restore ==> s in AllActions(d.restore, dependents) && AllActions(d.restore, dependents)[s]
  {
    hide Edges, Respects, Stationary, ActionsMatch;
    var pending := PendingDefinitions(p.context, d.restore + d.cleanup, g.running, Successful(g, d));
    assert IsLeastStationary(pending, StartOf(g, d), c, false);
    ActionsAreDemanded(pending, d.restore, dependents, c);
  }

  lemma DemandsMet(p: Plan, g: Progress, d: Decision, dependents: seq<(Service, bool)>, c: Changed)
    requires ValidPlan(p) && g.applied <= Chosen(p)
    requires IsPropagation(PendingDefinitions(p.context, d.restore + d.cleanup, g.running, Successful(g, d)), StartOf(g, d), c, false, dependents)
    requires forall i :: 0 <= i < |dependents| ==> dependents[i].0 !in d.restore + d.cleanup
    ensures DemandsAreMet(p, g, d, AllActions(d.restore, dependents))
  {
    hide ValidPlan, Answered, Listed, Rebuilt, ActionOf, AllActions, IsLeastStationary, ActionsOrdered, PendingDefinitions;
    var actions := AllActions(d.restore, dependents);
    assert ValidContext(p.context) && Chosen(p) <= p.context.composeModel.Keys by { PlanIsKnown(p); }
    PropagationAnswers(p.context, g.running, Successful(g, d), d.restore + d.cleanup, StartOf(g, d), c, dependents);
    forall s
      ensures s in d.restore ==> s in actions && actions[s]
      ensures s in actions.Keys - d.restore <==> s in Listed(dependents)
      ensures s in RebuiltBy(actions) - d.restore <==> s in Rebuilt(dependents)
    {
      ActionsAreComplete(d.restore, dependents, s);
      ActionIsListed(dependents, s);
      ListedAreOthers(dependents, d.restore, s);
    }
    assert actions.Keys - d.restore == Listed(dependents) && RebuiltBy(actions) - d.restore == Rebuilt(dependents);
    assert StartOf(g, d).updated == (g.updated * g.applied - d.restore - d.cleanup) + d.restore;
    assert StartOf(g, d).recreated == (g.recreated * g.applied - d.restore - d.cleanup) + d.restore;
  }

  lemma PlanIsKnown(p: Plan)
    requires ValidPlan(p)
    ensures ValidContext(p.context) && Chosen(p) <= p.context.composeModel.Keys
  {
  }

  lemma ListedAreOthers(dependents: seq<(Service, bool)>, restore: set<Service>, s: Service)
    requires forall i :: 0 <= i < |dependents| ==> dependents[i].0 !in restore
    ensures s in Listed(dependents) || s in Rebuilt(dependents) ==> s !in restore
  {
  }

  lemma SettledIsBounded(p: Plan, g: Progress, w: World, d: Decision)
    requires ValidPlan(p) && Settled(p, g, w) && Decided(p, g, w, d)
    ensures g.applied <= Chosen(p) && g.running <= Chosen(p) + p.actual.running
    ensures d.restore !! d.cleanup && d.restore <= Chosen(p) + p.actual.running && d.temporary <= d.restore
  {
    hide ValidPlan, IsAffected, Share, Traced, NothingDangles, OnlyProvidersReturn;
    forall s | s in d.restore
      ensures s in Chosen(p) + p.actual.running
    {
      assert s in d.restore - d.temporary || s in d.cleanup + d.temporary;
    }
  }

  /** Fewer running services, fewer consumers to look after. */
  lemma DanglesLess(p: Plan, g: Progress, g': Progress, w: World, d: Decision)
    requires ValidPlan(p) && Decided(p, g, w, d) && g' == g.(running := g'.running) && g'.running <= g.running
    ensures g'.applied <= Chosen(p) && NothingDangles(p, g'.running, g'.applied, d)
  {
    hide NoFurther, ValidPlan, IsAffected, Share, OnlyProvidersReturn, DefinitionOf;
  }

  /** Stopping discarded services only changes which services are thought to run. */
  lemma RecoveryAddsUpRunning(p: Plan, g: Progress, g': Progress, w: World, discarded: World, v: World, w': World, d: Decision,
                              actions: map<Service, bool>)
    requires ValidPlan(p) && Settled(p, g, w) && Decided(p, g, w, d) && Discarded(p, g, w, discarded, d)
    requires g' == g.(running := g'.running)
    requires forall s :: s in d.restore ==> s in actions && actions[s]
    requires forall s :: s in actions ==> s !in d.cleanup && s in Chosen(p) + p.actual.running
    requires CarriedOut(actions, Successful(g, d), d.restore, discarded, v, actions.Keys) && TemporaryStopped(v, w', d.temporary)
    ensures Recovered(p, g', d, w', actions)
  {
    hide ValidPlan, Settled, Decided, Discarded, CarriedOut, TemporaryStopped;
    RecoveryAddsUp(p, g, w, discarded, v, w', d, actions);
  }

  datatype Outcome = Succeeded | RolledBack | RecoveryFailed(end: Ending)

  /** `_start` from the first change on: it succeeds, or what was done is rolled back, or the
      rollback fails, and with an outside that works, as far as Docker shows what is applied, only
      for definitions that cannot be ordered. */
  method Start(p: Plan, works: bool, recoveryWorks: bool) returns (outcome: Outcome, g: Progress, w: World, d: Decision, ghost broken: Option<Docker>)
    requires ValidPlan(p)
    ensures outcome.Succeeded? ==> exists c, actions :: CarriedThrough(p, g, w, c, actions)
    ensures outcome.RolledBack? ==> exists g0, w0, decided, actions, executed ::
      Interrupted(p, g0, w0) && IsInspected(p, g0, w0.docker, decided) && RolledBackFrom(p, decided, w0, g, w, d, actions, executed)
    ensures outcome.RecoveryFailed? && outcome.end.Unordered? ==> Tangled(p, outcome.end.definitions)
    ensures outcome.RecoveryFailed? ==> !outcome.end.Completed?
    ensures RollbackSecured(p) && outcome.RecoveryFailed? ==> !outcome.end.NoModel?
    ensures recoveryWorks && outcome.RecoveryFailed? ==> !outcome.end.StepFailed?
    ensures works && !outcome.Succeeded? ==> broken.Some?
    ensures works && !outcome.Succeeded? && (forall s :: s in Chosen(p) ==> At(broken.value, s).fits) ==>
      HasCycle(Edges(DependentDefinitions(p).Keys, DependentDefinitions(p)))
  {
    hide Interrupted, BeforeBatch, AfterBatch, RollbackSecured, EffectsSolve, RolledBackFrom, CarriedThrough, IsInspected, Tangled, EffectsAreExact, Answered;
    hide OutsideUntouched, Followed, BatchStands, IsPropagation, Deployed;
    d := Decision({}, {}, {}, {});
    var ok;
    broken := None;
    ok, g, w := StopPhase(p, World(p.before, {}, map[], map[], []), works);
    if ok {
      var updated, recreated := PlanEffects(p);
      EffectsAreOnlyNoted(p, g, w, updated, recreated);
      g := g.(updated := updated, recreated := recreated);
      ghost var stopped := w;
      ok, g, w := BatchPhase(p, g, w, works);
      if ok {
        ghost var applied, c, actions := w, Changed({}, {}), [];
        ok, g, w, c, actions := DependentsPhase(p, g, w, works);
        if ok {
          ItIsCarriedThrough(p, g, stopped, applied, w, c, actions);
          return Succeeded, g, w, d, None;
        }
      }
    } else {
      BeforeBatchIsInterrupted(p, g, w);
    }
    ghost var decided, actions, executed;
    ghost var g0, w0 := g, w;
    broken := Some(w.docker);
    var end;
    end, g, w, d, decided, actions, executed := Recover(p, g, w, recoveryWorks);
    outcome := if end.Completed? then RolledBack else RecoveryFailed(end);
  }

  /** The steps of a successful attempt, one behind the other. */
  lemma ItIsCarriedThrough(p: Plan, g: Progress, stopped: World, applied: World, w: World, c: Changed, actions: seq<(Service, bool)>)
    requires ValidPlan(p) && OutsideUntouched(p, stopped) && stopped.log == StopOf(p.stopSet)
    requires Chosen(p) <= p.context.composeModel.Keys && EffectsAreExact(p, g.updated, g.recreated)
    requires Answered(p.context, p.actual.running, {}, Chosen(p), g.updated, g.recreated, Listed(actions), Rebuilt(actions))
    requires forall s :: s !in Chosen(p) ==> LastAct(applied, s) == LastAct(stopped, s)
    requires applied.log == stopped.log + [Command(Chosen(p), AppliedCurrent)] && forall s :: s in Chosen(p) ==> LastAct(applied, s) == AppliedCurrent
    requires AfterBatch(p, g, w) && Followed(applied, w, actions)
    requires IsPropagation(DependentDefinitions(p), Changed(g.updated, g.recreated), c, false, actions)
    ensures CarriedThrough(p, g, w, c, actions)
  {
    hide ValidPlan, Chosen, Deployed, EffectsAreExact, JudgedBy, ReadsOneOf, RestartsWithOneOf, ActionOf, DependentDefinitions;
    hide IsLeastStationary, ActionsOrdered, DependencyAction, Listed, Rebuilt;
    forall s | s in Chosen(p)
      ensures LastAct(w, s) == AppliedCurrent
    {
      ActionIsListed(actions, s);
    }
  }

  lemma EffectsAreOnlyNoted(p: Plan, g: Progress, w: World, updated: set<Service>, recreated: set<Service>)
    requires BeforeBatch(p, g, w)
    ensures BeforeBatch(p, g.(updated := updated, recreated := recreated), w)
  {
  }

  lemma BeforeBatchIsInterrupted(p: Plan, g: Progress, w: World)
    requires BeforeBatch(p, g, w)
    ensures Interrupted(p, g, w)
  {
  }
}

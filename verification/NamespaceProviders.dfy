/** Stopped services whose namespaces live services still need: what a rollback must be
    able to start again, and the capture of their models before anything is changed. */
module NamespaceProviders {
  import opened Options
  import opened Digraphs
  import opened Compose
  import opened Sequences

  /** Applied models by service, each the whole project it was applied from. */
  type Models = map<Service, Definitions>

  ghost predicate ValidModels(previous: Models) {
    forall s :: s in previous ==> s in previous[s]
  }

  /** The observed state before the operation. */
  datatype Actual = Actual(existing: set<Service>, running: set<Service>, images: set<Service>, runningImages: set<Service>)

  /** Namespace edges of captured services, kept only where they lead to candidates. */
  function ProviderEdges(previous: Models, candidates: set<Service>): Graph<Service>
    requires ValidModels(previous)
  {
    map s | s in previous :: previous[s][s].namespaces * candidates
  }

  /** p is reached from one of the consumers in one or more steps through candidates. */
  ghost predicate Provides(previous: Models, candidates: set<Service>, consumers: set<Service>, p: Service)
    requires ValidModels(previous)
  {
    var g := ProviderEdges(previous, candidates);
    exists c :: c in consumers && Beyond(g, c, p)
  }

  ghost function Providers(previous: Models, candidates: set<Service>, consumers: set<Service>): set<Service>
    requires ValidModels(previous)
  {
    set p | p in candidates && Provides(previous, candidates, consumers, p)
  }

  // ----- the worklist -----

  ghost predicate WorklistInv(previous: Models, candidates: set<Service>, consumers: set<Service>,
                              pending: set<Service>, checked: set<Service>, result: set<Service>)
    requires ValidModels(previous)
  {
    var g := ProviderEdges(previous, candidates);
    && consumers <= pending + checked && result <= pending + checked
    && pending <= consumers + result && checked <= consumers + result
    && result <= candidates
    && (forall p :: p in result ==> Provides(previous, candidates, consumers, p))
    && (forall c :: c in checked ==> Succ(g, c) <= result)
  }

  lemma NewProvider(previous: Models, candidates: set<Service>, consumers: set<Service>, result: set<Service>, c: Service, p: Service)
    requires ValidModels(previous) && p in Succ(ProviderEdges(previous, candidates), c)
    requires c in consumers || Provides(previous, candidates, consumers, c)
    ensures Provides(previous, candidates, consumers, p)
  {
    var g := ProviderEdges(previous, candidates);
    if c in consumers {
      BeyondEdge(g, c, p);
    } else {
      var a :| a in consumers && Beyond(g, a, c);
      BeyondStep(g, a, c, p);
    }
  }

  lemma EverythingReached(previous: Models, candidates: set<Service>, consumers: set<Service>, checked: set<Service>, result: set<Service>)
    requires ValidModels(previous) && consumers + result <= checked
    requires forall c :: c in checked ==> Succ(ProviderEdges(previous, candidates), c) <= result
    ensures Providers(previous, candidates, consumers) <= result
  {
    var g := ProviderEdges(previous, candidates);
    forall p | p in candidates && Provides(previous, candidates, consumers, p) ensures p in result {
      var c :| c in consumers && Beyond(g, c, p);
      var d :| d in Succ(g, c) && Reaches(g, d, p);
      assert ClosedUnder(g, result);
    }
  }

  /** `_stopped_namespace_providers`: the candidates among the services that exist but do
      not run, reached from the consumers through candidates. */
  method StoppedNamespaceProviders(previous: Models, actual: Actual, services: set<Service>, consumers: seq<Service>)
    returns (result: set<Service>)
    requires ValidModels(previous)
    ensures result == Providers(previous, services * (actual.existing - actual.running), Members(consumers))
  {
    var candidates := services * (actual.existing - actual.running);
    ghost var g := ProviderEdges(previous, candidates);
    var pending := consumers;
    var checked: set<Service> := {};
    result := {};
    while pending != []
      invariant WorklistInv(previous, candidates, Members(consumers), Members(pending), checked, result)
      decreases Members(consumers) + candidates - checked, |pending|
    {
      ghost var before := Members(pending);
      var consumer := pending[|pending| - 1];
      pending := pending[..|pending| - 1];
      assert before == Members(pending) + {consumer};
      if consumer !in checked {
        checked := checked + {consumer};
        if consumer in previous {
          var found := previous[consumer][consumer].namespaces * candidates;
          forall p | p in found ensures Provides(previous, candidates, Members(consumers), p) {
            NewProvider(previous, candidates, Members(consumers), result, consumer, p);
          }
          pending := PushAll(pending, found);
          result := result + found;
        }
      }
    }
    EverythingReached(previous, candidates, Members(consumers), checked, result);
  }

  method PushAll(pending: seq<Service>, found: set<Service>) returns (r: seq<Service>)
    ensures Members(r) == Members(pending) + found
  {
    r := pending;
    var rest := found;
    while rest != {}
      invariant Members(r) == Members(pending) + (found - rest) && rest <= found
      decreases rest
    {
      var p :| p in rest;
      rest := rest - {p};
      assert Members(r + [p]) == Members(r) + {p};
      r := r + [p];
    }
  }

  // ----- capture before mutation -----

  datatype CaptureError =
    | RunningWithoutImage(service: Service)
    | ProviderWithoutImage(service: Service)
    | NoSavedModel(service: Service)
    | Cyclic(definitions: Definitions)

  /** Captured models win over later ones: `retain_previous`. */
  function Retain(previous: Models, models: Models): Models {
    models + previous
  }

  /** The models saved for some services: known ones as they are, others from old
      declarations, where there are any. */
  function SavedModels(previous: Models, legacy: Models, services: set<Service>): Models
    requires services <= previous.Keys + legacy.Keys
  {
    map s | s in services :: if s in previous then previous[s] else legacy[s]
  }

  /** The services' own definitions in those models. */
  function SavedDefinitions(previous: Models, legacy: Models, services: set<Service>): Definitions
    requires ValidModels(previous) && ValidModels(legacy) && services <= previous.Keys + legacy.Keys
  {
    map s | s in services :: SavedDefinition(previous, legacy, s)
  }

  function SavedDefinition(previous: Models, legacy: Models, s: Service): Spec
    requires ValidModels(previous) && ValidModels(legacy) && s in previous.Keys + legacy.Keys
  {
    if s in previous then previous[s][s] else legacy[s][s]
  }

  /** Saved definitions that depend on each other in a circle, of services that each have a
      reason to be captured: they are to be replaced while running, or are providers. */
  ghost predicate IsSavedCycle(previous: Models, legacy: Models, actual: Actual, services: set<Service>, definitions: Definitions)
    requires ValidModels(previous) && ValidModels(legacy)
  {
    && HasCycle(Edges(definitions.Keys, definitions))
    && forall s :: s in definitions ==>
      && s in previous.Keys + legacy.Keys && definitions[s] == SavedDefinition(previous, legacy, s)
      && (s in services * actual.running || Needed(previous, legacy, actual, services, s))
  }

  /** `saved_service_models` for services that have a model: they must have an order. */
  method HaveOrder(previous: Models, legacy: Models, services: set<Service>) returns (ok: bool)
    requires ValidModels(previous) && ValidModels(legacy) && services <= previous.Keys + legacy.Keys
    ensures ok <==> !HasCycle(Edges(services, SavedDefinitions(previous, legacy, services)))
  {
    var names := ListOf(services);
    var ordered := OrderServiceSubset(names, SavedDefinitions(previous, legacy, services));
    ok := ordered.Some?;
  }

  /** Nothing captured is dropped or replaced. */
  ghost predicate Extends(previous: Models, more: Models) {
    forall s :: s in previous ==> s in more && more[s] == previous[s]
  }

  /** More captured models can only add providers. */
  lemma ProvidersGrow(previous: Models, more: Models, candidates: set<Service>, consumers: set<Service>)
    requires ValidModels(previous) && ValidModels(more) && Extends(previous, more)
    ensures Providers(previous, candidates, consumers) <= Providers(more, candidates, consumers)
  {
    hide Reaches;
    var g, h := ProviderEdges(previous, candidates), ProviderEdges(more, candidates);
    assert forall v :: Succ(g, v) <= Succ(h, v);
    forall p | p in Providers(previous, candidates, consumers) ensures p in Providers(more, candidates, consumers) {
      var c :| c in consumers && Beyond(g, c, p);
      var d :| d in Succ(g, c) && Reaches(g, d, p);
      assert d in Succ(h, c);
      MoreEdgesReachMore(g, h, d, p);
    }
  }

  /** Fewer candidates or consumers give fewer providers. */
  lemma ProvidersWithin(previous: Models, candidates: set<Service>, more: set<Service>, consumers: set<Service>, others: set<Service>)
    requires ValidModels(previous) && candidates <= more && consumers <= others
    ensures Providers(previous, candidates, consumers) <= Providers(previous, more, others)
  {
    hide Reaches;
    var g, h := ProviderEdges(previous, candidates), ProviderEdges(previous, more);
    assert forall v :: Succ(g, v) <= Succ(h, v);
    forall p | p in Providers(previous, candidates, consumers) ensures p in Providers(previous, more, others) {
      var c :| c in consumers && Beyond(g, c, p);
      var d :| d in Succ(g, c) && Reaches(g, d, p);
      MoreEdgesReachMore(g, h, d, p);
      assert d in Succ(h, c);
    }
  }

  /** Everything a rollback of these services may need has a captured model and an image. */
  ghost predicate RollbackReady(previous: Models, actual: Actual, services: set<Service>, consumers: set<Service>)
    requires ValidModels(previous)
  {
    && (forall s :: s in services && s in actual.running ==> s in actual.runningImages)
    && (forall s :: s in Providers(previous, services * (actual.existing - actual.running), consumers) ==>
          s in previous && s in actual.images)
  }

  /** `more` adds to the captured models only what old declarations give, and secures a
      rollback: nothing is lacking under `more` itself. */
  ghost predicate Secures(previous: Models, legacy: Models, actual: Actual, services: set<Service>, more: Models)
    requires ValidModels(previous)
  {
    && ValidModels(more) && Extends(previous, more)
    && (forall s :: s in more && s !in previous ==> s in legacy && more[s] == legacy[s])
    && RollbackReady(more, actual, services, actual.running)
    && services * actual.running <= previous.Keys + legacy.Keys
  }

  /** `_require_rollback_models`: the least extension of the captured models that secures a
      rollback; refused when there is none, for a service that is to blame, or when saved
      definitions cannot be ordered. */
  method RequireRollbackModels(previous: Models, legacy: Models, actual: Actual, services: set<Service>, running: seq<Service>)
    returns (r: Result<Models, CaptureError>)
    requires ValidModels(previous) && ValidModels(legacy) && Members(running) == actual.running
    ensures r.Ok? ==>
      && Secures(previous, legacy, actual, services, r.value)
      && forall more :: Secures(previous, legacy, actual, services, more) ==> Extends(r.value, more)
    ensures r.Ok? ==> r.value.Keys - previous.Keys <= Providers(r.value, services * (actual.existing - actual.running), actual.running)
    ensures r.Ok? ==> !HasCycle(Edges(services * actual.running, SavedDefinitions(previous, legacy, services * actual.running)))
    ensures r.Err? && !r.error.Cyclic? ==> forall more :: !Secures(previous, legacy, actual, services, more)
    ensures r.Err? ==> match r.error
      case RunningWithoutImage(s) => s in services && s in actual.running && s !in actual.runningImages
      case ProviderWithoutImage(s) => s !in actual.images && Needed(previous, legacy, actual, services, s)
      case NoSavedModel(s) => s !in previous && s !in legacy && (s in services * actual.running || Needed(previous, legacy, actual, services, s))
      case Cyclic(definitions) => IsSavedCycle(previous, legacy, actual, services, definitions)
  {
    hide Providers, RollbackReady, HasCycle, Edges;
    ghost var candidates := services * (actual.existing - actual.running);
    var live := services * actual.running;
    var noImage := live - actual.runningImages;
    if noImage != {} {
      var s :| s in noImage;
      ImagesAreNeeded(previous, legacy, actual, services, s);
      return Err(RunningWithoutImage(s));
    }
    assert forall s :: s in live && s !in actual.runningImages ==> s in noImage;
    var unsaved := live - (previous.Keys + legacy.Keys);
    if unsaved != {} {
      var s :| s in unsaved;
      return Err(NoSavedModel(s));
    }
    assert live <= previous.Keys + legacy.Keys by {
      assert forall s :: s in live && s !in previous.Keys + legacy.Keys ==> s in unsaved;
    }
    var ordered := HaveOrder(previous, legacy, live);
    if !ordered {
      assert SavedDefinitions(previous, legacy, live).Keys == live;
      return Err(Cyclic(SavedDefinitions(previous, legacy, live)));
    }
    var models := previous;
    var captured: set<Service> := {};
    NothingCaptured(previous, legacy, actual, services);
    while true
      invariant Capturing(previous, legacy, models, candidates, actual, captured)
      invariant captured <= Providers(models, candidates, actual.running)
      invariant Forced(previous, legacy, actual, services, models)
      decreases candidates - captured
    {
      var providers := StoppedNamespaceProviders(models, actual, services, running);
      var stopped := providers - captured;
      if stopped == {} {
        assert providers <= captured by { assert forall s :: s in providers && s !in captured ==> s in stopped; }
        NothingLacking(previous, legacy, actual, services, models, captured);
        return Ok(models);
      }
      ProvidersAreCandidates(models, candidates, actual.running);
      var imageless := stopped - actual.images;
      if imageless != {} {
        var s :| s in imageless;
        ProviderIsNeeded(previous, legacy, actual, services, models, captured, s);
        return Err(ProviderWithoutImage(s));
      }
      assert stopped <= actual.images by { assert forall s :: s in stopped && s !in actual.images ==> s in imageless; }
      var missing := stopped - (models.Keys + legacy.Keys);
      if missing != {} {
        var s :| s in missing;
        ProviderIsNeeded(previous, legacy, actual, services, models, captured, s);
        return Err(NoSavedModel(s));
      }
      assert stopped <= models.Keys + legacy.Keys by { assert forall s :: s in stopped && s !in models.Keys + legacy.Keys ==> s in missing; }
      ordered := HaveOrder(models, legacy, stopped);
      if !ordered {
        ProvidersFormCycle(previous, legacy, actual, services, models, captured, stopped);
        return Err(Cyclic(SavedDefinitions(models, legacy, stopped)));
      }
      CaptureMore(previous, legacy, models, candidates, actual, captured, stopped);
      CaptureIsForced(previous, legacy, actual, services, models, stopped);
      SavedModelsExtend(previous, legacy, models, stopped);
      ProvidersGrow(models, Retain(models, SavedModels(models, legacy, stopped)), candidates, actual.running);
      models := Retain(models, SavedModels(models, legacy, stopped));
      captured := captured + stopped;
    }
  }

  /** A provider under the captured models and old ones of other providers. */
  ghost predicate Needed(previous: Models, legacy: Models, actual: Actual, services: set<Service>, s: Service) {
    exists models ::
      && ValidModels(models) && Extends(previous, models)
      && (forall t :: t in models && t !in previous ==> t in legacy && models[t] == legacy[t])
      && models.Keys - previous.Keys + {s} <= Providers(models, services * (actual.existing - actual.running), actual.running)
  }

  /** Whatever secures a rollback has these models. */
  ghost predicate Forced(previous: Models, legacy: Models, actual: Actual, services: set<Service>, models: Models)
    requires ValidModels(previous)
  {
    forall more :: Secures(previous, legacy, actual, services, more) ==> Extends(models, more)
  }

  lemma ImagesAreNeeded(previous: Models, legacy: Models, actual: Actual, services: set<Service>, s: Service)
    requires ValidModels(previous) && s in services * actual.running && s !in actual.runningImages
    ensures forall more :: !Secures(previous, legacy, actual, services, more)
  {
    hide Providers;
  }

  /** The state of the capture loop: what is captured are providers with image and model,
      and only they were added, from old declarations. */
  ghost predicate Capturing(previous: Models, legacy: Models, models: Models, candidates: set<Service>, actual: Actual, captured: set<Service>) {
    && ValidModels(models) && Extends(previous, models)
    && captured <= candidates && captured <= models.Keys && captured <= actual.images
    && models.Keys <= previous.Keys + captured
    && (forall s :: s in models && s !in previous ==> s in legacy && models[s] == legacy[s])
  }

  lemma NothingCaptured(previous: Models, legacy: Models, actual: Actual, services: set<Service>)
    requires ValidModels(previous)
    ensures Capturing(previous, legacy, previous, services * (actual.existing - actual.running), actual, {})
    ensures Forced(previous, legacy, actual, services, previous)
  {
    hide Providers, RollbackReady;
  }

  lemma NothingLacking(previous: Models, legacy: Models, actual: Actual, services: set<Service>, models: Models, captured: set<Service>)
    requires ValidModels(previous) && services * actual.running <= actual.runningImages
    requires services * actual.running <= previous.Keys + legacy.Keys
    requires Capturing(previous, legacy, models, services * (actual.existing - actual.running), actual, captured)
    requires Providers(models, services * (actual.existing - actual.running), actual.running) <= captured
    ensures Secures(previous, legacy, actual, services, models)
  {
    hide Providers;
  }

  /** Without a provider's image or model no extension secures a rollback. */
  lemma ProviderIsNeeded(previous: Models, legacy: Models, actual: Actual, services: set<Service>, models: Models, captured: set<Service>, s: Service)
    requires ValidModels(previous) && Forced(previous, legacy, actual, services, models)
    requires Capturing(previous, legacy, models, services * (actual.existing - actual.running), actual, captured)
    requires captured <= Providers(models, services * (actual.existing - actual.running), actual.running)
    requires s in Providers(models, services * (actual.existing - actual.running), actual.running)
    requires s !in actual.images || (s !in models && s !in legacy)
    ensures Needed(previous, legacy, actual, services, s)
    ensures forall more :: !Secures(previous, legacy, actual, services, more)
  {
    hide Providers;
    forall more | Secures(previous, legacy, actual, services, more)
      ensures s in more && s in actual.images
    {
      ProvidersGrow(models, more, services * (actual.existing - actual.running), actual.running);
    }
  }

  lemma ProvidersFormCycle(previous: Models, legacy: Models, actual: Actual, services: set<Service>, models: Models, captured: set<Service>,
                           stopped: set<Service>)
    requires ValidModels(previous) && ValidModels(legacy) && stopped <= models.Keys + legacy.Keys
    requires Capturing(previous, legacy, models, services * (actual.existing - actual.running), actual, captured)
    requires captured + stopped <= Providers(models, services * (actual.existing - actual.running), actual.running)
    requires HasCycle(Edges(stopped, SavedDefinitions(models, legacy, stopped)))
    ensures IsSavedCycle(previous, legacy, actual, services, SavedDefinitions(models, legacy, stopped))
  {
    hide Providers, HasCycle, Edges, Needed, SavedDefinition;
    var definitions := SavedDefinitions(models, legacy, stopped);
    assert definitions.Keys == stopped;
    forall s | s in stopped
      ensures s in previous.Keys + legacy.Keys && definitions[s] == SavedDefinition(previous, legacy, s)
      ensures Needed(previous, legacy, actual, services, s)
    {
      SavedLikeBefore(previous, legacy, models, s);
      CapturedAreNeeded(previous, legacy, actual, services, models, captured, s);
    }
  }

  lemma SavedLikeBefore(previous: Models, legacy: Models, models: Models, s: Service)
    requires ValidModels(previous) && ValidModels(legacy) && ValidModels(models) && Extends(previous, models)
    requires forall t :: t in models && t !in previous ==> t in legacy && models[t] == legacy[t]
    requires s in models.Keys + legacy.Keys
    ensures s in previous.Keys + legacy.Keys && SavedDefinition(models, legacy, s) == SavedDefinition(previous, legacy, s)
  {
  }

  lemma CapturedAreNeeded(previous: Models, legacy: Models, actual: Actual, services: set<Service>, models: Models, captured: set<Service>, s: Service)
    requires Capturing(previous, legacy, models, services * (actual.existing - actual.running), actual, captured)
    requires captured + {s} <= Providers(models, services * (actual.existing - actual.running), actual.running)
    ensures Needed(previous, legacy, actual, services, s)
  {
    hide Providers;
  }

  lemma CaptureIsForced(previous: Models, legacy: Models, actual: Actual, services: set<Service>, models: Models, stopped: set<Service>)
    requires ValidModels(previous) && ValidModels(models) && Forced(previous, legacy, actual, services, models)
    requires Extends(previous, models) && forall s :: s in models && s !in previous ==> s in legacy && models[s] == legacy[s]
    requires stopped <= Providers(models, services * (actual.existing - actual.running), actual.running)
    requires stopped <= models.Keys + legacy.Keys
    ensures Forced(previous, legacy, actual, services, Retain(models, SavedModels(models, legacy, stopped)))
  {
    hide Providers;
    forall more | Secures(previous, legacy, actual, services, more)
      ensures Extends(Retain(models, SavedModels(models, legacy, stopped)), more)
    {
      ProvidersGrow(models, more, services * (actual.existing - actual.running), actual.running);
    }
  }

  lemma ProvidersAreCandidates(models: Models, candidates: set<Service>, consumers: set<Service>)
    requires ValidModels(models)
    ensures Providers(models, candidates, consumers) <= candidates
  {
  }

  /** Models added from old declarations keep the captured ones as they are. */
  lemma SavedModelsExtend(previous: Models, legacy: Models, models: Models, stopped: set<Service>)
    requires ValidModels(models) && ValidModels(legacy) && Extends(previous, models)
    requires forall s :: s in models && s !in previous ==> s in legacy && models[s] == legacy[s]
    requires stopped <= models.Keys + legacy.Keys
    ensures var more := Retain(models, SavedModels(models, legacy, stopped));
      && ValidModels(more) && Extends(models, more) && Extends(previous, more) && more.Keys == models.Keys + stopped
      && forall s :: s in more && s !in previous ==> s in legacy && more[s] == legacy[s]
  {
  }

  lemma CaptureMore(previous: Models, legacy: Models, models: Models, candidates: set<Service>, actual: Actual,
                    captured: set<Service>, stopped: set<Service>)
    requires Capturing(previous, legacy, models, candidates, actual, captured) && ValidModels(legacy)
    requires stopped <= candidates && stopped <= actual.images
    requires stopped <= models.Keys + legacy.Keys && stopped != {} && stopped !! captured
    ensures Capturing(previous, legacy, Retain(models, SavedModels(models, legacy, stopped)), candidates, actual, captured + stopped)
    ensures candidates - (captured + stopped) < candidates - captured
  {
    hide Retain, SavedModels, Extends, ValidModels;
    SavedModelsExtend(previous, legacy, models, stopped);
    var s :| s in stopped;
    assert s in candidates - captured && s !in candidates - (captured + stopped);
  }
}

/** What an operation on a whole project has to touch: the loop of required_selection
    with a resolved model, against the least closed selection. */
module RequiredSelection {
  import opened Options
  import opened Digraphs
  import opened Compose
  import opened Sequences

  type Name = string

  datatype Container = Container(services: set<Service>, dependencies: set<Name>)

  /** Installed containers, their services in the order the containers list them, the
      services of the resolved model, the running services, and by producer the consumers of
      its present and earlier declarations. */
  datatype Project = Project(containers: map<Name, Container>, listing: seq<Service>, definitions: Definitions,
                             running: set<Service>, exposed: map<Name, set<Name>>)

  /** The listing names every service of a container once. */
  ghost predicate ValidProject(p: Project) {
    Distinct(p.listing) && forall s :: s in p.listing <==> Owners(p, s) != {}
  }

  /** The listed services among these, in the order of the listing. */
  ghost function Listed(listing: seq<Service>, services: set<Service>): seq<Service> {
    if listing == [] then []
    else Listed(listing[..|listing| - 1], services) + if listing[|listing| - 1] in services then [listing[|listing| - 1]] else []
  }

  lemma {:induction false} ListedMembers(listing: seq<Service>, services: set<Service>)
    requires Distinct(listing)
    ensures forall s :: s in Listed(listing, services) <==> s in listing && s in services
    ensures Distinct(Listed(listing, services))
  {
    if listing != [] {
      var most, last := listing[..|listing| - 1], listing[|listing| - 1];
      ListedMembers(most, services);
      var kept := Listed(most, services);
      assert listing == most + [last];
      assert last !in most by {
        assert forall i :: 0 <= i < |most| ==> most[i] == listing[i] && listing[i] != listing[|most|];
      }
      assert last !in kept;
    }
  }

  method ListServices(listing: seq<Service>, services: set<Service>) returns (list: seq<Service>)
    requires Distinct(listing)
    ensures list == Listed(listing, services)
  {
    list := [];
    for i := 0 to |listing|
      invariant list == Listed(listing[..i], services)
    {
      assert listing[..i + 1][..i] == listing[..i];
      if listing[i] in services {
        list := list + [listing[i]];
      }
    }
    assert listing[..|listing|] == listing;
  }

  /** `service_owners` */
  function Owners(p: Project, s: Service): set<Name> {
    set n | n in p.containers && s in p.containers[n].services
  }

  predicate Shared(p: Project, s: Service) {
    exists a, b :: a in p.containers && b in p.containers && a != b && s in p.containers[a].services && s in p.containers[b].services
  }

  /** Containers that must be complete, containers whose consumers matter, containers to
      notify, and services to apply. */
  datatype Selection = Selection(groups: set<Name>, providers: set<Name>, targets: set<Name>, services: set<Service>)

  ghost predicate Within(a: Selection, b: Selection) {
    a.groups <= b.groups && a.providers <= b.providers && a.targets <= b.targets && a.services <= b.services
  }

  // ----- the rules -----

  /** Containers whose declared dependencies count. */
  function Requirers(p: Project, q: Selection): set<Name> {
    q.groups + set n, s | s in q.services && Shared(p, s) && n in Owners(p, s) :: n
  }

  function DependenciesOf(p: Project, n: Name): set<Name> {
    if n in p.containers then p.containers[n].dependencies else {}
  }

  /** Services of an installed container that the model defines. */
  function Defined(p: Project, n: Name): set<Service>
    requires n in p.containers
  {
    p.containers[n].services * p.definitions.Keys
  }

  function Active(p: Project, n: Name): set<Service>
    requires n in p.containers
  {
    p.containers[n].services * p.running * p.definitions.Keys
  }

  function ExposedBy(p: Project, n: Name): set<Name> {
    if n in p.exposed then p.exposed[n] else {}
  }

  /** An edge that has to be followed: required, or optional but already selected. */
  ghost predicate Followed(p: Project, q: Selection, s: Service, d: Service) {
    s in p.definitions && d in Dependencies(p.definitions[s]) && (Dependencies(p.definitions[s])[d].required || d in q.services)
  }

  ghost predicate HasDependency(p: Project, r: Selection, n: Name) {
    n in p.containers ==> n in r.groups && n in r.providers && n in r.targets && Defined(p, n) <= r.services
  }

  /** r has what the containers required by q depend on. */
  ghost predicate HasDependencies(p: Project, q: Selection, r: Selection) {
    forall c, n :: c in Requirers(p, q) && n in DependenciesOf(p, c) ==> HasDependency(p, r, n)
  }

  ghost predicate HasConsumer(p: Project, r: Selection, n: Name) {
    n in p.containers && Active(p, n) != {} ==> n in r.providers && n in r.targets && Active(p, n) <= r.services
  }

  /** r has the running consumers of q's providers. */
  ghost predicate HasConsumers(p: Project, q: Selection, r: Selection) {
    forall c, n :: c in q.providers && n in ExposedBy(p, c) ==> HasConsumer(p, r, n)
  }

  ghost predicate HasOwners(p: Project, r: Selection, s: Service) {
    Owners(p, s) <= r.targets && (Shared(p, s) ==> Owners(p, s) <= r.providers)
  }

  predicate Available(p: Project, d: Service) {
    d in p.definitions && Owners(p, d) != {}
  }

  ghost predicate HasService(p: Project, r: Selection, d: Service) {
    Available(p, d) ==> d in r.services && Owners(p, d) <= r.targets
  }

  /** r has the owners and the followed dependencies of q's services. */
  ghost predicate HasServices(p: Project, q: Selection, r: Selection) {
    && (forall s :: s in q.services ==> HasOwners(p, r, s))
    && (forall s, d :: s in q.services && Followed(p, q, s, d) ==> HasService(p, r, d))
  }

  ghost predicate Closed(p: Project, q: Selection) {
    HasDependencies(p, q, q) && HasConsumers(p, q, q) && HasServices(p, q, q)
  }

  /** A container that is depended on but not installed. */
  ghost predicate MissingContainer(p: Project, q: Selection) {
    exists c, n :: c in Requirers(p, q) && n in DependenciesOf(p, c) && n !in p.containers
  }

  /** A followed Compose dependency that no container or no model provides. */
  ghost predicate MissingService(p: Project, q: Selection) {
    exists s, d :: s in q.services && Followed(p, q, s, d) && !Available(p, d)
  }

  ghost predicate Defective(p: Project, q: Selection) {
    MissingContainer(p, q) || MissingService(p, q)
  }

  ghost predicate IsLeastClosed(p: Project, start: Selection, q: Selection) {
    && Within(start, q) && Closed(p, q)
    && forall t :: Within(start, t) && Closed(p, t) ==> Within(q, t)
  }

  /** q adds to `from` only what every closed selection around `from` has. */
  ghost predicate Forced(p: Project, from: Selection, q: Selection) {
    Within(from, q) && forall t :: Within(from, t) && Closed(p, t) ==> Within(q, t)
  }

  lemma DefectsSpread(p: Project, q: Selection, t: Selection)
    requires Within(q, t) && Defective(p, q)
    ensures Defective(p, t)
  {
    if MissingContainer(p, q) {
      var c, n :| c in Requirers(p, q) && n in DependenciesOf(p, c) && n !in p.containers;
      assert c in Requirers(p, t);
    } else {
      var s, d :| s in q.services && Followed(p, q, s, d) && !Available(p, d);
      assert Followed(p, t, s, d);
    }
  }

  // ----- the rules, read off the installation -----

  ghost predicate IsOwner(p: Project, n: Name, s: Service) {
    n in p.containers && s in p.containers[n].services
  }

  ghost predicate HasTwoOwners(p: Project, s: Service) {
    exists a, b :: IsOwner(p, a, s) && IsOwner(p, b, s) && a != b
  }

  ghost predicate CanRun(p: Project, d: Service) {
    d in p.definitions && exists n :: IsOwner(p, n, d)
  }

  /** c depends on n, and has to be complete or owns a selected service with others. */
  ghost predicate AsksForContainer(p: Project, q: Selection, c: Name, n: Name) {
    && c in p.containers && n in p.containers[c].dependencies
    && (c in q.groups || exists s :: s in q.services && IsOwner(p, c, s) && HasTwoOwners(p, s))
  }

  /** s depends on d, and not just optionally unless d is selected. */
  ghost predicate AsksForService(p: Project, q: Selection, s: Service, d: Service) {
    && s in q.services && s in p.definitions
    && (if d in p.definitions[s].dependsOn then p.definitions[s].dependsOn[d].required || d in q.services
        else d in p.definitions[s].links || d in p.definitions[s].namespaces)
  }

  /** Containers asked for are there as a whole, running consumers of providers are, owners of
      services are notified, co-owners are providers, services asked for are there. */
  ghost predicate Complete(p: Project, q: Selection) {
    && (forall c, n :: AsksForContainer(p, q, c, n) && n in p.containers ==>
          n in q.groups && n in q.providers && n in q.targets && forall s :: IsOwner(p, n, s) && s in p.definitions ==> s in q.services)
    && (forall c, n, s :: c in q.providers && c in p.exposed && n in p.exposed[c] && IsOwner(p, n, s) && s in p.running && s in p.definitions ==>
          n in q.providers && n in q.targets && s in q.services)
    && (forall n, s :: s in q.services && IsOwner(p, n, s) ==> n in q.targets && (HasTwoOwners(p, s) ==> n in q.providers))
    && (forall s, d :: AsksForService(p, q, s, d) && CanRun(p, d) ==> d in q.services && forall n :: IsOwner(p, n, d) ==> n in q.targets)
  }

  /** Something asked for is not installed. */
  ghost predicate Impossible(p: Project, q: Selection) {
    || (exists c, n :: AsksForContainer(p, q, c, n) && n !in p.containers)
    || (exists s, d :: AsksForService(p, q, s, d) && !CanRun(p, d))
  }

  ghost predicate IsLeastComplete(p: Project, start: Selection, q: Selection) {
    Within(start, q) && Complete(p, q) && forall t :: Within(start, t) && Complete(p, t) ==> Within(q, t)
  }

  lemma OwnersAreOwners(p: Project)
    ensures forall n, s :: n in Owners(p, s) <==> IsOwner(p, n, s)
    ensures forall s :: Shared(p, s) <==> HasTwoOwners(p, s)
    ensures forall s :: Available(p, s) <==> CanRun(p, s)
  {
    forall s
      ensures Shared(p, s) <==> HasTwoOwners(p, s)
      ensures Available(p, s) <==> CanRun(p, s)
    {
      if Available(p, s) {
        var n :| n in Owners(p, s);
        assert IsOwner(p, n, s);
      }
      if CanRun(p, s) {
        var n :| IsOwner(p, n, s);
        assert n in Owners(p, s);
      }
      if HasTwoOwners(p, s) {
        var a, b :| IsOwner(p, a, s) && IsOwner(p, b, s) && a != b;
      }
      if a, b :| a in p.containers && b in p.containers && a != b && s in p.containers[a].services && s in p.containers[b].services {
        assert IsOwner(p, a, s) && IsOwner(p, b, s);
      }
    }
  }

  lemma AskedAreRequired(p: Project, q: Selection)
    ensures forall c, n :: AsksForContainer(p, q, c, n) <==> c in Requirers(p, q) && n in DependenciesOf(p, c)
    ensures forall s, d :: AsksForService(p, q, s, d) <==> s in q.services && Followed(p, q, s, d)
  {
    hide IsOwner, HasTwoOwners, Shared, Owners;
    OwnersAreOwners(p);
    forall c, n
      ensures AsksForContainer(p, q, c, n) <==> c in Requirers(p, q) && n in DependenciesOf(p, c)
    {
      if c in Requirers(p, q) && c !in q.groups {
        var s :| s in q.services && Shared(p, s) && c in Owners(p, s);
        assert IsOwner(p, c, s) && HasTwoOwners(p, s);
      }
    }
  }

  lemma ClosedIsComplete(p: Project, q: Selection)
    ensures Closed(p, q) <==> Complete(p, q)
    ensures Defective(p, q) <==> Impossible(p, q)
  {
    hide IsOwner, HasTwoOwners, Shared, Owners, Requirers, DependenciesOf, AsksForContainer, AsksForService, Followed, CanRun, Available;
    OwnersAreOwners(p);
    AskedAreRequired(p, q);
    DependenciesAreThere(p, q);
    ConsumersAreThere(p, q);
    assert HasServices(p, q, q) <==>
      && (forall n, s :: s in q.services && IsOwner(p, n, s) ==> n in q.targets && (HasTwoOwners(p, s) ==> n in q.providers))
      && (forall s, d :: AsksForService(p, q, s, d) && CanRun(p, d) ==> d in q.services && forall n :: IsOwner(p, n, d) ==> n in q.targets) by {
      ServicesAreThere(p, q);
    }
  }

  lemma DependenciesAreThere(p: Project, q: Selection)
    ensures HasDependencies(p, q, q) <==> forall c, n :: AsksForContainer(p, q, c, n) && n in p.containers ==>
      n in q.groups && n in q.providers && n in q.targets && forall s :: IsOwner(p, n, s) && s in p.definitions ==> s in q.services
  {
    hide AsksForContainer, Requirers, DependenciesOf;
    AskedAreRequired(p, q);
    forall n | n in p.containers
      ensures Defined(p, n) <= q.services <==> forall s :: IsOwner(p, n, s) && s in p.definitions ==> s in q.services
    {
      assert forall s :: s in Defined(p, n) <==> IsOwner(p, n, s) && s in p.definitions;
    }
    if HasDependencies(p, q, q) {
      forall c, n | AsksForContainer(p, q, c, n) && n in p.containers
        ensures HasDependency(p, q, n)
      {
        assert c in Requirers(p, q) && n in DependenciesOf(p, c);
      }
    } else {
      var c, n :| c in Requirers(p, q) && n in DependenciesOf(p, c) && !HasDependency(p, q, n);
      assert AsksForContainer(p, q, c, n);
    }
  }

  lemma ConsumersAreThere(p: Project, q: Selection)
    ensures HasConsumers(p, q, q) <==> forall c, n, s ::
      c in q.providers && c in p.exposed && n in p.exposed[c] && IsOwner(p, n, s) && s in p.running && s in p.definitions ==>
        n in q.providers && n in q.targets && s in q.services
  {
    assert forall n, s :: n in p.containers ==> (s in Active(p, n) <==> IsOwner(p, n, s) && s in p.running && s in p.definitions);
    hide Active, IsOwner;
    if HasConsumers(p, q, q) {
      forall c, n, s | c in q.providers && c in p.exposed && n in p.exposed[c] && IsOwner(p, n, s) && s in p.running && s in p.definitions
        ensures n in q.providers && n in q.targets && s in q.services
      {
        OwnerIsInstalled(p, n, s);
        assert s in Active(p, n);
        assert n in ExposedBy(p, c) && HasConsumer(p, q, n);
      }
    } else {
      var c, n :| c in q.providers && n in ExposedBy(p, c) && !HasConsumer(p, q, n);
      var s :| s in Active(p, n) && (n !in q.providers || n !in q.targets || s !in q.services);
      assert c in p.exposed && n in p.exposed[c] && IsOwner(p, n, s) && s in p.running && s in p.definitions;
    }
  }

  lemma OwnerIsInstalled(p: Project, n: Name, s: Service)
    requires IsOwner(p, n, s)
    ensures n in p.containers
  {
  }

  lemma ServicesAreThere(p: Project, q: Selection)
    ensures HasServices(p, q, q) <==>
      && (forall n, s :: s in q.services && IsOwner(p, n, s) ==> n in q.targets && (HasTwoOwners(p, s) ==> n in q.providers))
      && (forall s, d :: AsksForService(p, q, s, d) && CanRun(p, d) ==> d in q.services && forall n :: IsOwner(p, n, d) ==> n in q.targets)
  {
    hide IsOwner, HasTwoOwners, Shared, Owners, AsksForService, Followed, CanRun, Available;
    OwnersAreOwners(p);
    AskedAreRequired(p, q);
    forall s
      ensures HasOwners(p, q, s) <==> forall n :: IsOwner(p, n, s) ==> n in q.targets && (HasTwoOwners(p, s) ==> n in q.providers)
      ensures HasService(p, q, s) <==> CanRun(p, s) ==> s in q.services && forall n :: IsOwner(p, n, s) ==> n in q.targets
    {
    }
  }

  // ----- one pass of the loop -----

  /** Why a selection is refused. */
  datatype Missing = UninstalledContainer(name: Name) | UninstalledService(service: Service) | Cyclic | NothingToRun

  function AddDependency(p: Project, q: Selection, n: Name): Selection
    requires n in p.containers
  {
    Selection(q.groups + {n}, q.providers + {n}, q.targets + {n}, q.services + Defined(p, n))
  }

  lemma DependencyIsForced(p: Project, from: Selection, q: Selection, c: Name, n: Name)
    requires Forced(p, from, q) && c in Requirers(p, from) && n in DependenciesOf(p, c) && n in p.containers
    ensures Forced(p, from, AddDependency(p, q, n))
  {
    forall t | Within(from, t) && Closed(p, t) ensures Within(AddDependency(p, q, n), t) {
      assert c in Requirers(p, t);
      assert HasDependency(p, t, n);
    }
  }

  lemma DependencyIsAdded(p: Project, q: Selection, n: Name)
    requires n in p.containers
    ensures HasDependency(p, AddDependency(p, q, n), n)
    ensures forall m :: HasDependency(p, q, m) ==> HasDependency(p, AddDependency(p, q, n), m)
  {
  }

  /** First part of a pass: container dependencies. */
  method FollowContainers(p: Project, from: Selection) returns (r: Result<Selection, Missing>)
    ensures r.Ok? ==> Forced(p, from, r.value) && HasDependencies(p, from, r.value) && !MissingContainer(p, from)
    ensures r.Err? ==> r.error.UninstalledContainer? && MissingContainer(p, from)
  {
    hide Closed, HasOwners, HasServices, HasConsumers, Requirers;
    var q := from;
    var containers := Requirers(p, from);
    ghost var all := containers;
    while containers != {}
      invariant containers <= all && Forced(p, from, q)
      invariant forall c, n :: c in all - containers && n in DependenciesOf(p, c) ==> n in p.containers && HasDependency(p, q, n)
      decreases containers
    {
      var c :| c in containers;
      var names := DependenciesOf(p, c);
      while names != {}
        invariant names <= DependenciesOf(p, c) && Forced(p, from, q)
        invariant forall b, n :: b in all - containers && n in DependenciesOf(p, b) ==> n in p.containers && HasDependency(p, q, n)
        invariant forall n :: n in DependenciesOf(p, c) - names ==> n in p.containers && HasDependency(p, q, n)
        decreases names
      {
        var n :| n in names;
        if n !in p.containers {
          return Err(UninstalledContainer(n));
        }
        DependencyIsForced(p, from, q, c, n);
        DependencyIsAdded(p, q, n);
        q := AddDependency(p, q, n);
        names := names - {n};
      }
      containers := containers - {c};
    }
    r := Ok(q);
  }

  function AddConsumer(p: Project, q: Selection, n: Name): Selection
    requires n in p.containers
  {
    Selection(q.groups, q.providers + {n}, q.targets + {n}, q.services + Active(p, n))
  }

  lemma ConsumerIsForced(p: Project, from: Selection, q: Selection, c: Name, n: Name)
    requires Forced(p, from, q) && c in from.providers && n in ExposedBy(p, c) && n in p.containers && Active(p, n) != {}
    ensures Forced(p, from, AddConsumer(p, q, n))
  {
    forall t | Within(from, t) && Closed(p, t) ensures Within(AddConsumer(p, q, n), t) {
      assert HasConsumer(p, t, n);
    }
  }

  lemma ConsumerIsAdded(p: Project, q: Selection, n: Name)
    requires n in p.containers
    ensures HasConsumer(p, AddConsumer(p, q, n), n)
    ensures forall m :: HasConsumer(p, q, m) ==> HasConsumer(p, AddConsumer(p, q, n), m)
  {
  }

  /** Second part: running consumers of the providers. */
  method FollowConsumers(p: Project, from: Selection) returns (q: Selection)
    ensures Forced(p, from, q) && HasConsumers(p, from, q)
  {
    hide Closed, HasOwners, HasServices, HasDependencies, Requirers;
    q := from;
    if p.running == {} {
      return;
    }
    var producers := from.providers;
    while producers != {}
      invariant producers <= from.providers && Forced(p, from, q)
      invariant forall c, n :: c in from.providers - producers && n in ExposedBy(p, c) ==> HasConsumer(p, q, n)
      decreases producers
    {
      var c :| c in producers;
      var names := ExposedBy(p, c);
      while names != {}
        invariant names <= ExposedBy(p, c) && Forced(p, from, q)
        invariant forall b, n :: b in from.providers - producers && n in ExposedBy(p, b) ==> HasConsumer(p, q, n)
        invariant forall n :: n in ExposedBy(p, c) - names ==> HasConsumer(p, q, n)
        decreases names
      {
        var n :| n in names;
        if n in p.containers && Active(p, n) != {} {
          ConsumerIsForced(p, from, q, c, n);
          ConsumerIsAdded(p, q, n);
          q := AddConsumer(p, q, n);
        }
        names := names - {n};
      }
      producers := producers - {c};
    }
  }

  function AddOwners(p: Project, q: Selection, s: Service): Selection {
    q.(targets := q.targets + Owners(p, s), providers := if Shared(p, s) then q.providers + Owners(p, s) else q.providers)
  }

  function AddService(p: Project, q: Selection, d: Service): Selection {
    q.(services := q.services + {d}, targets := q.targets + Owners(p, d))
  }

  lemma OwnersAreForced(p: Project, from: Selection, q: Selection, s: Service)
    requires Forced(p, from, q) && s in from.services
    ensures Forced(p, from, AddOwners(p, q, s))
  {
    forall t | Within(from, t) && Closed(p, t) ensures Within(AddOwners(p, q, s), t) {
      assert HasOwners(p, t, s);
    }
  }

  lemma ServiceIsForced(p: Project, from: Selection, q: Selection, s: Service, d: Service)
    requires Forced(p, from, q) && s in from.services && Followed(p, q, s, d) && Available(p, d)
    ensures Forced(p, from, AddService(p, q, d))
  {
    forall t | Within(from, t) && Closed(p, t) ensures Within(AddService(p, q, d), t) {
      assert Followed(p, t, s, d);
      assert HasService(p, t, d);
    }
  }

  /** Third part: owners and Compose dependencies of the services. */
  method FollowServices(p: Project, from: Selection) returns (r: Result<Selection, Missing>)
    ensures r.Ok? ==> Forced(p, from, r.value) && HasServices(p, from, r.value) && !MissingService(p, from)
    ensures r.Err? ==> r.error.UninstalledService? && forall t :: Within(from, t) && Closed(p, t) ==> MissingService(p, t)
  {
    hide Closed, HasDependencies, HasConsumers, Requirers, Owners, Shared;
    var q := from;
    var services := from.services;
    while services != {}
      invariant services <= from.services && Forced(p, from, q)
      invariant forall s :: s in from.services - services ==> HasOwners(p, q, s)
      invariant forall s, d :: s in from.services - services && Followed(p, from, s, d) ==> Available(p, d) && HasService(p, q, d)
      decreases services
    {
      var s :| s in services;
      OwnersAreForced(p, from, q, s);
      q := AddOwners(p, q, s);
      var edges := if s in p.definitions then Dependencies(p.definitions[s]).Keys else {};
      ghost var all := edges;
      while edges != {}
        invariant edges <= all && Forced(p, from, q)
        invariant forall s' :: s' in from.services - services + {s} ==> HasOwners(p, q, s')
        invariant forall s', d :: s' in from.services - services && Followed(p, from, s', d) ==> Available(p, d) && HasService(p, q, d)
        invariant forall d :: d in all - edges && Followed(p, from, s, d) ==> Available(p, d) && HasService(p, q, d)
        decreases edges
      {
        var d :| d in edges;
        edges := edges - {d};
        if Dependencies(p.definitions[s])[d].required || d in q.services {
          if !Available(p, d) {
            FollowedStaysFollowed(p, from, q, s, d);
            return Err(UninstalledService(d));
          }
          ServiceIsForced(p, from, q, s, d);
          q := AddService(p, q, d);
        }
      }
      services := services - {s};
    }
    r := Ok(q);
  }

  lemma FollowedStaysFollowed(p: Project, from: Selection, q: Selection, s: Service, d: Service)
    requires Forced(p, from, q) && s in from.services && Followed(p, q, s, d) && !Available(p, d)
    ensures forall t :: Within(from, t) && Closed(p, t) ==> MissingService(p, t)
  {
    forall t | Within(from, t) && Closed(p, t) ensures MissingService(p, t) {
      assert s in t.services && Followed(p, t, s, d);
    }
  }

  // ----- the loop -----

  lemma ForcedTwice(p: Project, a: Selection, b: Selection, c: Selection)
    requires Forced(p, a, b) && Forced(p, b, c)
    ensures Forced(p, a, c)
  {
    forall t | Within(a, t) && Closed(p, t) ensures Within(c, t) {
      assert Within(b, t);
    }
  }

  /** A pass that changes nothing leaves a closed selection. */
  lemma QuietPassIsClosed(p: Project, a: Selection, b: Selection, c: Selection, d: Selection)
    requires Forced(p, a, b) && Forced(p, b, c) && Forced(p, c, d) && a == d
    requires HasDependencies(p, a, b) && HasConsumers(p, b, c) && HasServices(p, c, d)
    ensures Closed(p, a)
  {
    assert a == b == c == d;
  }

  lemma ForcedSelf(p: Project, q: Selection)
    ensures Forced(p, q, q)
  {
  }

  lemma ContainerErrorIsDefect(p: Project, start: Selection, q: Selection)
    requires Forced(p, start, q) && MissingContainer(p, q)
    ensures forall t :: Within(start, t) && Closed(p, t) ==> Defective(p, t)
  {
    forall t | Within(start, t) && Closed(p, t) ensures Defective(p, t) {
      DefectsSpread(p, q, t);
    }
  }

  lemma ServiceErrorIsDefect(p: Project, start: Selection, q: Selection)
    requires Forced(p, start, q)
    requires forall t :: Within(q, t) && Closed(p, t) ==> MissingService(p, t)
    ensures forall t :: Within(start, t) && Closed(p, t) ==> Defective(p, t)
  {
  }

  /** All there is: a closed selection that bounds every other. */
  ghost function Everything(p: Project): Selection {
    Selection(p.containers.Keys, p.containers.Keys, p.containers.Keys, set s | s in p.definitions && Owners(p, s) != {})
  }

  lemma EverythingIsClosed(p: Project)
    ensures Closed(p, Everything(p))
  {
    var all := Everything(p);
    forall n | n in p.containers ensures Defined(p, n) <= all.services {
      forall s | s in Defined(p, n) ensures s in all.services { assert n in Owners(p, s); }
    }
  }

  lemma PassStaysWithin(p: Project, q: Selection, r: Selection)
    requires Forced(p, q, r) && Within(q, Everything(p))
    ensures Within(r, Everything(p))
  {
    EverythingIsClosed(p);
  }

  lemma ForcedClosedIsLeast(p: Project, start: Selection, q: Selection)
    requires Forced(p, start, q) && Closed(p, q)
    ensures IsLeastClosed(p, start, q)
  {
  }

  /** How much could still be added. */
  ghost function Room(p: Project, q: Selection): nat {
    |p.containers.Keys - q.groups| + |p.containers.Keys - q.providers| + |p.containers.Keys - q.targets| + |p.definitions.Keys - q.services|
  }

  /** A pass that changes anything leaves less room. */
  lemma PassProgresses(p: Project, q: Selection, r: Selection)
    requires Within(q, r) && q != r && Within(r, Everything(p))
    ensures Room(p, r) < Room(p, q)
  {
    LessLeft(p.containers.Keys, q.groups, r.groups);
    LessLeft(p.containers.Keys, q.providers, r.providers);
    LessLeft(p.containers.Keys, q.targets, r.targets);
    LessLeft(p.definitions.Keys, q.services, r.services);
  }

  lemma LessLeft<T>(all: set<T>, a: set<T>, b: set<T>)
    requires a <= b <= all
    ensures |all - b| <= |all - a|
    ensures a != b ==> |all - b| < |all - a|
  {
    assert all - a == (all - b) + (b - a);
    assert |all - a| == |all - b| + |b - a|;
    if a != b {
      var x :| x in b && x !in a;
      assert x in b - a;
    }
  }

  /** One turn of the loop. */
  method Pass(p: Project, q: Selection) returns (r: Result<Selection, Missing>)
    ensures r.Ok? ==> Forced(p, q, r.value) && (r.value == q ==> Closed(p, q) && !Defective(p, q))
    ensures r.Err? ==> (r.error.UninstalledContainer? || r.error.UninstalledService?)
    ensures r.Err? ==> forall t :: Within(q, t) && Closed(p, t) ==> Defective(p, t)
  {
    hide Closed, Forced, HasDependencies, HasConsumers, HasServices, MissingContainer, MissingService, Within;
    ForcedSelf(p, q);
    var containers := FollowContainers(p, q);
    if containers.Err? {
      ContainerErrorIsDefect(p, q, q);
      return Err(containers.error);
    }
    var consumers := FollowConsumers(p, containers.value);
    ForcedTwice(p, q, containers.value, consumers);
    var services := FollowServices(p, consumers);
    if services.Err? {
      ServiceErrorIsDefect(p, q, consumers);
      return Err(services.error);
    }
    ForcedTwice(p, q, consumers, services.value);
    if services.value == q {
      QuietPassIsClosed(p, q, containers.value, consumers, services.value);
      QuietPassIsSame(p, q, containers.value, consumers, services.value);
    }
    r := Ok(services.value);
  }

  lemma QuietPassIsSame(p: Project, a: Selection, b: Selection, c: Selection, d: Selection)
    requires Forced(p, a, b) && Forced(p, b, c) && Forced(p, c, d) && a == d
    ensures b == a && c == a
  {
    hide Closed;
  }

  lemma DefectFromLater(p: Project, start: Selection, q: Selection)
    requires Forced(p, start, q) && forall t :: Within(q, t) && Closed(p, t) ==> Defective(p, t)
    ensures forall t :: Within(start, t) && Closed(p, t) ==> Defective(p, t)
  {
    hide Closed, Defective;
  }

  /** The loop: an error exactly when the least closed selection is defective, otherwise
      that selection. */
  method Close(p: Project, start: Selection) returns (r: Result<Selection, Missing>)
    requires Within(start, Everything(p))
    ensures r.Ok? ==> IsLeastClosed(p, start, r.value) && !Defective(p, r.value) && Within(r.value, Everything(p))
    ensures r.Err? ==> (r.error.UninstalledContainer? || r.error.UninstalledService?)
    ensures r.Err? ==> forall t :: Within(start, t) && Closed(p, t) ==> Defective(p, t)
  {
    hide Closed, Defective, Everything, Room, IsLeastClosed;
    var q := start;
    ForcedSelf(p, start);
    while true
      invariant Forced(p, start, q) && Within(q, Everything(p))
      decreases Room(p, q)
    {
      hide Forced, Within;
      var next := Pass(p, q);
      if next.Err? {
        DefectFromLater(p, start, q);
        return Err(next.error);
      }
      ForcedTwice(p, start, q, next.value);
      PassStaysWithin(p, q, next.value);
      if next.value == q {
        ForcedClosedIsLeast(p, start, q);
        return Ok(q);
      }
      ForcedIsWithin(p, q, next.value);
      PassProgresses(p, q, next.value);
      q := next.value;
    }
  }

  lemma ForcedIsWithin(p: Project, q: Selection, r: Selection)
    requires Forced(p, q, r)
    ensures Within(q, r)
  {
  }

  // ----- the whole operation -----

  /** The selected containers that have something to run or nothing at all, and the
      requested services, or all of theirs. */
  function Start(p: Project, chosen: set<Name>, requested: set<Service>): Selection {
    var groups := set n | n in chosen && n in p.containers && (p.containers[n].services == {} || Defined(p, n) != {});
    var services := if requested != {} then requested else set n, s | n in groups && n in p.containers && s in p.containers[n].services :: s;
    Selection(groups, groups, groups, services * p.definitions.Keys)
  }

  /** What the loop starts with: the chosen containers that have something to run or nothing at
      all, as a whole, and of the requested services, or all of theirs, those that the model has. */
  ghost predicate IsStart(p: Project, chosen: set<Name>, requested: set<Service>, start: Selection) {
    && (forall n :: n in start.groups <==>
          n in chosen && n in p.containers && (p.containers[n].services == {} || exists s :: s in p.containers[n].services && s in p.definitions))
    && start.providers == start.groups && start.targets == start.groups
    && (forall s :: s in start.services <==>
          s in p.definitions && if requested == {} then exists n :: n in start.groups && IsOwner(p, n, s) else s in requested)
  }

  lemma StartIsStart(p: Project, chosen: set<Name>, requested: set<Service>)
    ensures IsStart(p, chosen, requested, Start(p, chosen, requested))
  {
    var start := Start(p, chosen, requested);
    forall n | n in p.containers
      ensures Defined(p, n) != {} <==> exists s :: s in p.containers[n].services && s in p.definitions
    {
      if s :| s in p.containers[n].services && s in p.definitions {
        assert s in Defined(p, n);
      }
    }
    forall s
      ensures s in start.services <==>
        s in p.definitions && if requested == {} then exists n :: n in start.groups && IsOwner(p, n, s) else s in requested
    {
    }
  }

  lemma StartIsBounded(p: Project, chosen: set<Name>, requested: set<Service>)
    requires forall s :: s in requested ==> Owners(p, s) != {}
    ensures Within(Start(p, chosen, requested), Everything(p))
  {
    var start := Start(p, chosen, requested);
    forall s | s in start.services ensures Owners(p, s) != {} {
      if s !in requested {
        var n :| n in start.groups && n in p.containers && s in p.containers[n].services;
        assert n in Owners(p, s);
      }
    }
  }

  /** Containers to notify, and services in the order they start. */
  datatype Plan = Plan(targets: set<Name>, order: seq<Service>)

  /** Owners of what runs, and selected containers without services. */
  function Notified(p: Project, q: Selection): set<Name> {
    set n | n in p.containers && ((n in q.targets && p.containers[n].services == {}) || p.containers[n].services * q.services != {})
  }

  lemma NotifiedAreOwners(p: Project, q: Selection, order: seq<Service>)
    requires Members(order) == q.services
    ensures forall n :: n in Notified(p, q) <==>
      || (exists s :: s in order && IsOwner(p, n, s))
      || (n in q.targets && n in p.containers && p.containers[n].services == {})
  {
    forall n | n in p.containers
      ensures p.containers[n].services * q.services != {} <==> exists s :: s in order && IsOwner(p, n, s)
    {
      if s :| s in order && IsOwner(p, n, s) {
        assert s in Members(order);
        assert s in p.containers[n].services * q.services;
      }
      if s :| s in p.containers[n].services * q.services {
        assert s in Members(order);
      }
    }
  }

  /** In a closed selection without defects no required edge leaves the services. */
  lemma ClosedHasItsDependencies(p: Project, q: Selection)
    requires HasServices(p, q, q) && !MissingService(p, q)
    ensures forall s, d :: !MissingDependency(q.services, p.definitions, s, d)
  {
    forall s, d ensures !MissingDependency(q.services, p.definitions, s, d) {
      if s in q.services && s in p.definitions && d in Dependencies(p.definitions[s]) && Dependencies(p.definitions[s])[d].required {
        assert Followed(p, q, s, d);
        assert HasService(p, q, d);
      }
    }
  }

  /** The plan has the services of the selection in the stable order of the listing, and notifies
      their owners and the selected containers without services. */
  ghost predicate Arranges(p: Project, q: Selection, plan: Plan) {
    && q.services <= p.definitions.Keys && Members(plan.order) == q.services != {}
    && IsStableOrder(Edges(q.services, p.definitions), Listed(p.listing, q.services), plan.order)
    && forall n :: n in plan.targets <==>
      || (exists s :: s in plan.order && IsOwner(p, n, s))
      || (n in q.targets && n in p.containers && p.containers[n].services == {})
  }

  /** `required_selection` with a resolved model: refused exactly for a missing container
      or service of the least closed selection, for a dependency cycle in it, or when it
      has nothing to run; otherwise its services in the stable order of the listing and
      their owners, with the selected containers that have no services. */
  method RequireSelection(p: Project, chosen: set<Name>, requested: set<Service>)
    returns (r: Result<Plan, Missing>)
    requires ValidProject(p) && chosen <= p.containers.Keys && forall s :: s in requested ==> Owners(p, s) != {}
    ensures r.Ok? ==> exists start, least ::
      IsStart(p, chosen, requested, start) && IsLeastComplete(p, start, least) && !Impossible(p, least) && Arranges(p, least, r.value)
    ensures r.Err? && (r.error.UninstalledContainer? || r.error.UninstalledService?) ==> exists start ::
      IsStart(p, chosen, requested, start) && forall t :: Within(start, t) && Complete(p, t) ==> Impossible(p, t)
    ensures r.Err? && (r.error.Cyclic? || r.error.NothingToRun?) ==> exists start, least ::
      && IsStart(p, chosen, requested, start) && IsLeastComplete(p, start, least) && !Impossible(p, least)
      && least.services <= p.definitions.Keys
      && (if r.error.Cyclic? then HasCycle(Edges(least.services, p.definitions)) else least.services == {})
  {
    hide Closed, Defective, Complete, Impossible, HasCycle, Respects, Stable, Start, IsStart, Edges, Listed, Notified, IsOwner;
    var begin := Start(p, chosen, requested);
    StartIsBounded(p, chosen, requested);
    StartIsStart(p, chosen, requested);
    forall t ensures (Closed(p, t) <==> Complete(p, t)) && (Defective(p, t) <==> Impossible(p, t)) {
      ClosedIsComplete(p, t);
    }
    var closed := Close(p, begin);
    if closed.Err? {
      return Err(closed.error);
    }
    var q := closed.value;
    ClosedKeepsItsPromises(p, q);
    var list := ListServices(p.listing, q.services);
    ListedMembers(p.listing, q.services);
    assert Members(list) == q.services;
    var ordered := OrderServices(list, p.definitions);
    match ordered
    case Err(Unselected(s, d)) =>
      assert false;
    case Err(DependencyCycle) =>
      return Err(Cyclic);
    case Ok(order) =>
      if order == [] {
        return Err(NothingToRun);
      }
      assert order[0] in Members(order);
      NotifiedAreOwners(p, q, order);
      assert Arranges(p, q, Plan(Notified(p, q), order));
      return Ok(Plan(Notified(p, q), order));
  }

  lemma ClosedKeepsItsPromises(p: Project, q: Selection)
    requires Closed(p, q) && !Defective(p, q)
    ensures forall s, d :: !MissingDependency(q.services, p.definitions, s, d)
  {
    ClosedHasItsDependencies(p, q);
  }
}

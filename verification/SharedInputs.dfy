/** Bind inputs that changed in an operation, and the applied services that a failed one
    drags along because they read the same changed files. */
module SharedInputs {
  import opened Digraphs
  import opened Compose
  import opened Paths

  datatype Bind = Bind(target: Path, source: Path)

  /** Bind mounts of the current and the previous definitions, and which paths are
      directories. */
  datatype Inputs = Inputs(current: map<Service, seq<Bind>>, previous: map<Service, seq<Bind>>, directories: set<Path>)

  /** The source that the last mount of a target names; dictionaries keep the last. */
  function SourceOf(binds: seq<Bind>, target: Path): set<Path> {
    if binds == [] then {}
    else if binds[|binds| - 1].target == target then {binds[|binds| - 1].source}
    else SourceOf(binds[..|binds| - 1], target)
  }

  function PreviousBinds(inputs: Inputs, s: Service): seq<Bind> {
    if s in inputs.previous then inputs.previous[s] else []
  }

  /** `changed_sources`: current bind sources that the previous definition did not mount
      at the same target. */
  function ChangedSources(inputs: Inputs, s: Service): set<Path> {
    if s !in inputs.current then {}
    else set b | b in inputs.current[s] && SourceOf(PreviousBinds(inputs, s), b.target) != {b.source} :: b.source
  }

  /** The same path, or one inside the other's directory. */
  predicate SameInput(inputs: Inputs, a: Path, b: Path) {
    a == b || (a in inputs.directories && a < b) || (b in inputs.directories && b < a)
  }

  // ----- what sharing means -----

  /** The last of these mounts at the target has this source. */
  ghost predicate MountedFrom(binds: seq<Bind>, target: Path, source: Path) {
    exists k :: 0 <= k < |binds| && binds[k] == Bind(target, source) && forall j :: k < j < |binds| ==> binds[j].target != target
  }

  /** The service now mounts this source at a target where it did not mount it before. */
  ghost predicate NewInput(inputs: Inputs, s: Service, source: Path) {
    && s in inputs.current
    && exists b :: b in inputs.current[s] && b.source == source && !(s in inputs.previous && MountedFrom(inputs.previous[s], b.target, source))
  }

  /** b is a, or lies in the directory a. */
  ghost predicate Holds(inputs: Inputs, a: Path, b: Path) {
    a <= b && (a == b || a in inputs.directories)
  }

  /** Both changed an input that the other reads: the same, or one inside the other. */
  ghost predicate Share(inputs: Inputs, s: Service, t: Service) {
    exists a, b :: NewInput(inputs, s, a) && NewInput(inputs, t, b) && (Holds(inputs, a, b) || Holds(inputs, b, a))
  }

  lemma {:induction false} LastSource(binds: seq<Bind>, target: Path, source: Path)
    ensures SourceOf(binds, target) == {source} <==> MountedFrom(binds, target, source)
  {
    if binds != [] {
      var last := |binds| - 1;
      LastSource(binds[..last], target, source);
      if binds[last].target != target && MountedFrom(binds[..last], target, source) {
        var k :| 0 <= k < last && binds[..last][k] == Bind(target, source) && forall j :: k < j < last ==> binds[..last][j].target != target;
        assert binds[k] == Bind(target, source) && forall j :: k < j < |binds| ==> binds[j].target != target;
      }
      if binds[last].target != target && MountedFrom(binds, target, source) {
        var k :| 0 <= k < |binds| && binds[k] == Bind(target, source) && forall j :: k < j < |binds| ==> binds[j].target != target;
        assert binds[..last][k] == Bind(target, source);
      }
      if binds[last].target == target && MountedFrom(binds, target, source) {
        var k :| 0 <= k < |binds| && binds[k] == Bind(target, source) && forall j :: k < j < |binds| ==> binds[j].target != target;
        assert k == last;
      }
    }
  }

  /** What the code collects are the new inputs. */
  lemma ChangedAreNew(inputs: Inputs, s: Service)
    ensures forall a :: a in ChangedSources(inputs, s) <==> NewInput(inputs, s, a)
  {
    if s in inputs.current {
      forall b | b in inputs.current[s]
        ensures SourceOf(PreviousBinds(inputs, s), b.target) == {b.source} <==>
          s in inputs.previous && MountedFrom(inputs.previous[s], b.target, b.source)
      {
        LastSource(PreviousBinds(inputs, s), b.target, b.source);
      }
    }
  }

  /** Sharing in the code's terms. */
  lemma ShareIsMet(inputs: Inputs, s: Service, t: Service)
    ensures Share(inputs, s, t) <==> exists a, b :: a in ChangedSources(inputs, s) && b in ChangedSources(inputs, t) && SameInput(inputs, a, b)
  {
    hide NewInput, ChangedSources;
    ChangedAreNew(inputs, s);
    ChangedAreNew(inputs, t);
    assert forall a, b :: SameInput(inputs, a, b) <==> Holds(inputs, a, b) || Holds(inputs, b, a);
    if Share(inputs, s, t) {
      var a, b :| NewInput(inputs, s, a) && NewInput(inputs, t, b) && (Holds(inputs, a, b) || Holds(inputs, b, a));
      assert a in ChangedSources(inputs, s) && b in ChangedSources(inputs, t) && SameInput(inputs, a, b);
    }
  }

  lemma SharingIsMutual(inputs: Inputs, s: Service, t: Service)
    ensures Share(inputs, s, t) ==> Share(inputs, t, s)
  {
    if a, b :| NewInput(inputs, s, a) && NewInput(inputs, t, b) && (Holds(inputs, a, b) || Holds(inputs, b, a)) {
      assert NewInput(inputs, t, b) && NewInput(inputs, s, a);
    }
  }

  /** From a service to the applied services it shares with. */
  ghost function SharingEdges(inputs: Inputs, services: set<Service>, applied: set<Service>): Graph<Service> {
    map s | s in services :: set t | t in applied && Share(inputs, s, t)
  }

  /** t is linked to s by a chain of shared inputs through applied services. */
  ghost predicate Linked(inputs: Inputs, applied: set<Service>, s: Service, t: Service) {
    Beyond(SharingEdges(inputs, applied + {s}, applied), s, t)
  }

  // ----- the consumers of one failed service -----

  /** Inputs read by the service or by one of the services found. */
  ghost predicate ChangedBy(inputs: Inputs, failed: Service, found: set<Service>, changed: set<Path>) {
    forall a :: a in changed <==> a in ChangedSources(inputs, failed) || exists s :: s in found && a in ChangedSources(inputs, s)
  }

  predicate Touches(inputs: Inputs, changed: set<Path>, t: Service) {
    exists a, b :: a in changed && b in ChangedSources(inputs, t) && SameInput(inputs, a, b)
  }

  lemma TouchedIsShared(inputs: Inputs, failed: Service, found: set<Service>, changed: set<Path>, t: Service)
    requires ChangedBy(inputs, failed, found, changed)
    ensures Touches(inputs, changed, t) <==> Share(inputs, failed, t) || exists s :: s in found && Share(inputs, s, t)
  {
    hide Share, ChangedSources, SameInput;
    ShareIsMet(inputs, failed, t);
    forall s
      ensures Share(inputs, s, t) <==> exists a, b :: a in ChangedSources(inputs, s) && b in ChangedSources(inputs, t) && SameInput(inputs, a, b)
    {
      ShareIsMet(inputs, s, t);
    }
    if Touches(inputs, changed, t) {
      var a, b :| a in changed && b in ChangedSources(inputs, t) && SameInput(inputs, a, b);
      if a !in ChangedSources(inputs, failed) {
        var s :| s in found && a in ChangedSources(inputs, s);
        assert Share(inputs, s, t);
      }
    }
    if s :| (s == failed || s in found) && Share(inputs, s, t) {
      var a, b :| a in ChangedSources(inputs, s) && b in ChangedSources(inputs, t) && SameInput(inputs, a, b);
      assert a in changed;
    }
  }

  lemma FoundIsLinked(inputs: Inputs, applied: set<Service>, failed: Service, found: set<Service>, changed: set<Path>, t: Service)
    requires found <= applied && ChangedBy(inputs, failed, found, changed)
    requires forall s :: s in found ==> Linked(inputs, applied, failed, s)
    requires t in applied && Touches(inputs, changed, t)
    ensures Linked(inputs, applied, failed, t)
  {
    var g := SharingEdges(inputs, applied + {failed}, applied);
    TouchedIsShared(inputs, failed, found, changed, t);
    if Share(inputs, failed, t) {
      BeyondEdge(g, failed, t);
    } else {
      var s :| s in found && Share(inputs, s, t);
      BeyondStep(g, failed, s, t);
    }
  }

  /** A set of applied services that nothing outside shares with holds all linked ones. */
  lemma SettledHoldsLinked(inputs: Inputs, applied: set<Service>, failed: Service, found: set<Service>, t: Service)
    requires found <= applied && Linked(inputs, applied, failed, t)
    requires forall u :: u in applied && Share(inputs, failed, u) ==> u in found
    requires forall s, u :: s in found && u in applied && Share(inputs, s, u) ==> u in found
    ensures t in found
  {
    var g := SharingEdges(inputs, applied + {failed}, applied);
    var c :| c in Succ(g, failed) && Reaches(g, c, t);
    forall v | v in found ensures Succ(g, v) <= found {
    }
    assert ClosedUnder(g, found);
  }

  /** `_shared_input_consumers` */
  method SharedInputConsumers(inputs: Inputs, failed: Service, applied: set<Service>) returns (found: set<Service>)
    ensures forall t :: t in found <==> t in applied && Linked(inputs, applied, failed, t)
  {
    hide Linked, Touches, Share;
    var changed := ChangedSources(inputs, failed);
    found := {};
    while true
      invariant found <= applied && ChangedBy(inputs, failed, found, changed)
      invariant forall t :: t in found ==> Linked(inputs, applied, failed, t)
      decreases applied - found
    {
      var more := set t | t in applied && t !in found && Touches(inputs, changed, t);
      if more == {} {
        NothingMore(inputs, applied, failed, found, changed, more);
        return;
      }
      forall t | t in more ensures Linked(inputs, applied, failed, t) {
        FoundIsLinked(inputs, applied, failed, found, changed, t);
      }
      var t :| t in more;
      found := found + more;
      changed := changed + set s, a | s in more && a in ChangedSources(inputs, s) :: a;
    }
  }

  lemma NothingMore(inputs: Inputs, applied: set<Service>, failed: Service, found: set<Service>, changed: set<Path>, more: set<Service>)
    requires found <= applied && ChangedBy(inputs, failed, found, changed) && more == {}
    requires more == set t | t in applied && t !in found && Touches(inputs, changed, t)
    ensures forall t :: t in applied && Linked(inputs, applied, failed, t) ==> t in found
  {
    forall u | u in applied && (Share(inputs, failed, u) || exists s :: s in found && Share(inputs, s, u)) ensures u in found {
      TouchedIsShared(inputs, failed, found, changed, u);
      assert u !in more;
    }
    forall t | t in applied && Linked(inputs, applied, failed, t) ensures t in found {
      SettledHoldsLinked(inputs, applied, failed, found, t);
    }
  }

  // ----- the consumers of all failed services -----

  /** The failed services and whatever is linked to one of them. */
  ghost predicate IsAffected(inputs: Inputs, failed: set<Service>, applied: set<Service>, affected: set<Service>) {
    forall t :: t in affected <==> t in failed || (t in applied && exists f :: f in failed && Linked(inputs, applied, f, t))
  }

  lemma LinkedTwice(inputs: Inputs, applied: set<Service>, f: Service, s: Service, t: Service)
    requires s in applied && Linked(inputs, applied, f, s) && Linked(inputs, applied, s, t)
    ensures Linked(inputs, applied, f, t)
  {
    hide Share, Reaches;
    var g, h := SharingEdges(inputs, applied + {f}, applied), SharingEdges(inputs, applied + {s}, applied);
    var c :| c in Succ(h, s) && Reaches(h, c, t);
    var e :| e in Succ(g, f) && Reaches(g, e, s);
    assert c in Succ(g, s);
    ReachesThenStep(g, e, s, c);
    MoreEdgesReachMore(h, g, c, t);
    ReachesOn(g, e, c, t);
  }

  lemma ReachesOn(g: Graph<Service>, a: Service, b: Service, c: Service)
    requires Reaches(g, a, b) && Reaches(g, b, c)
    ensures Reaches(g, a, c)
  {
  }

  /** The loop of the recovery that grows the affected set. */
  method AffectedServices(inputs: Inputs, failed: set<Service>, applied: set<Service>) returns (affected: set<Service>)
    ensures IsAffected(inputs, failed, applied, affected)
    ensures forall s, t :: s in affected && t in applied && Share(inputs, s, t) ==> t in affected
  {
    hide Linked, Share;
    affected := failed;
    while true
      invariant failed <= affected <= failed + applied
      invariant forall t :: t in affected && t !in failed ==> exists f :: f in failed && Linked(inputs, applied, f, t)
      decreases applied + failed - affected
    {
      var related := RelatedTo(inputs, affected, applied);
      if related <= affected {
        RelatedIsSettled(inputs, failed, applied, affected, related);
        return;
      }
      forall t | t in related && t !in failed ensures exists f :: f in failed && Linked(inputs, applied, f, t) {
        var s :| s in affected && Linked(inputs, applied, s, t);
        if s !in failed {
          var f :| f in failed && Linked(inputs, applied, f, s);
          LinkedTwice(inputs, applied, f, s, t);
        }
      }
      affected := affected + related;
    }
  }

  method RelatedTo(inputs: Inputs, affected: set<Service>, applied: set<Service>) returns (related: set<Service>)
    ensures forall t :: t in related <==> t in applied && exists s :: s in affected && Linked(inputs, applied, s, t)
  {
    hide Linked;
    related := {};
    var rest := affected;
    while rest != {}
      invariant rest <= affected
      invariant forall t :: t in related <==> t in applied && exists s :: s in affected - rest && Linked(inputs, applied, s, t)
      decreases rest
    {
      var s :| s in rest;
      var found := SharedInputConsumers(inputs, s, applied);
      related := related + found;
      rest := rest - {s};
    }
  }

  lemma RelatedIsSettled(inputs: Inputs, failed: set<Service>, applied: set<Service>, affected: set<Service>, related: set<Service>)
    requires failed <= affected <= failed + applied && related <= affected
    requires forall t :: t in related <==> t in applied && exists s :: s in affected && Linked(inputs, applied, s, t)
    requires forall t :: t in affected && t !in failed ==> exists f :: f in failed && Linked(inputs, applied, f, t)
    ensures IsAffected(inputs, failed, applied, affected)
    ensures forall s, t :: s in affected && t in applied && Share(inputs, s, t) ==> t in affected
  {
    forall s, t | s in affected && t in applied && Share(inputs, s, t) ensures t in affected {
      var g := SharingEdges(inputs, applied + {s}, applied);
      BeyondEdge(g, s, t);
      assert Linked(inputs, applied, s, t);
    }
  }
}

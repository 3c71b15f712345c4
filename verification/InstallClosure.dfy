/** Which local modules, with which extras, an install request pulls in: the worklist of
    manage.py against the least set of facts closed under the dependency rules. */
module InstallClosure {
  import opened Options
  import opened Sequences

  type Name = string
  type Extra = string

  /** A parsed requirement.  `marker` says under which extra the environment marker
      evaluates to true; None is a requirement without a marker. */
  datatype Requirement = Requirement(name: Name, url: bool, marker: Option<Extra -> bool>, extras: seq<Extra>)

  /** The declarations of one linktools.yml: the dependency lists in force (joined), and
      the optional ones under their names as written. */
  datatype Declared = Declared(dependencies: seq<Requirement>, optional: seq<(Extra, seq<Requirement>)>)

  /** The local modules in their listed order, their declarations and the canonical
      spelling of names. */
  datatype Project = Project(modules: seq<Name>, declared: map<Name, Declared>, canonical: Name -> Name)

  ghost predicate ValidProject(p: Project) {
    forall m :: m in p.modules ==> m in p.declared
  }

  /** The requests on the command line: module and extras. */
  datatype Request = Request(name: Name, extras: seq<Extra>)

  // ----- the rules -----

  datatype Fact = Included(name: Name) | WithExtra(name: Name, extra: Extra)

  /** The module a name stands for: the last listed one that is spelled the same. */
  ghost predicate StandsFor(p: Project, name: Name, m: Name) {
    exists k :: SpelledLastAt(p, name, k) && p.modules[k] == m
  }

  ghost predicate SpelledLastAt(p: Project, name: Name, k: int) {
    && 0 <= k < |p.modules| && p.canonical(p.modules[k]) == p.canonical(name)
    && forall j :: k < j < |p.modules| ==> p.canonical(p.modules[j]) != p.canonical(name)
  }

  /** One of m's optional lists that belongs to the extra holds r; "all" names every list. */
  ghost predicate OptionalOf(p: Project, m: Name, extra: Extra, r: Requirement)
    requires m in p.declared
  {
    exists i :: 0 <= i < |p.declared[m].optional| &&
      r in p.declared[m].optional[i].1 && (extra == "all" || extra == p.canonical(p.declared[m].optional[i].0))
  }

  /** Module m, with the extras it has in s, needs requirement r. */
  ghost predicate Needs(p: Project, s: set<Fact>, m: Name, r: Requirement)
    requires m in p.declared
  {
    || (r in p.declared[m].dependencies && (r.marker.Some? ==>
          r.marker.value("") || exists e :: WithExtra(m, e) in s && r.marker.value(e)))
    || (exists e :: WithExtra(m, e) in s && (r.marker.Some? ==> r.marker.value(e)) && OptionalOf(p, m, e, r))
  }

  /** s holds what requirement r asks of the local module it names, if it names one. */
  ghost predicate Grants(p: Project, s: set<Fact>, r: Requirement) {
    forall m :: !r.url && StandsFor(p, r.name, m) ==>
      Included(m) in s && forall e :: e in r.extras ==> WithExtra(m, p.canonical(e)) in s
  }

  ghost predicate ClosedAt(p: Project, s: set<Fact>, m: Name)
    requires m in p.declared
  {
    forall r :: Needs(p, s, m, r) ==> Grants(p, s, r)
  }

  ghost predicate Closed(p: Project, s: set<Fact>) {
    forall m :: m in p.declared && Included(m) in s ==> ClosedAt(p, s, m)
  }

  ghost predicate GrantsRequest(p: Project, s: set<Fact>, q: Request) {
    Included(q.name) in s && forall e :: e in q.extras ==> WithExtra(q.name, p.canonical(e)) in s
  }

  ghost predicate Holds(p: Project, s: set<Fact>, requests: seq<Request>) {
    forall i :: 0 <= i < |requests| ==> GrantsRequest(p, s, requests[i])
  }

  /** The least set of facts that holds the requests and is closed under the rules. */
  ghost predicate IsLeastClosure(p: Project, requests: seq<Request>, s: set<Fact>) {
    && Holds(p, s, requests) && Closed(p, s)
    && forall t: set<Fact> :: Holds(p, t, requests) && Closed(p, t) ==> s <= t
  }

  // ----- what the code looks up -----

  /** `local_names`: the last module of a canonical name. */
  function LocalName(p: Project, modules: seq<Name>, canonical: Name): Option<Name> {
    if modules == [] then None
    else if p.canonical(modules[|modules| - 1]) == canonical then Some(modules[|modules| - 1])
    else LocalName(p, modules[..|modules| - 1], canonical)
  }

  lemma {:induction false} LocalNameIsModule(p: Project, modules: seq<Name>, canonical: Name)
    ensures LocalName(p, modules, canonical).Some? ==> LocalName(p, modules, canonical).value in modules
  {
    if modules != [] && p.canonical(modules[|modules| - 1]) != canonical {
      LocalNameIsModule(p, modules[..|modules| - 1], canonical);
    }
  }

  /** The local module a requirement is resolved to. */
  function Target(p: Project, r: Requirement): Option<Name> {
    if r.url then None else LocalName(p, p.modules, p.canonical(r.name))
  }

  predicate MarkerHolds(r: Requirement, extra: Extra) {
    r.marker.None? || r.marker.value(extra)
  }

  /** The optional list i belongs to an extra; "all" names every list. */
  predicate Selects(p: Project, extra: Extra, key: Extra) {
    extra == "all" || p.canonical(key) == extra
  }

  lemma {:induction false} LocalNameIsLast(p: Project, modules: seq<Name>, name: Name)
    ensures var r := LocalName(p, modules, p.canonical(name)); match r
      case None => forall k :: 0 <= k < |modules| ==> p.canonical(modules[k]) != p.canonical(name)
      case Some(m) => exists k :: 0 <= k < |modules| && modules[k] == m && p.canonical(m) == p.canonical(name)
                                  && forall j :: k < j < |modules| ==> p.canonical(modules[j]) != p.canonical(name)
  {
    if modules != [] && p.canonical(modules[|modules| - 1]) != p.canonical(name) {
      LocalNameIsLast(p, modules[..|modules| - 1], name);
    }
  }

  /** The lookup finds what the requirement stands for. */
  lemma TargetIsNamed(p: Project, r: Requirement)
    ensures forall m :: Target(p, r) == Some(m) <==> !r.url && StandsFor(p, r.name, m)
  {
    LocalNameIsLast(p, p.modules, r.name);
    if Target(p, r).Some? {
      var k :| 0 <= k < |p.modules| && p.modules[k] == Target(p, r).value && p.canonical(p.modules[k]) == p.canonical(r.name)
        && forall j :: k < j < |p.modules| ==> p.canonical(p.modules[j]) != p.canonical(r.name);
      assert SpelledLastAt(p, r.name, k);
    }
    assert forall j, k :: SpelledLastAt(p, r.name, j) && SpelledLastAt(p, r.name, k) ==> j == k;
  }

  /** The closure does not depend on the order in which the requests are given. */
  lemma ClosureIgnoresOrder(p: Project, a: seq<Request>, b: seq<Request>, s: set<Fact>, t: set<Fact>)
    requires forall q :: q in a <==> q in b
    requires IsLeastClosure(p, a, s) && IsLeastClosure(p, b, t)
    ensures s == t
  {
    SameRequestsHold(p, a, b, s);
    SameRequestsHold(p, b, a, t);
  }

  lemma SameRequestsHold(p: Project, a: seq<Request>, b: seq<Request>, s: set<Fact>)
    requires forall q :: q in b ==> q in a
    requires Holds(p, s, a)
    ensures Holds(p, s, b)
  {
    forall i | 0 <= i < |b| ensures GrantsRequest(p, s, b[i]) {
      assert b[i] in a;
    }
  }

  // ----- the worklist -----

  /** The extras recorded so far, as facts. */
  ghost function Facts(extrasBy: map<Name, seq<Extra>>): set<Fact> {
    (set m | m in extrasBy :: Included(m)) + (set m, e | m in extrasBy && e in extrasBy[m] :: WithExtra(m, e))
  }

  /** Everything that could ever be recorded. */
  ghost function Universe(p: Project, requests: seq<Request>): set<Fact> {
    (set m | m in p.modules :: Included(m)) +
    (set m, q, e | m in p.modules && q in requests && e in q.extras :: WithExtra(m, p.canonical(e))) +
    (set m, n, r, e | m in p.modules && n in p.declared && r in p.declared[n].dependencies && e in r.extras
       :: WithExtra(m, p.canonical(e))) +
    (set m, n, i, r, e | m in p.modules && n in p.declared && 0 <= i < |p.declared[n].optional| &&
       r in p.declared[n].optional[i].1 && e in r.extras :: WithExtra(m, p.canonical(e)))
  }

  /** No fact is one that some closed set holding the requests could do without. */
  ghost predicate Sound(p: Project, requests: seq<Request>, s: set<Fact>) {
    forall t: set<Fact> :: Holds(p, t, requests) && Closed(p, t) ==> s <= t
  }

  /** What `include` adds. */
  ghost function Added(p: Project, name: Name, extras: seq<Extra>): set<Fact> {
    {Included(name)} + set e | e in extras :: WithExtra(name, p.canonical(e))
  }

  lemma NeedsGrowWithFacts(p: Project, s: set<Fact>, t: set<Fact>, m: Name, r: Requirement)
    requires m in p.declared && s <= t && Needs(p, s, m, r)
    ensures Needs(p, t, m, r)
  {
  }

  /** Only m's own extras decide what m needs. */
  lemma NeedsDependOnOwnExtras(p: Project, s: set<Fact>, t: set<Fact>, m: Name, r: Requirement)
    requires m in p.declared && forall e :: WithExtra(m, e) in s <==> WithExtra(m, e) in t
    ensures Needs(p, s, m, r) <==> Needs(p, t, m, r)
  {
  }

  /** A module keeps its closedness while others gain facts. */
  lemma ClosedAtSurvives(p: Project, s: set<Fact>, t: set<Fact>, m: Name)
    requires m in p.declared && ClosedAt(p, s, m) && s <= t
    requires forall e :: WithExtra(m, e) in s <==> WithExtra(m, e) in t
    ensures ClosedAt(p, t, m)
  {
    forall r | Needs(p, t, m, r) ensures Grants(p, t, r) {
      NeedsDependOnOwnExtras(p, s, t, m, r);
    }
  }

  /** Following a need keeps soundness. */
  lemma GrantingIsSound(p: Project, requests: seq<Request>, s: set<Fact>, now: set<Fact>, m: Name, r: Requirement)
    requires m in p.declared && Included(m) in s && s <= now && Sound(p, requests, now)
    requires Needs(p, s, m, r) && Target(p, r).Some?
    ensures Sound(p, requests, now + Added(p, Target(p, r).value, r.extras))
  {
    forall t: set<Fact> | Holds(p, t, requests) && Closed(p, t)
      ensures now + Added(p, Target(p, r).value, r.extras) <= t
    {
      NeedsGrowWithFacts(p, s, t, m, r);
      assert ClosedAt(p, t, m);
      assert Grants(p, t, r);
      TargetIsNamed(p, r);
    }
  }

  lemma RequestingIsSound(p: Project, requests: seq<Request>, now: set<Fact>, q: Request)
    requires q in requests && Sound(p, requests, now)
    ensures Sound(p, requests, now + Added(p, q.name, q.extras))
  {
    forall t: set<Fact> | Holds(p, t, requests) && Closed(p, t) ensures now + Added(p, q.name, q.extras) <= t {
      var i :| 0 <= i < |requests| && requests[i] == q;
      assert GrantsRequest(p, t, requests[i]);
    }
  }

  lemma AddedInUniverse(p: Project, requests: seq<Request>, s: set<Fact>, m: Name, r: Requirement)
    requires m in p.declared && Needs(p, s, m, r) && Target(p, r).Some?
    ensures Added(p, Target(p, r).value, r.extras) <= Universe(p, requests)
  {
    LocalNameIsModule(p, p.modules, p.canonical(r.name));
    if r !in p.declared[m].dependencies {
      var e :| WithExtra(m, e) in s && OptionalOf(p, m, e, r);
      var i :| 0 <= i < |p.declared[m].optional| && r in p.declared[m].optional[i].1;
    }
  }

  /** The optional lists an extra selects, joined. */
  function Selected(p: Project, optional: seq<(Extra, seq<Requirement>)>, extra: Extra): (r: seq<Requirement>)
    ensures forall q :: q in r <==> exists i :: 0 <= i < |optional| && Selects(p, extra, optional[i].0) && q in optional[i].1
  {
    if optional == [] then []
    else (if Selects(p, extra, optional[0].0) then optional[0].1 else []) + Selected(p, optional[1..], extra)
  }

  /** A declaration with the extras under which its marker may hold. */
  datatype Declaration = Declaration(requirement: Requirement, contexts: seq<Extra>)

  predicate Active(d: Declaration) {
    exists i :: 0 <= i < |d.contexts| && MarkerHolds(d.requirement, d.contexts[i])
  }

  /** The declarations looked at for a module with the given extras. */
  function Declarations(p: Project, m: Name, extras: seq<Extra>): seq<Declaration>
    requires m in p.declared
  {
    var own := p.declared[m].dependencies;
    seq(|own|, i requires 0 <= i < |own| => Declaration(own[i], [""] + extras))
      + OptionalDeclarations(p, p.declared[m].optional, extras)
  }

  function OptionalDeclarations(p: Project, optional: seq<(Extra, seq<Requirement>)>, extras: seq<Extra>): seq<Declaration> {
    if extras == [] then []
    else
      var values := Selected(p, optional, extras[0]);
      seq(|values|, i requires 0 <= i < |values| => Declaration(values[i], [extras[0]]))
        + OptionalDeclarations(p, optional, extras[1..])
  }

  lemma {:induction false} OptionalDeclarationsMembers(p: Project, optional: seq<(Extra, seq<Requirement>)>, extras: seq<Extra>, d: Declaration)
    ensures d in OptionalDeclarations(p, optional, extras) <==>
      exists e :: e in extras && d.contexts == [e] && d.requirement in Selected(p, optional, e)
  {
    if extras != [] {
      OptionalDeclarationsMembers(p, optional, extras[1..], d);
      var values := Selected(p, optional, extras[0]);
      var here := seq(|values|, i requires 0 <= i < |values| => Declaration(values[i], [extras[0]]));
      assert d in here <==> d.contexts == [extras[0]] && d.requirement in values by {
        if d.contexts == [extras[0]] && d.requirement in values {
          var i :| 0 <= i < |values| && values[i] == d.requirement;
          assert here[i] == d;
        }
      }
      assert forall e :: e in extras <==> e == extras[0] || e in extras[1..];
    }
  }

  /** The active declarations are exactly what the module needs. */
  lemma DeclarationsAreNeeds(p: Project, s: set<Fact>, m: Name, extras: seq<Extra>, r: Requirement)
    requires m in p.declared && forall e :: WithExtra(m, e) in s <==> e in extras
    ensures Needs(p, s, m, r) <==> exists d :: d in Declarations(p, m, extras) && Active(d) && d.requirement == r
  {
    var own := p.declared[m].dependencies;
    var ds := Declarations(p, m, extras);
    var first := seq(|own|, i requires 0 <= i < |own| => Declaration(own[i], [""] + extras));
    var contexts := [""] + extras;
    assert forall e :: e in contexts <==> e == "" || e in extras;
    if Needs(p, s, m, r) {
      if r in own && (MarkerHolds(r, "") || exists e :: WithExtra(m, e) in s && MarkerHolds(r, e)) {
        var d := Declaration(r, contexts);
        var i :| 0 <= i < |own| && own[i] == r;
        assert first[i] == d && d in ds;
        var e :| e in contexts && MarkerHolds(r, e);
        var j :| 0 <= j < |contexts| && contexts[j] == e;
        assert Active(d);
      } else {
        var e :| WithExtra(m, e) in s && MarkerHolds(r, e) && OptionalOf(p, m, e, r);
        var d := Declaration(r, [e]);
        OptionalDeclarationsMembers(p, p.declared[m].optional, extras, d);
        assert d.contexts[0] == e && Active(d);
        assert d in ds;
      }
    }
    if d :| d in ds && Active(d) && d.requirement == r {
      var j :| 0 <= j < |d.contexts| && MarkerHolds(r, d.contexts[j]);
      if d in first {
        assert d.contexts[j] in contexts;
      } else {
        OptionalDeclarationsMembers(p, p.declared[m].optional, extras, d);
        var e :| e in extras && d.contexts == [e] && r in Selected(p, p.declared[m].optional, e);
        assert OptionalOf(p, m, e, r);
      }
    }
  }

  // ----- the order of the result -----

  function WithName(order: seq<Name>, name: Name): seq<Name> {
    if name in order then order else order + [name]
  }

  /** The requested modules as they first come. */
  ghost function FirstNames(requests: seq<Request>): seq<Name> {
    if requests == [] then [] else WithName(FirstNames(requests[..|requests| - 1]), requests[|requests| - 1].name)
  }

  ghost predicate NeededBefore(p: Project, order: seq<Name>, k: nat, s: set<Fact>)
    requires k < |order|
  {
    exists j, r :: 0 <= j < k && order[j] in p.declared && Needs(p, s, order[j], r) && Target(p, r) == Some(order[k])
  }

  /** From a place on, every module is needed by one listed before it. */
  ghost predicate OrderedByNeed(p: Project, order: seq<Name>, first: nat, s: set<Fact>) {
    forall k :: first <= k < |order| ==> NeededBefore(p, order, k, s)
  }

  lemma NewNameIsNeeded(p: Project, order: seq<Name>, more: seq<Name>, first: nat, s: set<Fact>, t: set<Fact>, name: Name, r: Requirement)
    requires OrderedByNeed(p, order, first, s) && s <= t && name in order && name in p.declared && Needs(p, s, name, r)
    requires Target(p, r).Some? && more == WithName(order, Target(p, r).value)
    ensures order <= more && OrderedByNeed(p, more, first, t)
  {
    hide Needs, Target;
    forall k | first <= k < |more|
      ensures NeededBefore(p, more, k, t)
    {
      if k < |order| {
        assert NeededBefore(p, order, k, s);
        var j, q :| 0 <= j < k && order[j] in p.declared && Needs(p, s, order[j], q) && Target(p, q) == Some(order[k]);
        NeedsGrowWithFacts(p, s, t, order[j], q);
        assert more[j] == order[j] && more[k] == order[k];
      } else {
        var j :| 0 <= j < |order| && order[j] == name;
        NeedsGrowWithFacts(p, s, t, name, r);
        assert more[j] == name && more[k] == Target(p, r).value;
      }
    }
  }

  // ----- the loop over the pending modules -----

  class Worklist {
    const p: Project
    var order: seq<Name>
    var extrasBy: map<Name, seq<Extra>>
    var pending: seq<Name>

    constructor (p: Project)
      ensures this.p == p && order == [] && extrasBy == map[] && pending == []
    {
      this.p := p;
      order, extrasBy, pending := [], map[], [];
    }

    /** `order` lists the included modules once; queued modules are included. */
    ghost predicate Consistent()
      reads this
    {
      && Distinct(order) && (forall m :: m in order <==> m in extrasBy)
      && (forall m :: m in extrasBy ==> Distinct(extrasBy[m]))
      && (forall m :: m in pending ==> m in extrasBy)
    }

    method IncludeModule(name: Name)
      requires Consistent()
      modifies `order, `extrasBy, `pending
      ensures Consistent() && name in extrasBy && Grew(old(extrasBy), old(pending), extrasBy, pending, name)
      ensures Facts(extrasBy) == Facts(old(extrasBy)) + {Included(name)}
      ensures order == WithName(old(order), name)
    {
      if name !in extrasBy {
        order := order + [name];
        extrasBy := extrasBy[name := []];
        pending := pending + [name];
        assert Included(name) !in Facts(old(extrasBy)) && Included(name) in Facts(extrasBy);
      }
    }

    method IncludeExtra(name: Name, extra: Extra)
      requires Consistent() && name in extrasBy
      modifies `extrasBy, `pending
      ensures Consistent() && name in extrasBy && Grew(old(extrasBy), old(pending), extrasBy, pending, name)
      ensures Facts(extrasBy) == Facts(old(extrasBy)) + {WithExtra(name, extra)}
    {
      if extra !in extrasBy[name] {
        FactsOfExtra(extrasBy, name, extra);
        extrasBy := extrasBy[name := extrasBy[name] + [extra]];
        if name !in pending {
          pending := pending + [name];
        }
      }
    }

    /** `include`: record a module and its extras; queue it when either is new. */
    method Include(name: Name, extras: seq<Extra>)
      requires Consistent()
      modifies `order, `extrasBy, `pending
      ensures Consistent() && name in extrasBy && Grew(old(extrasBy), old(pending), extrasBy, pending, name)
      ensures Facts(extrasBy) == Facts(old(extrasBy)) + Added(p, name, extras)
      ensures order == WithName(old(order), name)
    {
      hide Facts, Added, Grew, Consistent, WithName;
      IncludeModule(name);
      AddedNone(p, name, extras);
      for i := 0 to |extras|
        invariant Consistent() && name in extrasBy && Grew(old(extrasBy), old(pending), extrasBy, pending, name)
        invariant Facts(extrasBy) == Facts(old(extrasBy)) + Added(p, name, extras[..i])
        invariant order == WithName(old(order), name)
      {
        ghost var was, queued := extrasBy, pending;
        AddedNext(p, name, extras, i);
        IncludeExtra(name, p.canonical(extras[i]));
        GrewTwice(old(extrasBy), old(pending), was, queued, extrasBy, pending, name);
      }
      assert extras[..|extras|] == extras;
    }

    /** The result loop. */
    method Lines() returns (lines: seq<Line>)
      requires Consistent()
      ensures |lines| == |order| && forall i :: 0 <= i < |lines| ==> lines[i] == Line(order[i], extrasBy[order[i]])
    {
      lines := [];
      for i := 0 to |order|
        invariant |lines| == i && forall j :: 0 <= j < i ==> lines[j] == Line(order[j], extrasBy[order[j]])
      {
        lines := lines + [Line(order[i], extrasBy[order[i]])];
      }
    }

    ghost predicate Ready(requests: seq<Request>)
      reads this
    {
      && ValidProject(p) && Consistent()
      && (forall m :: m in extrasBy ==> m in p.modules)
      && Facts(extrasBy) <= Universe(p, requests)
      && Sound(p, requests, Facts(extrasBy))
    }

    /** A request from the command line. */
    method Request(requests: seq<Request>, i: nat)
      requires i < |requests| && requests[i].name in p.modules
      requires Ready(requests) && SettledClosed(p, extrasBy, pending)
      requires Holds(p, Facts(extrasBy), requests[..i])
      modifies `order, `extrasBy, `pending
      ensures Ready(requests) && SettledClosed(p, extrasBy, pending)
      ensures Holds(p, Facts(extrasBy), requests[..i + 1])
      ensures order == WithName(old(order), requests[i].name)
    {
      hide Facts, SettledClosed, Universe, Sound, Consistent, Added, Holds, WithName;
      var q := requests[i];
      ghost var was, queued := extrasBy, pending;
      RequestingIsSound(p, requests, Facts(was), q);
      RequestInUniverse(p, requests, q);
      Include(q.name, q.extras);
      HoldsPrefix(p, Facts(was), Facts(extrasBy), requests, i);
      MoreQueuedStillClosed(p, was, queued, q.name);
      SettledStayClosed(p, was, queued, extrasBy, pending, q.name);
      RequestedIsQueued(p, was, queued, extrasBy, pending, q.name);
    }

    /** All of them, up to the first unknown name. */
    method RequestAll(requests: seq<Request>) returns (unknown: Option<Name>)
      requires Ready(requests) && SettledClosed(p, extrasBy, pending) && order == []
      modifies `order, `extrasBy, `pending
      ensures unknown.None? ==>
        && AllKnown(p, requests)
        && Ready(requests) && SettledClosed(p, extrasBy, pending) && Holds(p, Facts(extrasBy), requests)
        && order == FirstNames(requests)
      ensures unknown.Some? ==> unknown.value !in p.modules && exists q :: q in requests && q.name == unknown.value
    {
      hide Facts, Universe, Sound, SettledClosed, WithName, Distinct;
      for i := 0 to |requests|
        invariant AllKnown(p, requests[..i])
        invariant Ready(requests) && SettledClosed(p, extrasBy, pending)
        invariant Holds(p, Facts(extrasBy), requests[..i])
        invariant order == FirstNames(requests[..i])
      {
        assert requests[..i + 1][..i] == requests[..i];
        if requests[i].name !in p.modules {
          return Some(requests[i].name);
        }
        Request(requests, i);
      }
      assert requests[..|requests|] == requests;
      unknown := None;
    }

    /** The `while pending` loop. */
    method Drain(ghost requests: seq<Request>, ghost first: nat)
      requires Ready(requests) && SettledClosed(p, extrasBy, pending) && Holds(p, Facts(extrasBy), requests)
      requires first <= |order| && OrderedByNeed(p, order, first, Facts(extrasBy))
      modifies `order, `extrasBy, `pending
      ensures Ready(requests) && IsLeastClosure(p, requests, Facts(extrasBy))
      ensures old(order) <= order && OrderedByNeed(p, order, first, Facts(extrasBy))
    {
      hide Facts, SettledClosed, Universe, Sound, Holds, OrderedByNeed;
      while pending != []
        invariant old(order) <= order && OrderedByNeed(p, order, first, Facts(extrasBy))
        invariant Ready(requests) && SettledClosed(p, extrasBy, pending) && Holds(p, Facts(extrasBy), requests)
        decreases Universe(p, requests) - Facts(extrasBy), |pending|
      {
        var name := pending[0];
        ghost var was := extrasBy;
        assert name in pending;
        assert pending == [name] + pending[1..];
        RotatedQueue(p, extrasBy, name, pending[1..]);
        pending := pending[1..];
        Visit(name, requests, first);
        HoldsInLarger(p, Facts(was), Facts(extrasBy), requests);
        assert Facts(extrasBy) != Facts(was) ==> Universe(p, requests) - Facts(extrasBy) < Universe(p, requests) - Facts(was);
      }
      EmptyQueueIsLeastClosure(p, requests, extrasBy);
    }

    /** One declaration of a module's turn that began with the inclusions `start`. */
    method Follow(name: Name, ds: seq<Declaration>, i: nat, ghost start: map<Name, seq<Extra>>,
                  ghost requests: seq<Request>, ghost first: nat)
      requires Ready(requests) && name in extrasBy && SettledClosed(p, extrasBy, pending + [name])
      requires name in start && Facts(start) <= Facts(extrasBy) && i < |ds| && ds == Declarations(p, name, start[name])
      requires name in pending || extrasBy[name] == start[name]
      requires first <= |order| && OrderedByNeed(p, order, first, Facts(extrasBy))
      modifies `order, `extrasBy, `pending
      ensures old(order) <= order && OrderedByNeed(p, order, first, Facts(extrasBy))
      ensures Ready(requests) && name in extrasBy && SettledClosed(p, extrasBy, pending + [name])
      ensures name in pending || extrasBy[name] == start[name]
      ensures Facts(old(extrasBy)) <= Facts(extrasBy)
      ensures Facts(extrasBy) == Facts(old(extrasBy)) ==> pending == old(pending)
      ensures Active(ds[i]) ==> Grants(p, Facts(extrasBy), ds[i].requirement)
    {
      hide Facts, SettledClosed, Grants, Universe, Sound, Added, Declarations, Active, Target, OrderedByNeed, Needs, WithName;
      var r := ds[i].requirement;
      var target := Target(p, r);
      NoTargetGrants(p, Facts(extrasBy), r);
      if target.Some? && Active(ds[i]) {
        ghost var was, queued := extrasBy, pending;
        ActiveIsNeeded(p, requests, start, was, name, ds, i);
        ghost var listed := order;
        Include(target.value, r.extras);
        NewNameIsNeeded(p, listed, order, first, Facts(was), Facts(extrasBy), name, r);
        AddedGrants(p, Facts(was), r);
        SettledStayClosed(p, was, queued, extrasBy, pending, name);
      }
    }

    /** One turn of the worklist: everything the module needs, given its present extras,
        is included. */
    method Visit(name: Name, ghost requests: seq<Request>, ghost first: nat)
      requires Ready(requests) && name in extrasBy && SettledClosed(p, extrasBy, pending + [name])
      requires first <= |order| && OrderedByNeed(p, order, first, Facts(extrasBy))
      modifies `order, `extrasBy, `pending
      ensures old(order) <= order && OrderedByNeed(p, order, first, Facts(extrasBy))
      ensures Ready(requests) && SettledClosed(p, extrasBy, pending)
      ensures Facts(old(extrasBy)) <= Facts(extrasBy)
      ensures Facts(extrasBy) == Facts(old(extrasBy)) ==> pending == old(pending)
    {
      hide Facts, SettledClosed, Grants, Universe, Sound, Consistent, Active, Declarations, OrderedByNeed;
      var ds := Declarations(p, name, extrasBy[name]);
      for i := 0 to |ds|
        invariant Ready(requests) && name in extrasBy && SettledClosed(p, extrasBy, pending + [name])
        invariant old(order) <= order && OrderedByNeed(p, order, first, Facts(extrasBy))
        invariant Facts(old(extrasBy)) <= Facts(extrasBy)
        invariant Facts(extrasBy) == Facts(old(extrasBy)) ==> pending == old(pending)
        invariant name in pending || extrasBy[name] == old(extrasBy)[name]
        invariant forall j :: 0 <= j < i && Active(ds[j]) ==> Grants(p, Facts(extrasBy), ds[j].requirement)
      {
        ghost var was := Facts(extrasBy);
        Follow(name, ds, i, old(extrasBy), requests, first);
        GrantsSurvive(p, was, Facts(extrasBy), ds, i);
      }
      VisitedIsClosed(p, extrasBy, pending, name, old(extrasBy)[name], ds);
    }
  }

  /** Every included module that is not queued has its needs met. */
  ghost predicate SettledClosed(p: Project, extrasBy: map<Name, seq<Extra>>, pending: seq<Name>) {
    forall m :: m in extrasBy && m !in pending && m in p.declared ==> ClosedAt(p, Facts(extrasBy), m)
  }

  lemma ExtrasAsFacts(extrasBy: map<Name, seq<Extra>>, m: Name)
    requires m in extrasBy
    ensures forall e :: WithExtra(m, e) in Facts(extrasBy) <==> e in extrasBy[m]
    ensures Included(m) in Facts(extrasBy)
  {
  }

  lemma ActiveIsNeeded(p: Project, requests: seq<Request>, start: map<Name, seq<Extra>>, now: map<Name, seq<Extra>>,
                       name: Name, ds: seq<Declaration>, i: nat)
    requires name in start && name in p.declared && Facts(start) <= Facts(now) && Sound(p, requests, Facts(now))
    requires ds == Declarations(p, name, start[name]) && i < |ds| && Active(ds[i]) && Target(p, ds[i].requirement).Some?
    ensures var t := Added(p, Target(p, ds[i].requirement).value, ds[i].requirement.extras);
      t <= Universe(p, requests) && Sound(p, requests, Facts(now) + t)
    ensures Target(p, ds[i].requirement).value in p.modules
    ensures Needs(p, Facts(now), name, ds[i].requirement)
  {
    var r := ds[i].requirement;
    ExtrasAsFacts(start, name);
    DeclarationsAreNeeds(p, Facts(start), name, start[name], r);
    assert ds[i] in ds;
    GrantingIsSound(p, requests, Facts(start), Facts(now), name, r);
    NeedsGrowWithFacts(p, Facts(start), Facts(now), name, r);
    AddedInUniverse(p, requests, Facts(start), name, r);
    LocalNameIsModule(p, p.modules, p.canonical(r.name));
  }

  lemma AddedGrants(p: Project, s: set<Fact>, r: Requirement)
    requires Target(p, r).Some?
    ensures Grants(p, s + Added(p, Target(p, r).value, r.extras), r)
  {
    TargetIsNamed(p, r);
  }

  lemma NoTargetGrants(p: Project, s: set<Fact>, r: Requirement)
    ensures Target(p, r).None? ==> Grants(p, s, r)
  {
    TargetIsNamed(p, r);
  }

  lemma GrantsSurvive(p: Project, s: set<Fact>, t: set<Fact>, ds: seq<Declaration>, n: nat)
    requires s <= t && n <= |ds|
    requires forall j :: 0 <= j < n && Active(ds[j]) ==> Grants(p, s, ds[j].requirement)
    ensures forall j :: 0 <= j < n && Active(ds[j]) ==> Grants(p, t, ds[j].requirement)
  {
  }

  lemma SettledStayClosed(p: Project, was: map<Name, seq<Extra>>, queued: seq<Name>,
                          now: map<Name, seq<Extra>>, pending: seq<Name>, name: Name)
    requires SettledClosed(p, was, queued + [name]) && Facts(was) <= Facts(now)
    requires forall m :: m in now && m !in pending ==> m in was && m !in queued && now[m] == was[m]
    ensures SettledClosed(p, now, pending + [name])
  {
    forall m | m in now && m !in pending + [name] && m in p.declared ensures ClosedAt(p, Facts(now), m) {
      assert m !in queued + [name];
      ExtrasAsFacts(was, m);
      ExtrasAsFacts(now, m);
      ClosedAtSurvives(p, Facts(was), Facts(now), m);
    }
  }

  lemma MoreQueuedStillClosed(p: Project, extrasBy: map<Name, seq<Extra>>, queued: seq<Name>, name: Name)
    requires SettledClosed(p, extrasBy, queued)
    ensures SettledClosed(p, extrasBy, queued + [name])
  {
  }

  lemma RotatedQueue(p: Project, extrasBy: map<Name, seq<Extra>>, name: Name, rest: seq<Name>)
    requires SettledClosed(p, extrasBy, [name] + rest)
    ensures SettledClosed(p, extrasBy, rest + [name])
  {
    assert forall m :: m in [name] + rest <==> m in rest + [name];
  }

  lemma RequestedIsQueued(p: Project, was: map<Name, seq<Extra>>, queued: seq<Name>,
                          now: map<Name, seq<Extra>>, pending: seq<Name>, name: Name)
    requires SettledClosed(p, was, queued) && SettledClosed(p, now, pending + [name])
    requires Grew(was, queued, now, pending, name)
    ensures SettledClosed(p, now, pending)
  {
    forall m | m in now && m !in pending && m in p.declared ensures ClosedAt(p, Facts(now), m) {
      ExtrasAsFacts(was, m);
      ExtrasAsFacts(now, m);
      ClosedAtSurvives(p, Facts(was), Facts(now), m);
    }
  }

  /** After its turn the module is queued again or has its needs met. */
  lemma VisitedIsClosed(p: Project, extrasBy: map<Name, seq<Extra>>, pending: seq<Name>, name: Name,
                        extras: seq<Extra>, ds: seq<Declaration>)
    requires name in extrasBy && name in p.declared && SettledClosed(p, extrasBy, pending + [name])
    requires name in pending || extrasBy[name] == extras
    requires ds == Declarations(p, name, extras)
    requires forall j :: 0 <= j < |ds| && Active(ds[j]) ==> Grants(p, Facts(extrasBy), ds[j].requirement)
    ensures SettledClosed(p, extrasBy, pending)
  {
    if name !in pending {
      ExtrasAsFacts(extrasBy, name);
      forall r | Needs(p, Facts(extrasBy), name, r) ensures Grants(p, Facts(extrasBy), r) {
        DeclarationsAreNeeds(p, Facts(extrasBy), name, extras, r);
        var d :| d in ds && Active(d) && d.requirement == r;
        var j :| 0 <= j < |ds| && ds[j] == d;
      }
    }
    forall m | m in extrasBy && m !in pending && m in p.declared ensures ClosedAt(p, Facts(extrasBy), m) {
      assert m == name || m !in pending + [name];
    }
  }

  /** What one inclusion of a module or extra does, beyond the facts it adds: only `name`
      changes, and whatever is not queued afterwards is as it was and was not queued. */
  ghost predicate Grew(was: map<Name, seq<Extra>>, queued: seq<Name>, now: map<Name, seq<Extra>>, pending: seq<Name>, name: Name) {
    && now.Keys == was.Keys + {name} && Facts(was) <= Facts(now)
    && (forall m :: m in now && m != name ==> now[m] == was[m])
    && (forall m :: m in queued ==> m in pending)
    && (forall m :: m in now && m !in pending ==> m in was && m !in queued && now[m] == was[m])
    && (Facts(now) == Facts(was) ==> pending == queued)
  }

  lemma GrewTwice(a: map<Name, seq<Extra>>, qa: seq<Name>, b: map<Name, seq<Extra>>, qb: seq<Name>,
                  c: map<Name, seq<Extra>>, qc: seq<Name>, name: Name)
    requires Grew(a, qa, b, qb, name) && Grew(b, qb, c, qc, name)
    ensures Grew(a, qa, c, qc, name)
  {
    hide Facts;
  }

  lemma AddedNone(p: Project, name: Name, extras: seq<Extra>)
    ensures Added(p, name, extras[..0]) == {Included(name)}
  {
  }

  lemma AddedNext(p: Project, name: Name, extras: seq<Extra>, i: nat)
    requires i < |extras|
    ensures Added(p, name, extras[..i + 1]) == Added(p, name, extras[..i]) + {WithExtra(name, p.canonical(extras[i]))}
  {
    assert extras[..i + 1] == extras[..i] + [extras[i]];
  }

  lemma FactsOfExtra(extrasBy: map<Name, seq<Extra>>, name: Name, extra: Extra)
    requires name in extrasBy && extra !in extrasBy[name]
    ensures Facts(extrasBy[name := extrasBy[name] + [extra]]) == Facts(extrasBy) + {WithExtra(name, extra)}
    ensures WithExtra(name, extra) !in Facts(extrasBy)
  {
  }

  lemma RequestInUniverse(p: Project, requests: seq<Request>, q: Request)
    requires q in requests && q.name in p.modules
    ensures Added(p, q.name, q.extras) <= Universe(p, requests)
  {
  }

  lemma HoldsPrefix(p: Project, s: set<Fact>, t: set<Fact>, requests: seq<Request>, i: nat)
    requires i < |requests| && Holds(p, s, requests[..i])
    requires t == s + Added(p, requests[i].name, requests[i].extras)
    ensures Holds(p, t, requests[..i + 1])
  {
    var qs := requests[..i + 1];
    forall j | 0 <= j < |qs| ensures GrantsRequest(p, t, qs[j]) {
      if j < i {
        assert GrantsRequest(p, s, requests[..i][j]);
      }
    }
  }

  lemma HoldsInLarger(p: Project, s: set<Fact>, t: set<Fact>, requests: seq<Request>)
    requires Holds(p, s, requests) && s <= t
    ensures Holds(p, t, requests)
  {
    forall i | 0 <= i < |requests| ensures GrantsRequest(p, t, requests[i]) {
      assert GrantsRequest(p, s, requests[i]);
    }
  }

  /** An empty queue with every request held is the least closure. */
  lemma EmptyQueueIsLeastClosure(p: Project, requests: seq<Request>, extrasBy: map<Name, seq<Extra>>)
    requires Holds(p, Facts(extrasBy), requests) && Sound(p, requests, Facts(extrasBy)) && SettledClosed(p, extrasBy, [])
    ensures IsLeastClosure(p, requests, Facts(extrasBy))
  {
  }

  /** One line of the result: a module with the extras it is to be installed with. */
  datatype Line = Line(name: Name, extras: seq<Extra>)

  ghost function LineFacts(lines: seq<Line>): set<Fact> {
    (set l | l in lines :: Included(l.name)) + (set l, e | l in lines && e in l.extras :: WithExtra(l.name, e))
  }

  lemma LinesAreFacts(order: seq<Name>, extrasBy: map<Name, seq<Extra>>, lines: seq<Line>)
    requires forall m :: m in order <==> m in extrasBy
    requires |lines| == |order| && forall i :: 0 <= i < |lines| ==> lines[i] == Line(order[i], extrasBy[order[i]])
    ensures LineFacts(lines) == Facts(extrasBy)
  {
    forall m | m in extrasBy ensures Line(m, extrasBy[m]) in lines {
      var i :| 0 <= i < |order| && order[i] == m;
      assert lines[i] == Line(m, extrasBy[m]);
    }
    forall l | l in lines ensures l.name in extrasBy && l.extras == extrasBy[l.name] {
      var i :| 0 <= i < |lines| && lines[i] == l;
      assert order[i] in order;
    }
    forall f | f in Facts(extrasBy) ensures f in LineFacts(lines) {
      var l := Line(f.name, extrasBy[f.name]);
      assert l in lines;
    }
  }

  ghost function NamesOf(lines: seq<Line>): seq<Name> {
    seq(|lines|, i requires 0 <= i < |lines| => lines[i].name)
  }

  lemma NothingBehind(p: Project, order: seq<Name>, s: set<Fact>)
    ensures OrderedByNeed(p, order, |order|, s)
  {
  }

  ghost predicate NamesOnce(lines: seq<Line>) {
    forall i, j :: 0 <= i < j < |lines| ==> lines[i].name != lines[j].name
  }

  /** What one line asks for, as its module's declarations read: a plain dependency without a
      marker, or with one that holds for no extra or one of the line's; an entry of an optional
      list that one of the extras names, or of any list for "all", if its marker holds there. */
  ghost predicate Asks(p: Project, l: Line, r: Requirement)
    requires l.name in p.declared
  {
    var d := p.declared[l.name];
    || (r in d.dependencies && (r.marker.None? || r.marker.value("") || exists e :: e in l.extras && r.marker.value(e)))
    || exists i, e :: AsksOptional(p, l, r, i, e)
  }

  ghost predicate AsksOptional(p: Project, l: Line, r: Requirement, i: int, e: Extra)
    requires l.name in p.declared
  {
    var optional := p.declared[l.name].optional;
    && 0 <= i < |optional| && r in optional[i].1 && e in l.extras
    && (e == "all" || e == p.canonical(optional[i].0)) && (r.marker.None? || r.marker.value(e))
  }

  /** A requirement without a URL that names a local module has that module listed, with its extras. */
  ghost predicate Served(p: Project, lines: seq<Line>, r: Requirement) {
    forall k :: !r.url && SpelledLastAt(p, r.name, k) ==>
      exists l :: l in lines && l.name == p.modules[k] && forall e :: e in r.extras ==> p.canonical(e) in l.extras
  }

  ghost predicate EverythingServed(p: Project, lines: seq<Line>) {
    forall l, r :: l in lines && l.name in p.declared && Asks(p, l, r) ==> Served(p, lines, r)
  }

  lemma ClosureServes(p: Project, lines: seq<Line>)
    requires NamesOnce(lines) && Closed(p, LineFacts(lines))
    ensures EverythingServed(p, lines)
  {
    var s := LineFacts(lines);
    forall l, r | l in lines && l.name in p.declared && Asks(p, l, r)
      ensures Served(p, lines, r)
    {
      AskedIsNeeded(p, lines, l, r);
      assert ClosedAt(p, s, l.name);
      forall k | !r.url && SpelledLastAt(p, r.name, k)
        ensures exists t :: t in lines && t.name == p.modules[k] && forall e :: e in r.extras ==> p.canonical(e) in t.extras
      {
        assert StandsFor(p, r.name, p.modules[k]);
        GrantedIsListed(p, lines, p.modules[k], r);
      }
    }
  }

  lemma AskedIsNeeded(p: Project, lines: seq<Line>, l: Line, r: Requirement)
    requires l in lines && l.name in p.declared && Asks(p, l, r)
    ensures Included(l.name) in LineFacts(lines) && Needs(p, LineFacts(lines), l.name, r)
  {
    var s, d := LineFacts(lines), p.declared[l.name];
    assert forall e :: e in l.extras ==> WithExtra(l.name, e) in s;
    if i, e :| AsksOptional(p, l, r, i, e) {
      assert OptionalOf(p, l.name, e, r);
    }
  }

  lemma GrantedIsListed(p: Project, lines: seq<Line>, m: Name, r: Requirement)
    requires NamesOnce(lines) && Included(m) in LineFacts(lines)
    requires forall e :: e in r.extras ==> WithExtra(m, p.canonical(e)) in LineFacts(lines)
    ensures exists l :: l in lines && l.name == m && forall e :: e in r.extras ==> p.canonical(e) in l.extras
  {
    var l :| l in lines && l.name == m;
    forall e | e in r.extras
      ensures p.canonical(e) in l.extras
    {
      var t :| t in lines && t.name == m && p.canonical(e) in t.extras;
      assert t == l;
    }
  }

  predicate AllKnown(p: Project, requests: seq<Request>) {
    forall i :: 0 <= i < |requests| ==> requests[i].name in p.modules
  }

  /** `_install_requirements`: without requests every module as listed; with an unknown
      name an error; otherwise the least closure of the requests, each module once: the
      requested ones as they first come, then each behind a module that needs it. */
  method InstallRequirements(p: Project, requests: seq<Request>) returns (r: Result<seq<Line>, Name>)
    requires ValidProject(p)
    ensures r.Err? <==> !AllKnown(p, requests)
    ensures r.Err? ==> r.error !in p.modules && exists q :: q in requests && q.name == r.error
    ensures requests == [] ==> r.Ok? && |r.value| == |p.modules|
                               && forall i :: 0 <= i < |p.modules| ==> r.value[i] == Line(p.modules[i], [])
    ensures r.Ok? && requests != [] ==> NamesOnce(r.value) && IsLeastClosure(p, requests, LineFacts(r.value))
    ensures r.Ok? && requests != [] ==> EverythingServed(p, r.value)
    ensures r.Ok? && requests != [] ==>
      && FirstNames(requests) <= NamesOf(r.value)
      && OrderedByNeed(p, NamesOf(r.value), |FirstNames(requests)|, LineFacts(r.value))
  {
    if requests == [] {
      return Ok(seq(|p.modules|, i requires 0 <= i < |p.modules| => Line(p.modules[i], [])));
    }
    hide Facts, Universe, Sound, SettledClosed, EverythingServed, LineFacts, OrderedByNeed, WithName, FirstNames, Distinct, Holds;
    var w := new Worklist(p);
    NothingRequested(p);
    var unknown := w.RequestAll(requests);
    if unknown.Some? {
      return Err(unknown.value);
    }
    NothingBehind(p, w.order, Facts(w.extrasBy));
    w.Drain(requests, |w.order|);
    var lines := w.Lines();
    LinesAreFacts(w.order, w.extrasBy, lines);
    NamesAreOrder(w.order, lines);
    ClosureServes(p, lines);
    r := Ok(lines);
  }

  lemma NothingRequested(p: Project)
    ensures Facts(map[]) == {} && SettledClosed(p, map[], []) && Distinct<Name>([])
  {
  }

  lemma NamesAreOrder(order: seq<Name>, lines: seq<Line>)
    requires Distinct(order) && |lines| == |order| && forall i :: 0 <= i < |lines| ==> lines[i].name == order[i]
    ensures NamesOf(lines) == order && NamesOnce(lines)
  {
  }
}

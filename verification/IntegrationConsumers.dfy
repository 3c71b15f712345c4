/** Which running containers must be prepared again when the selected ones change: those that
    consume their integrations now or did when files were last generated, and theirs in turn. */
module IntegrationConsumers {
  import opened Digraphs
  import opened Sequences

  type Container = string

  /** What an index entry of generated files says: for whom, from whose declarations. */
  datatype Generation = Generation(owner: Container, producers: set<Container>)

  /** Current declarations, producer to consumers, together with the recorded ones. */
  function Feeds(recorded: set<Generation>, declared: map<Container, set<Container>>): Graph<Container> {
    map p | p in declared.Keys + (set e, q | e in recorded && q in e.producers :: q) ::
      Succ(declared, p) + set e | e in recorded && p in e.producers :: e.owner
  }

  /** Installed, not selected anyway, and with a service running. */
  predicate Eligible(services: map<Container, set<string>>, targets: set<Container>, running: set<string>, c: Container) {
    c in services && c !in targets && services[c] * running != {}
  }

  /** The feeds that count: to eligible containers only. */
  ghost function LiveFeeds(feeds: Graph<Container>, services: map<Container, set<string>>, targets: set<Container>, running: set<string>): Graph<Container> {
    map p | p in feeds :: set c | c in feeds[p] && Eligible(services, targets, running, c)
  }

  ghost predicate Consumes(live: Graph<Container>, targets: set<Container>, c: Container) {
    exists t :: t in targets && Beyond(live, t, c)
  }

  lemma ConsumesNext(live: Graph<Container>, targets: set<Container>, p: Container, c: Container)
    requires p in targets || Consumes(live, targets, p)
    requires c in Succ(live, p)
    ensures Consumes(live, targets, c)
  {
    if p in targets {
      BeyondEdge(live, p, c);
    } else {
      var t :| t in targets && Beyond(live, t, p);
      BeyondStep(live, t, p, c);
    }
  }

  /** Everything waiting or done is a target or a consumer; nothing done feeds anything else. */
  ghost predicate Progress(live: Graph<Container>, targets: set<Container>, pending: set<Container>, consumers: set<Container>) {
    && pending <= targets + consumers
    && (forall c :: c in consumers ==> Consumes(live, targets, c))
    && (forall p :: p in (targets + consumers) - pending ==> Succ(live, p) <= consumers)
  }

  lemma Followed(live: Graph<Container>, targets: set<Container>, rest: set<Container>, producer: Container, consumers: set<Container>, more: set<Container>)
    requires Progress(live, targets, rest + {producer}, consumers)
    requires more == Succ(live, producer) - consumers
    ensures Progress(live, targets, rest + more, consumers + more)
  {
    hide Consumes, Succ;
    forall c | c in more
      ensures Consumes(live, targets, c)
    {
      ConsumesNext(live, targets, producer, c);
    }
  }

  lemma NothingLeft(live: Graph<Container>, targets: set<Container>, consumers: set<Container>)
    requires forall p :: p in targets + consumers ==> Succ(live, p) <= consumers
    ensures forall c :: Consumes(live, targets, c) ==> c in consumers
  {
    hide Beyond;
    forall c | Consumes(live, targets, c)
      ensures c in consumers
    {
      var t :| t in targets && Beyond(live, t, c);
      FedStays(live, consumers, t, c);
    }
  }

  lemma FedStays(live: Graph<Container>, held: set<Container>, t: Container, c: Container)
    requires ClosedUnder(live, held) && Succ(live, t) <= held && Beyond(live, t, c)
    ensures c in held
  {
  }

  // ----- chains of consumers -----

  /** Declared now, or recorded when files were last generated. */
  ghost predicate IsFed(recorded: set<Generation>, declared: map<Container, set<Container>>, p: Container, c: Container) {
    (p in declared && c in declared[p]) || exists e :: e in recorded && p in e.producers && e.owner == c
  }

  /** Installed, not selected, and one of its services runs. */
  ghost predicate IsInvolved(services: map<Container, set<string>>, targets: seq<Container>, running: set<string>, c: Container) {
    c in services && c !in targets && exists s :: s in services[c] && s in running
  }

  /** From a target each container feeds the next, and every one behind the target is involved. */
  ghost predicate IsChain(recorded: set<Generation>, declared: map<Container, set<Container>>, services: map<Container, set<string>>,
                          targets: seq<Container>, running: set<string>, chain: seq<Container>) {
    && |chain| >= 2 && chain[0] in targets
    && forall i :: 0 <= i < |chain| - 1 ==> IsDrawnIn(recorded, declared, services, targets, running, chain[i], chain[i + 1])
  }

  ghost predicate IsDrawnIn(recorded: set<Generation>, declared: map<Container, set<Container>>, services: map<Container, set<string>>,
                            targets: seq<Container>, running: set<string>, p: Container, c: Container) {
    IsInvolved(services, targets, running, c) && IsFed(recorded, declared, p, c)
  }

  ghost predicate IsConsumer(recorded: set<Generation>, declared: map<Container, set<Container>>, services: map<Container, set<string>>,
                             targets: seq<Container>, running: set<string>, c: Container) {
    exists chain :: IsChain(recorded, declared, services, targets, running, chain) && chain[|chain| - 1] == c
  }

  lemma LiveIsChained(recorded: set<Generation>, declared: map<Container, set<Container>>, services: map<Container, set<string>>,
                      targets: seq<Container>, running: set<string>, p: Container, c: Container)
    ensures c in Succ(LiveFeeds(Feeds(recorded, declared), services, Members(targets), running), p)
      <==> IsDrawnIn(recorded, declared, services, targets, running, p, c)
  {
    var feeds := Feeds(recorded, declared);
    assert c in Succ(feeds, p) <==> IsFed(recorded, declared, p, c);
    LiveTargets(feeds, services, Members(targets), running, p);
    if c in services {
      if s :| s in services[c] && s in running {
        assert s in services[c] * running;
      }
    }
  }

  /** Consuming, by reachability, is standing at the end of such a chain. */
  lemma ConsumerIsChained(recorded: set<Generation>, declared: map<Container, set<Container>>, services: map<Container, set<string>>,
                          targets: seq<Container>, running: set<string>, c: Container)
    ensures Consumes(LiveFeeds(Feeds(recorded, declared), services, Members(targets), running), Members(targets), c)
      <==> IsConsumer(recorded, declared, services, targets, running, c)
  {
    hide Feeds, LiveFeeds, IsDrawnIn, Reaches;
    var live := LiveFeeds(Feeds(recorded, declared), services, Members(targets), running);
    forall a, b
      ensures b in Succ(live, a) <==> IsDrawnIn(recorded, declared, services, targets, running, a, b)
    {
      LiveIsChained(recorded, declared, services, targets, running, a, b);
    }
    if Consumes(live, Members(targets), c) {
      var t :| t in Members(targets) && Beyond(live, t, c);
      var d :| d in Succ(live, t) && Reaches(live, d, c);
      ReachesIsWalk(live, d, c);
      var walk :| WalkBetween(live, walk, d, c);
      var chain := [t] + walk;
      forall i | 0 <= i < |chain| - 1
        ensures chain[i + 1] in Succ(live, chain[i])
      {
        assert i > 0 ==> walk[i - 1 + 1] in Succ(live, walk[i - 1]);
      }
      assert IsChain(recorded, declared, services, targets, running, chain);
    }
    if chain :| IsChain(recorded, declared, services, targets, running, chain) && chain[|chain| - 1] == c {
      var walk := chain[1..];
      forall i | 0 <= i < |walk| - 1
        ensures walk[i + 1] in Succ(live, walk[i])
      {
        assert chain[i + 1 + 1] in Succ(live, chain[i + 1]);
      }
      WalkReaches(live, walk, chain[1], c);
      assert chain[0 + 1] in Succ(live, chain[0]);
      assert Beyond(live, chain[0], c);
    }
  }

  /** `integration_consumers`: exactly the eligible containers fed by a target through eligible
      ones, in project order. */
  method FindConsumers(project: seq<Container>, services: map<Container, set<string>>, targets: seq<Container>, running: set<string>,
                       recorded: set<Generation>, declared: map<Container, set<Container>>)
    returns (found: seq<Container>)
    requires forall c :: c in project <==> c in services
    ensures found == Picked(project, c => IsConsumer(recorded, declared, services, targets, running, c))
  {
    hide Consumes, Feeds, LiveFeeds, IsConsumer;
    var selected := Members(targets);
    var feeds := Feeds(recorded, declared);
    ghost var live := LiveFeeds(feeds, services, selected, running);
    var pending := targets;
    var consumers: set<Container> := {};
    while pending != []
      invariant Progress(live, selected, Members(pending), consumers)
      invariant consumers <= services.Keys
      decreases services.Keys - consumers, |pending|
    {
      var producer, rest := pending[|pending| - 1], pending[..|pending| - 1];
      ghost var before := Members(pending);
      assert pending == rest + [producer];
      assert before == Members(rest) + {producer};
      var more := set c | c in Succ(feeds, producer) && Eligible(services, selected, running, c) && c !in consumers;
      LiveTargets(feeds, services, selected, running, producer);
      assert more == Succ(live, producer) - consumers;
      Followed(live, selected, Members(rest), producer, consumers, more);
      consumers := consumers + more;
      var list := ListOf(more);
      pending := rest + list;
      assert Members(pending) == Members(rest) + more;
      assert more == {} ==> list == [] by {
        assert list != [] ==> list[0] in Members(list);
      }
    }
    assert Members(pending) == {};
    NothingLeft(live, selected, consumers);
    found := [];
    ghost var keep := c => IsConsumer(recorded, declared, services, targets, running, c);
    forall c ensures keep(c) <==> Consumes(live, selected, c) {
      ConsumerIsChained(recorded, declared, services, targets, running, c);
    }
    for i := 0 to |project|
      invariant found == Picked(project[..i], keep)
    {
      assert project[..i + 1][..i] == project[..i];
      if project[i] in consumers {
        found := found + [project[i]];
      }
    }
    assert project[..|project|] == project;
  }

  /** The elements with a property, in order. */
  ghost function Picked(list: seq<Container>, keep: Container -> bool): (r: seq<Container>)
    ensures forall c :: c in r <==> c in list && keep(c)
  {
    if list == [] then []
    else
      var most, last := list[..|list| - 1], list[|list| - 1];
      assert list == most + [last];
      Picked(most, keep) + if keep(last) then [last] else []
  }

  lemma LiveTargets(feeds: Graph<Container>, services: map<Container, set<string>>, targets: set<Container>, running: set<string>, p: Container)
    ensures Succ(LiveFeeds(feeds, services, targets, running), p) == set c | c in Succ(feeds, p) && Eligible(services, targets, running, c)
  {
  }

  /** A consumer is never a target, has something running, and is fed by a target or a consumer. */
  lemma ConsumerIsFed(feeds: Graph<Container>, services: map<Container, set<string>>, targets: set<Container>, running: set<string>, c: Container)
    requires Consumes(LiveFeeds(feeds, services, targets, running), targets, c)
    ensures Eligible(services, targets, running, c)
    ensures exists p :: c in Succ(feeds, p) && (p in targets || Consumes(LiveFeeds(feeds, services, targets, running), targets, p))
  {
    hide Beyond, Eligible;
    var live := LiveFeeds(feeds, services, targets, running);
    var held := set d | d in Nodes(live) && Eligible(services, targets, running, d) && Consumes(live, targets, d)
      && exists p :: p in feeds && d in feeds[p] && (p in targets || Consumes(live, targets, p));
    var t :| t in targets && Beyond(live, t, c);
    forall p, d | (p in held || p in targets) && d in Succ(live, p)
      ensures d in held
    {
      ConsumesNext(live, targets, p, d);
    }
    FedStays(live, held, t, c);
  }
}

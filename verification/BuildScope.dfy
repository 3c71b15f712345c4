/** What a build may pull in: images built from other services of the same project must be
    part of the operation, however many builds away they are. */
module BuildScope {
  import opened Options
  import opened Digraphs
  import opened Sequences

  /** `additional_contexts`: a mapping (a value that is no text is None) or "name=value" lines. */
  datatype Contexts = ByName(values: map<string, Option<string>>) | Lines(lines: seq<string>)

  const SERVICE: string := "service:"

  /** What follows the first "=", if anything does. */
  function AfterEquals(line: string): string {
    if line == "" then "" else if line[0] == '=' then line[1..] else AfterEquals(line[1..])
  }

  function ServiceNamed(value: string): Option<string> {
    if SERVICE <= value then Some(value[|SERVICE|..]) else None
  }

  function Values(contexts: Contexts): set<string> {
    match contexts
    case ByName(values) => set n | n in values && values[n].Some? :: values[n].value
    case Lines(lines) => set line | line in lines :: AfterEquals(line)
  }

  /** The services a build takes images from. */
  function Sources(contexts: Contexts): set<string> {
    set v | v in Values(contexts) && ServiceNamed(v).Some? :: ServiceNamed(v).value
  }

  /** A context that takes the image of service s: a value "service:s", or a line with that
      behind its first "=". */
  ghost predicate TakesFrom(contexts: Contexts, s: string) {
    match contexts
    case ByName(values) => exists n :: n in values && values[n] == Some("service:" + s)
    case Lines(lines) => exists key, line :: line in lines && '=' !in key && line == key + "=service:" + s
  }

  /** What the code collects of a build's contexts. */
  lemma SourcesAreTaken(contexts: Contexts, s: string)
    ensures s in Sources(contexts) <==> TakesFrom(contexts, s)
  {
    var value := "service:" + s;
    assert value[|SERVICE|..] == s;
    forall v
      ensures ServiceNamed(v) == Some(s) <==> v == value
    {
      if SERVICE <= v {
        assert v == SERVICE + v[|SERVICE|..];
      }
    }
    assert s in Sources(contexts) <==> value in Values(contexts);
    if contexts.Lines? {
      forall line
        ensures AfterEquals(line) == value <==> exists key :: '=' !in key && line == key + "=service:" + s
      {
        LineIsSplit(line, value);
        assert forall key: string :: key + "=" + value == key + "=service:" + s;
      }
    }
  }

  /** A non-empty value stands behind the first "=". */
  lemma {:induction false} LineIsSplit(line: string, value: string)
    requires value != ""
    ensures AfterEquals(line) == value <==> exists key :: '=' !in key && line == key + "=" + value
  {
    if line != "" && line[0] == '=' {
      assert line == "" + "=" + line[1..];
      if key :| '=' !in key && line == key + "=" + value {
        LineNamesService(key, value);
      }
    } else if line != "" {
      LineIsSplit(line[1..], value);
      if key :| '=' !in key && line[1..] == key + "=" + value {
        assert line == [line[0]] + key + "=" + value;
        assert '=' !in [line[0]] + key;
      }
      if key :| '=' !in key && line == key + "=" + value {
        LineNamesService(key, value);
      }
    }
  }

  /** Whose image each build needs. */
  function Needs(model: map<string, Contexts>): Graph<string> {
    map s | s in model :: Sources(model[s])
  }

  /** A line names a service exactly when its first "=" is followed by the service prefix. */
  lemma {:induction false} LineNamesService(key: string, value: string)
    requires '=' !in key
    ensures AfterEquals(key + "=" + value) == value
  {
    var line := key + "=" + value;
    if key != "" {
      assert line[1..] == key[1..] + "=" + value;
      LineNamesService(key[1..], value);
    }
  }

  ghost predicate Found(g: Graph<string>, services: set<string>, s: string) {
    exists b :: b in services && Beyond(g, b, s)
  }

  /** Needed by these builds but left out of the operation. */
  ghost predicate LeftOut(model: map<string, Contexts>, services: set<string>, selected: set<string>, s: string) {
    s !in selected && Found(Chosen(model, services, selected), services, s)
  }

  /** Needs of the builds that happen: a service left out is not followed further. */
  function Chosen(model: map<string, Contexts>, services: set<string>, selected: set<string>): Graph<string> {
    map s | s in model && (s in services || s in selected) :: Sources(model[s])
  }

  ghost predicate Progress(g: Graph<string>, services: set<string>, selected: set<string>,
                           pending: set<string>, visited: set<string>, outside: set<string>) {
    && services <= pending + visited <= services + selected
    && outside !! selected
    && (forall s :: s in pending + visited + outside ==> s in services || Found(g, services, s))
    && (forall s :: s in outside ==> Found(g, services, s))
    && (forall s :: s in visited ==> Succ(g, s) <= outside + selected * (pending + visited))
  }

  lemma Followed(g: Graph<string>, services: set<string>, selected: set<string>, service: string,
                 rest: set<string>, visited: set<string>, outside: set<string>)
    requires Progress(g, services, selected, rest + {service}, visited, outside)
    ensures Progress(g, services, selected, rest + Succ(g, service) * selected, visited + {service}, outside + (Succ(g, service) - selected))
  {
    hide Found, Succ;
    forall d | d in Succ(g, service)
      ensures Found(g, services, d)
    {
      FoundNext(g, services, service, d);
    }
  }

  lemma FoundNext(g: Graph<string>, services: set<string>, s: string, d: string)
    requires s in services || Found(g, services, s)
    requires d in Succ(g, s)
    ensures Found(g, services, d)
  {
    if s in services {
      BeyondEdge(g, s, d);
    } else {
      var b :| b in services && Beyond(g, b, s);
      BeyondStep(g, b, s, d);
    }
  }

  /** `_check_build_scope`: refused with exactly the services that are needed and left out. */
  method CheckBuildScope(model: map<string, Contexts>, services: seq<string>, selected: set<string>) returns (r: Result<(), set<string>>)
    requires forall s :: s in services || s in selected ==> s in model
    ensures r.Ok? <==> forall s :: !LeftOut(model, Members(services), selected, s)
    ensures r.Err? ==> forall s :: s in r.error <==> LeftOut(model, Members(services), selected, s)
    ensures r.Ok? ==> forall b, s :: b in services && TakesFrom(model[b], s) ==> s in selected
  {
    hide Found, Sources, LeftOut, TakesFrom;
    ghost var all := Members(services);
    ghost var g := Chosen(model, all, selected);
    var pending := services;
    var visited: set<string> := {};
    var outside: set<string> := {};
    while pending != []
      invariant Progress(g, all, selected, Members(pending), visited, outside)
      decreases all + selected - visited, |pending|
    {
      var service, rest := pending[|pending| - 1], pending[..|pending| - 1];
      ghost var before := Members(pending);
      assert pending == rest + [service];
      assert before == Members(rest) + {service};
      pending := rest;
      if service !in visited {
        ghost var was := visited;
        visited := visited + {service};
        var values := Sources(model[service]);
        assert values == Succ(g, service);
        Followed(g, all, selected, service, Members(rest), was, outside);
        outside := outside + (values - selected);
        var more := ListOf(values * selected);
        pending := pending + more;
        assert Members(pending) == Members(rest) + values * selected;
      }
    }
    assert Members(pending) == {};
    Complete(model, all, selected, visited, outside);
    if outside != {} {
      var s :| s in outside;
      return Err(outside);
    }
    forall b, s | b in services && TakesFrom(model[b], s)
      ensures s in selected
    {
      SourcesAreTaken(model[b], s);
      assert s in Succ(g, b);
      FoundNext(g, all, b, s);
      assert !LeftOut(model, all, selected, s);
      NotLeftOut(model, all, selected, s);
    }
    r := Ok(());
  }

  lemma NotLeftOut(model: map<string, Contexts>, services: set<string>, selected: set<string>, s: string)
    requires !LeftOut(model, services, selected, s) && Found(Chosen(model, services, selected), services, s)
    ensures s in selected
  {
  }

  lemma Complete(model: map<string, Contexts>, services: set<string>, selected: set<string>, visited: set<string>, outside: set<string>)
    requires Progress(Chosen(model, services, selected), services, selected, {}, visited, outside)
    ensures forall s :: s in outside <==> LeftOut(model, services, selected, s)
  {
    hide Beyond;
    var g := Chosen(model, services, selected);
    var held := visited * selected + outside;
    forall s | s in held
      ensures Succ(g, s) <= held
    {
    }
    forall s | LeftOut(model, services, selected, s)
      ensures s in outside
    {
      var b :| b in services && Beyond(g, b, s);
      StaysHeld(g, held, b, s);
    }
  }

  lemma StaysHeld(g: Graph<string>, held: set<string>, b: string, s: string)
    requires ClosedUnder(g, held) && Succ(g, b) <= held && Beyond(g, b, s)
    ensures s in held
  {
  }

  /** Accepted means that every service any of these builds needs, directly or through other
      builds, is selected. */
  lemma AcceptedNeedsNothingElse(model: map<string, Contexts>, services: set<string>, selected: set<string>)
    ensures (forall s :: !LeftOut(model, services, selected, s))
      <==> forall b, s :: b in services && Beyond(Needs(model), b, s) ==> s in selected
  {
    hide Sources;
    var all, part := Needs(model), Chosen(model, services, selected);
    if b, s :| b in services && Beyond(all, b, s) && s !in selected && forall d :: !LeftOut(model, services, selected, d) {
      var held := set d | d in Nodes(part) && d in selected && Found(part, services, d);
      HeldIsClosed(model, services, selected, held);
      StaysHeld(all, held, b, s);
    }
    if s :| LeftOut(model, services, selected, s) {
      var b :| b in services && Beyond(part, b, s);
      var c :| c in Succ(part, b) && Reaches(part, c, s);
      MoreEdgesReachMore(part, all, c, s);
      assert c in Succ(all, b);
    }
  }

  lemma HeldIsClosed(model: map<string, Contexts>, services: set<string>, selected: set<string>, held: set<string>)
    requires forall d :: !LeftOut(model, services, selected, d)
    requires held == set d | d in Nodes(Chosen(model, services, selected)) && d in selected && Found(Chosen(model, services, selected), services, d)
    ensures ClosedUnder(Needs(model), held) && forall b :: b in services ==> Succ(Needs(model), b) <= held
  {
    hide Sources, Found;
    var all, part := Needs(model), Chosen(model, services, selected);
    forall x, d | (x in held || x in services) && d in Succ(all, x)
      ensures d in held
    {
      assert d in Succ(part, x);
      FoundNext(part, services, x, d);
      assert d in Nodes(part);
      assert !LeftOut(model, services, selected, d);
    }
  }
}

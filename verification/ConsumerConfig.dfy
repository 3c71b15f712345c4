/** Extra consumers of generated files: which services read a tree that moved, and the check
    that nothing else about them changed. */
module ConsumerConfig {
  import opened Options
  import opened Paths
  import opened GeneratedSources

  // ----- resolved Compose models -----

  /** The text of a mount's source: the path it names and which spelling of that path it is,
      0 being the plain one. A volume's name is its one-part path. */
  datatype Source = Source(path: Path, spelling: nat)

  datatype SourceField = NoSource | Text(at: Source) | NotText(what: string)

  /** A mount in short (text) or long (mapping) form; `rest` is every other key of the mapping. */
  datatype Mount = Short(text: string) | Long(kind: Option<string>, source: SourceField, rest: string)

  datatype Networks = NoNetworks | NetworkList(names: seq<string>) | NetworkMap(byName: map<string, string>)

  datatype Reference = Named(name: string) | Detailed(source: Option<string>, rest: string)

  datatype Spec = Spec(volumes: Option<seq<Mount>>, networkMode: Option<string>, networks: Networks,
                       secrets: seq<Reference>, configs: seq<Reference>, rest: string)

  /** A model's services, its named definitions by category, and every other top-level key. */
  datatype Model = Model(services: map<string, Spec>, networks: map<string, string>, volumes: map<Source, string>,
                         secrets: map<string, string>, configs: map<string, string>, rest: string)

  datatype Support = Support(networks: map<string, string>, volumes: map<Source, string>,
                             secrets: map<string, string>, configs: map<string, string>, rest: string)

  function Mounts(spec: Spec): seq<Mount> {
    if spec.volumes.Some? then spec.volumes.value else []
  }

  predicate IsBind(m: Mount) {
    m.Long? && m.kind == Some("bind") && m.source.Text?
  }

  // ----- what a service needs from the rest of its model -----

  /** No network under a network mode or an empty list; the default one when none is named. */
  function NetworkNames(spec: Spec): set<string> {
    if (spec.networkMode.Some? && spec.networkMode.value != "") || spec.networks == NetworkList([]) then {}
    else match spec.networks
      case NoNetworks => {"default"}
      case NetworkList(names) => set n | n in names
      case NetworkMap(byName) => if byName == map[] then {"default"} else byName.Keys
  }

  function VolumeNames(spec: Spec): set<Source> {
    set m | m in Mounts(spec) && m.Long? && m.kind == Some("volume") && m.source.Text? :: m.source.at
  }

  function ReferenceNames(items: seq<Reference>): set<string> {
    (set i | i in items && i.Named? :: i.name)
    + set i | i in items && i.Detailed? && i.source.Some? :: i.source.value
  }

  function Pick<K, V>(definitions: map<K, V>, names: set<K>): map<K, V> {
    map n | n in definitions && n in names :: definitions[n]
  }

  /** `_service_support`. */
  function ServiceSupport(model: Model, service: string): Support
    requires service in model.services
  {
    var spec := model.services[service];
    Support(Pick(model.networks, NetworkNames(spec)), Pick(model.volumes, VolumeNames(spec)),
            Pick(model.secrets, ReferenceNames(spec.secrets)), Pick(model.configs, ReferenceNames(spec.configs)), model.rest)
  }

  /** Two sets of definitions say the same about each of these names: one text, or nothing. */
  ghost predicate SameOn<K(!new), V(!new)>(a: map<K, V>, b: map<K, V>, names: set<K>) {
    forall n :: n in names ==> (n in a <==> n in b) && (n in a ==> a[n] == b[n])
  }

  // ----- changes to generated sources -----

  predicate Generated(m: Mount, declared: Declared) {
    IsBind(m) && m.source.at.spelling == 0 && m.source.at.path in declared
  }

  predicate Consumes(spec: Spec, declared: Declared) {
    exists m :: m in Mounts(spec) && Generated(m, declared)
  }

  /** The mount at this position names the same source in both. */
  predicate SameSource(before: seq<Mount>, after: seq<Mount>, k: nat)
    requires k < |after| && after[k].Long?
  {
    k < |before| && before[k].Long? && before[k].source == after[k].source
  }

  /** Some generated mount of the new spec was not where it is now. */
  predicate Moved(before: Spec, after: Spec, declared: Declared) {
    exists k :: 0 <= k < |Mounts(after)| && Generated(Mounts(after)[k], declared) && !SameSource(Mounts(before), Mounts(after), k)
  }

  predicate Recorded(previous: map<string, Model>, service: string) {
    service in previous && service in previous[service].services
  }

  predicate ReadsGenerated(model: Model, declared: Declared, service: string) {
    service in model.services && Consumes(model.services[service], declared)
  }

  predicate ConfigMoved(model: Model, previous: map<string, Model>, declared: Declared, service: string) {
    && ReadsGenerated(model, declared, service)
    && Recorded(previous, service)
    && Moved(previous[service].services[service], model.services[service], declared)
  }

  /** The services that satisfy a property, each once, in the order they first appear. */
  ghost function Chosen(services: seq<string>, keep: string -> bool): (r: seq<string>)
    ensures forall s :: s in r <==> s in services && keep(s)
    ensures forall i, j :: 0 <= i < j < |r| ==> r[i] != r[j]
  {
    if services == [] then []
    else
      var most, last := services[..|services| - 1], services[|services| - 1];
      assert services == most + [last];
      Chosen(most, keep) + if last in most || !keep(last) then [] else [last]
  }

  // ----- consumers, read off the models and hooks -----

  /** A bind mount of a path that some hook will write. */
  ghost predicate BindsDeclared(hooks: seq<Hook>, m: Mount) {
    && m.Long? && m.kind == Some("bind") && m.source.Text? && m.source.at.spelling == 0
    && exists owner, file :: Declares(hooks, m.source.at.path, owner, file)
  }

  ghost predicate BindsDeclaredAt(hooks: seq<Hook>, spec: Spec, k: int) {
    spec.volumes.Some? && 0 <= k < |spec.volumes.value| && BindsDeclared(hooks, spec.volumes.value[k])
  }

  ghost predicate IsConfigConsumer(hooks: seq<Hook>, model: Model, service: string) {
    service in model.services && exists k :: BindsDeclaredAt(hooks, model.services[service], k)
  }

  ghost predicate WasApplied(previous: map<string, Model>, service: string) {
    service in previous && service in previous[service].services
  }

  /** Some such mount did not stand at its place, with its source, before. */
  ghost predicate HasNewSource(hooks: seq<Hook>, before: Spec, after: Spec) {
    exists k :: BindsDeclaredAt(hooks, after, k) &&
      !(before.volumes.Some? && k < |before.volumes.value| && before.volumes.value[k].Long?
        && before.volumes.value[k].source == after.volumes.value[k].source)
  }

  ghost predicate IsMovedConsumer(hooks: seq<Hook>, model: Model, previous: map<string, Model>, service: string) {
    && IsConfigConsumer(hooks, model, service) && WasApplied(previous, service)
    && HasNewSource(hooks, previous[service].services[service], model.services[service])
  }

  lemma GeneratedBinds(hooks: seq<Hook>, m: Mount)
    ensures Generated(m, Declarations(hooks)) <==> BindsDeclared(hooks, m)
  {
    if IsBind(m) && m.source.at.path in Declarations(hooks) {
      var pair :| pair in Declarations(hooks)[m.source.at.path];
      assert Has(Declarations(hooks), m.source.at.path, pair.0, pair.1);
    }
    if BindsDeclared(hooks, m) {
      var owner, file :| Declares(hooks, m.source.at.path, owner, file);
      assert Has(Declarations(hooks), m.source.at.path, owner, file);
    }
  }

  lemma ConsumersRead(hooks: seq<Hook>, model: Model, previous: map<string, Model>, service: string)
    ensures ReadsGenerated(model, Declarations(hooks), service) <==> IsConfigConsumer(hooks, model, service)
    ensures Recorded(previous, service) <==> WasApplied(previous, service)
    ensures ConfigMoved(model, previous, Declarations(hooks), service) <==> IsMovedConsumer(hooks, model, previous, service)
  {
    hide Generated, BindsDeclared;
    forall m ensures Generated(m, Declarations(hooks)) <==> BindsDeclared(hooks, m) {
      GeneratedBinds(hooks, m);
    }
    if service in model.services {
      var after := model.services[service];
      assert Consumes(after, Declarations(hooks)) <==> exists k :: BindsDeclaredAt(hooks, after, k) by {
        if k :| BindsDeclaredAt(hooks, after, k) {
          assert Mounts(after)[k] in Mounts(after);
        }
        if Consumes(after, Declarations(hooks)) {
          var k :| 0 <= k < |Mounts(after)| && Generated(Mounts(after)[k], Declarations(hooks));
          assert BindsDeclaredAt(hooks, after, k);
        }
      }
      if Recorded(previous, service) {
        MovedHasNewSource(hooks, previous[service].services[service], after);
      }
    }
  }

  lemma MovedHasNewSource(hooks: seq<Hook>, before: Spec, after: Spec)
    requires forall m :: Generated(m, Declarations(hooks)) <==> BindsDeclared(hooks, m)
    ensures Moved(before, after, Declarations(hooks)) <==> HasNewSource(hooks, before, after)
  {
    var declared := Declarations(hooks);
    if Moved(before, after, declared) {
      var k :| 0 <= k < |Mounts(after)| && Generated(Mounts(after)[k], declared) && !SameSource(Mounts(before), Mounts(after), k);
      assert BindsDeclaredAt(hooks, after, k);
    }
    if HasNewSource(hooks, before, after) {
      var k :| BindsDeclaredAt(hooks, after, k) && !(before.volumes.Some? && k < |before.volumes.value| && before.volumes.value[k].Long?
        && before.volumes.value[k].source == after.volumes.value[k].source);
      assert Generated(Mounts(after)[k], declared) && !SameSource(Mounts(before), Mounts(after), k);
    }
  }

  datatype Refusal =
    | Disputed(source: Path)
    | NeverApplied(service: string)
    | ChangedElsewhere(service: string)

  ghost predicate AllWereApplied(hooks: seq<Hook>, services: seq<string>, model: Model, previous: map<string, Model>) {
    forall s :: s in services && IsConfigConsumer(hooks, model, s) ==> WasApplied(previous, s)
  }

  /** `consumer_config_changes`: the consumers whose generated source moved; refused exactly when
      a consumer has no applied model. */
  method ConsumerConfigChanges(hooks: seq<Hook>, model: Model, previous: map<string, Model>, services: seq<string>)
    returns (r: Result<seq<string>, Refusal>)
    ensures r.Ok? ==>
      && AllWereApplied(hooks, services, model, previous)
      && r.value == Chosen(services, s => IsMovedConsumer(hooks, model, previous, s))
    ensures r.Err? ==>
      && r.error.NeverApplied? && r.error.service in services
      && IsConfigConsumer(hooks, model, r.error.service) && !WasApplied(previous, r.error.service)
  {
    hide Moved, Consumes, IsConfigConsumer, WasApplied, IsMovedConsumer;
    var declared := DeclaredSources(hooks);
    ghost var keep := s => IsMovedConsumer(hooks, model, previous, s);
    var changed: seq<string> := [];
    for i := 0 to |services|
      invariant AllWereApplied(hooks, services[..i], model, previous)
      invariant changed == Chosen(services[..i], keep)
    {
      var s := services[i];
      ConsumersRead(hooks, model, previous, s);
      assert services[..i + 1][..i] == services[..i] && services[..i + 1] == services[..i] + [s];
      if s !in services[..i] && ReadsGenerated(model, declared, s) {
        if !Recorded(previous, s) {
          return Err(NeverApplied(s));
        }
        if Moved(previous[s].services[s], model.services[s], declared) {
          changed := changed + [s];
        }
      }
    }
    assert services[..|services|] == services;
    r := Ok(changed);
  }

  // ----- exact updates -----

  /** The two sources are one generated file, in an indexed tree and in a declared one. */
  predicate SameGeneratedFile(before: Source, after: Source, indexed: map<Path, Identity>, declared: Declared) {
    && before.spelling == 0 && before.path in indexed
    && after.spelling == 0 && after.path in declared
    && (indexed[before.path].owner, indexed[before.path].file) in declared[after.path]
  }

  /** What the code may map back: two bind mounts with different text sources of one generated file. */
  predicate MayTakeBack(before: Mount, after: Mount, indexed: map<Path, Identity>, declared: Declared) {
    && IsBind(before) && IsBind(after)
    && before.source.at != after.source.at
    && SameGeneratedFile(before.source.at, after.source.at, indexed, declared)
  }

  /** Either the mount is as it was, or only its source moved, to the same generated file. */
  predicate OnlySourceMoved(before: Mount, after: Mount, indexed: map<Path, Identity>, declared: Declared) {
    || before == after
    || (&& IsBind(before) && IsBind(after)
        && before.rest == after.rest
        && SameGeneratedFile(before.source.at, after.source.at, indexed, declared))
  }

  /** Nothing differs between the specs but sources of bind mounts, each moved within one
      generated file. */
  ghost predicate ExactUpdate(before: Spec, after: Spec, indexed: map<Path, Identity>, declared: Declared) {
    && before.(volumes := None) == after.(volumes := None)
    && before.volumes.Some? == after.volumes.Some?
    && |Mounts(before)| == |Mounts(after)|
    && forall k :: 0 <= k < |Mounts(after)| ==> OnlySourceMoved(Mounts(before)[k], Mounts(after)[k], indexed, declared)
  }

  function TakenBack(before: Mount, after: Mount, indexed: map<Path, Identity>, declared: Declared): Mount {
    if MayTakeBack(before, after, indexed, declared) then after.(source := before.source) else after
  }

  /** The candidate the code compares: the new spec with moved sources mapped back. */
  method MapBack(before: Spec, after: Spec, indexed: map<Path, Identity>, declared: Declared) returns (candidate: Spec, updated: bool)
    ensures candidate == before <==> ExactUpdate(before, after, indexed, declared)
    ensures candidate == before && before != after ==> updated
  {
    var was, now := Mounts(before), Mounts(after);
    updated := false;
    if |was| == |now| {
      for k := 0 to |now|
        invariant |now| == |Mounts(after)|
        invariant forall j :: 0 <= j < |now| ==>
          now[j] == if j < k then TakenBack(was[j], Mounts(after)[j], indexed, declared) else Mounts(after)[j]
        invariant !updated ==> now == Mounts(after)
      {
        if MayTakeBack(was[k], now[k], indexed, declared) {
          now := now[k := now[k].(source := was[k].source)];
          updated := true;
        }
      }
    }
    candidate := if after.volumes.Some? then after.(volumes := Some(now)) else after;
    assert Mounts(candidate) == now;
    assert candidate == before <==>
      before.(volumes := None) == after.(volumes := None) && before.volumes.Some? == after.volumes.Some? && now == was;
    if |was| == |now| {
      forall k | 0 <= k < |now|
        ensures now[k] == was[k] <==> OnlySourceMoved(was[k], Mounts(after)[k], indexed, declared)
      {
      }
      assert now == was <==> forall k :: 0 <= k < |now| ==> now[k] == was[k];
    }
  }

  /** Moving bind sources changes none of the names a service refers to. */
  lemma ExactUpdateKeepsNames(before: Spec, after: Spec, indexed: map<Path, Identity>, declared: Declared)
    requires ExactUpdate(before, after, indexed, declared)
    ensures NetworkNames(before) == NetworkNames(after)
    ensures VolumeNames(before) == VolumeNames(after)
    ensures ReferenceNames(before.secrets) == ReferenceNames(after.secrets)
    ensures ReferenceNames(before.configs) == ReferenceNames(after.configs)
  {
    assert before.(volumes := None) == after.(volumes := None);
    var was, now := Mounts(before), Mounts(after);
    forall name
      ensures name in VolumeNames(before) <==> name in VolumeNames(after)
    {
      if name in VolumeNames(before) {
        var k :| 0 <= k < |was| && was[k].Long? && was[k].kind == Some("volume") && was[k].source == Text(name);
        assert now[k] == was[k];
      }
      if name in VolumeNames(after) {
        var k :| 0 <= k < |now| && now[k].Long? && now[k].kind == Some("volume") && now[k].source == Text(name);
        assert now[k] == was[k];
      }
    }
  }

  lemma PicksAgree<K(!new), V(!new)>(a: map<K, V>, b: map<K, V>, names: set<K>)
    ensures Pick(a, names) == Pick(b, names) <==> SameOn(a, b, names)
  {
    if Pick(a, names) == Pick(b, names) {
      forall n | n in names
        ensures (n in a <==> n in b) && (n in a ==> a[n] == b[n])
      {
        assert n in Pick(a, names) <==> n in a;
        assert n in Pick(b, names) <==> n in b;
      }
    }
  }

  // ----- what a service refers to -----

  /** The networks it lists, or the default one; none under a network mode or an empty list. */
  ghost predicate UsesNetwork(spec: Spec, name: string) {
    && (spec.networkMode == None || spec.networkMode == Some(""))
    && match spec.networks
       case NoNetworks => name == "default"
       case NetworkList(names) => name in names
       case NetworkMap(byName) => name in byName || (name == "default" && forall n :: n !in byName)
  }

  ghost predicate UsesVolume(spec: Spec, name: Source) {
    spec.volumes.Some? && exists m :: m in spec.volumes.value && m.Long? && m.kind == Some("volume") && m.source == Text(name)
  }

  ghost predicate UsesReference(items: seq<Reference>, name: string) {
    Named(name) in items || exists rest :: Detailed(Some(name), rest) in items
  }

  ghost predicate DefinedAlike<K, V>(a: map<K, V>, b: map<K, V>, name: K) {
    (name in a <==> name in b) && (name in a ==> a[name] == b[name])
  }

  lemma NamesAreUsed(spec: Spec)
    ensures forall n :: n in NetworkNames(spec) <==> UsesNetwork(spec, n)
    ensures forall v :: v in VolumeNames(spec) <==> UsesVolume(spec, v)
  {
  }

  lemma ReferencesAreUsed(items: seq<Reference>)
    ensures forall n :: n in ReferenceNames(items) <==> UsesReference(items, n)
  {
    forall n
      ensures n in ReferenceNames(items) <==> UsesReference(items, n)
    {
      if n in ReferenceNames(items) {
        var i :| i in items && (if i.Named? then i.name == n else i.source == Some(n));
        assert i == Named(n) || i == Detailed(Some(n), i.rest);
      }
      if rest :| Detailed(Some(n), rest) in items {
        var i := Detailed(Some(n), rest);
        assert i in items && i.Detailed? && i.source.Some? && i.source.value == n;
      }
      if Named(n) in items {
        var i := Named(n);
        assert i in items && i.Named? && i.name == n;
      }
    }
  }

  /** Every definition that the service refers to, and everything that is no named definition, is
      the same in both models. */
  ghost predicate NothingElseMoved(before: Model, after: Model, spec: Spec) {
    && before.rest == after.rest
    && (forall n :: UsesNetwork(spec, n) ==> DefinedAlike(before.networks, after.networks, n))
    && (forall v :: UsesVolume(spec, v) ==> DefinedAlike(before.volumes, after.volumes, v))
    && (forall n :: UsesReference(spec.secrets, n) ==> DefinedAlike(before.secrets, after.secrets, n))
    && (forall n :: UsesReference(spec.configs, n) ==> DefinedAlike(before.configs, after.configs, n))
  }

  lemma SurroundingsAreUsed(before: Model, after: Model, spec: Spec)
    ensures SameSurroundings(before, after, spec) <==> NothingElseMoved(before, after, spec)
  {
    hide NetworkNames, VolumeNames, ReferenceNames, UsesNetwork, UsesVolume, UsesReference;
    NamesAreUsed(spec);
    ReferencesAreUsed(spec.secrets);
    ReferencesAreUsed(spec.configs);
  }

  // ----- the moves that are allowed -----

  /** The mount is of a recorded file, or a whole recorded tree, of a container, and is now of the
      same file, or the whole tree, that a hook of that container declares. */
  ghost predicate FollowsItsFile(hooks: seq<Hook>, data: Path, index: Index, before: Mount, after: Mount) {
    && before.Long? && after.Long? && before.kind == after.kind == Some("bind") && before.rest == after.rest
    && before.source.Text? && after.source.Text? && before.source.at.spelling == 0 && after.source.at.spelling == 0
    && exists id, hook :: Claimed(data, index, before.source.at.path, id)
                          && hook in hooks && DeclaresOne(hook, after.source.at.path, id.owner, id.file)
  }

  ghost predicate OnlyFollows(hooks: seq<Hook>, data: Path, index: Index, before: Spec, after: Spec) {
    && before.(volumes := None) == after.(volumes := None)
    && if before.volumes.None? || after.volumes.None? then before.volumes == after.volumes
       else && |before.volumes.value| == |after.volumes.value|
            && forall k :: 0 <= k < |after.volumes.value| ==>
              || before.volumes.value[k] == after.volumes.value[k]
              || FollowsItsFile(hooks, data, index, before.volumes.value[k], after.volumes.value[k])
  }

  /** The consumer differs from its applied model only by where its generated files are. */
  ghost predicate IsExactUpdate(hooks: seq<Hook>, data: Path, index: Index, model: Model, previous: map<string, Model>, service: string) {
    && service in model.services && WasApplied(previous, service)
    && OnlyFollows(hooks, data, index, previous[service].services[service], model.services[service])
    && NothingElseMoved(previous[service], model, model.services[service])
  }

  lemma SameFileFollows(hooks: seq<Hook>, data: Path, index: Index, indexed: map<Path, Identity>, before: Mount, after: Mount)
    requires Accounts(data, index, indexed)
    ensures FollowsItsFile(hooks, data, index, before, after) <==>
      IsBind(before) && IsBind(after) && before.rest == after.rest
      && SameGeneratedFile(before.source.at, after.source.at, indexed, Declarations(hooks))
  {
    hide ClaimedBy, DeclaresOne;
    if IsBind(before) && IsBind(after) {
      var from, to := before.source.at.path, after.source.at.path;
      assert forall id :: Claimed(data, index, from, id) <==> from in indexed && indexed[from] == id by {
        assert forall id :: ClaimedBy(data, index, index.Keys, from, id) <==> from in indexed && indexed[from] == id;
      }
      if from in indexed {
        var id := indexed[from];
        assert Has(Declarations(hooks), to, id.owner, id.file) <==> Declares(hooks, to, id.owner, id.file);
        if Declares(hooks, to, id.owner, id.file) {
          var i :| 0 <= i < |hooks| && DeclaresOne(hooks[i], to, id.owner, id.file);
          assert hooks[i] in hooks;
        }
        if hook :| hook in hooks && DeclaresOne(hook, to, id.owner, id.file) {
          var i :| 0 <= i < |hooks| && hooks[i] == hook;
          assert DeclaresOne(hooks[i], to, id.owner, id.file);
        }
      }
    }
  }

  lemma FilesMovedExactly(hooks: seq<Hook>, data: Path, index: Index, indexed: map<Path, Identity>, model: Model,
                          previous: map<string, Model>, service: string)
    requires Accounts(data, index, indexed)
    ensures OnlyFilesMoved(model, previous, indexed, Declarations(hooks), service) <==> IsExactUpdate(hooks, data, index, model, previous, service)
  {
    hide Accounts, FollowsItsFile, SameGeneratedFile, SameSurroundings, NothingElseMoved;
    if service in model.services && Recorded(previous, service) {
      var before, after := previous[service].services[service], model.services[service];
      forall b, a
        ensures OnlySourceMoved(b, a, indexed, Declarations(hooks)) <==> b == a || FollowsItsFile(hooks, data, index, b, a)
      {
        SameFileFollows(hooks, data, index, indexed, b, a);
      }
      SurroundingsAreUsed(previous[service], model, after);
    }
  }

  /** Nothing the service refers to, by whatever name, is defined differently. */
  ghost predicate SameSurroundings(before: Model, after: Model, spec: Spec) {
    && before.rest == after.rest
    && SameOn(before.networks, after.networks, NetworkNames(spec))
    && SameOn(before.volumes, after.volumes, VolumeNames(spec))
    && SameOn(before.secrets, after.secrets, ReferenceNames(spec.secrets))
    && SameOn(before.configs, after.configs, ReferenceNames(spec.configs))
  }

  /** Comparing supports after an exact update compares every definition the service uses. */
  lemma SupportsCompareSurroundings(before: Model, after: Model, service: string, indexed: map<Path, Identity>, declared: Declared)
    requires service in before.services && service in after.services
    requires ExactUpdate(before.services[service], after.services[service], indexed, declared)
    ensures ServiceSupport(before, service) == ServiceSupport(after, service)
      <==> SameSurroundings(before, after, after.services[service])
  {
    hide Pick, NetworkNames, VolumeNames, ReferenceNames, ExactUpdate;
    var spec := after.services[service];
    ExactUpdateKeepsNames(before.services[service], spec, indexed, declared);
    PicksAgree(before.networks, after.networks, NetworkNames(spec));
    PicksAgree(before.volumes, after.volumes, VolumeNames(spec));
    PicksAgree(before.secrets, after.secrets, ReferenceNames(spec.secrets));
    PicksAgree(before.configs, after.configs, ReferenceNames(spec.configs));
  }

  /** The consumer differs from its applied model only by where its generated files are. */
  ghost predicate OnlyFilesMoved(model: Model, previous: map<string, Model>, indexed: map<Path, Identity>, declared: Declared, service: string)
  {
    && service in model.services && Recorded(previous, service)
    && ExactUpdate(previous[service].services[service], model.services[service], indexed, declared)
    && SameSurroundings(previous[service], model, model.services[service])
  }

  lemma MovedIsDifferent(before: Spec, after: Spec, declared: Declared)
    requires Moved(before, after, declared)
    ensures before != after
  {
  }

  /** The check of one consumer whose source moved. */
  method CheckConsumer(model: Model, previous: map<string, Model>, indexed: map<Path, Identity>, declared: Declared, service: string)
    returns (accepted: bool, updated: bool)
    requires ConfigMoved(model, previous, declared, service)
    ensures accepted <==> OnlyFilesMoved(model, previous, indexed, declared, service)
    ensures accepted ==> updated
  {
    hide Moved, ExactUpdate, SameSurroundings, ServiceSupport;
    var was, now := previous[service].services[service], model.services[service];
    var candidate;
    candidate, updated := MapBack(was, now, indexed, declared);
    if candidate == was {
      SupportsCompareSurroundings(previous[service], model, service, indexed, declared);
      MovedIsDifferent(was, now, declared);
    }
    accepted := candidate == was && ServiceSupport(model, service) == ServiceSupport(previous[service], service);
  }

  /** `validate_consumer_config`: accepts exactly when every consumer that moved is an exact update
      in unchanged surroundings, and then names all of them. */
  method ValidateConsumerConfig(hooks: seq<Hook>, data: Path, index: Index, model: Model, previous: map<string, Model>,
                                services: seq<string>)
    returns (r: Result<seq<string>, Refusal>, ghost indexed: map<Path, Identity>)
    ensures if r.Err? && r.error.Disputed? then Contested(data, index, r.error.source) else Accounts(data, index, indexed)
    ensures r.Ok? ==>
      && AllWereApplied(hooks, services, model, previous)
      && r.value == Chosen(services, s => IsMovedConsumer(hooks, model, previous, s))
      && forall s :: s in r.value ==> IsExactUpdate(hooks, data, index, model, previous, s)
    ensures r.Err? && r.error.NeverApplied? ==>
      r.error.service in services && IsConfigConsumer(hooks, model, r.error.service) && !WasApplied(previous, r.error.service)
    ensures r.Err? && r.error.ChangedElsewhere? ==>
      && r.error.service in services && IsMovedConsumer(hooks, model, previous, r.error.service)
      && !IsExactUpdate(hooks, data, index, model, previous, r.error.service)
  {
    hide Moved, Consumes, OnlyFilesMoved, ReadsGenerated, Recorded, Contested, Accounts, IsConfigConsumer, WasApplied, IsMovedConsumer, IsExactUpdate, ConfigMoved;
    var declared := DeclaredSources(hooks);
    indexed := map[];
    var read := IndexedSources(data, index);
    if read.Err? {
      return Err(Disputed(read.error)), indexed;
    }
    indexed := read.value;
    var found := ConsumerConfigChanges(hooks, model, previous, services);
    if found.Err? {
      return found, indexed;
    }
    ghost var keep := s => IsMovedConsumer(hooks, model, previous, s);
    assert found.value == Chosen(services, keep);
    var changed: seq<string> := [];
    for i := 0 to |found.value|
      invariant changed == found.value[..i]
      invariant forall s :: s in found.value[..i] ==> IsExactUpdate(hooks, data, index, model, previous, s)
    {
      var s := found.value[i];
      assert s in found.value && keep(s);
      ConsumersRead(hooks, model, previous, s);
      FilesMovedExactly(hooks, data, index, indexed, model, previous, s);
      var accepted, updated := CheckConsumer(model, previous, read.value, declared, s);
      if !accepted {
        return Err(ChangedElsewhere(s)), indexed;
      }
      if updated {
        changed := changed + [s];
      }
    }
    r := Ok(changed);
  }

  /** Where an accepted move goes: from an indexed tree of some container to one a hook of the
      same container declares, at the same place inside both. */
  lemma MovesStayWithTheirOwner(hooks: seq<Hook>, data: Path, index: Index, indexed: map<Path, Identity>,
                                before: Spec, after: Spec, k: nat)
    requires Accounts(data, index, indexed)
    requires ExactUpdate(before, after, indexed, Declarations(hooks))
    requires k < |Mounts(after)| && Mounts(before)[k] != Mounts(after)[k]
    ensures IsBind(Mounts(before)[k]) && IsBind(Mounts(after)[k])
    ensures exists id: Identity, hook: Hook ::
      && Claimed(data, index, Mounts(before)[k].source.at.path, id)
      && Mounts(before)[k].source.at.path == id.tree + id.file
      && hook in hooks && DeclaresOne(hook, Mounts(after)[k].source.at.path, id.owner, id.file)
  {
    hide ClaimedBy;
    var declared := Declarations(hooks);
    assert OnlySourceMoved(Mounts(before)[k], Mounts(after)[k], indexed, declared);
    var from, to := Mounts(before)[k].source.at.path, Mounts(after)[k].source.at.path;
    var id := indexed[from];
    assert ClaimedBy(data, index, index.Keys, from, id);
    assert Claimed(data, index, from, id);
    ClaimIsInsideTree(data, index, from, id);
    assert Has(declared, to, id.owner, id.file);
    assert Declares(hooks, to, id.owner, id.file);
    var i :| 0 <= i < |hooks| && DeclaresOne(hooks[i], to, id.owner, id.file);
    assert hooks[i] in hooks;
  }
}

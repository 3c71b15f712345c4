/** Provenance of generated files: which path belongs to which container's tree, read from
    the artifact index (what was generated before) and from the registered hooks (what this
    run declares). */
module GeneratedSources {
  import opened Options
  import opened Paths

  /** Who generated a path, as which file of its tree ([] for the tree itself). */
  datatype Identity = Identity(owner: string, file: Path, tree: Path)

  datatype Kind = FileKind | TreeKind | OtherKind

  /** An index entry; a missing container is "", a missing tree is None. `producers` are the
      containers whose declarations went into it. */
  datatype Entry = Entry(kind: Kind, owner: string, tree: Option<Path>, digest: string, producers: set<string>)

  type Index = map<Path, Entry>

  /** The entry is a well-formed record of a generated tree, or of a file inside one. */
  predicate Placed(key: Path, e: Entry) {
    && e.kind != OtherKind && e.tree.Some? && e.owner != ""
    && !Absolute(e.tree.value) && ".." !in e.tree.value
    && !Absolute(key) && ".." !in key
    && (if e.kind.TreeKind? then key == e.tree.value else e.tree.value < key)
  }

  /** The paths one entry accounts for: its tree and, for a file, that file. */
  function Claims(data: Path, key: Path, e: Entry): map<Path, Identity>
    requires Placed(key, e)
  {
    var root := data + e.tree.value;
    var whole := map[root := Identity(e.owner, [], root)];
    if e.kind.FileKind? then whole[data + key := Identity(e.owner, key[|e.tree.value|..], root)] else whole
  }

  /** A relative path that stays where it is. */
  ghost predicate Inside(p: Path) {
    (p == [] || p[0] != "/") && forall part :: part in p ==> part != ".."
  }

  /** The entry under this key says so of this path: it records a generated tree of a container,
      or a file inside one, and the path is that tree, or that file at its place in the tree. */
  ghost predicate Says(data: Path, key: Path, e: Entry, source: Path, id: Identity) {
    && e.owner != "" && e.tree.Some? && Inside(e.tree.value) && Inside(key)
    && ((e.kind == TreeKind && key == e.tree.value) || (e.kind == FileKind && e.tree.value < key))
    && id.owner == e.owner && id.tree == data + e.tree.value
    && ((source == id.tree && id.file == []) || (e.kind == FileKind && source == data + key && key == e.tree.value + id.file))
  }

  lemma ClaimsAreSaid(data: Path, key: Path, e: Entry, source: Path, id: Identity)
    ensures Says(data, key, e, source, id) <==> Placed(key, e) && source in Claims(data, key, e) && Claims(data, key, e)[source] == id
  {
    if e.tree.Some? {
      var tree := e.tree.value;
      assert tree <= key ==> key == tree + key[|tree|..];
      assert data + key == data + tree ==> |key| == |tree|;
      assert forall file :: key == tree + file ==> file == key[|tree|..];
    }
  }

  ghost predicate ClaimedBy(data: Path, index: Index, keys: set<Path>, source: Path, id: Identity) {
    exists key :: key in keys && key in index && Says(data, key, index[key], source, id)
  }

  ghost predicate Claimed(data: Path, index: Index, source: Path, id: Identity) {
    ClaimedBy(data, index, index.Keys, source, id)
  }

  /** The map holds exactly the claims of the index. */
  ghost predicate Accounts(data: Path, index: Index, sources: map<Path, Identity>) {
    AccountsFor(data, index, index.Keys, sources)
  }

  /** Two entries say different things about one path. */
  ghost predicate Contested(data: Path, index: Index, source: Path) {
    exists a, b :: a != b && Claimed(data, index, source, a) && Claimed(data, index, source, b)
  }

  ghost predicate Agree(a: map<Path, Identity>, b: map<Path, Identity>) {
    forall source :: source in a && source in b ==> a[source] == b[source]
  }

  ghost predicate AccountsFor(data: Path, index: Index, keys: set<Path>, sources: map<Path, Identity>) {
    forall source, id :: (source in sources && sources[source] == id) <==> ClaimedBy(data, index, keys, source, id)
  }

  lemma ClaimsAdded(data: Path, index: Index, keys: set<Path>, key: Path, before: map<Path, Identity>, after: map<Path, Identity>)
    requires key in index
    requires AccountsFor(data, index, keys, before)
    requires Placed(key, index[key]) ==> Agree(before, Claims(data, key, index[key]))
    requires after == if Placed(key, index[key]) then before + Claims(data, key, index[key]) else before
    ensures AccountsFor(data, index, keys + {key}, after)
  {
    hide Claims, Placed, Says;
    forall source, id
      ensures (source in after && after[source] == id) <==> ClaimedBy(data, index, keys + {key}, source, id)
    {
      ClaimsAreSaid(data, key, index[key], source, id);
      assert ClaimedBy(data, index, keys, source, id) ==> ClaimedBy(data, index, keys + {key}, source, id);
      if ClaimedBy(data, index, keys + {key}, source, id) && !ClaimedBy(data, index, keys, source, id) {
        assert source in Claims(data, key, index[key]);
      }
    }
  }

  /** `_indexed_sources`: every recorded path with its owner, file and tree; refused exactly
      when two records disagree about a path. */
  method IndexedSources(data: Path, index: Index) returns (r: Result<map<Path, Identity>, Path>)
    ensures r.Ok? ==> Accounts(data, index, r.value) && forall source :: !Contested(data, index, source)
    ensures r.Err? ==> Contested(data, index, r.error)
  {
    hide Claims, Placed, Says;
    var sources: map<Path, Identity> := map[];
    var pending := index.Keys;
    while pending != {}
      invariant pending <= index.Keys
      invariant AccountsFor(data, index, index.Keys - pending, sources)
    {
      var key :| key in pending;
      ghost var before := sources;
      if Placed(key, index[key]) {
        var claims := Claims(data, key, index[key]);
        var conflicts := set source | source in claims && source in sources && sources[source] != claims[source];
        if conflicts != {} {
          var source :| source in conflicts;
          assert ClaimedBy(data, index, index.Keys - pending, source, sources[source]);
          assert Claimed(data, index, source, sources[source]);
          ClaimsAreSaid(data, key, index[key], source, claims[source]);
          assert Claimed(data, index, source, claims[source]);
          return Err(source);
        }
        assert Agree(sources, claims) by {
          assert forall source :: source in sources && source in claims && sources[source] != claims[source] ==> source in conflicts;
        }
        sources := sources + claims;
      }
      ClaimsAdded(data, index, index.Keys - pending, key, before, sources);
      assert index.Keys - (pending - {key}) == index.Keys - pending + {key};
      pending := pending - {key};
    }
    assert index.Keys - pending == index.Keys;
    r := Ok(sources);
  }

  /** A claimed path lies inside its tree, at the place its file name says. */
  lemma ClaimPlace(data: Path, key: Path, e: Entry, source: Path)
    requires Placed(key, e) && source in Claims(data, key, e)
    ensures var id := Claims(data, key, e)[source];
      source == id.tree + id.file && id.tree == data + e.tree.value && id.owner == e.owner
  {
    var tree := e.tree.value;
    assert data + tree + [] == data + tree;
    if e.kind.FileKind? {
      assert |data + tree| != |data + key|;
      assert data + key == data + tree + key[|tree|..];
    }
  }

  lemma ClaimIsInsideTree(data: Path, index: Index, source: Path, id: Identity)
    requires Claimed(data, index, source, id)
    ensures source == id.tree + id.file
    ensures exists key :: key in index && Placed(key, index[key]) && index[key].owner == id.owner && data + index[key].tree.value == id.tree
  {
    hide Claims, Says;
    var key :| key in index && Says(data, key, index[key], source, id);
    ClaimsAreSaid(data, key, index[key], source, id);
    ClaimPlace(data, key, index[key], source);
  }

  // ----- declared sources -----

  /** A generated-file hook: its container, the tree it will write, the files in it. */
  datatype Hook = Hook(owner: string, root: Path, files: set<Path>)

  type Declared = map<Path, set<(string, Path)>>

  ghost predicate Declares(hooks: seq<Hook>, source: Path, owner: string, file: Path) {
    exists i :: 0 <= i < |hooks| && DeclaresOne(hooks[i], source, owner, file)
  }

  ghost predicate DeclaresOne(hook: Hook, source: Path, owner: string, file: Path) {
    && owner == hook.owner
    && (file == [] || file in hook.files)
    && source == hook.root + file
  }

  /** Every declared path with the owners and files it is declared for. */
  ghost function Declarations(hooks: seq<Hook>): (declared: Declared)
    ensures forall source, owner, file :: Has(declared, source, owner, file) <==> Declares(hooks, source, owner, file)
    ensures forall source :: source in declared ==> declared[source] != {}
  {
    var paths := set hook, file | hook in hooks && file in hook.files + {[]} :: hook.root + file;
    var declared := map source | source in paths ::
      set hook, file | hook in hooks && file in hook.files + {[]} && hook.root + file == source :: (hook.owner, file);
    assert forall source :: source in declared ==> declared[source] != {} by {
      forall source | source in paths
        ensures declared[source] != {}
      {
        var hook, file :| hook in hooks && file in hook.files + {[]} && hook.root + file == source;
        assert (hook.owner, file) in declared[source];
      }
    }
    declared
  }

  lemma SameDeclarations(a: Declared, b: Declared)
    requires forall source, owner, file :: Has(a, source, owner, file) <==> Has(b, source, owner, file)
    requires forall source :: source in a ==> a[source] != {}
    requires forall source :: source in b ==> b[source] != {}
    ensures a == b
  {
    forall source
      ensures source in a <==> source in b
    {
      if source in a {
        var pair :| pair in a[source];
        assert Has(a, source, pair.0, pair.1);
      }
      if source in b {
        var pair :| pair in b[source];
        assert Has(b, source, pair.0, pair.1);
      }
    }
    forall source | source in a
      ensures a[source] == b[source]
    {
      forall pair: (string, Path)
        ensures pair in a[source] <==> pair in b[source]
      {
        assert pair == (pair.0, pair.1);
        assert Has(a, source, pair.0, pair.1) <==> Has(b, source, pair.0, pair.1);
      }
    }
  }

  function Add(declared: Declared, source: Path, owner: string, file: Path): Declared {
    declared[source := (if source in declared then declared[source] else {}) + {(owner, file)}]
  }

  /** Membership as one relation, so that the loops below have something to keep. */
  predicate Has(declared: Declared, source: Path, owner: string, file: Path) {
    source in declared && (owner, file) in declared[source]
  }

  /** `_declared_sources`: what each hook will write, by path. */
  method DeclaredSources(hooks: seq<Hook>) returns (declared: Declared)
    ensures declared == Declarations(hooks)
  {
    declared := map[];
    for i := 0 to |hooks|
      invariant forall source :: source in declared ==> declared[source] != {}
      invariant forall source, owner, file :: Has(declared, source, owner, file) <==> Declares(hooks[..i], source, owner, file)
    {
      var hook := hooks[i];
      ghost var before := declared;
      declared := Add(declared, hook.root, hook.owner, []);
      assert hook.root + [] == hook.root;
      var pending := hook.files;
      while pending != {}
        invariant pending <= hook.files
        invariant forall source :: source in declared ==> declared[source] != {}
        invariant forall source, owner, file :: Has(declared, source, owner, file) <==>
          (Has(before, source, owner, file)
            || (owner == hook.owner && source == hook.root + file && (file == [] || file in hook.files - pending)))
      {
        var file :| file in pending;
        declared := Add(declared, hook.root + file, hook.owner, file);
        pending := pending - {file};
      }
      OneMoreHook(hooks, i, before, declared);
    }
    assert hooks[..|hooks|] == hooks;
    SameDeclarations(declared, Declarations(hooks));
  }

  lemma OneMoreHook(hooks: seq<Hook>, i: nat, before: Declared, after: Declared)
    requires i < |hooks|
    requires forall source, owner, file :: Has(before, source, owner, file) <==> Declares(hooks[..i], source, owner, file)
    requires forall source, owner, file :: Has(after, source, owner, file) <==>
      (Has(before, source, owner, file) || DeclaresOne(hooks[i], source, owner, file))
    ensures forall source, owner, file :: Has(after, source, owner, file) <==> Declares(hooks[..i + 1], source, owner, file)
  {
    hide Has, DeclaresOne;
    var now := hooks[..i + 1];
    forall source, owner, file
      ensures Declares(now, source, owner, file) <==> (Declares(hooks[..i], source, owner, file) || DeclaresOne(hooks[i], source, owner, file))
    {
      if Declares(hooks[..i], source, owner, file) {
        var k :| 0 <= k < i && DeclaresOne(hooks[..i][k], source, owner, file);
        assert DeclaresOne(now[k], source, owner, file);
      }
      assert now[i] == hooks[i];
      if Declares(now, source, owner, file) {
        var k :| 0 <= k <= i && DeclaresOne(now[k], source, owner, file);
        assert k < i ==> hooks[..i][k] == now[k];
      }
    }
  }
}

/** Immutable generated trees: staging one, and deleting those no model reads any more. */
module Pruning {
  import opened Options
  import opened Paths
  import opened GeneratedSources
  import opened ConsumerConfig

  // ----- tree names -----

  const REVISION: string := "revision-"
  const HEX: string := "0123456789abcdef"

  /** A digest as the code recognises it: 64 lower-case hexadecimal digits. */
  predicate IsDigest(s: string) {
    |s| == 64 && forall i :: 0 <= i < |s| ==> s[i] in HEX
  }

  /** A tree's directory name: a digest, with or without the revision prefix. */
  predicate IsTreeName(name: string) {
    IsDigest(if REVISION <= name then name[|REVISION|..] else name)
  }

  /** 64 lower-case hexadecimal digits, alone or behind "revision-". */
  ghost predicate NamesTree(name: string) {
    exists digits: string :: |digits| == 64 && (forall c :: c in digits ==> '0' <= c <= '9' || 'a' <= c <= 'f')
                             && (name == digits || name == "revision-" + digits)
  }

  lemma DigestDigits(s: string)
    ensures IsDigest(s) <==> |s| == 64 && forall c :: c in s ==> '0' <= c <= '9' || 'a' <= c <= 'f'
  {
    assert forall c :: c in HEX <==> '0' <= c <= '9' || 'a' <= c <= 'f' by {
      forall c | '0' <= c <= '9' || 'a' <= c <= 'f'
        ensures c in HEX
      {
        var k := if c <= '9' then c as int - '0' as int else c as int - 'a' as int + 10;
        assert HEX[k] == c;
      }
    }
    assert forall i :: 0 <= i < |s| ==> s[i] in s;
  }

  lemma RecognisedNames(name: string)
    ensures IsTreeName(name) <==> NamesTree(name)
  {
    hide IsDigest;
    if REVISION <= name {
      var rest := name[|REVISION|..];
      DigestDigits(rest);
      assert name == "revision-" + rest;
      assert 'r' in name by { assert name[0] == 'r'; }
      if digits: string :| name == "revision-" + digits {
        assert digits == rest;
      }
    } else {
      DigestDigits(name);
      assert forall digits: string :: REVISION <= "revision-" + digits;
    }
  }

  /** The hash of a text and of a tree's mode and files. */
  datatype Hashes = Hashes(text: string -> string, tree: (nat, map<Path, string>) -> string)

  ghost predicate MakesDigests(h: Hashes) {
    (forall t :: IsDigest(h.text(t))) && (forall mode, files :: IsDigest(h.tree(mode, files)))
  }

  /** The last part of `prepared_files_path`. */
  function TreeName(h: Hashes, files: map<Path, string>, revision: Option<string>, mode: nat): string {
    if revision.Some? then REVISION + h.text(revision.value) else h.tree(mode, files)
  }

  lemma TreeNamesAreRecognised(h: Hashes, files: map<Path, string>, revision: Option<string>, mode: nat)
    requires MakesDigests(h)
    ensures IsTreeName(TreeName(h, files, revision, mode))
  {
    var name := TreeName(h, files, revision, mode);
    if revision.Some? {
      assert name[|REVISION|..] == h.text(revision.value);
    } else {
      assert name[0] in HEX;
      assert REVISION[0] !in HEX;
    }
  }

  /** A tree named by its content never shares its directory with a revision, nor with other
      content unless the hash collides. */
  lemma NamesIdentifyContent(h: Hashes, files: map<Path, string>, mode: nat, others: map<Path, string>, revision: Option<string>, otherMode: nat)
    requires MakesDigests(h)
    requires h.tree(mode, files) == h.tree(otherMode, others) ==> mode == otherMode && files == others
    ensures TreeName(h, files, None, mode) == TreeName(h, others, revision, otherMode)
      <==> revision == None && mode == otherMode && files == others
  {
    var name := TreeName(h, files, None, mode);
    assert name[0] in HEX;
    assert REVISION[0] !in HEX;
  }

  // ----- the disk -----

  datatype Node = Directory | File(text: string) | Link

  type Disk = map<Path, Node>

  /** Everything on disk lies in directories that are there too. */
  ghost predicate WellFormed(disk: Disk) {
    forall p, k :: p in disk && 0 <= k < |p| ==> p[..k] in disk && disk[p[..k]].Directory?
  }

  predicate BadName(name: Path) {
    name == [] || Absolute(name) || ".." in name || exists part :: part in name && '\\' in part
  }

  /** The directories a set of files needs inside its tree; [] is the tree itself. */
  function Folders(files: set<Path>): set<Path> {
    {[]} + set name, k | name in files && 0 <= k < |name| :: name[..k]
  }

  /** What a tree's directory holds, relative to it, when it holds exactly these files. */
  function Layout(files: map<Path, string>): map<Path, Node> {
    (map d | d in Folders(files.Keys) :: Directory) + map name | name in files :: File(files[name])
  }

  /** A path wanted both as a file and as a directory. */
  predicate Clashes(files: map<Path, string>) {
    exists name :: name in files && name in Folders(files.Keys)
  }

  /** What the disk holds at and below a path, seen from there. */
  function Under(disk: Disk, root: Path): map<Path, Node> {
    map rest | rest in (set p | p in disk && root <= p :: p[|root|..]) && root + rest in disk :: disk[root + rest]
  }

  lemma UnderAt(disk: Disk, root: Path, rest: Path)
    ensures rest in Under(disk, root) <==> root + rest in disk
    ensures root + rest in disk ==> Under(disk, root)[rest] == disk[root + rest]
  {
    var p := root + rest;
    assert root <= p && p[|root|..] == rest;
    assert p in disk ==> rest in (set q | q in disk && root <= q :: q[|root|..]);
  }

  /** The comparison the code makes with a tree that is already there. */
  predicate Matches(view: map<Path, Node>, files: map<Path, string>) {
    && view.Keys - {[]} == files.Keys + (Folders(files.Keys) - {[]})
    && (forall rest :: rest in view && rest != [] ==> !view[rest].Link?)
    && (forall d :: d in Folders(files.Keys) ==> d in view && view[d].Directory?)
    && (forall name :: name in files ==> name in view && view[name] == File(files[name]))
  }

  lemma MatchIsExact(view: map<Path, Node>, files: map<Path, string>)
    requires [] !in files
    ensures Matches(view, files) <==> view == Layout(files) && !Clashes(files)
  {
    hide Folders;
    FoldersHoldRoot(files.Keys);
    if Matches(view, files) {
      assert view.Keys == Layout(files).Keys;
    }
  }

  lemma FoldersHoldRoot(files: set<Path>)
    ensures [] in Folders(files)
  {
  }

  function Planted(layout: map<Path, Node>, root: Path): map<Path, Node> {
    map p | p in (set rest | rest in layout :: root + rest) :: layout[p[|root|..]]
  }

  lemma PlantedAt(layout: map<Path, Node>, root: Path, p: Path)
    ensures p in Planted(layout, root) <==> root <= p && p[|root|..] in layout
    ensures p in Planted(layout, root) ==> Planted(layout, root)[p] == layout[p[|root|..]]
  {
    if root <= p {
      assert p == root + p[|root|..];
    }
    forall rest | rest in layout
      ensures root <= root + rest && (root + rest)[|root|..] == rest
    {
    }
  }

  lemma PlantedIsUnder(disk: Disk, layout: map<Path, Node>, root: Path)
    requires forall p :: p in disk ==> !(root <= p)
    ensures Under(disk + Planted(layout, root), root) == layout
  {
    hide Under, Planted;
    var after := disk + Planted(layout, root);
    forall rest
      ensures rest in Under(after, root) <==> rest in layout
      ensures rest in layout ==> Under(after, root)[rest] == layout[rest]
    {
      UnderAt(after, root, rest);
      PlantedAt(layout, root, root + rest);
      assert (root + rest)[|root|..] == rest && root <= root + rest;
    }
  }

  // ----- the index -----

  /** A single path part that can name a container's directory. */
  predicate IsPlainPart(part: string) {
    part != "" && '/' !in part && part != ".."
  }

  /** Where `stage_files` puts a container's trees, relative to the data directory. */
  function Home(app: Path, owner: string): Path {
    app + [owner, "generated"]
  }

  ghost predicate IsStaged(app: Path, owner: string, tree: Path) {
    |tree| == |app| + 3 && app <= tree && tree[|app|] == owner && tree[|app| + 1] == "generated" && IsTreeName(tree[|app| + 2])
  }

  /** Every generated entry is of a tree in its owner's home. */
  ghost predicate Staged(app: Path, index: Index) {
    forall key :: key in index && index[key].kind != OtherKind ==>
      Placed(key, index[key]) && IsStaged(app, index[key].owner, index[key].tree.value)
  }

  /** Every indexed tree and file is on disk, with the text its digest was taken of. */
  ghost predicate Agrees(h: Hashes, data: Path, disk: Disk, index: Index) {
    && (forall key :: key in index && index[key].kind == TreeKind ==>
         data + key in disk && disk[data + key].Directory?)
    && (forall key :: key in index && index[key].kind == FileKind ==>
         data + key in disk && disk[data + key].File? && index[key].digest == h.text(disk[data + key].text))
  }

  function FileEntries(h: Hashes, owner: string, tree: Path, files: map<Path, string>, producers: set<string>): Index {
    map key | key in (set name | name in files :: tree + name) && key[|tree|..] in files ::
      Entry(FileKind, owner, Some(tree), h.text(files[key[|tree|..]]), producers)
  }

  function TreeEntry(owner: string, tree: Path, producers: set<string>): Entry {
    Entry(TreeKind, owner, Some(tree), "", producers)
  }

  /** The entries one staging records. */
  function Records(h: Hashes, owner: string, tree: Path, files: map<Path, string>, producers: set<string>): Index {
    FileEntries(h, owner, tree, files, producers)[tree := TreeEntry(owner, tree, producers)]
  }

  lemma RecordsAt(h: Hashes, owner: string, tree: Path, files: map<Path, string>, producers: set<string>, key: Path)
    requires [] !in files
    ensures key in Records(h, owner, tree, files, producers) <==> key == tree || (tree < key && key[|tree|..] in files)
    ensures tree in Records(h, owner, tree, files, producers) && Records(h, owner, tree, files, producers)[tree] == TreeEntry(owner, tree, producers)
    ensures key in Records(h, owner, tree, files, producers) && key != tree ==>
      Records(h, owner, tree, files, producers)[key] == Entry(FileKind, owner, Some(tree), h.text(files[key[|tree|..]]), producers)
  {
    if tree < key && key[|tree|..] in files {
      assert key == tree + key[|tree|..];
    }
    forall name | name in files
      ensures tree < tree + name && (tree + name)[|tree|..] == name
    {
    }
  }

  /** Trees that `stage_files` records never contain one another. */
  lemma StagedTreesDoNotNest(data: Path, app: Path, index: Index, indexed: map<Path, Identity>, a: Path, b: Path)
    requires Staged(app, index) && Accounts(data, index, indexed)
    requires a in indexed && b in indexed && Overlap(indexed[a].tree, indexed[b].tree)
    ensures indexed[a].tree == indexed[b].tree && indexed[a].owner == indexed[b].owner
  {
    StagedTreeOf(data, app, index, a, indexed[a]);
    StagedTreeOf(data, app, index, b, indexed[b]);
  }

  lemma StagedTreeOf(data: Path, app: Path, index: Index, source: Path, id: Identity)
    requires Staged(app, index) && Claimed(data, index, source, id)
    ensures |id.tree| == |data| + |app| + 3 && id.tree[|data| + |app|] == id.owner
    ensures source == id.tree + id.file
  {
    hide Claimed, IsTreeName;
    ClaimIsInsideTree(data, index, source, id);
    var key :| key in index && Placed(key, index[key]) && index[key].owner == id.owner && data + index[key].tree.value == id.tree;
  }

  /** An index kept by `stage_files` says one thing about each path, so reading it is never refused. */
  lemma StagedHasOneClaim(data: Path, app: Path, index: Index, source: Path, a: Identity, b: Identity)
    requires Staged(app, index)
    requires Claimed(data, index, source, a) && Claimed(data, index, source, b)
    ensures a == b
  {
    hide Claimed, Staged;
    StagedTreeOf(data, app, index, source, a);
    StagedTreeOf(data, app, index, source, b);
    assert a.tree == source[..|a.tree|] && b.tree == source[..|b.tree|];
    assert a.file == source[|a.tree|..] && b.file == source[|b.tree|..];
  }

  // ----- pruning -----

  /** The text sources of every bind mount of these services. */
  function BindSources(models: map<string, seq<Mount>>): set<Source> {
    set service, m | service in models && m in models[service] && IsBind(m) :: m.source.at
  }

  predicate IsIndexed(indexed: map<Path, Identity>, s: Source) {
    s.spelling == 0 && s.path in indexed
  }

  function Parent(p: Path): Path {
    if |p| <= 1 then p else p[..|p| - 1]
  }

  /** Some source outside the index may read from this root. */
  predicate Uncertain(indexed: map<Path, Identity>, sources: set<Source>, root: Path) {
    exists s :: s in sources && !IsIndexed(indexed, s) && Overlap(s.path, root)
  }

  function Known(indexed: map<Path, Identity>, owner: string, root: Path): set<Path> {
    set s | s in indexed && indexed[s].owner == owner && Parent(indexed[s].tree) == root :: indexed[s].tree
  }

  function Kept(indexed: map<Path, Identity>, sources: set<Source>, candidate: Path): set<Path> {
    {candidate} + set s | s in sources && IsIndexed(indexed, s) :: indexed[s.path].tree
  }

  predicate Deletable(disk: Disk, tree: Path) {
    tree in disk && disk[tree].Directory? && tree != [] && IsTreeName(tree[|tree| - 1])
  }

  /** A tree pruning may delete for a container that prepared a new one. */
  predicate Obsolete(disk: Disk, indexed: map<Path, Identity>, sources: set<Source>, prepared: map<string, Path>, owner: string, tree: Path) {
    && owner in prepared
    && !Uncertain(indexed, sources, Parent(prepared[owner]))
    && tree in Known(indexed, owner, Parent(prepared[owner])) - Kept(indexed, sources, prepared[owner])
    && Deletable(disk, tree)
  }

  // ----- which trees are left over -----

  /** Some service of the current or the previous models bind-mounts this source. */
  ghost predicate InUse(current: map<string, seq<Mount>>, previous: map<string, seq<Mount>>, s: Source) {
    MountedBy(current, s) || MountedBy(previous, s)
  }

  ghost predicate MountedBy(models: map<string, seq<Mount>>, s: Source) {
    exists service, m :: service in models && m in models[service] && m.Long? && m.kind == Some("bind") && m.source == Text(s)
  }

  lemma BindsAreMounted(models: map<string, seq<Mount>>)
    ensures forall s :: s in BindSources(models) <==> MountedBy(models, s)
  {
  }

  /** The path lies directly in this directory; the root lies in itself. */
  ghost predicate LiesIn(p: Path, directory: Path) {
    if |p| <= 1 then p == directory else exists name :: p == directory + [name]
  }

  lemma ParentIsWhereItLies(p: Path, directory: Path)
    ensures Parent(p) == directory <==> LiesIn(p, directory)
  {
    if |p| > 1 {
      assert p == p[..|p| - 1] + [p[|p| - 1]];
    }
  }

  /** An old tree of a container: recorded as its own, beside the one prepared now, with a tree's
      name, a directory still; no source in use belongs to it, and none that the index does not
      know may reach the directory they lie in. */
  ghost predicate IsLeftOver(disk: Disk, indexed: map<Path, Identity>, current: map<string, seq<Mount>>, previous: map<string, seq<Mount>>,
                             prepared: map<string, Path>, owner: string, tree: Path) {
    && owner in prepared && tree != prepared[owner]
    && (exists a :: a in indexed && indexed[a].owner == owner && indexed[a].tree == tree)
    && tree != [] && NamesTree(tree[|tree| - 1]) && tree in disk && disk[tree] == Directory
    && exists home :: LiesIn(prepared[owner], home) && LiesIn(tree, home) && NothingReaches(indexed, current, previous, tree, home)
  }

  ghost predicate NothingReaches(indexed: map<Path, Identity>, current: map<string, seq<Mount>>, previous: map<string, seq<Mount>>,
                                 tree: Path, home: Path) {
    forall s :: InUse(current, previous, s) ==>
      if s.spelling == 0 && s.path in indexed then indexed[s.path].tree != tree else !(s.path <= home) && !(home <= s.path)
  }

  lemma LeftOverIsObsolete(disk: Disk, indexed: map<Path, Identity>, current: map<string, seq<Mount>>, previous: map<string, seq<Mount>>,
                           prepared: map<string, Path>, owner: string, tree: Path)
    ensures IsLeftOver(disk, indexed, current, previous, prepared, owner, tree) <==>
      Obsolete(disk, indexed, BindSources(current) + BindSources(previous), prepared, owner, tree)
  {
    hide IsTreeName, NamesTree, BindSources, MountedBy, LiesIn, Parent;
    BindsAreMounted(current);
    BindsAreMounted(previous);
    if tree != [] {
      RecognisedNames(tree[|tree| - 1]);
    }
    var sources := BindSources(current) + BindSources(previous);
    if owner in prepared {
      var home := Parent(prepared[owner]);
      forall h
        ensures LiesIn(prepared[owner], h) <==> h == home
        ensures LiesIn(tree, h) <==> h == Parent(tree)
      {
        ParentIsWhereItLies(prepared[owner], h);
        ParentIsWhereItLies(tree, h);
      }
      KnownAreRecorded(indexed, owner, tree, home);
      ReachedIsUncertain(indexed, current, previous, tree, home);
    }
  }

  lemma KnownAreRecorded(indexed: map<Path, Identity>, owner: string, tree: Path, home: Path)
    ensures tree in Known(indexed, owner, home) <==>
      Parent(tree) == home && exists a :: a in indexed && indexed[a].owner == owner && indexed[a].tree == tree
  {
  }

  lemma ReachedIsUncertain(indexed: map<Path, Identity>, current: map<string, seq<Mount>>, previous: map<string, seq<Mount>>, tree: Path, home: Path)
    ensures var sources := BindSources(current) + BindSources(previous);
      NothingReaches(indexed, current, previous, tree, home) <==>
        !Uncertain(indexed, sources, home) && forall s :: s in sources && IsIndexed(indexed, s) ==> indexed[s.path].tree != tree
  {
    hide BindSources, MountedBy;
    BindsAreMounted(current);
    BindsAreMounted(previous);
    assert forall s :: s in BindSources(current) + BindSources(previous) <==> InUse(current, previous, s);
  }

  /** Every path that equals, contains or lies inside a mounted source is as it was. */
  ghost predicate MountsStay(before: Disk, after: Disk, models: map<string, seq<Mount>>) {
    forall service, m, p :: service in models && m in models[service] && m.Long? && m.kind == Some("bind") && m.source.Text? ==>
      (p in before && (p <= m.source.at.path || m.source.at.path <= p) ==> p in after && after[p] == before[p])
  }

  lemma MountsStayAtFirst(disk: Disk, models: map<string, seq<Mount>>)
    ensures MountsStay(disk, disk, models)
  {
  }

  lemma SourcesStayMounted(before: Disk, after: Disk, sources: set<Source>, models: map<string, seq<Mount>>)
    requires StillThere(before, after, sources) && BindSources(models) <= sources
    ensures MountsStay(before, after, models)
  {
    hide BindSources;
    BindsAreMounted(models);
    forall service, m, p | service in models && m in models[service] && m.Long? && m.kind == Some("bind") && m.source.Text?
      && p in before && (p <= m.source.at.path || m.source.at.path <= p)
      ensures p in after && after[p] == before[p]
    {
      assert MountedBy(models, m.source.at);
      assert m.source.at in sources;
    }
  }

  /** The disk without these trees; the index without their records. */
  predicate Gone(gone: set<(string, Path)>, p: Path) {
    exists g :: g in gone && g.1 <= p
  }

  function Without(disk: Disk, gone: set<(string, Path)>): Disk {
    map p | p in disk && !Gone(gone, p) :: disk[p]
  }

  predicate RecordOf(data: Path, e: Entry, gone: set<(string, Path)>) {
    e.kind != OtherKind && e.tree.Some? && (e.owner, data + e.tree.value) in gone
  }

  function Unlisted(data: Path, index: Index, gone: set<(string, Path)>): Index {
    map key | key in index && !RecordOf(data, index[key], gone) :: index[key]
  }

  /** Whatever the index says, deleting a tree touches a source in use exactly when the source
      belongs to another indexed tree that lies inside the deleted one, or around it with the
      deleted one on the mounted file's way. */
  lemma LossIsExactlyNesting(disk: Disk, data: Path, index: Index, indexed: map<Path, Identity>, sources: set<Source>,
                             prepared: map<string, Path>, owner: string, tree: Path, s: Source)
    requires Accounts(data, index, indexed)
    requires Obsolete(disk, indexed, sources, prepared, owner, tree) && s in sources
    ensures Overlap(tree, s.path) <==> IsIndexed(indexed, s) && NestedOnTheWay(tree, indexed[s.path])
  {
    hide ClaimedBy, IsTreeName;
    if IsIndexed(indexed, s) {
      var id := indexed[s.path];
      assert ClaimedBy(data, index, index.Keys, s.path, id);
      ClaimIsInsideTree(data, index, s.path, id);
      assert tree != id.tree;
      WayInside(tree, id.tree, id.file);
    } else if Overlap(tree, s.path) {
      assert false;
    }
  }

  ghost predicate NestedOnTheWay(tree: Path, id: Identity) {
    tree < id.tree || (id.tree < tree && Overlap(tree[|id.tree|..], id.file))
  }

  lemma SharedPrefix(root: Path, a: Path, b: Path)
    ensures root + a <= root + b <==> a <= b
  {
    assert (root + a)[|root|..] == a && (root + b)[|root|..] == b;
    if root + a <= root + b {
      assert a == (root + b)[|root|..][..|a|];
    }
  }

  lemma WayInside(tree: Path, other: Path, file: Path)
    requires tree != other
    ensures Overlap(tree, other + file) <==> tree < other || (other < tree && Overlap(tree[|other|..], file))
  {
    if other < tree {
      assert tree == other + tree[|other|..];
      SharedPrefix(other, tree[|other|..], file);
      SharedPrefix(other, file, tree[|other|..]);
    } else if Overlap(tree, other + file) {
      assert other == (other + file)[..|other|];
      assert |tree| <= |other| ==> tree == other[..|tree|];
    }
  }

  /** Such a loss: container b's tree was recorded inside an old tree of container a, and is mounted. */
  lemma NestedTreeIsLost() returns (data: Path, disk: Disk, index: Index, indexed: map<Path, Identity>, sources: set<Source>,
                                    prepared: map<string, Path>, tree: Path, s: Source)
    ensures Accounts(data, index, indexed) && s in sources
    ensures Obsolete(disk, indexed, sources, prepared, "a", tree) && tree < s.path
  {
    hide Accounts, Obsolete;
    var oldName, newName := seq(64, _ => 'a'), seq(64, _ => 'b');
    data := ["/", "d"];
    var outer, inner := ["a", "generated", oldName], ["a", "generated", oldName, "x"];
    tree := data + outer;
    disk := map[tree := Directory];
    index := map[outer := Entry(TreeKind, "a", Some(outer), "", {}), inner := Entry(TreeKind, "b", Some(inner), "", {})];
    indexed := map[data + outer := Identity("a", [], data + outer), data + inner := Identity("b", [], data + inner)];
    s := Source(data + inner, 0);
    sources := {s};
    prepared := map["a" := data + ["a", "generated", newName]];
    TwoTrees(data, "a", outer, "b", inner, index, indexed);
    assert data + inner == tree + ["x"];
    assert oldName[0] != newName[0];
    var home := data + ["a", "generated"];
    assert data + outer == home + [oldName] && data + inner == home + [oldName, "x"];
    assert data + ["a", "generated", newName] == home + [newName];
    OuterIsObsolete(home, oldName, newName, "x");
  }

  /** An old tree with another container's mounted tree inside it. */
  lemma OuterIsObsolete(home: Path, oldName: string, newName: string, name: string)
    requires IsDigest(oldName) && oldName[0] != REVISION[0] && oldName != newName && home != []
    ensures var tree, inner := home + [oldName], home + [oldName, name];
      Obsolete(map[tree := Directory], map[tree := Identity("a", [], tree), inner := Identity("b", [], inner)],
               {Source(inner, 0)}, map["a" := home + [newName]], "a", tree)
  {
    var tree, inner := home + [oldName], home + [oldName, name];
    var indexed := map[tree := Identity("a", [], tree), inner := Identity("b", [], inner)];
    assert |tree| != |inner|;
    assert Parent(tree) == home && Parent(home + [newName]) == home;
    assert indexed[tree].tree == tree && indexed[tree].owner == "a";
    assert tree in Known(indexed, "a", home);
    assert tree[|home|] != (home + [newName])[|home|];
  }

  lemma TwoTrees(data: Path, a: string, outer: Path, b: string, inner: Path, index: Index, indexed: map<Path, Identity>)
    requires outer < inner && index == map[outer := Entry(TreeKind, a, Some(outer), "", {}), inner := Entry(TreeKind, b, Some(inner), "", {})]
    requires Placed(outer, index[outer]) && Placed(inner, index[inner])
    requires indexed == map[data + outer := Identity(a, [], data + outer), data + inner := Identity(b, [], data + inner)]
    ensures Accounts(data, index, indexed)
  {
    hide Placed, Says;
    assert |data + outer| < |data + inner|;
    assert Claims(data, outer, index[outer]) == map[data + outer := Identity(a, [], data + outer)];
    assert Claims(data, inner, index[inner]) == map[data + inner := Identity(b, [], data + inner)];
    forall source, id
      ensures (source in indexed && indexed[source] == id) <==> ClaimedBy(data, index, index.Keys, source, id)
    {
      ClaimsAreSaid(data, outer, index[outer], source, id);
      ClaimsAreSaid(data, inner, index[inner], source, id);
      assert Says(data, outer, index[outer], source, id) <==> source == data + outer && id == Identity(a, [], data + outer);
      assert Says(data, inner, index[inner], source, id) <==> source == data + inner && id == Identity(b, [], data + inner);
      assert ClaimedBy(data, index, index.Keys, source, id) <==>
        Says(data, outer, index[outer], source, id) || Says(data, inner, index[inner], source, id) by {
        assert outer in index.Keys && inner in index.Keys && forall key :: key in index ==> key == outer || key == inner;
      }
    }
  }

  /** Nothing outside the data directory is ever deleted: no tree recorded there is read. */
  lemma DeletedIsInsideData(disk: Disk, data: Path, index: Index, indexed: map<Path, Identity>, sources: set<Source>,
                            prepared: map<string, Path>, owner: string, tree: Path)
    requires Accounts(data, index, indexed) && Obsolete(disk, indexed, sources, prepared, owner, tree)
    ensures data <= tree && !Absolute(tree[|data|..]) && ".." !in tree[|data|..]
  {
    hide ClaimedBy, Uncertain, Deletable;
    var s :| s in indexed && indexed[s].owner == owner && indexed[s].tree == tree;
    assert ClaimedBy(data, index, index.Keys, s, indexed[s]);
    ClaimIsInsideTree(data, index, s, indexed[s]);
    var key :| key in index && Placed(key, index[key]) && data + index[key].tree.value == tree;
    assert tree[|data|..] == index[key].tree.value;
  }

  /** On an index kept by `stage_files` no deleted tree equals, contains or lies inside a source. */
  lemma NothingInUseIsObsolete(disk: Disk, data: Path, app: Path, index: Index, indexed: map<Path, Identity>, sources: set<Source>,
                               prepared: map<string, Path>, owner: string, tree: Path, s: Source)
    requires Accounts(data, index, indexed) && Staged(app, index)
    requires Obsolete(disk, indexed, sources, prepared, owner, tree) && s in sources
    ensures !Overlap(tree, s.path)
  {
    hide Accounts, Staged, Uncertain, Deletable;
    LossIsExactlyNesting(disk, data, index, indexed, sources, prepared, owner, tree, s);
    if Overlap(tree, s.path) {
      var a :| a in indexed && indexed[a].owner == owner && indexed[a].tree == tree;
      StagedTreesDoNotNest(data, app, index, indexed, a, s.path);
      assert false;
    }
  }

  // ----- what pruning leaves -----

  ghost predicate OnlyObsolete(disk: Disk, indexed: map<Path, Identity>, sources: set<Source>, prepared: map<string, Path>, gone: set<(string, Path)>) {
    forall g :: g in gone ==> Obsolete(disk, indexed, sources, prepared, g.0, g.1)
  }

  /** Every obsolete tree of these owners is covered. */
  ghost predicate CoversObsolete(disk: Disk, indexed: map<Path, Identity>, sources: set<Source>, prepared: map<string, Path>,
                                 owners: set<string>, gone: set<(string, Path)>) {
    forall owner, tree :: owner in owners && Obsolete(disk, indexed, sources, prepared, owner, tree) ==> Gone(gone, tree)
  }

  /** Everything that equals, contains or lies inside a source is as it was. */
  ghost predicate StillThere(before: Disk, after: Disk, sources: set<Source>) {
    forall s, p :: s in sources && p in before && Overlap(p, s.path) ==> p in after && after[p] == before[p]
  }

  lemma WithoutBoth(disk: Disk, a: set<(string, Path)>, b: set<(string, Path)>)
    ensures Without(Without(disk, a), b) == Without(disk, a + b)
  {
    forall p
      ensures Gone(a + b, p) <==> Gone(a, p) || Gone(b, p)
    {
      if Gone(a, p) {
        var g :| g in a && g.1 <= p;
        assert g in a + b;
      }
      if Gone(b, p) {
        var g :| g in b && g.1 <= p;
        assert g in a + b;
      }
    }
  }

  lemma NothingGone(data: Path, disk: Disk, index: Index, indexed: map<Path, Identity>, sources: set<Source>, prepared: map<string, Path>)
    ensures Without(disk, {}) == disk && Unlisted(data, index, {}) == index
    ensures OnlyObsolete(disk, indexed, sources, prepared, {}) && CoversObsolete(disk, indexed, sources, prepared, {}, {})
  {
  }

  lemma PreparedIsWholeAtFirst(disk: Disk, data: Path, app: Path, prepared: map<string, Path>)
    ensures PreparedIsWhole(disk, disk, data, app, prepared)
  {
  }

  lemma MoreIsGone(gone: set<(string, Path)>, owner: string, tree: Path)
    ensures forall p :: Gone(gone, p) ==> Gone(gone + {(owner, tree)}, p)
    ensures Gone(gone + {(owner, tree)}, tree)
  {
    assert (owner, tree) in gone + {(owner, tree)};
    forall p | Gone(gone, p)
      ensures Gone(gone + {(owner, tree)}, p)
    {
      var g :| g in gone && g.1 <= p;
      assert g in gone + {(owner, tree)};
    }
  }

  lemma StillDeletable(disk: Disk, gone: set<(string, Path)>, tree: Path)
    ensures Deletable(Without(disk, gone), tree) <==> Deletable(disk, tree) && !Gone(gone, tree)
  {
  }

  lemma UnlistedBoth(data: Path, index: Index, a: set<(string, Path)>, b: set<(string, Path)>)
    ensures Unlisted(data, Unlisted(data, index, a), b) == Unlisted(data, index, a + b)
  {
  }

  /** A source in use survives: its tree is kept, and trees do not nest. */
  lemma UsedStays(disk: Disk, data: Path, app: Path, index: Index, indexed: map<Path, Identity>, sources: set<Source>,
                  prepared: map<string, Path>, gone: set<(string, Path)>)
    requires Accounts(data, index, indexed) && Staged(app, index)
    requires OnlyObsolete(disk, indexed, sources, prepared, gone)
    ensures StillThere(disk, Without(disk, gone), sources)
  {
    hide Accounts, Staged, Obsolete;
    forall s, p | s in sources && p in disk && Overlap(p, s.path)
      ensures !Gone(gone, p)
    {
      forall g | g in gone
        ensures !(g.1 <= p)
      {
        NothingInUseIsObsolete(disk, data, app, index, indexed, sources, prepared, g.0, g.1, s);
        PrefixesOverlap(g.1, p, s.path);
      }
    }
  }

  lemma PrefixesOverlap(a: Path, p: Path, b: Path)
    requires Overlap(p, b) && !Overlap(a, b)
    ensures !(a <= p)
  {
    assert a <= p && p <= b ==> a <= b;
    assert a <= p && b <= p ==> Overlap(a, b);
  }

  lemma ObsoleteTreeOf(disk: Disk, data: Path, app: Path, index: Index, indexed: map<Path, Identity>, sources: set<Source>,
                       prepared: map<string, Path>, owner: string, tree: Path)
    requires Accounts(data, index, indexed) && Staged(app, index)
    requires Obsolete(disk, indexed, sources, prepared, owner, tree)
    ensures |tree| == |data| + |app| + 3 && tree[|data| + |app|] == owner
    ensures tree != prepared[owner]
  {
    hide ClaimedBy, Staged, Uncertain, Deletable;
    var s :| s in indexed && indexed[s].owner == owner && indexed[s].tree == tree;
    assert ClaimedBy(data, index, index.Keys, s, indexed[s]);
    StagedTreeOf(data, app, index, s, indexed[s]);
  }

  lemma OnePrefixOfALength(a: Path, b: Path, p: Path)
    requires |a| == |b| && a != b && b <= p
    ensures !(a <= p)
  {
    assert b == p[..|a|];
  }

  /** Every tree prepared in its owner's own home is as it was. */
  ghost predicate PreparedIsWhole(before: Disk, after: Disk, data: Path, app: Path, prepared: map<string, Path>) {
    forall owner, name, p :: owner in prepared && p in before && InTree(prepared[owner], data + Home(app, owner), name, p) ==>
      p in after && after[p] == before[p]
  }

  ghost predicate InTree(tree: Path, home: Path, name: string, p: Path) {
    tree == home + [name] && tree <= p
  }

  /** A tree prepared in its owner's own home is never deleted, nor anything in it. */
  lemma PreparedStays(disk: Disk, data: Path, app: Path, index: Index, indexed: map<Path, Identity>, sources: set<Source>,
                      prepared: map<string, Path>, gone: set<(string, Path)>, owner: string, name: string, p: Path)
    requires Accounts(data, index, indexed) && Staged(app, index)
    requires OnlyObsolete(disk, indexed, sources, prepared, gone)
    requires owner in prepared && prepared[owner] == data + Home(app, owner) + [name] && prepared[owner] <= p
    ensures !Gone(gone, p)
  {
    hide Accounts, Staged, Obsolete;
    forall g | g in gone
      ensures !(g.1 <= p)
    {
      ObsoleteTreeOf(disk, data, app, index, indexed, sources, prepared, g.0, g.1);
      assert prepared[owner][|data| + |app|] == owner;
      OnePrefixOfALength(g.1, prepared[owner], p);
    }
  }

  lemma PreparedStaysWhole(disk: Disk, data: Path, app: Path, index: Index, indexed: map<Path, Identity>, sources: set<Source>,
                           prepared: map<string, Path>, gone: set<(string, Path)>)
    requires Accounts(data, index, indexed) && Staged(app, index)
    requires OnlyObsolete(disk, indexed, sources, prepared, gone)
    ensures PreparedIsWhole(disk, Without(disk, gone), data, app, prepared)
  {
    hide Accounts, Staged, OnlyObsolete, Gone, Home;
    forall owner, name, p | owner in prepared && p in disk && InTree(prepared[owner], data + Home(app, owner), name, p)
      ensures p in Without(disk, gone)
    {
      PreparedStays(disk, data, app, index, indexed, sources, prepared, gone, owner, name, p);
    }
  }

  lemma CoversBoth(disk: Disk, indexed: map<Path, Identity>, sources: set<Source>, prepared: map<string, Path>,
                   owners: set<string>, owner: string, gone: set<(string, Path)>, more: set<(string, Path)>)
    requires CoversObsolete(disk, indexed, sources, prepared, owners, gone) && gone <= more
    requires CoversObsolete(disk, indexed, sources, prepared, {owner}, more)
    ensures CoversObsolete(disk, indexed, sources, prepared, owners + {owner}, more)
  {
    hide Obsolete;
    forall p | Gone(gone, p)
      ensures Gone(more, p)
    {
    }
  }

  lemma AgreementOutlivesTrees(h: Hashes, disk: Disk, data: Path, app: Path, index: Index, indexed: map<Path, Identity>,
                               sources: set<Source>, prepared: map<string, Path>, gone: set<(string, Path)>)
    requires Accounts(data, index, indexed) && Staged(app, index) && WellFormed(disk) && Agrees(h, data, disk, index)
    requires OnlyObsolete(disk, indexed, sources, prepared, gone)
    ensures WellFormed(Without(disk, gone))
    ensures Staged(app, Unlisted(data, index, gone))
    ensures Agrees(h, data, Without(disk, gone), Unlisted(data, index, gone))
  {
    hide Accounts, Obsolete, IsTreeName;
    forall p, k | p in Without(disk, gone) && 0 <= k < |p|
      ensures !Gone(gone, p[..k])
    {
      assert forall g :: g in gone && g.1 <= p[..k] ==> g.1 <= p;
    }
    forall key | key in index && index[key].kind != OtherKind && Gone(gone, data + key)
      ensures RecordOf(data, index[key], gone)
    {
      var g :| g in gone && g.1 <= data + key;
      ObsoleteTreeOf(disk, data, app, index, indexed, sources, prepared, g.0, g.1);
      var tree := index[key].tree.value;
      assert tree <= key;
      assert (data + key)[..|g.1|] == data + tree;
      assert (data + tree)[|data| + |app|] == index[key].owner;
      assert g.1 == (data + key)[..|g.1|];
      assert g == (g.0, g.1);
    }
  }

  // ----- the operations -----

  datatype StageError = Escapes | Modified | Failed

  datatype Outcome = Preserved | Refused(source: Path) | Pruned(gone: set<(string, Path)>)

  /** Nothing that was on disk changed. */
  ghost predicate Untouched(before: Disk, after: Disk) {
    forall p :: p in before ==> p in after && after[p] == before[p]
  }

  /** Only directories leading to this path are new. */
  ghost predicate OnlyPathAdded(before: Disk, after: Disk, path: Path) {
    Untouched(before, after) && forall p :: p in after && p !in before ==> p <= path && after[p].Directory?
  }

  function Ancestry(path: Path): set<Path> {
    set k | 0 <= k <= |path| :: path[..k]
  }

  function MadeDirectories(paths: set<Path>): Disk {
    map p | p in paths :: Directory
  }

  lemma PathMade(disk: Disk, path: Path, after: Disk)
    requires WellFormed(disk)
    requires forall p :: p in Ancestry(path) && p in disk ==> disk[p].Directory?
    requires after == disk + MadeDirectories(Ancestry(path))
    ensures WellFormed(after) && OnlyPathAdded(disk, after, path)
    ensures path in after && after[path].Directory?
  {
    assert path[..|path|] == path && path in Ancestry(path);
    forall p, k | p in after && 0 <= k < |p|
      ensures p[..k] in after && after[p[..k]].Directory?
    {
      if p in Ancestry(path) {
        var n :| 0 <= n <= |path| && p == path[..n];
        assert p[..k] == path[..k];
        assert p[..k] in Ancestry(path);
      }
    }
  }

  lemma LayoutIsTree(files: map<Path, string>, rest: Path, k: nat)
    requires !Clashes(files) && rest in Layout(files) && k < |rest|
    ensures rest[..k] in Layout(files) && Layout(files)[rest[..k]] == Directory
  {
    if rest in files {
      assert rest[..k] in Folders(files.Keys);
    } else {
      var name, n :| name in files && 0 <= n < |name| && rest == name[..n];
      assert rest[..k] == name[..k];
      assert rest[..k] in Folders(files.Keys);
    }
  }

  lemma NothingBelow(disk: Disk, absent: Path, p: Path)
    requires WellFormed(disk) && absent !in disk && absent <= p
    ensures p !in disk
  {
    assert p[..|absent|] == absent;
    assert |absent| == |p| ==> p == absent;
  }

  lemma TreePlanted(disk: Disk, root: Path, name: string, files: map<Path, string>, after: Disk)
    requires WellFormed(disk) && root in disk && disk[root].Directory?
    requires root + [name] !in disk && !Clashes(files)
    requires after == disk + Planted(Layout(files), root + [name])
    ensures WellFormed(after) && Untouched(disk, after)
    ensures Under(after, root + [name]) == Layout(files)
    ensures forall p :: p in after && p !in disk ==> root + [name] <= p
  {
    hide Layout, Planted, Under;
    var destination := root + [name];
    forall p | destination <= p
      ensures p !in disk
    {
      NothingBelow(disk, destination, p);
    }
    PlantedIsUnder(disk, Layout(files), destination);
    forall p
      ensures p in Planted(Layout(files), destination) <==> destination <= p && p[|destination|..] in Layout(files)
    {
      PlantedAt(Layout(files), destination, p);
    }
    forall p, k | p in after && 0 <= k < |p|
      ensures p[..k] in after && after[p[..k]].Directory?
    {
      PlantedAt(Layout(files), destination, p);
      PlantedAt(Layout(files), destination, p[..k]);
      if p in Planted(Layout(files), destination) {
        if k < |destination| {
          assert p[..k] == destination[..k] && destination[..|root|] == root;
          assert k < |root| ==> destination[..k] == root[..k];
          assert destination[..k] in disk && disk[destination[..k]].Directory?;
        } else {
          LayoutIsTree(files, p[|destination|..], k - |destination|);
          assert p[..k][|destination|..] == p[|destination|..][..k - |destination|];
        }
      }
    }
  }

  lemma AgreementLasts(h: Hashes, data: Path, before: Disk, after: Disk, index: Index)
    requires Agrees(h, data, before, index) && Untouched(before, after)
    ensures Agrees(h, data, after, index)
  {
  }

  ghost predicate IsHome(app: Path, owner: string, name: string, tree: Path) {
    !Absolute(app) && ".." !in app && IsPlainPart(owner) && IsTreeName(name) && tree == Home(app, owner) + [name]
  }

  lemma RecordIsStaged(app: Path, owner: string, name: string, tree: Path, key: Path, e: Entry)
    requires IsHome(app, owner, name, tree) && e.owner == owner && e.tree == Some(tree)
    requires (key == tree && e.kind == TreeKind) || (tree < key && !BadName(key[|tree|..]) && e.kind == FileKind)
    ensures Placed(key, e) && IsStaged(app, owner, tree)
  {
    hide IsTreeName;
    TreeNameIsPlain(name);
    var rest := key[|tree|..];
    assert key == tree + rest;
    assert name in tree;
    assert ".." !in tree;
    assert !Absolute(tree) by {
      assert app != [] ==> tree[0] == app[0];
    }
    assert tree != [] && key[0] == tree[0];
    assert key != tree ==> ".." !in rest;
  }

  lemma RecordIsOnDisk(h: Hashes, data: Path, disk: Disk, tree: Path, files: map<Path, string>, key: Path)
    requires [] !in files && Under(disk, data + tree) == Layout(files)
    requires tree <= key && (key == tree || key[|tree|..] in files)
    ensures data + key in disk
    ensures disk[data + key] == if key == tree then Directory else File(files[key[|tree|..]])
  {
    hide Layout, Under;
    var rest := key[|tree|..];
    assert data + key == data + tree + rest;
    UnderAt(disk, data + tree, rest);
    LayoutAt(files, rest);
  }

  lemma TreeListed(h: Hashes, data: Path, app: Path, disk: Disk, index: Index, owner: string, name: string, files: map<Path, string>, tree: Path,
                   producers: set<string>)
    requires IsHome(app, owner, name, tree)
    requires forall f :: f in files ==> !BadName(f)
    requires Staged(app, index) && Agrees(h, data, disk, index)
    requires Under(disk, data + tree) == Layout(files)
    ensures Staged(app, index + Records(h, owner, tree, files, producers))
    ensures Agrees(h, data, disk, index + Records(h, owner, tree, files, producers))
  {
    hide Records, Under, Layout, IsHome, IsStaged, BadName, Placed;
    var records := Records(h, owner, tree, files, producers);
    var whole := index + records;
    assert [] !in files by { EmptyIsBad(); }
    forall key | key in records
      ensures records[key].tree == Some(tree) && records[key].owner == owner
      ensures Placed(key, records[key]) && IsStaged(app, owner, tree)
      ensures data + key in disk
      ensures records[key].kind == TreeKind ==> disk[data + key].Directory?
      ensures records[key].kind == FileKind ==> disk[data + key].File? && records[key].digest == h.text(disk[data + key].text)
    {
      RecordsAt(h, owner, tree, files, producers, key);
      RecordIsStaged(app, owner, name, tree, key, records[key]);
      RecordIsOnDisk(h, data, disk, tree, files, key);
    }
    assert forall key :: key in whole ==> whole[key] == if key in records then records[key] else index[key];
  }

  lemma LayoutAt(files: map<Path, string>, rest: Path)
    requires [] !in files && (rest == [] || rest in files)
    ensures rest in Layout(files) && Layout(files)[rest] == if rest == [] then Directory else File(files[rest])
  {
    FoldersHoldRoot(files.Keys);
  }

  lemma TreeNameIsPlain(name: string)
    requires IsTreeName(name)
    ensures IsPlainPart(name)
  {
  }

  /** Services running at the start that this operation does not apply. */
  function Unapplied(running: set<string>, targets: set<string>, declared: Option<set<string>>): set<string> {
    if declared.Some? then (running - targets) * declared.value else running - targets
  }

  const DIRECTORY_MODE: nat := 493

  function TreeModes(layout: map<Path, Node>, root: Path, mode: nat): map<Path, nat> {
    map p | p in Planted(layout, root) :: if Planted(layout, root)[p].Directory? then DIRECTORY_MODE else mode
  }

  /** The containers whose declarations name this consumer. */
  function Producers(snapshot: map<string, set<string>>, consumer: string): set<string> {
    set n | n in snapshot && consumer in snapshot[n]
  }

  // ----- what staging leaves, path by path -----

  /** A file name that leads out of its tree. */
  ghost predicate LeadsOut(name: Path) {
    name == [] || name[0] == "/" || exists part :: part in name && (part == ".." || '\\' in part)
  }

  lemma BadNamesLeadOut(name: Path)
    ensures BadName(name) <==> LeadsOut(name)
  {
  }

  /** Something on the way to this directory, or in its place, is no directory. */
  ghost predicate IsBlocked(disk: Disk, path: Path) {
    exists k :: 0 <= k <= |path| && path[..k] in disk && disk[path[..k]] != Directory
  }

  lemma BlockedOnTheWay(disk: Disk, path: Path)
    ensures IsBlocked(disk, path) <==> exists p :: p in Ancestry(path) && p in disk && !disk[p].Directory?
  {
  }

  lemma ClashIsNesting(files: map<Path, string>)
    requires [] !in files
    ensures Clashes(files) <==> exists a, b :: a in files && b in files && a < b
  {
    forall name
      ensures name in Folders(files.Keys) <==> name == [] || exists b :: b in files && name < b
    {
      FolderAt(files.Keys, name);
    }
  }

  /** The directory holds these files, the folders on their way, and nothing else. */
  ghost predicate HoldsExactly(disk: Disk, root: Path, files: map<Path, string>) {
    && root in disk && disk[root] == Directory
    && (forall name :: name in files ==> root + name in disk && disk[root + name] == File(files[name]))
    && (forall name, k :: name in files && 0 <= k < |name| ==> root + name[..k] in disk && disk[root + name[..k]] == Directory)
    && (forall rest: Path :: rest != [] && root + rest in disk ==> rest in files || exists name :: name in files && rest < name)
  }

  lemma LayoutIsHeld(disk: Disk, root: Path, files: map<Path, string>)
    requires [] !in files
    ensures HoldsExactly(disk, root, files) <==> Under(disk, root) == Layout(files) && !Clashes(files)
  {
    hide Under, Layout, Folders;
    var view := Under(disk, root);
    assert root + [] == root;
    forall rest
      ensures rest in view <==> root + rest in disk
      ensures rest in view ==> view[rest] == disk[root + rest]
      ensures rest in Folders(files.Keys) <==> rest == [] || exists name :: name in files && rest < name
      ensures rest in Layout(files) <==> rest in Folders(files.Keys) || rest in files
      ensures rest in Layout(files) ==> Layout(files)[rest] == if rest in files then File(files[rest]) else Directory
    {
      UnderAt(disk, root, rest);
      FolderAt(files.Keys, rest);
      LayoutEntry(files, rest);
    }
    if Clashes(files) {
      ClashIsNotHeld(disk, root, files);
    }
    if HoldsExactly(disk, root, files) {
      forall rest
        ensures rest in view <==> rest in Layout(files)
        ensures rest in view ==> view[rest] == Layout(files)[rest]
      {
        if name :| name in files && rest < name {
          assert rest == name[..|rest|];
        }
      }
      assert view == Layout(files);
    }
    if view == Layout(files) && !Clashes(files) {
      forall name, k | name in files && 0 <= k < |name|
        ensures root + name[..k] in disk && disk[root + name[..k]] == Directory
      {
        assert name[..k] < name;
        assert name[..k] in Layout(files) && name[..k] !in files;
      }
      forall name | name in files
        ensures root + name in disk && disk[root + name] == File(files[name])
      {
        assert name in view;
      }
    }
  }

  lemma ClashIsNotHeld(disk: Disk, root: Path, files: map<Path, string>)
    requires [] !in files && Clashes(files)
    ensures !HoldsExactly(disk, root, files)
  {
    var name :| name in files && name in Folders(files.Keys);
    FolderAt(files.Keys, name);
    var other :| other in files && name < other;
    assert other[..|name|] == name;
  }

  lemma FolderAt(files: set<Path>, rest: Path)
    ensures rest in Folders(files) <==> rest == [] || exists name :: name in files && rest < name
  {
    if name :| name in files && rest < name {
      assert rest == name[..|rest|];
    }
  }

  lemma LayoutEntry(files: map<Path, string>, rest: Path)
    ensures rest in Layout(files) <==> rest in Folders(files.Keys) || rest in files
    ensures rest in Layout(files) ==> Layout(files)[rest] == if rest in files then File(files[rest]) else Directory
  {
  }

  /** The index lists the tree and each of its files, as this container's and with the producers,
      and is otherwise as before. */
  ghost predicate ListsTree(h: Hashes, before: Index, after: Index, owner: string, tree: Path, files: map<Path, string>, producers: set<string>) {
    && (forall key :: key in after <==> key in before || key == tree || exists name :: name in files && key == tree + name)
    && tree in after && after[tree] == Entry(TreeKind, owner, Some(tree), "", producers)
    && (forall name :: name in files ==> tree + name in after && after[tree + name] == Entry(FileKind, owner, Some(tree), h.text(files[name]), producers))
    && (forall key :: key in before && !(tree <= key) ==> after[key] == before[key])
  }

  lemma RecordsList(h: Hashes, before: Index, owner: string, tree: Path, files: map<Path, string>, producers: set<string>)
    requires [] !in files
    ensures ListsTree(h, before, before + Records(h, owner, tree, files, producers), owner, tree, files, producers)
  {
    hide Records;
    var records := Records(h, owner, tree, files, producers);
    forall key
      ensures key in records <==> key == tree || exists name :: name in files && key == tree + name
      ensures key in records ==> tree <= key
    {
      RecordsAt(h, owner, tree, files, producers, key);
      if tree < key && key[|tree|..] in files {
        assert key == tree + key[|tree|..];
      }
      if name :| name in files && key == tree + name {
        assert key[|tree|..] == name;
      }
    }
    forall name | name in files
      ensures records[tree + name] == Entry(FileKind, owner, Some(tree), h.text(files[name]), producers)
    {
      RecordsAt(h, owner, tree, files, producers, tree + name);
      assert (tree + name)[|tree|..] == name && tree + name != tree;
    }
    RecordsAt(h, owner, tree, files, producers, tree);
  }

  /** Directories of the tree can be read by all, files have the mode asked for. */
  ghost predicate ModesSet(before: map<Path, nat>, after: map<Path, nat>, disk: Disk, root: Path, mode: nat) {
    && (forall p :: root <= p && p in disk ==> p in after && after[p] == if disk[p] == Directory then 493 else mode)
    && (forall p :: !(root <= p) ==> (p in after <==> p in before) && (p in after ==> after[p] == before[p]))
  }

  lemma TreeModesSet(before: map<Path, nat>, disk: Disk, root: Path, files: map<Path, string>, mode: nat)
    requires Under(disk, root) == Layout(files)
    ensures ModesSet(before, before + TreeModes(Layout(files), root, mode), disk, root, mode)
  {
    hide Under, Layout, Planted;
    forall p
      ensures p in Planted(Layout(files), root) <==> root <= p && p in disk
      ensures p in Planted(Layout(files), root) ==> Planted(Layout(files), root)[p] == disk[p]
    {
      PlantedAt(Layout(files), root, p);
      if root <= p {
        UnderAt(disk, root, p[|root|..]);
        assert root + p[|root|..] == p;
      }
    }
  }

  class GeneratedTrees {
    const h: Hashes
    const data: Path
    const app: Path
    var disk: Disk
    var index: Index
    /** The modes given to the directories and files of trees. */
    var modes: map<Path, nat>

    ghost predicate Valid()
      reads this
    {
      && MakesDigests(h) && !Absolute(app) && ".." !in app
      && WellFormed(disk) && Staged(app, index) && Agrees(h, data, disk, index)
    }

    function Destination(owner: string, files: map<Path, string>, revision: Option<string>, mode: nat): Path {
      data + Home(app, owner) + [TreeName(h, files, revision, mode)]
    }

    /** `stage_files`: afterwards the tree holds exactly these files and the index lists them;
        nothing that was there before changes, and a differing tree already there is refused. */
    method Stage(owner: string, files: map<Path, string>, revision: Option<string>, mode: nat,
                 snapshot: map<string, set<string>>, writable: bool)
      returns (r: Result<Path, StageError>)
      requires Valid() && IsPlainPart(owner)
      modifies `disk, `index, `modes
      ensures Valid() && Untouched(old(disk), disk)
      ensures r.Ok? ==>
        && r.value == data + app + [owner, "generated", if revision.Some? then "revision-" + h.text(revision.value) else h.tree(mode, files)]
        && HoldsExactly(disk, r.value, files)
        && (forall p :: p in disk && p !in old(disk) ==> p <= r.value || r.value <= p)
        && ListsTree(h, old(index), index, owner, r.value[|data|..], files, set n | n in snapshot && owner in snapshot[n])
        && (if r.value in old(disk) then modes == old(modes) else ModesSet(old(modes), modes, disk, r.value, mode))
      ensures r.Err? ==> index == old(index) && modes == old(modes) && OnlyPathAdded(old(disk), disk, data + app + [owner, "generated"])
      ensures r.Err? && r.error == Escapes <==> exists name :: name in files && LeadsOut(name)
      ensures r.Err? && r.error == Modified <==>
        && (forall name :: name in files ==> !LeadsOut(name))
        && Destination(owner, files, revision, mode) in old(disk)
        && !HoldsExactly(old(disk), Destination(owner, files, revision, mode), files)
      ensures r.Err? && r.error == Failed <==>
        && (forall name :: name in files ==> !LeadsOut(name)) && Destination(owner, files, revision, mode) !in old(disk)
        && (!writable || IsBlocked(old(disk), data + app + [owner, "generated"]) || exists a, b :: a in files && b in files && a < b)
    {
      hide IsBlocked, LeadsOut, BadName, HoldsExactly, ListsTree, ModesSet, Clashes, TreeModes, Producers, Under, Layout, Staged, Agrees, WellFormed, Records;
      forall name: Path ensures BadName(name) <==> LeadsOut(name) {
        BadNamesLeadOut(name);
      }
      EmptyIsBad();
      if exists name :: name in files && BadName(name) {
        return Err(Escapes);
      }
      var destination := Destination(owner, files, revision, mode);
      LayoutIsHeld(disk, destination, files);
      ClashIsNesting(files);
      if destination in disk {
        MatchIsExact(Under(disk, destination), files);
        if !Matches(Under(disk, destination), files) {
          return Err(Modified);
        }
      } else {
        var ok := Plant(data + Home(app, owner), TreeName(h, files, revision, mode), files, mode, writable);
        if !ok {
          DestinationParts(owner, files, revision, mode);
          return Err(Failed);
        }
      }
      List(owner, files, revision, mode, snapshot);
      LayoutIsHeld(disk, destination, files);
      DestinationParts(owner, files, revision, mode);
      r := Ok(destination);
    }

    lemma DestinationParts(owner: string, files: map<Path, string>, revision: Option<string>, mode: nat)
      ensures Destination(owner, files, revision, mode) ==
        data + app + [owner, "generated", if revision.Some? then "revision-" + h.text(revision.value) else h.tree(mode, files)]
      ensures data + Home(app, owner) == data + app + [owner, "generated"]
    {
    }

    /** The entries in the index. */
    method List(owner: string, files: map<Path, string>, revision: Option<string>, mode: nat, snapshot: map<string, set<string>>)
      requires Valid() && IsPlainPart(owner) && forall f :: f in files ==> !BadName(f)
      requires Under(disk, Destination(owner, files, revision, mode)) == Layout(files)
      modifies `index
      ensures Valid()
      ensures ListsTree(h, old(index), index, owner, Destination(owner, files, revision, mode)[|data|..], files, set n | n in snapshot && owner in snapshot[n])
    {
      hide Records, Under, Layout, BadName, TreeName, ListsTree, Staged, Agrees, IsTreeName, WellFormed;
      EmptyIsBad();
      TreeNamesAreRecognised(h, files, revision, mode);
      var destination := Destination(owner, files, revision, mode);
      var name := TreeName(h, files, revision, mode);
      var producers := Producers(snapshot, owner);
      var tree := destination[|data|..];
      assert destination == data + (Home(app, owner) + [name]);
      assert IsHome(app, owner, name, tree);
      TreeListed(h, data, app, disk, index, owner, name, files, tree, producers);
      RecordsList(h, index, owner, tree, files, producers);
      assert producers == set n | n in snapshot && owner in snapshot[n];
      index := index + Records(h, owner, tree, files, producers);
    }

    /** Make the directories on the way and, if that can be done, the tree. */
    method Plant(root: Path, name: string, files: map<Path, string>, mode: nat, writable: bool) returns (ok: bool)
      requires WellFormed(disk) && Agrees(h, data, disk, index) && [] !in files && root + [name] !in disk
      modifies `disk, `modes
      ensures WellFormed(disk) && Agrees(h, data, disk, index) && Untouched(old(disk), disk)
      ensures ok ==>
        && Under(disk, root + [name]) == Layout(files) && !Clashes(files) && ModesSet(old(modes), modes, disk, root + [name], mode)
        && forall p :: p in disk && p !in old(disk) ==> p <= root + [name] || root + [name] <= p
      ensures !ok ==> modes == old(modes) && OnlyPathAdded(old(disk), disk, root)
      ensures ok <==> writable && !IsBlocked(old(disk), root) && !Clashes(files)
    {
      hide IsBlocked, Under, Layout, Folders, Planted, WellFormed, Agrees, TreeModes, ModesSet, Clashes, Ancestry;
      var ancestry := Ancestry(root);
      BlockedOnTheWay(disk, root);
      if exists p :: p in ancestry && p in disk && !disk[p].Directory? {
        return false;
      }
      disk := disk + MadeDirectories(ancestry);
      PathMade(old(disk), root, disk);
      AgreementLasts(h, data, old(disk), disk, index);
      if !writable || Clashes(files) {
        return false;
      }
      ghost var made := disk;
      assert root + [name] !in disk;
      disk := disk + Planted(Layout(files), root + [name]);
      modes := modes + TreeModes(Layout(files), root + [name], mode);
      TreePlanted(made, root, name, files, disk);
      AgreementLasts(h, data, made, disk, index);
      TreeModesSet(old(modes), disk, root + [name], files, mode);
      ok := true;
    }

    /** Delete one tree and then its records. */
    method Delete(owner: string, tree: Path)
      modifies `disk, `index
      ensures disk == Without(old(disk), {(owner, tree)})
      ensures index == Unlisted(data, old(index), {(owner, tree)})
    {
      hide WellFormed, Staged, Agrees;
      var removed := set key | key in index && index[key].kind != OtherKind && index[key].owner == owner
        && index[key].tree.Some? && data + index[key].tree.value == tree;
      disk := map p | p in disk && !(tree <= p) :: disk[p];
      index := index - removed;
      assert forall p :: Gone({(owner, tree)}, p) <==> tree <= p by {
        assert (owner, tree) in {(owner, tree)};
      }
    }

    /** `prune_prepared_files`: nothing when a running service outside the operation has no applied
        model; otherwise every obsolete tree goes, with its records and nothing else. */
    method Prune(running: set<string>, targets: set<string>, declared: Option<set<string>>, untracked: set<string>,
                 current: map<string, seq<Mount>>, previous: map<string, seq<Mount>>, prepared: map<string, Path>)
      returns (outcome: Outcome, ghost indexed: map<Path, Identity>)
      modifies `disk, `index
      ensures outcome.Preserved? <==>
        exists s :: s in untracked && s in running && s !in targets && (declared.Some? ==> s in declared.value)
      ensures outcome.Refused? ==> Contested(data, old(index), outcome.source)
      ensures !outcome.Pruned? ==> disk == old(disk) && index == old(index)
      ensures outcome.Pruned? ==>
        && Accounts(data, old(index), indexed)
        && disk == Without(old(disk), outcome.gone) && index == Unlisted(data, old(index), outcome.gone)
        && (forall g :: g in outcome.gone ==> IsLeftOver(old(disk), indexed, current, previous, prepared, g.0, g.1))
        && (forall owner, tree :: IsLeftOver(old(disk), indexed, current, previous, prepared, owner, tree) ==> Gone(outcome.gone, tree))
      ensures old(Valid()) ==> Valid() && !outcome.Refused?
      ensures old(Valid()) ==> MountsStay(old(disk), disk, current) && MountsStay(old(disk), disk, previous)
      ensures old(Valid()) ==> PreparedIsWhole(old(disk), disk, data, app, prepared)
    {
      hide Accounts, Staged, Agrees, WellFormed, Without, Unlisted, BindSources, Obsolete, Gone, PreparedIsWhole, MountsStay, IsLeftOver;
      ghost var before, listed, valid := disk, index, Valid();
      PreparedIsWholeAtFirst(disk, data, app, prepared);
      MountsStayAtFirst(disk, current);
      MountsStayAtFirst(disk, previous);
      indexed := map[];
      if untracked * Unapplied(running, targets, declared) != {} {
        var s :| s in untracked * Unapplied(running, targets, declared);
        return Preserved, indexed;
      }
      assert forall s :: s in untracked && s in Unapplied(running, targets, declared) ==> s in untracked * Unapplied(running, targets, declared);
      var sources := BindSources(current) + BindSources(previous);
      var read := IndexedSources(data, index);
      if read.Err? {
        if valid {
          var a, b :| a != b && Claimed(data, index, read.error, a) && Claimed(data, index, read.error, b);
          StagedHasOneClaim(data, app, index, read.error, a, b);
          assert false;
        }
        return Refused(read.error), indexed;
      }
      indexed := read.value;
      var gone: set<(string, Path)> := {};
      NothingGone(data, disk, index, indexed, sources, prepared);
      var pending := prepared.Keys;
      assert prepared.Keys - pending == {};
      while pending != {}
        invariant pending <= prepared.Keys
        invariant disk == Without(before, gone) && index == Unlisted(data, listed, gone)
        invariant OnlyObsolete(before, indexed, sources, prepared, gone)
        invariant CoversObsolete(before, indexed, sources, prepared, prepared.Keys - pending, gone)
      {
        var owner :| owner in pending;
        ghost var was := gone;
        gone := PruneOwner(owner, before, listed, read.value, sources, prepared, gone);
        CoversBoth(before, indexed, sources, prepared, prepared.Keys - pending, owner, was, gone);
        assert prepared.Keys - (pending - {owner}) == prepared.Keys - pending + {owner};
        pending := pending - {owner};
      }
      assert prepared.Keys - pending == prepared.Keys;
      if valid {
        UsedStays(before, data, app, listed, indexed, sources, prepared, gone);
        SourcesStayMounted(before, disk, sources, current);
        SourcesStayMounted(before, disk, sources, previous);
        PreparedStaysWhole(before, data, app, listed, indexed, sources, prepared, gone);
        AgreementOutlivesTrees(h, before, data, app, listed, indexed, sources, prepared, gone);
      }
      forall owner, tree
        ensures IsLeftOver(before, indexed, current, previous, prepared, owner, tree) <==> Obsolete(before, indexed, sources, prepared, owner, tree)
      {
        LeftOverIsObsolete(before, indexed, current, previous, prepared, owner, tree);
      }
      ObsoleteHasOwner(before, indexed, sources, prepared);
      outcome := Pruned(gone);
    }

    /** One container's turn. */
    method PruneOwner(owner: string, ghost before: Disk, ghost listed: Index, indexed: map<Path, Identity>, sources: set<Source>,
                      prepared: map<string, Path>, gone: set<(string, Path)>)
      returns (more: set<(string, Path)>)
      requires owner in prepared
      requires disk == Without(before, gone) && index == Unlisted(data, listed, gone)
      requires OnlyObsolete(before, indexed, sources, prepared, gone)
      modifies `disk, `index
      ensures disk == Without(before, more) && index == Unlisted(data, listed, more)
      ensures gone <= more && OnlyObsolete(before, indexed, sources, prepared, more)
      ensures CoversObsolete(before, indexed, sources, prepared, {owner}, more)
    {
      hide Without, Unlisted, Gone, Known, Kept, Uncertain, IsTreeName;
      more := gone;
      var candidate := prepared[owner];
      if Uncertain(indexed, sources, Parent(candidate)) {
        return;
      }
      var all := Known(indexed, owner, Parent(candidate)) - Kept(indexed, sources, candidate);
      var trees := all;
      while trees != {}
        invariant trees <= all && gone <= more
        invariant disk == Without(before, more) && index == Unlisted(data, listed, more)
        invariant OnlyObsolete(before, indexed, sources, prepared, more)
        invariant forall tree :: tree in all - trees && Deletable(before, tree) ==> Gone(more, tree)
      {
        var tree :| tree in trees;
        trees := trees - {tree};
        StillDeletable(before, more, tree);
        if Deletable(disk, tree) {
          Delete(owner, tree);
          WithoutBoth(before, more, {(owner, tree)});
          UnlistedBoth(data, listed, more, {(owner, tree)});
          MoreIsGone(more, owner, tree);
          more := more + {(owner, tree)};
        }
      }
    }
  }

  lemma ObsoleteHasOwner(disk: Disk, indexed: map<Path, Identity>, sources: set<Source>, prepared: map<string, Path>)
    ensures forall owner, tree :: Obsolete(disk, indexed, sources, prepared, owner, tree) ==> owner in prepared.Keys
  {
  }

  lemma EmptyIsBad()
    ensures BadName([])
  {
  }
}

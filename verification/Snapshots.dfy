/** Applied-model snapshots: one file per service and one index entry per file, written
    by `record` and put back by `restore`. */
module Snapshots {
  import opened Options

  type Byte = b: int | 0 <= b < 256

  /** A service name as its UTF-8 bytes. */
  type Service = seq<Byte>

  type Text = string
  type FileName = string

  // ----- file names -----

  const DIGITS: string := "0123456789abcdef"

  function Hex(s: Service): string {
    if s == [] then "" else [DIGITS[s[0] / 16], DIGITS[s[0] % 16]] + Hex(s[1..])
  }

  function FileOf(s: Service): FileName {
    Hex(s) + ".yml"
  }

  lemma DigitsDiffer(a: int, b: int)
    requires 0 <= a < 16 && 0 <= b < 16 && DIGITS[a] == DIGITS[b]
    ensures a == b
  {
  }

  lemma {:induction false} HexIsInjective(s: Service, t: Service)
    requires Hex(s) == Hex(t)
    ensures s == t
  {
    if s != [] && t != [] {
      assert Hex(s)[0] == DIGITS[s[0] / 16] && Hex(t)[0] == DIGITS[t[0] / 16];
      assert Hex(s)[1] == DIGITS[s[0] % 16] && Hex(t)[1] == DIGITS[t[0] % 16];
      DigitsDiffer(s[0] / 16, t[0] / 16);
      DigitsDiffer(s[0] % 16, t[0] % 16);
      assert Hex(s)[2..] == Hex(s[1..]) && Hex(t)[2..] == Hex(t[1..]);
      HexIsInjective(s[1..], t[1..]);
    }
  }

  /** Two digits for each byte, in order. */
  lemma {:induction false} HexAt(s: Service, i: nat)
    requires i < |s|
    ensures |Hex(s)| >= 2 * i + 2 && Hex(s)[2 * i] == DIGITS[s[i] / 16] && Hex(s)[2 * i + 1] == DIGITS[s[i] % 16]
  {
    if i > 0 {
      HexAt(s[1..], i - 1);
    }
  }

  /** Distinct services never share a file. */
  lemma FilesAreDistinct(s: Service, t: Service)
    requires FileOf(s) == FileOf(t)
    ensures s == t
  {
    var suffix := ".yml";
    assert FileOf(s)[..|FileOf(s)| - |suffix|] == Hex(s);
    assert FileOf(t)[..|FileOf(t)| - |suffix|] == Hex(t);
    HexIsInjective(s, t);
  }

  // ----- files and index -----

  /** An index entry: of an applied snapshot of a service with a hash, or anything else. */
  datatype Entry = Applied(service: Service, hash: string) | OtherArtifact(about: string)

  datatype Disk = Disk(files: map<FileName, Text>, index: map<FileName, Entry>)

  /** The captured and the new models, as normalised text. */
  datatype Models = Models(previous: map<Service, Text>, current: map<Service, Text>, hash: Text -> string)

  function At<K, V>(m: map<K, V>, k: K): Option<V> {
    if k in m then Some(m[k]) else None
  }

  function EntryFor(m: Models, s: Service, text: Option<Text>): Option<Entry> {
    if text.Some? then Some(Applied(s, m.hash(text.value))) else None
  }

  /** A service's file and entry hold exactly this text, or neither exists. */
  ghost predicate Holds(m: Models, d: Disk, s: Service, text: Option<Text>) {
    At(d.files, FileOf(s)) == text && At(d.index, FileOf(s)) == EntryFor(m, s, text)
  }

  ghost function FilesOf(services: seq<Service>): set<FileName> {
    set s | s in services :: FileOf(s)
  }

  /** Files and entries of no listed service are as they were. */
  ghost predicate SameElsewhere(d: Disk, e: Disk, services: seq<Service>) {
    forall f :: f !in FilesOf(services) ==> At(e.files, f) == At(d.files, f) && At(e.index, f) == At(d.index, f)
  }

  /** What a call leaves: the given text for each of its services, all else as it was. */
  ghost predicate Leaves(m: Models, d: Disk, e: Disk, services: seq<Service>, texts: map<Service, Text>) {
    && (forall s :: s in services ==> Holds(m, e, s, At(texts, s)))
    && SameElsewhere(d, e, services)
  }

  ghost predicate IndexUpdated(was: map<FileName, Entry>, now: map<FileName, Entry>, entries: map<FileName, Entry>, removed: set<FileName>) {
    forall f :: At(now, f) == (if f in removed then None else if f in entries then Some(entries[f]) else At(was, f))
  }

  class AppliedServiceModels {
    const m: Models
    var files: map<FileName, Text>
    var index: map<FileName, Entry>

    function Now(): Disk
      reads this
    {
      Disk(files, index)
    }

    constructor (m: Models, d: Disk)
      ensures this.m == m && Now() == d
    {
      this.m := m;
      files, index := d.files, d.index;
    }

    /** `ArtifactIndex.record`: merge entries, remove paths, keep the rest. */
    method UpdateIndex(entries: map<FileName, Entry>, removed: set<FileName>)
      modifies `index
      ensures IndexUpdated(old(index), index, entries, removed)
    {
      index := (index + entries) - removed;
    }

    /** `record`: refused as a whole for a service the model does not have. */
    method Record(services: seq<Service>) returns (ok: bool)
      modifies this
      ensures ok <==> forall s :: s in services ==> s in m.current
      ensures if ok then Leaves(m, old(Now()), Now(), services, m.current) else Now() == old(Now())
    {
      var missing := set s | s in services && s !in m.current;
      if missing != {} {
        var s :| s in missing;
        return false;
      }
      assert forall s :: s in services && s !in m.current ==> s in missing;
      ok := true;
      var entries: map<FileName, Entry> := map[];
      for i := 0 to |services|
        invariant index == old(index)
        invariant Written(m, old(files), files, entries, {}, services[..i], m.current)
      {
        var s := services[i];
        WriteNext(m, old(files), files, entries, {}, services, i, m.current);
        files := files[FileOf(s) := m.current[s]];
        entries := entries[FileOf(s) := Applied(s, m.hash(m.current[s]))];
      }
      assert services[..|services|] == services;
      UpdateIndex(entries, {});
      WrittenLeaves(m, old(Now()), Now(), entries, {}, services, m.current);
    }

    /** `restore`: the captured text, or no snapshot where none was captured. */
    method Restore(services: seq<Service>)
      modifies this
      ensures Leaves(m, old(Now()), Now(), services, m.previous)
    {
      var entries: map<FileName, Entry> := map[];
      var removed: set<FileName> := {};
      for i := 0 to |services|
        invariant index == old(index)
        invariant Written(m, old(files), files, entries, removed, services[..i], m.previous)
      {
        var s := services[i];
        WriteNext(m, old(files), files, entries, removed, services, i, m.previous);
        if s !in m.previous {
          files := files - {FileOf(s)};
          removed := removed + {FileOf(s)};
        } else {
          files := files[FileOf(s) := m.previous[s]];
          entries := entries[FileOf(s) := Applied(s, m.hash(m.previous[s]))];
        }
      }
      assert services[..|services|] == services;
      UpdateIndex(entries, removed);
      WrittenLeaves(m, old(Now()), Now(), entries, removed, services, m.previous);
    }
  }

  /** Part-way through a call: the files of the services done are written, and the index
      changes for them collected. */
  ghost predicate Written(m: Models, start: map<FileName, Text>, files: map<FileName, Text>, entries: map<FileName, Entry>,
                          removed: set<FileName>, done: seq<Service>, texts: map<Service, Text>) {
    && (forall s :: s in done ==> At(files, FileOf(s)) == At(texts, s) && Collected(m, entries, removed, s, At(texts, s)))
    && (forall f :: f !in FilesOf(done) ==> At(files, f) == At(start, f) && f !in entries && f !in removed)
  }

  ghost predicate Collected(m: Models, entries: map<FileName, Entry>, removed: set<FileName>, s: Service, text: Option<Text>) {
    && (FileOf(s) in removed <==> text.None?)
    && (text.Some? ==> At(entries, FileOf(s)) == EntryFor(m, s, text))
  }

  lemma WriteNext(m: Models, start: map<FileName, Text>, files: map<FileName, Text>, entries: map<FileName, Entry>,
                  removed: set<FileName>, services: seq<Service>, i: nat, texts: map<Service, Text>)
    requires i < |services| && Written(m, start, files, entries, removed, services[..i], texts)
    ensures var s := services[i];
      if s in texts
      then Written(m, start, files[FileOf(s) := texts[s]], entries[FileOf(s) := Applied(s, m.hash(texts[s]))], removed, services[..i + 1], texts)
      else Written(m, start, files - {FileOf(s)}, entries, removed + {FileOf(s)}, services[..i + 1], texts)
  {
    hide FileOf, Written, FilesOf;
    var s := services[i];
    assert services[..i + 1] == services[..i] + [s];
    SameFileOrNew(services, i);
    OwnFile(services[..i], s);
    MoreFiles(services[..i], s);
    if s in texts {
      WriteText(m, start, files, entries, removed, services[..i], s, texts);
    } else {
      WriteAbsence(m, start, files, entries, removed, services[..i], s, texts);
    }
  }

  lemma MoreFiles(done: seq<Service>, s: Service)
    ensures FilesOf(done + [s]) == FilesOf(done) + {FileOf(s)}
  {
    hide FileOf;
    assert forall t :: t in done + [s] <==> t in done || t == s;
  }

  lemma OwnFile(done: seq<Service>, s: Service)
    ensures forall t :: t in done && t != s ==> FileOf(t) != FileOf(s)
  {
    hide FileOf;
    forall t | t in done && FileOf(t) == FileOf(s) ensures t == s {
      FilesAreDistinct(t, s);
    }
  }

  lemma WriteText(m: Models, start: map<FileName, Text>, files: map<FileName, Text>, entries: map<FileName, Entry>,
                  removed: set<FileName>, done: seq<Service>, s: Service, texts: map<Service, Text>)
    requires Written(m, start, files, entries, removed, done, texts) && s in texts
    requires s in done || FileOf(s) !in FilesOf(done)
    requires forall t :: t in done && t != s ==> FileOf(t) != FileOf(s)
    requires FilesOf(done + [s]) == FilesOf(done) + {FileOf(s)}
    ensures Written(m, start, files[FileOf(s) := texts[s]], entries[FileOf(s) := Applied(s, m.hash(texts[s]))], removed, done + [s], texts)
  {
    hide FileOf, FilesOf;
    assert forall t :: t in done + [s] <==> t in done || t == s;
    assert FileOf(s) !in removed;
  }

  lemma WriteAbsence(m: Models, start: map<FileName, Text>, files: map<FileName, Text>, entries: map<FileName, Entry>,
                     removed: set<FileName>, done: seq<Service>, s: Service, texts: map<Service, Text>)
    requires Written(m, start, files, entries, removed, done, texts) && s !in texts
    requires forall t :: t in done && t != s ==> FileOf(t) != FileOf(s)
    requires FilesOf(done + [s]) == FilesOf(done) + {FileOf(s)}
    ensures Written(m, start, files - {FileOf(s)}, entries, removed + {FileOf(s)}, done + [s], texts)
  {
    hide FileOf, FilesOf;
    assert forall t :: t in done + [s] <==> t in done || t == s;
  }

  /** A service's file is new to the call, or the service was done before. */
  lemma SameFileOrNew(services: seq<Service>, i: nat)
    requires i < |services|
    ensures services[i] in services[..i] || FileOf(services[i]) !in FilesOf(services[..i])
  {
    hide FileOf;
    forall t | t in services[..i] && FileOf(t) == FileOf(services[i]) ensures t == services[i] {
      FilesAreDistinct(t, services[i]);
    }
  }

  lemma WrittenLeaves(m: Models, d: Disk, e: Disk, entries: map<FileName, Entry>, removed: set<FileName>,
                      services: seq<Service>, texts: map<Service, Text>)
    requires Written(m, d.files, e.files, entries, removed, services, texts)
    requires IndexUpdated(d.index, e.index, entries, removed)
    ensures Leaves(m, d, e, services, texts)
  {
  }

  // ----- any sequence of calls -----

  datatype Call = Recorded(services: seq<Service>) | Restored(services: seq<Service>)

  function TextsOf(m: Models, c: Call): map<Service, Text> {
    if c.Recorded? then m.current else m.previous
  }

  /** Successful calls, with the disk before, between and after them. */
  ghost predicate History(m: Models, calls: seq<Call>, disks: seq<Disk>) {
    && |disks| == |calls| + 1
    && forall i :: 0 <= i < |calls| ==>
      && (calls[i].Recorded? ==> forall s :: s in calls[i].services ==> s in m.current)
      && Leaves(m, disks[i], disks[i + 1], calls[i].services, TextsOf(m, calls[i]))
  }

  /** What the last call on a service left for it; None if no call named it. */
  function LastText(m: Models, calls: seq<Call>, s: Service): Option<Option<Text>> {
    if calls == [] then None
    else
      var c := calls[|calls| - 1];
      if s in c.services then Some(if c.Recorded? then At(m.current, s) else At(m.previous, s)) else LastText(m, calls[..|calls| - 1], s)
  }

  lemma HistoryPrefix(m: Models, calls: seq<Call>, disks: seq<Disk>)
    requires History(m, calls, disks) && calls != []
    ensures History(m, calls[..|calls| - 1], disks[..|disks| - 1])
  {
  }

  /** After any sequence of calls a service's file and index entry are exactly those of
      the last call that named it: its new text, its captured text, or none; a service
      that was never named has what it had. */
  lemma {:induction false} SnapshotsFollowLastCall(m: Models, calls: seq<Call>, disks: seq<Disk>, s: Service)
    requires History(m, calls, disks)
    ensures var d := disks[|calls|]; match LastText(m, calls, s)
      case Some(text) => Holds(m, d, s, text)
      case None => At(d.files, FileOf(s)) == At(disks[0].files, FileOf(s)) && At(d.index, FileOf(s)) == At(disks[0].index, FileOf(s))
  {
    if calls != [] {
      var n := |calls| - 1;
      HistoryPrefix(m, calls, disks);
      SnapshotsFollowLastCall(m, calls[..n], disks[..n + 1], s);
      assert Leaves(m, disks[n], disks[n + 1], calls[n].services, TextsOf(m, calls[n]));
      if s !in calls[n].services {
        NotNamed(calls[n].services, s);
      }
    }
  }

  lemma NotNamed(services: seq<Service>, s: Service)
    requires s !in services
    ensures FileOf(s) !in FilesOf(services)
  {
    hide FileOf;
    forall t | t in services ensures FileOf(t) != FileOf(s) {
      if FileOf(t) == FileOf(s) {
        FilesAreDistinct(t, s);
      }
    }
  }

  /** Entries and files of other artifacts survive every sequence of calls. */
  lemma {:induction false} OtherArtifactsSurvive(m: Models, calls: seq<Call>, disks: seq<Disk>, f: FileName)
    requires History(m, calls, disks) && forall i :: 0 <= i < |calls| ==> f !in FilesOf(calls[i].services)
    ensures At(disks[|calls|].files, f) == At(disks[0].files, f) && At(disks[|calls|].index, f) == At(disks[0].index, f)
  {
    if calls != [] {
      var n := |calls| - 1;
      HistoryPrefix(m, calls, disks);
      OtherArtifactsSurvive(m, calls[..n], disks[..n + 1], f);
      assert Leaves(m, disks[n], disks[n + 1], calls[n].services, TextsOf(m, calls[n]));
    }
  }

  ghost predicate SameDisk(d: Disk, e: Disk) {
    forall f :: At(e.files, f) == At(d.files, f) && At(e.index, f) == At(d.index, f)
  }

  /** Restoring what was recorded brings the disk back exactly when the disk held the
      captured snapshots to begin with. */
  lemma RestoreUndoesRecord(m: Models, services: seq<Service>, d0: Disk, d1: Disk, d2: Disk)
    requires Leaves(m, d0, d1, services, m.current) && Leaves(m, d1, d2, services, m.previous)
    ensures SameDisk(d0, d2) <==> forall s :: s in services ==> Holds(m, d0, s, At(m.previous, s))
  {
    if SameDisk(d0, d2) {
      forall s | s in services ensures Holds(m, d0, s, At(m.previous, s)) {
        assert Holds(m, d2, s, At(m.previous, s));
      }
    }
    if forall s :: s in services ==> Holds(m, d0, s, At(m.previous, s)) {
      forall f ensures At(d2.files, f) == At(d0.files, f) && At(d2.index, f) == At(d0.index, f) {
        if f in FilesOf(services) {
          var s :| s in services && FileOf(s) == f;
          assert Holds(m, d0, s, At(m.previous, s)) && Holds(m, d2, s, At(m.previous, s));
        }
      }
    }
  }

  /** It did not where an older declaration gave the captured text and no snapshot was
      written yet: restoring then leaves a file. */
  lemma CapturedTextLeavesFile(m: Models, s: Service, d0: Disk) returns (d1: Disk, d2: Disk)
    requires s in m.previous && s in m.current && FileOf(s) !in d0.files
    ensures Leaves(m, d0, d1, [s], m.current) && Leaves(m, d1, d2, [s], m.previous)
    ensures At(d2.files, FileOf(s)) == Some(m.previous[s]) && !SameDisk(d0, d2)
  {
    hide FileOf;
    d1 := WrittenOne(m, d0, s, m.current);
    d2 := WrittenOne(m, d1, s, m.previous);
    assert At(d0.files, FileOf(s)) != At(d2.files, FileOf(s));
  }

  function WrittenOne(m: Models, d: Disk, s: Service, texts: map<Service, Text>): (e: Disk)
    requires s in texts
    ensures Leaves(m, d, e, [s], texts)
  {
    Disk(d.files[FileOf(s) := texts[s]], d.index[FileOf(s) := Applied(s, m.hash(texts[s]))])
  }

  /** One such service on an empty disk. */
  lemma RestoreMayLeaveFile()
    ensures exists m: Models, d0, d1, d2 ::
      Leaves(m, d0, d1, [[97]], m.current) && Leaves(m, d1, d2, [[97]], m.previous) && !SameDisk(d0, d2)
  {
    var s: Service := [97];
    var m := Models(map[s := "old"], map[s := "new"], (text: Text) => text);
    var d1, d2 := CapturedTextLeavesFile(m, s, Disk(map[], map[]));
  }
}

/** The TTL cache over one connection: rows with lazy expiry and transactions, refining a
    map whose entries simply stop existing when they expire. */
module CacheStore {
  import opened Options

  type Key = (string, string)
  type Blob = string

  /** Decoded values; increments only apply to numbers. */
  datatype Value = Number(n: real) | Flag(b: bool) | Data(text: string)

  /** A codec may refuse a value, and may fail to read a blob. */
  datatype Codec = Codec(mime: string, encode: Value -> Option<Blob>, decode: Blob -> Option<Value>)

  datatype Row = Row(value: Blob, codec: string, created: real, updated: real, expires: Option<real>, version: nat)

  type Rows = map<Key, Row>

  datatype Error = CodecError | ValueError | TransactionError

  datatype Op =
    | Get(key: Key, codec: Codec)
    | Contains(key: Key)
    | Set(key: Key, value: Value, codec: Codec, ttl: Option<real>)
    | Delete(key: Key)
    | Increment(key: Key, delta: real, initial: real, codec: Codec)
    | Items(namespace: string, codec: Codec)
    | Begin
    | Commit
    | Rollback

  datatype Outcome = Found(value: Option<Value>) | Truth(b: bool) | Total(n: real) | Listing(items: map<string, Value>) | Done | Failed(error: Error)

  /** Expiry is inclusive: a row is dead at its expiry time. */
  predicate Alive(expires: Option<real>, now: real) {
    expires.None? || expires.value > now
  }

  // ----- the store as it works on rows -----

  /** `_live_row`: an expired row is deleted on the way. */
  function Touch(rows: Rows, key: Key, now: real): Rows {
    if key in rows && !Alive(rows[key].expires, now) then rows - {key} else rows
  }

  function LiveRow(rows: Rows, key: Key, now: real): Option<Row> {
    if key in rows && Alive(rows[key].expires, now) then Some(rows[key]) else None
  }

  /** INSERT ... ON CONFLICT DO UPDATE */
  function Upsert(rows: Rows, key: Key, blob: Blob, mime: string, now: real, expires: Option<real>): Rows {
    if key in rows
    then rows[key := rows[key].(value := blob, codec := mime, updated := now, expires := expires, version := rows[key].version + 1)]
    else rows[key := Row(blob, mime, now, now, expires, 1)]
  }

  /** UPDATE ... WHERE: the rows and how many were hit. */
  function UpdateRows(rows: Rows, key: Key, blob: Blob, mime: string, now: real, expires: Option<real>): (Rows, nat) {
    var hit := set k | k in rows && k == key;
    (map k | k in rows :: if k in hit
       then Row(blob, mime, rows[k].created, now, expires, rows[k].version + 1) else rows[k], |hit|)
  }

  /** UPDATE, and INSERT when nothing was hit. */
  function UpdateThenInsert(rows: Rows, key: Key, blob: Blob, mime: string, now: real, expires: Option<real>): Rows {
    var (updated, count) := UpdateRows(rows, key, blob, mime, now, expires);
    if count == 0 then updated[key := Row(blob, mime, now, now, expires, 1)] else updated
  }

  /** The two ways of writing leave the same rows. */
  lemma WritesAgree(rows: Rows, key: Key, blob: Blob, mime: string, now: real, expires: Option<real>)
    ensures Upsert(rows, key, blob, mime, now, expires) == UpdateThenInsert(rows, key, blob, mime, now, expires)
  {
    var hit := set k | k in rows && k == key;
    if key in rows {
      assert hit == {key};
    } else {
      assert hit == {};
    }
  }

  function Expiry(ttl: Option<real>, now: real): Option<real> {
    if ttl.None? then None else Some(now + ttl.value)
  }

  /** Every blob decoded, under its key; None if one of them cannot be read. */
  function DecodeAll(blobs: map<string, Blob>, codec: Codec): Option<map<string, Value>> {
    if exists k :: k in blobs && codec.decode(blobs[k]).None? then None
    else Some(map k | k in blobs :: codec.decode(blobs[k]).value)
  }

  /** The live blobs of a namespace. */
  function LiveBlobs(rows: Rows, namespace: string, now: real): map<string, Blob> {
    map k | k in rows && k.0 == namespace && Alive(rows[k].expires, now) :: k.1 := rows[k].value
  }

  lemma LiveBlobsAreLiveRows(rows: Rows, namespace: string, now: real, name: string)
    ensures name in LiveBlobs(rows, namespace, now) <==> LiveRow(rows, (namespace, name), now).Some?
    ensures name in LiveBlobs(rows, namespace, now) ==>
      LiveBlobs(rows, namespace, now)[name] == LiveRow(rows, (namespace, name), now).value.value
  {
    if LiveRow(rows, (namespace, name), now).Some? {
      assert (namespace, name).1 in LiveBlobs(rows, namespace, now);
    }
  }

  /** `_live_items` */
  function LiveItems(rows: Rows, namespace: string, codec: Codec, now: real): Option<map<string, Value>> {
    DecodeAll(LiveBlobs(rows, namespace, now), codec)
  }

  datatype Db = Db(rows: Rows, begun: Option<Rows>)

  /** One call at time `now`; a second reading of the clock in the same call gives `later`. */
  function Step(db: Db, op: Op, now: real, later: real): (Db, Outcome) {
    match op
    case Get(key, codec) =>
      var row := LiveRow(db.rows, key, now);
      (db.(rows := Touch(db.rows, key, now)),
       if row.None? then Found(None)
       else var v := codec.decode(row.value.value); if v.None? then Failed(CodecError) else Found(v))
    case Contains(key) => (db.(rows := Touch(db.rows, key, now)), Truth(LiveRow(db.rows, key, now).Some?))
    case Set(key, value, codec, ttl) =>
      if ttl.Some? && ttl.value < 0.0 then (db, Failed(ValueError))
      else
        var blob := codec.encode(value);
        if blob.None? then (db, Failed(CodecError))
        else (db.(rows := Upsert(db.rows, key, blob.value, codec.mime, later, Expiry(ttl, now))), Done)
    case Delete(key) => (db.(rows := db.rows - {key}), Truth(key in db.rows))
    case Increment(key, delta, initial, codec) => Increased(db, key, delta, initial, codec, now, later)
    case Items(namespace, codec) =>
      var items := LiveItems(db.rows, namespace, codec, now);
      (db, if items.None? then Failed(CodecError) else Listing(items.value))
    case Begin => if db.begun.Some? then (db, Failed(TransactionError)) else (db.(begun := Some(db.rows)), Done)
    case Commit => (db.(begun := None), Done)
    case Rollback => if db.begun.Some? then (Db(db.begun.value, None), Done) else (db, Done)
  }

  /** `increment`: a failure outside a transaction rolls the lazy deletion back. */
  function Increased(db: Db, key: Key, delta: real, initial: real, codec: Codec, now: real, later: real): (Db, Outcome) {
    var row := LiveRow(db.rows, key, now);
    var touched := Touch(db.rows, key, now);
    var failedDb := if db.begun.Some? then db.(rows := touched) else db;
    if row.None? then
      var blob := codec.encode(Number(initial + delta));
      if blob.None? then (failedDb, Failed(CodecError))
      else (db.(rows := touched[key := Row(blob.value, codec.mime, later, later, None, 1)]), Total(initial + delta))
    else
      var current := codec.decode(row.value.value);
      if current.None? then (failedDb, Failed(CodecError))
      else if !current.value.Number? then (failedDb, Failed(ValueError))
      else
        var blob := codec.encode(Number(current.value.n + delta));
        if blob.None? then (failedDb, Failed(CodecError))
        else (db.(rows := touched[key := row.value.(value := blob.value, updated := later, version := row.value.version + 1)]),
              Total(current.value.n + delta))
  }

  // ----- the map it stands for -----

  /** What a reader can learn of an entry. */
  datatype Entry = Entry(value: Blob, expires: Option<real>)

  type Cache = map<Key, Entry>

  /** The entries that exist at a time. */
  ghost function View(rows: Rows, now: real): Cache {
    map k | k in rows && Exists(rows[k].expires, now) :: Entry(rows[k].value, rows[k].expires)
  }

  /** An entry exists strictly before its expiry. */
  ghost predicate Exists(expires: Option<real>, now: real) {
    match expires
    case None => true
    case Some(end) => now < end
  }

  ghost function Purge(c: Cache, now: real): Cache {
    map k | k in c && Exists(c[k].expires, now) :: c[k]
  }

  ghost predicate SomeUnreadable(blobs: map<string, Blob>, codec: Codec) {
    exists k :: k in blobs && codec.decode(blobs[k]) == None
  }

  ghost function BlobsOf(c: Cache, namespace: string): map<string, Blob> {
    map k | k in c && k.0 == namespace :: k.1 := c[k].value
  }

  lemma BlobsAreEntries(c: Cache, namespace: string, name: string)
    ensures name in BlobsOf(c, namespace) <==> (namespace, name) in c
    ensures name in BlobsOf(c, namespace) ==> BlobsOf(c, namespace)[name] == c[(namespace, name)].value
  {
    if (namespace, name) in c {
      assert (namespace, name).1 in BlobsOf(c, namespace);
    }
  }

  datatype Model = Model(entries: Cache, begun: Option<Cache>)

  /** The same call on the map: expired entries are gone before anything is looked at. */
  ghost function ModelStep(m: Model, op: Op, now: real): (Model, Outcome) {
    var c := Purge(m.entries, now);
    match op
    case Get(key, codec) =>
      (m, if key !in c then Found(None)
          else var v := codec.decode(c[key].value); if v.None? then Failed(CodecError) else Found(v))
    case Contains(key) => (m, Truth(key in c))
    case Set(key, value, codec, ttl) =>
      if ttl.Some? && ttl.value < 0.0 then (m, Failed(ValueError))
      else
        var blob := codec.encode(value);
        if blob.None? then (m, Failed(CodecError))
        else (m.(entries := c[key := Entry(blob.value, match ttl case None => None case Some(seconds) => Some(now + seconds))]), Done)
    case Delete(key) => (m.(entries := c - {key}), Truth(key in c))
    case Increment(key, delta, initial, codec) =>
      var current := if key in c then codec.decode(c[key].value) else Some(Number(initial));
      if current.None? then (m, Failed(CodecError))
      else if !current.value.Number? then (m, Failed(ValueError))
      else
        var blob := codec.encode(Number(current.value.n + delta));
        if blob.None? then (m, Failed(CodecError))
        else (m.(entries := c[key := Entry(blob.value, if key in c then c[key].expires else None)]), Total(current.value.n + delta))
    case Items(namespace, codec) =>
      var blobs := BlobsOf(c, namespace);
      (m, if SomeUnreadable(blobs, codec) then Failed(CodecError) else Listing(map k | k in blobs :: codec.decode(blobs[k]).value))
    case Begin => if m.begun.Some? then (m, Failed(TransactionError)) else (m.(begun := Some(m.entries)), Done)
    case Commit => (m.(begun := None), Done)
    case Rollback => if m.begun.Some? then (Model(m.begun.value, None), Done) else (m, Done)
  }

  /** At this time, and hence ever after, both hold the same. */
  ghost predicate Agree(rows: Rows, c: Cache, now: real) {
    View(rows, now) == Purge(c, now)
  }

  ghost predicate Refines(db: Db, m: Model, now: real) {
    && Agree(db.rows, m.entries, now)
    && (db.begun.Some? <==> m.begun.Some?)
    && (db.begun.Some? ==> Agree(db.begun.value, m.begun.value, now))
  }

  /** A row that has expired and was not looked at since. */
  ghost predicate DeadRow(rows: Rows, key: Key, now: real) {
    key in rows && rows[key].expires.Some? && rows[key].expires.value <= now
  }

  lemma AgreementLasts(rows: Rows, c: Cache, now: real, later: real)
    requires Agree(rows, c, now) && now <= later
    ensures Agree(rows, c, later)
  {
    forall k ensures k in View(rows, later) <==> k in Purge(c, later) {
      assert k in View(rows, now) <==> k in Purge(c, now);
    }
    forall k | k in View(rows, later) ensures View(rows, later)[k] == Purge(c, later)[k] {
      assert View(rows, now)[k] == Purge(c, now)[k];
    }
  }

  /** Deleting an expired row shows to nobody. */
  lemma TouchIsInvisible(rows: Rows, key: Key, now: real)
    ensures View(Touch(rows, key, now), now) == View(rows, now)
  {
  }

  lemma LiveRowIsEntry(rows: Rows, c: Cache, key: Key, now: real)
    requires Agree(rows, c, now)
    ensures LiveRow(rows, key, now).Some? <==> key in Purge(c, now)
    ensures key in Purge(c, now) ==> Purge(c, now)[key] == Entry(LiveRow(rows, key, now).value.value, LiveRow(rows, key, now).value.expires)
  {
    assert key in View(rows, now) <==> key in Purge(c, now);
    if key in Purge(c, now) {
      assert View(rows, now)[key] == Purge(c, now)[key];
    }
  }

  /** Writing a row is writing the entry. */
  lemma WriteAgrees(rows: Rows, c: Cache, key: Key, row: Row, now: real)
    requires Agree(rows, c, now)
    ensures Agree(rows[key := row], Purge(c, now)[key := Entry(row.value, row.expires)], now)
  {
    var r, d := rows[key := row], Purge(c, now)[key := Entry(row.value, row.expires)];
    forall k ensures k in View(r, now) <==> k in Purge(d, now) {
      LiveRowIsEntry(rows, c, k, now);
    }
    forall k | k in View(r, now) ensures View(r, now)[k] == Purge(d, now)[k] {
      LiveRowIsEntry(rows, c, k, now);
    }
  }

  lemma DeleteAgrees(rows: Rows, c: Cache, key: Key, now: real)
    requires Agree(rows, c, now)
    ensures Agree(rows - {key}, Purge(c, now) - {key}, now)
  {
    forall k ensures k in View(rows - {key}, now) <==> k in Purge(Purge(c, now) - {key}, now) {
      LiveRowIsEntry(rows, c, k, now);
    }
    forall k | k in View(rows - {key}, now) ensures View(rows - {key}, now)[k] == Purge(Purge(c, now) - {key}, now)[k] {
      LiveRowIsEntry(rows, c, k, now);
    }
  }

  lemma ItemsAgree(rows: Rows, c: Cache, namespace: string, now: real)
    requires Agree(rows, c, now)
    ensures LiveBlobs(rows, namespace, now) == BlobsOf(Purge(c, now), namespace)
  {
    hide LiveBlobs, BlobsOf, Agree, Purge, LiveRow;
    var a, b := LiveBlobs(rows, namespace, now), BlobsOf(Purge(c, now), namespace);
    forall name ensures (name in a <==> name in b) && (name in a ==> a[name] == b[name]) {
      LiveRowIsEntry(rows, c, (namespace, name), now);
      LiveBlobsAreLiveRows(rows, namespace, now, name);
      BlobsAreEntries(Purge(c, now), namespace, name);
    }
    assert a.Keys == b.Keys by { assert forall name :: name in a.Keys <==> name in b.Keys; }
  }

  /** An outcome a caller cannot tell from the map's: only deleting a dead row shows. */
  ghost predicate SameOutcome(db: Db, op: Op, now: real, concrete: Outcome, abstract_: Outcome) {
    if op.Delete? && DeadRow(db.rows, op.key, now) then concrete == Truth(true) && abstract_ == Truth(false)
    else concrete == abstract_
  }

  lemma GetRefines(db: Db, m: Model, op: Op, now: real, later: real)
    requires Refines(db, m, now) && now <= later && (op.Get? || op.Contains?)
    ensures Refines(Step(db, op, now, later).0, ModelStep(m, op, now).0, later)
    ensures Step(db, op, now, later).1 == ModelStep(m, op, now).1
  {
    LiveRowIsEntry(db.rows, m.entries, op.key, now);
    TouchIsInvisible(db.rows, op.key, now);
    RefinementLasts(Step(db, op, now, later).0, m, now, later);
  }

  lemma RefinementLasts(db: Db, m: Model, now: real, later: real)
    requires Refines(db, m, now) && now <= later
    ensures Refines(db, m, later)
  {
    AgreementLasts(db.rows, m.entries, now, later);
    if db.begun.Some? {
      AgreementLasts(db.begun.value, m.begun.value, now, later);
    }
  }

  lemma SetRefines(db: Db, m: Model, op: Op, now: real, later: real)
    requires Refines(db, m, now) && now <= later && op.Set?
    ensures Refines(Step(db, op, now, later).0, ModelStep(m, op, now).0, later)
    ensures Step(db, op, now, later).1 == ModelStep(m, op, now).1
  {
    var (db', outcome) := Step(db, op, now, later);
    if outcome == Done {
      WriteAgrees(db.rows, m.entries, op.key, db'.rows[op.key], now);
    }
    RefinementLasts(db', ModelStep(m, op, now).0, now, later);
  }

  lemma IncrementRefines(db: Db, m: Model, op: Op, now: real, later: real)
    requires Refines(db, m, now) && now <= later && op.Increment?
    ensures Refines(Step(db, op, now, later).0, ModelStep(m, op, now).0, later)
    ensures Step(db, op, now, later).1 == ModelStep(m, op, now).1
  {
    var (db', outcome) := Step(db, op, now, later);
    LiveRowIsEntry(db.rows, m.entries, op.key, now);
    TouchIsInvisible(db.rows, op.key, now);
    var touched := Touch(db.rows, op.key, now);
    assert Agree(touched, m.entries, now);
    if outcome.Total? {
      WriteAgrees(touched, m.entries, op.key, db'.rows[op.key], now);
    }
    RefinementLasts(db', ModelStep(m, op, now).0, now, later);
  }

  lemma DeleteRefines(db: Db, m: Model, op: Op, now: real, later: real)
    requires Refines(db, m, now) && now <= later && op.Delete?
    ensures Refines(Step(db, op, now, later).0, ModelStep(m, op, now).0, later)
    ensures SameOutcome(db, op, now, Step(db, op, now, later).1, ModelStep(m, op, now).1)
  {
    LiveRowIsEntry(db.rows, m.entries, op.key, now);
    DeleteAgrees(db.rows, m.entries, op.key, now);
    RefinementLasts(Step(db, op, now, later).0, ModelStep(m, op, now).0, now, later);
  }

  lemma DecodedTogether(blobs: map<string, Blob>, codec: Codec)
    ensures DecodeAll(blobs, codec) == if SomeUnreadable(blobs, codec) then None else Some(map k | k in blobs :: codec.decode(blobs[k]).value)
  {
  }

  lemma TransactionRefines(db: Db, m: Model, op: Op, now: real, later: real)
    requires Refines(db, m, now) && now <= later && (op.Begin? || op.Commit? || op.Rollback? || op.Items?)
    ensures Refines(Step(db, op, now, later).0, ModelStep(m, op, now).0, later)
    ensures Step(db, op, now, later).1 == ModelStep(m, op, now).1
  {
    hide Agree, Purge, View, DecodeAll, LiveBlobs, BlobsOf;
    if op.Items? {
      ItemsAgree(db.rows, m.entries, op.namespace, now);
      DecodedTogether(BlobsOf(Purge(m.entries, now), op.namespace), op.codec);
    }
    RefinementLasts(Step(db, op, now, later).0, ModelStep(m, op, now).0, now, later);
  }

  /** One call on the store is one call on the map. */
  lemma StepRefines(db: Db, m: Model, op: Op, now: real, later: real)
    requires Refines(db, m, now) && now <= later
    ensures Refines(Step(db, op, now, later).0, ModelStep(m, op, now).0, later)
    ensures SameOutcome(db, op, now, Step(db, op, now, later).1, ModelStep(m, op, now).1)
  {
    hide Refines, Step, ModelStep;
    match op
    case Get(_, _) => GetRefines(db, m, op, now, later);
    case Contains(_) => GetRefines(db, m, op, now, later);
    case Set(_, _, _, _) => SetRefines(db, m, op, now, later);
    case Increment(_, _, _, _) => IncrementRefines(db, m, op, now, later);
    case Delete(_) => DeleteRefines(db, m, op, now, later);
    case Items(_, _) => TransactionRefines(db, m, op, now, later);
    case Begin => TransactionRefines(db, m, op, now, later);
    case Commit => TransactionRefines(db, m, op, now, later);
    case Rollback => TransactionRefines(db, m, op, now, later);
  }

  // ----- whole runs -----

  /** A call with its two clock readings. */
  datatype Call = Call(op: Op, now: real, later: real)

  function EndOf(calls: seq<Call>, start: real): real {
    if calls == [] then start else calls[|calls| - 1].later
  }

  /** The clock does not go back, within a call or between calls. */
  ghost predicate Timed(calls: seq<Call>, start: real) {
    calls == [] ||
    (var last := |calls| - 1;
     Timed(calls[..last], start) && EndOf(calls[..last], start) <= calls[last].now <= calls[last].later)
  }

  function RunStore(db: Db, calls: seq<Call>): (Db, seq<Outcome>) {
    if calls == [] then (db, [])
    else
      var (before, outcomes) := RunStore(db, calls[..|calls| - 1]);
      var last := calls[|calls| - 1];
      var (after, outcome) := Step(before, last.op, last.now, last.later);
      (after, outcomes + [outcome])
  }

  ghost function RunModel(m: Model, calls: seq<Call>): (Model, seq<Outcome>) {
    if calls == [] then (m, [])
    else
      var (before, outcomes) := RunModel(m, calls[..|calls| - 1]);
      var last := calls[|calls| - 1];
      var (after, outcome) := ModelStep(before, last.op, last.now);
      (after, outcomes + [outcome])
  }

  /** Over any run on one connection the store answers as the map does, except that
      deleting a row that expired unnoticed says that there was one. */
  lemma {:induction false} RunRefines(db: Db, m: Model, calls: seq<Call>, start: real)
    requires Refines(db, m, start) && Timed(calls, start)
    ensures Refines(RunStore(db, calls).0, RunModel(m, calls).0, EndOf(calls, start))
    ensures |RunStore(db, calls).1| == |RunModel(m, calls).1| == |calls|
    ensures forall i :: 0 <= i < |calls| ==>
      SameOutcome(RunStore(db, calls[..i]).0, calls[i].op, calls[i].now, RunStore(db, calls).1[i], RunModel(m, calls).1[i])
  {
    if calls != [] {
      var n := |calls| - 1;
      var front := calls[..n];
      hide Refines, Step, ModelStep, SameOutcome;
      RunRefines(db, m, front, start);
      RefinementLasts(RunStore(db, front).0, RunModel(m, front).0, EndOf(front, start), calls[n].now);
      StepRefines(RunStore(db, front).0, RunModel(m, front).0, calls[n].op, calls[n].now, calls[n].later);
      forall i | 0 <= i < n
        ensures SameOutcome(RunStore(db, calls[..i]).0, calls[i].op, calls[i].now, RunStore(db, calls).1[i], RunModel(m, calls).1[i])
      {
        assert front[..i] == calls[..i];
      }
    }
  }

  /** The exception is real: after a lookup the same deletion reports nothing. */
  lemma LazyDeletionShowsInDelete(key: Key, row: Row, now: real)
    requires row.expires.Some? && row.expires.value <= now
    ensures var db := Db(map[key := row], None);
      && Step(db, Delete(key), now, now).1 == Truth(true)
      && Step(Step(db, Contains(key), now, now).0, Delete(key), now, now).1 == Truth(false)
  {
  }

  /** Calls that neither begin nor end a transaction. */
  ghost predicate InsideTransaction(calls: seq<Call>) {
    forall i :: 0 <= i < |calls| ==> !calls[i].op.Commit? && !calls[i].op.Rollback?
  }

  /** A transaction block that raises puts back exactly the rows held at its beginning,
      whatever ran inside it. */
  lemma {:induction false} RaisingBlockRestores(db: Db, calls: seq<Call>)
    requires db.begun.Some? && InsideTransaction(calls)
    ensures RunStore(db, calls).0.begun == db.begun
    ensures forall now, later :: Step(RunStore(db, calls).0, Rollback, now, later) == (Db(db.begun.value, None), Done)
  {
    if calls != [] {
      RaisingBlockRestores(db, calls[..|calls| - 1]);
    }
  }

  /** What listing and looking up say of each other: they name the same keys, or an entry
      cannot be read. */
  lemma ListingMatchesLookup(db: Db, namespace: string, codec: Codec, now: real)
    ensures var listed := Step(db, Items(namespace, codec), now, now).1;
      && (listed.Listing? ==> forall name ::
            (name in listed.items <==> Step(db, Contains((namespace, name)), now, now).1 == Truth(true)) &&
            (name in listed.items ==> Step(db, Get((namespace, name), codec), now, now).1 == Found(Some(listed.items[name]))))
      && (!listed.Listing? <==> exists name :: Step(db, Get((namespace, name), codec), now, now).1 == Failed(CodecError))
  {
    hide LiveBlobs, LiveRow;
    var blobs := LiveBlobs(db.rows, namespace, now);
    forall name
      ensures name in blobs <==> LiveRow(db.rows, (namespace, name), now).Some?
      ensures name in blobs ==> blobs[name] == LiveRow(db.rows, (namespace, name), now).value.value
    {
      LiveBlobsAreLiveRows(db.rows, namespace, now, name);
    }
    if !LiveItems(db.rows, namespace, codec, now).Some? {
      var name :| name in blobs && codec.decode(blobs[name]).None?;
      assert Step(db, Get((namespace, name), codec), now, now).1 == Failed(CodecError);
    }
  }

  /** An increment keeps the expiry of a live entry and gives none to a new one. */
  lemma IncrementKeepsLiveExpiry(db: Db, key: Key, delta: real, initial: real, codec: Codec, now: real, later: real)
    requires Step(db, Increment(key, delta, initial, codec), now, later).1.Total?
    ensures var rows := Step(db, Increment(key, delta, initial, codec), now, later).0.rows;
      key in rows && rows[key].expires == (if LiveRow(db.rows, key, now).Some? then db.rows[key].expires else None)
  {
  }
}

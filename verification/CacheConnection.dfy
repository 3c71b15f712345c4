/** `CacheStore` on one connection, statement by statement: rows changed in place, an
    open SQL transaction that can be rolled back, and the flag of the owning block. */
module CacheConnection {
  import opened Options
  import opened CacheStore
  import opened KeyOrder

  class Connection {
    const upsert: bool
    var rows: Rows
    /** The rows at BEGIN while a SQL transaction is open. */
    var saved: Option<Rows>
    /** Whether a `transaction()` block owns the open transaction. */
    var owned: bool

    ghost predicate Valid()
      reads this
    {
      owned <==> saved.Some?
    }

    /** The store's state between calls. */
    ghost function State(): Db
      reads this
    {
      Db(rows, saved)
    }

    constructor (upsert: bool)
      ensures Valid() && State() == Db(map[], None) && this.upsert == upsert
    {
      this.upsert := upsert;
      rows, saved, owned := map[], None, false;
    }

    // ----- statements -----

    method BeginSql()
      modifies `saved
      ensures saved == Some(rows)
    {
      saved := Some(rows);
    }

    method CommitSql()
      modifies `saved
      ensures saved == None
    {
      saved := None;
    }

    method RollbackSql()
      modifies `rows, `saved
      ensures saved == None && rows == if old(saved).Some? then old(saved).value else old(rows)
    {
      if saved.Some? {
        rows := saved.value;
      }
      saved := None;
    }

    /** `_live_row` */
    method SelectLive(key: Key, now: real) returns (row: Option<Row>)
      modifies `rows
      ensures row == LiveRow(old(rows), key, now) && rows == Touch(old(rows), key, now)
    {
      if key !in rows {
        return None;
      }
      row := Some(rows[key]);
      if !Alive(row.value.expires, now) {
        rows := rows - {key};
        row := None;
      }
    }

    /** Either way of writing. */
    method Write(key: Key, blob: Blob, mime: string, now: real, expires: Option<real>)
      modifies `rows
      ensures rows == Upsert(old(rows), key, blob, mime, now, expires)
    {
      WritesAgree(rows, key, blob, mime, now, expires);
      if upsert {
        rows := Upsert(rows, key, blob, mime, now, expires);
      } else {
        var (updated, count) := UpdateRows(rows, key, blob, mime, now, expires);
        rows := updated;
        if count == 0 {
          rows := rows[key := Row(blob, mime, now, now, expires, 1)];
        }
      }
    }

    // ----- calls -----

    method Fetch(key: Key, codec: Codec, now: real) returns (r: Outcome)
      requires Valid()
      modifies `rows
      ensures Valid() && (State(), r) == Step(old(State()), Get(key, codec), now, now)
    {
      var row := SelectLive(key, now);
      if row.None? {
        return Found(None);
      }
      var v := codec.decode(row.value.value);
      r := if v.None? then Failed(CodecError) else Found(v);
    }

    method Has(key: Key, now: real) returns (r: Outcome)
      requires Valid()
      modifies `rows
      ensures Valid() && (State(), r) == Step(old(State()), Contains(key), now, now)
    {
      var row := SelectLive(key, now);
      r := Truth(row.Some?);
    }

    /** `set` within `_exec_in_tx` */
    method Store(key: Key, value: Value, codec: Codec, ttl: Option<real>, now: real, later: real) returns (r: Outcome)
      requires Valid()
      modifies `rows, `saved
      ensures Valid() && (State(), r) == Step(old(State()), Set(key, value, codec, ttl), now, later)
    {
      if ttl.Some? && ttl.value < 0.0 {
        return Failed(ValueError);
      }
      var expires := Expiry(ttl, now);
      var blob := codec.encode(value);
      if blob.None? {
        return Failed(CodecError);
      }
      if !owned {
        BeginSql();
      }
      Write(key, blob.value, codec.mime, later, expires);
      if !owned {
        CommitSql();
      }
      r := Done;
    }

    method Remove(key: Key, now: real) returns (r: Outcome)
      requires Valid()
      modifies `rows, `saved
      ensures Valid() && (State(), r) == Step(old(State()), Delete(key), now, now)
    {
      if !owned {
        BeginSql();
      }
      r := Truth(key in rows);
      rows := rows - {key};
      if !owned {
        CommitSql();
      }
    }

    /** The body of `increment` */
    method Bump(key: Key, delta: real, initial: real, codec: Codec, now: real, later: real) returns (r: Outcome)
      modifies `rows
      ensures var touched := Touch(old(rows), key, now);
        var (db, outcome) := Increased(Db(old(rows), Some(old(rows))), key, delta, initial, codec, now, later);
        r == outcome && rows == db.rows && (r.Failed? ==> rows == touched)
    {
      var row := SelectLive(key, now);
      if row.None? {
        var fresh' := codec.encode(Number(initial + delta));
        if fresh'.None? {
          return Failed(CodecError);
        }
        rows := rows[key := Row(fresh'.value, codec.mime, later, later, None, 1)];
        return Total(initial + delta);
      }
      var current := codec.decode(row.value.value);
      if current.None? {
        return Failed(CodecError);
      }
      if !current.value.Number? {
        return Failed(ValueError);
      }
      var total := current.value.n + delta;
      var blob := codec.encode(Number(total));
      if blob.None? {
        return Failed(CodecError);
      }
      rows := rows[key := rows[key].(value := blob.value, updated := later, version := rows[key].version + 1)];
      r := Total(total);
    }

    method Add(key: Key, delta: real, initial: real, codec: Codec, now: real, later: real) returns (r: Outcome)
      requires Valid()
      modifies `rows, `saved
      ensures Valid() && (State(), r) == Step(old(State()), Increment(key, delta, initial, codec), now, later)
    {
      if owned {
        r := Bump(key, delta, initial, codec, now, later);
        return;
      }
      BeginSql();
      r := Bump(key, delta, initial, codec, now, later);
      if r.Failed? {
        RollbackSql();
      } else {
        CommitSql();
      }
    }

    /** The SELECT of a listing: the namespace's keys in order. */
    method SelectOrdered(namespace: string) returns (names: seq<string>)
      ensures Increasing(names) && forall name :: name in names <==> (namespace, name) in rows
    {
      var keys := set k | k in rows && k.0 == namespace :: k.1;
      forall name
        ensures name in keys <==> (namespace, name) in rows
      {
        if (namespace, name) in rows {
          assert (namespace, name).1 in keys;
        }
      }
      names := Ordered(keys);
    }

    /** `_live_items`: the live entries in key order, or the failure to read one of them. */
    method List(namespace: string, codec: Codec, now: real) returns (r: Outcome, listed: seq<(string, Value)>)
      requires Valid()
      ensures (State(), r) == Step(State(), Items(namespace, codec), now, now)
      ensures r.Listing? ==> InOrder(listed) && Lists(listed, r.items)
      ensures r.Failed? ==> exists name :: Unreadable(rows, (namespace, name), codec, now)
    {
      hide LiveBlobs, Before;
      var names := SelectOrdered(namespace);
      ghost var blobs := LiveBlobs(rows, namespace, now);
      listed := [];
      var items: map<string, Value> := map[];
      for i := 0 to |names|
        invariant InOrder(listed) && Lists(listed, items)
        invariant forall name :: name in items ==> name in names[..i]
        invariant forall name :: name in names[..i] ==> ReadSoFar(blobs, codec, items, name)
      {
        var name := names[i];
        assert names[..i + 1] == names[..i] + [name];
        var row := rows[(namespace, name)];
        LiveBlobsAreLiveRows(rows, namespace, now, name);
        if Alive(row.expires, now) {
          var value := codec.decode(row.value);
          if value.None? {
            assert Unreadable(rows, (namespace, name), codec, now);
            return Failed(CodecError), [];
          }
          ListedNext(names, i, listed, items, value.value);
          listed := listed + [(name, value.value)];
          items := items[name := value.value];
        }
      }
      forall name
        ensures ReadSoFar(blobs, codec, items, name) && (name in blobs ==> name in names)
      {
        LiveBlobsAreLiveRows(rows, namespace, now, name);
      }
      assert items == map k | k in blobs :: codec.decode(blobs[k]).value;
      r := Listing(items);
    }

    /** Entry of a `transaction()` block. */
    method Enter(now: real) returns (r: Outcome)
      requires Valid()
      modifies `saved, `owned
      ensures Valid() && (State(), r) == Step(old(State()), Begin, now, now)
    {
      if owned {
        return Failed(TransactionError);
      }
      BeginSql();
      owned := true;
      r := Done;
    }

    /** Exit of a block, normally or by an exception. */
    method Exit(raised: bool, now: real) returns (r: Outcome)
      requires Valid() && owned
      modifies this
      ensures Valid() && !owned && (State(), r) == Step(old(State()), if raised then Rollback else Commit, now, now)
    {
      if raised {
        RollbackSql();
      } else {
        CommitSql();
      }
      owned := false;
      r := Done;
    }
  }

  // ----- listings -----

  /** A live row whose value cannot be read. */
  ghost predicate Unreadable(rows: Rows, key: Key, codec: Codec, now: real) {
    LiveRow(rows, key, now).Some? && codec.decode(LiveRow(rows, key, now).value.value).None?
  }

  ghost predicate InOrder(listed: seq<(string, Value)>) {
    forall i, j :: 0 <= i < j < |listed| ==> Before(listed[i].0, listed[j].0)
  }

  /** The list holds exactly these items. */
  ghost predicate Lists(listed: seq<(string, Value)>, items: map<string, Value>) {
    && (forall i :: 0 <= i < |listed| ==> listed[i].0 in items && listed[i].1 == items[listed[i].0])
    && (forall name :: name in items ==> exists i :: 0 <= i < |listed| && listed[i].0 == name)
  }

  ghost predicate ReadSoFar(blobs: map<string, Blob>, codec: Codec, items: map<string, Value>, name: string) {
    (name in items <==> name in blobs) && (name in blobs ==> codec.decode(blobs[name]) == Some(items[name]))
  }

  lemma ListedNext(names: seq<string>, n: nat, listed: seq<(string, Value)>, items: map<string, Value>, value: Value)
    requires n < |names| && Increasing(names) && InOrder(listed) && Lists(listed, items)
    requires forall name :: name in items ==> name in names[..n]
    ensures names[n] !in items
    ensures InOrder(listed + [(names[n], value)]) && Lists(listed + [(names[n], value)], items[names[n] := value])
  {
    hide Before;
    if names[n] in items {
      var i :| 0 <= i < n && names[i] == names[n];
      BeforeIsTotal(names[n], names[n]);
    }
    var more := listed + [(names[n], value)];
    forall i | 0 <= i < |listed|
      ensures Before(listed[i].0, names[n])
    {
      assert listed[i].0 in names[..n];
    }
    assert more[|listed|].0 == names[n];
    var all := items[names[n] := value];
    forall name | name in all
      ensures exists i :: 0 <= i < |more| && more[i].0 == name
    {
      if name != names[n] {
        var i :| 0 <= i < |listed| && listed[i].0 == name;
        assert more[i].0 == name;
      }
    }
  }
}

/** The three store adapters as they are run, each operation tied to its function on states
    (control-plane/state/adapters). */
module Stores {
  import opened Common
  import opened StoreModel
  import Sql = SqliteModel
  import Json = JsonModel

  // ---- a Map, entry by entry ----

  method MapSet(es: Entries, id: string, r: Record) returns (s: Entries)
    ensures s == Set(es, id, r)
  {
    var known := false;
    s := [];
    for i := 0 to |es|
      invariant s == Replace(es[..i], id, r) && (known <==> Has(es[..i], id))
    {
      assert es[..i + 1][..i] == es[..i] && es[..i + 1] == es[..i] + [es[i]];
      if es[i].id == id {
        s := s + [Entry(id, r)];
        known := true;
      } else {
        s := s + [es[i]];
      }
    }
    assert es[..|es|] == es;
    if !known {
      Sql.ReplaceAbsent(es, id, r);
      s := s + [Entry(id, r)];
    }
  }

  method MapDelete(es: Entries, id: string) returns (s: Entries, existed: bool)
    ensures s == Remove(es, id) && (existed <==> Has(es, id))
  {
    s, existed := [], false;
    for i := 0 to |es|
      invariant s == Remove(es[..i], id) && (existed <==> Has(es[..i], id))
    {
      assert es[..i + 1][..i] == es[..i] && es[..i + 1] == es[..i] + [es[i]];
      if es[i].id == id {
        existed := true;
      } else {
        s := s + [es[i]];
      }
    }
    assert es[..|es|] == es;
  }

  method MapGet(es: Entries, id: string) returns (r: Option<Record>)
    ensures r == Lookup(es, id)
  {
    r := None;
    for i := 0 to |es|
      invariant r == Lookup(es[..i], id)
    {
      assert es[..i + 1][..i] == es[..i];
      if es[i].id == id {
        r := Some(es[i].record);
      }
    }
    assert es[..|es|] == es;
  }

  method FilterRows(source: seq<Record>, q: Query) returns (hits: seq<Record>)
    ensures hits == Filter(source, (r: Record) => Matches(r, q))
  {
    ghost var p := (r: Record) => Matches(r, q);
    hits := [];
    for i := 0 to |source|
      invariant hits == Filter(source[..i], p)
    {
      assert source[..i + 1][..i] == source[..i];
      if Matches(source[i], q) {
        hits := hits + [source[i]];
      }
    }
    assert source[..|source|] == source;
  }

  method ReverseRows(rows: seq<Record>) returns (r: seq<Record>)
    ensures r == Reverse(rows)
  {
    r := [];
    for i := 0 to |rows|
      invariant r == Reverse(rows[..i])
    {
      assert rows[..i + 1][..i] == rows[..i];
      r := [rows[i]] + r;
    }
    assert rows[..|rows|] == rows;
  }

  /** Filter, reverse if asked to, cut off. */
  method SelectRows(source: seq<Record>, q: Query, limit: Option<nat>, desc: bool) returns (rows: seq<Record>)
    ensures rows == Pick(source, q, limit, desc)
  {
    rows := FilterRows(source, q);
    if desc {
      rows := ReverseRows(rows);
    }
    if limit.Some? {
      rows := Take(rows, limit.value);
    }
  }

  // ---- statements, row by row ----

  method FindRowid(rows: Sql.Rows, id: string) returns (k: Option<nat>)
    requires Sql.OneRowPerId(rows)
    ensures k == if Sql.HasRow(rows, id) then Some(Sql.RowidOf(rows, id)) else None
  {
    var todo := rows.Keys;
    while todo != {}
      invariant todo <= rows.Keys && forall j :: j in rows && j !in todo ==> rows[j].id != id
      decreases |todo|
    {
      var j :| j in todo;
      if rows[j].id == id {
        return Some(j);
      }
      todo := todo - {j};
    }
    return None;
  }

  method UpsertRow(rows: Sql.Rows, id: string, r: Record) returns (s: Sql.Rows)
    requires Sql.OneRowPerId(rows)
    ensures s == Sql.Upsert(rows, id, r)
  {
    var k := FindRowid(rows, id);
    if k.Some? {
      return rows[k.value := Entry(id, r)];
    }
    return rows[Sql.NextRowid(rows) := Entry(id, r)];
  }

  method DeleteRowById(rows: Sql.Rows, id: string) returns (s: Sql.Rows, existed: bool)
    requires Sql.OneRowPerId(rows)
    ensures s == Sql.DeleteRow(rows, id) && existed == Sql.HasRow(rows, id)
  {
    var k := FindRowid(rows, id);
    if k.Some? {
      return rows - {k.value}, true;
    }
    return rows, false;
  }

  lemma LargestLast(rows: Sql.Rows, m: nat)
    requires rows != map[] && m == Sql.MaxOf(rows.Keys)
    ensures Records(Sql.Ordered(rows)) == Records(Sql.Ordered(rows - {m})) + [rows[m].record]
  {
    var before := Sql.Ordered(rows - {m});
    assert (before + [rows[m]])[..|before|] == before;
  }

  lemma MoveLargest(rows: Sql.Rows, m: nat, out: seq<Record>, all: seq<Record>)
    requires rows != map[] && m == Sql.MaxOf(rows.Keys) && Records(Sql.Ordered(rows)) + out == all
    ensures Records(Sql.Ordered(rows - {m})) + ([rows[m].record] + out) == all
  {
    LargestLast(rows, m);
  }

  method RowsInOrder(rows: Sql.Rows) returns (out: seq<Record>)
    ensures out == Records(Sql.Ordered(rows))
  {
    var rest := rows;
    out := [];
    while rest != map[]
      invariant Records(Sql.Ordered(rest)) + out == Records(Sql.Ordered(rows))
      decreases |rest|
    {
      var m := Sql.MaxOf(rest.Keys);
      MoveLargest(rest, m, out, Records(Sql.Ordered(rows)));
      out := [rest[m].record] + out;
      rest := rest - {m};
    }
  }

  function Walk(ascending: seq<Record>, desc: bool): seq<Record> {
    if desc then Reverse(ascending) else ascending
  }

  /** The i-th row of the walk, and what it adds to the hits. */
  lemma WalkStep(ascending: seq<Record>, desc: bool, q: Query, i: nat)
    requires i < |ascending|
    ensures var walk, p := Walk(ascending, desc), (r: Record) => Sql.SqlMatches(r, q);
      var row := if desc then ascending[|ascending| - 1 - i] else ascending[i];
      Filter(walk[..i + 1], p) == if Sql.SqlMatches(row, q) then Filter(walk[..i], p) + [row] else Filter(walk[..i], p)
  {
    var walk := Walk(ascending, desc);
    if desc {
      ReverseAt(ascending, i);
    }
    assert walk[..i + 1][..i] == walk[..i];
  }

  /** The hits so far are what is selected, once the walk is over or the limit reached. */
  lemma WalkStops(ascending: seq<Record>, desc: bool, q: Query, limit: Option<nat>, i: nat)
    requires i <= |ascending|
    requires var hits := Filter(Walk(ascending, desc)[..i], (r: Record) => Sql.SqlMatches(r, q));
      (limit.Some? ==> |hits| <= limit.value) && (i == |ascending| || (limit.Some? && |hits| == limit.value))
    ensures Filter(Walk(ascending, desc)[..i], (r: Record) => Sql.SqlMatches(r, q)) == Sql.Select(ascending, q, limit, desc)
  {
    var walk, p := Walk(ascending, desc), (r: Record) => Sql.SqlMatches(r, q);
    assert walk == walk[..i] + walk[i..];
    FilterConcat(walk[..i], walk[i..], p);
    if i == |ascending| {
      assert walk[..i] == walk;
    }
  }

  /** Walk the rows from one end, keep those that match, and stop at the limit. */
  method Scan(ascending: seq<Record>, q: Query, limit: Option<nat>, desc: bool) returns (hits: seq<Record>)
    ensures hits == Sql.Select(ascending, q, limit, desc)
  {
    ghost var p := (r: Record) => Sql.SqlMatches(r, q);
    hits := [];
    var i := 0;
    while i < |ascending| && (limit.None? || |hits| < limit.value)
      invariant i <= |ascending| && hits == Filter(Walk(ascending, desc)[..i], p)
      invariant limit.Some? ==> |hits| <= limit.value
    {
      var row := if desc then ascending[|ascending| - 1 - i] else ascending[i];
      WalkStep(ascending, desc, q, i);
      if Sql.SqlMatches(row, q) {
        hits := hits + [row];
      }
      i := i + 1;
    }
    WalkStops(ascending, desc, q, limit, i);
  }

  // ---- the adapters ----

  class MemoryAdapter {
    var tables: map<string, Doc>

    constructor ()
      ensures tables == map[]
    {
      tables := map[];
    }

    method Entry(table: string) returns (d: Doc)
      modifies this
      ensures d == DocOf(old(tables), table) && tables == old(tables)[table := d]
    {
      if table !in tables {
        tables := tables[table := EMPTY_DOC];
      }
      d := tables[table];
      assert tables == tables[table := d];
    }

    method Append(record: Record) returns (answer: Answer)
      modifies this
      ensures (tables, answer) == Step(old(tables), Op.Append(record))
    {
      var d := Entry(EVENTS);
      tables := tables[EVENTS := d.(events := d.events + [record])];
      assert tables == old(tables)[EVENTS := tables[EVENTS]];
      answer := Stored(record);
    }

    method Put(table: string, id: string, record: Record) returns (answer: Answer)
      modifies this
      ensures (tables, answer) == Step(old(tables), Op.Put(table, id, record))
    {
      var d := Entry(table);
      var records := MapSet(d.records, id, record);
      tables := tables[table := d.(records := records)];
      assert tables == old(tables)[table := tables[table]];
      answer := Stored(record);
    }

    method Get(table: string, id: string) returns (answer: Answer)
      modifies this
      ensures (tables, answer) == Step(old(tables), Op.Get(table, id))
    {
      var d := Entry(table);
      var record := MapGet(d.records, id);
      answer := Found(record);
    }

    method Delete(table: string, id: string) returns (answer: Answer)
      modifies this
      ensures (tables, answer) == Step(old(tables), Op.Delete(table, id))
    {
      var d := Entry(table);
      var records, existed := MapDelete(d.records, id);
      tables := tables[table := d.(records := records)];
      assert tables == old(tables)[table := tables[table]];
      answer := Deleted(existed);
    }

    method Query(table: string, filter: Query, limit: Option<nat>, desc: bool) returns (answer: Answer)
      modifies this
      ensures (tables, answer) == Step(old(tables), List(table, filter, limit, desc))
    {
      var d := Entry(table);
      var source := if table == EVENTS then d.events else Records(d.records);
      var rows := SelectRows(source, filter, limit, desc);
      answer := Rows(rows);
    }
  }

  class SqliteAdapter {
    /** Tables known to exist, the record tables by name, the event log and its last sequence number. */
    var ready: set<string>
    var tables: map<string, Sql.Rows>
    var events: map<nat, Record>
    var lastSeq: nat

    ghost function Abstract(): Sql.Db
      reads this
    {
      Sql.Db(tables, events, lastSeq)
    }

    ghost predicate Valid()
      reads this
    {
      Sql.Valid(Abstract()) && forall t :: t in ready ==> Sql.HasRecords(t) && Sql.Ident(t) in tables
    }

    constructor ()
      ensures Valid() && Abstract() == Sql.EMPTY_DB
    {
      ready, tables, events, lastSeq := {}, map[], map[], 0;
    }

    /** CREATE TABLE IF NOT EXISTS, once per table and process; throws on a name without word characters. */
    method Ensure(table: string) returns (ok: bool)
      requires Valid()
      modifies this
      ensures Valid() && events == old(events) && lastSeq == old(lastSeq)
      ensures ok <==> table == EVENTS || Sql.Ident(table) != ""
      ensures Sql.HasRecords(table) ==>
        tables == old(tables)[Sql.Ident(table) := Sql.RowsOf(old(Abstract()), table)]
      ensures !Sql.HasRecords(table) ==> tables == old(tables)
    {
      var name := Sql.Ident(table);
      if table != EVENTS && table !in ready {
        if name == "" {
          return false;
        }
        if name !in tables {
          tables := tables[name := map[]];
        }
        ready := ready + {table};
      }
      assert name in tables ==> tables == tables[name := tables[name]];
      return true;
    }

    method Append(record: Record) returns (answer: Answer)
      requires Valid()
      modifies this
      ensures Valid() && (Abstract(), answer) == Sql.Step(old(Abstract()), Op.Append(record))
    {
      lastSeq := lastSeq + 1;
      events := events[lastSeq := record];
      answer := Stored(record);
    }

    method Put(table: string, id: string, record: Record) returns (answer: Answer)
      requires Valid()
      modifies this
      ensures Valid() && (Abstract(), answer) == Sql.Step(old(Abstract()), Op.Put(table, id, record))
    {
      var ok := Ensure(table);
      if !ok || table == EVENTS {
        return Thrown;
      }
      Sql.StepValid(old(Abstract()), Op.Put(table, id, record));
      var name := Sql.Ident(table);
      var rows := UpsertRow(tables[name], id, record);
      tables := tables[name := rows];
      assert tables == old(tables)[name := rows];
      answer := Stored(record);
    }

    method Get(table: string, id: string) returns (answer: Answer)
      requires Valid()
      modifies this
      ensures Valid() && (Abstract(), answer) == Sql.Step(old(Abstract()), Op.Get(table, id))
    {
      var ok := Ensure(table);
      if !ok || table == EVENTS {
        return Thrown;
      }
      var rows := tables[Sql.Ident(table)];
      var k := FindRowid(rows, id);
      answer := Found(if k.Some? then Some(rows[k.value].record) else None);
    }

    method Delete(table: string, id: string) returns (answer: Answer)
      requires Valid()
      modifies this
      ensures Valid() && (Abstract(), answer) == Sql.Step(old(Abstract()), Op.Delete(table, id))
    {
      var ok := Ensure(table);
      if !ok || table == EVENTS {
        return Thrown;
      }
      Sql.StepValid(old(Abstract()), Op.Delete(table, id));
      var name := Sql.Ident(table);
      var left, existed := DeleteRowById(tables[name], id);
      tables := tables[name := left];
      assert tables == old(tables)[name := left];
      answer := Deleted(existed);
    }

    method Query(table: string, filter: Query, limit: Option<nat>, desc: bool) returns (answer: Answer)
      requires Valid()
      modifies this
      ensures Valid() && (Abstract(), answer) == Sql.Step(old(Abstract()), List(table, filter, limit, desc))
    {
      if table == EVENTS {
        var rows := Scan(Sql.EventsOf(events), filter, limit, desc);
        return Rows(rows);
      }
      var ok := Ensure(table);
      if !ok {
        return Thrown;
      }
      var ascending := RowsInOrder(tables[Sql.Ident(table)]);
      var rows := Scan(ascending, filter, limit, desc);
      return Rows(rows);
    }
  }

  class LocalJsonAdapter {
    var cache: map<string, Doc>
    var files: map<string, Doc>

    ghost function Abstract(): Json.Json
      reads this
    {
      Json.Json(cache, files)
    }

    /** A process that starts over the files of an earlier one. */
    constructor (files: map<string, Doc>)
      ensures this.files == files && cache == map[]
    {
      this.files, cache := files, map[];
    }

    method Load(table: string) returns (d: Doc)
      modifies this`cache
      ensures d == Json.Loaded(old(Abstract()), table) && cache == old(cache)[table := d]
    {
      if table in cache {
        d := cache[table];
        assert cache == cache[table := d];
        return;
      }
      d := EMPTY_DOC;
      if table in files {
        d := Json.ThroughObject(files[table]);
      }
      cache := cache[table := d];
    }

    method Persist(table: string)
      modifies this
      ensures var d := Json.Loaded(old(Abstract()), table);
        cache == old(cache)[table := d] && files == old(files)[table := Json.ThroughObject(d)]
      ensures table in old(cache) ==> cache == old(cache)
    {
      var d := Load(table);
      files := files[table := Json.ThroughObject(d)];
    }

    method Append(record: Record) returns (answer: Answer)
      modifies this
      ensures (Abstract(), answer) == Json.Step(old(Abstract()), Op.Append(record))
    {
      var d := Load(EVENTS);
      cache := cache[EVENTS := d.(events := d.events + [record])];
      assert cache == old(cache)[EVENTS := cache[EVENTS]];
      Persist(EVENTS);
      answer := Stored(record);
    }

    method Put(table: string, id: string, record: Record) returns (answer: Answer)
      modifies this
      ensures (Abstract(), answer) == Json.Step(old(Abstract()), Op.Put(table, id, record))
    {
      var d := Load(table);
      var records := MapSet(d.records, id, record);
      cache := cache[table := d.(records := records)];
      assert cache == old(cache)[table := cache[table]];
      Persist(table);
      answer := Stored(record);
    }

    method Get(table: string, id: string) returns (answer: Answer)
      modifies this
      ensures (Abstract(), answer) == Json.Step(old(Abstract()), Op.Get(table, id))
    {
      var d := Load(table);
      var record := MapGet(d.records, id);
      answer := Found(record);
    }

    method Delete(table: string, id: string) returns (answer: Answer)
      modifies this
      ensures (Abstract(), answer) == Json.Step(old(Abstract()), Op.Delete(table, id))
    {
      var d := Load(table);
      var records, existed := MapDelete(d.records, id);
      cache := cache[table := d.(records := records)];
      assert cache == old(cache)[table := cache[table]];
      answer := Deleted(existed);
      Persist(table);
    }

    method Query(table: string, filter: Query, limit: Option<nat>, desc: bool) returns (answer: Answer)
      modifies this
      ensures (Abstract(), answer) == Json.Step(old(Abstract()), List(table, filter, limit, desc))
    {
      var d := Load(table);
      var source := if table == EVENTS then d.events else Records(d.records);
      var rows := SelectRows(source, filter, limit, desc);
      answer := Rows(rows);
    }
  }
}

/** The SQLite adapter: rows numbered by rowid, events by an increasing sequence number
    (control-plane/state/adapters/sqlite.mjs). */
module SqliteModel {
  import opened Common
  import opened StoreModel

  /** Rows by rowid. */
  type Rows = map<nat, Entry>

  predicate OneRowPerId(rows: Rows) {
    forall k, m :: k in rows && m in rows && rows[k].id == rows[m].id ==> k == m
  }

  lemma MaxExists(s: set<nat>)
    requires s != {}
    ensures exists m :: m in s && forall k :: k in s ==> k <= m
    decreases |s|
  {
    var x :| x in s;
    if s != {x} {
      var rest := s - {x};
      assert s == rest + {x};
      MaxExists(rest);
      var m :| m in rest && forall k :: k in rest ==> k <= m;
      var top := Max(m, x);
      assert top in s && forall k :: k in s ==> k <= top;
    }
  }

  function MaxOf(s: set<nat>): (m: nat)
    requires s != {}
    ensures m in s && forall k :: k in s ==> k <= m
  {
    MaxExists(s);
    var m :| m in s && forall k :: k in s ==> k <= m;
    m
  }

  /** Rows in ascending rowid order. */
  function Ordered(rows: Rows): Entries
    decreases |rows|
  {
    if rows == map[] then []
    else
      var m := MaxOf(rows.Keys);
      Ordered(rows - {m}) + [rows[m]]
  }

  predicate HasRow(rows: Rows, id: string) {
    exists k :: k in rows && rows[k].id == id
  }

  function RowidOf(rows: Rows, id: string): (k: nat)
    requires OneRowPerId(rows) && HasRow(rows, id)
    ensures k in rows && rows[k].id == id
  {
    var k :| k in rows && rows[k].id == id;
    k
  }

  /** One more than the largest rowid, or 1. */
  function NextRowid(rows: Rows): nat {
    if rows == map[] then 1 else MaxOf(rows.Keys) + 1
  }

  /** INSERT ... ON CONFLICT(id) DO UPDATE. */
  function Upsert(rows: Rows, id: string, r: Record): Rows
    requires OneRowPerId(rows)
  {
    if HasRow(rows, id) then rows[RowidOf(rows, id) := Entry(id, r)] else rows[NextRowid(rows) := Entry(id, r)]
  }

  function DeleteRow(rows: Rows, id: string): Rows
    requires OneRowPerId(rows)
  {
    if HasRow(rows, id) then rows - {RowidOf(rows, id)} else rows
  }

  function SelectRow(rows: Rows, id: string): Option<Record>
    requires OneRowPerId(rows)
  {
    if HasRow(rows, id) then Some(rows[RowidOf(rows, id)].record) else None
  }

  /** json_extract compared with a text parameter: an object or array counts by its JSON text. */
  predicate ExtractEquals(v: Value, text: string) {
    v == Text(text) || v == Composite(text)
  }

  predicate SqlMatches(r: Record, q: Query) {
    forall e :: e in q ==> e.0 in r && ExtractEquals(r[e.0], e.1)
  }

  /** WHERE, ORDER BY and LIMIT over rows in ascending order. */
  function Select(ascending: seq<Record>, q: Query, limit: Option<nat>, desc: bool): seq<Record> {
    Limited(Filter(if desc then Reverse(ascending) else ascending, (r: Record) => SqlMatches(r, q)), limit)
  }

  predicate IsWordChar(c: char) {
    'A' <= c <= 'Z' || 'a' <= c <= 'z' || '0' <= c <= '9' || c == '_'
  }

  /** A table name as it is written into statements; an empty one throws. */
  function Ident(name: string): string {
    Filter(name, IsWordChar)
  }

  /** A name is written unchanged exactly when it is made of letters, digits and underscores. */
  lemma WrittenUnchangedIff(name: string)
    ensures Ident(name) == name <==>
      forall c :: c in name ==> 'A' <= c <= 'Z' || 'a' <= c <= 'z' || '0' <= c <= '9' || c == '_'
  {
    FilterMembers(name, IsWordChar);
    if forall c :: c in name ==> IsWordChar(c) {
      FilterAll(name, IsWordChar);
    }
  }

  /** Record tables by the name in their statements, the event log, and its last sequence number. */
  datatype Db = Db(tables: map<string, Rows>, events: map<nat, Record>, lastSeq: nat)

  const EMPTY_DB := Db(map[], map[], 0)

  function RowsOf(d: Db, table: string): Rows {
    if Ident(table) in d.tables then d.tables[Ident(table)] else map[]
  }

  ghost predicate Valid(d: Db) {
    && (forall t :: t in d.tables ==> OneRowPerId(d.tables[t]))
    && (forall k :: k in d.events ==> k <= d.lastSeq)
  }

  /** Events in ascending sequence order. */
  function EventsOf(events: map<nat, Record>): seq<Record>
    decreases |events|
  {
    if events == map[] then []
    else
      var m := MaxOf(events.Keys);
      EventsOf(events - {m}) + [events[m]]
  }

  /** There is no record table for events, and none for a name without word characters: such calls throw. */
  predicate HasRecords(table: string) {
    table != EVENTS && Ident(table) != ""
  }

  function WithRows(d: Db, table: string, rows: Rows): Db {
    d.(tables := d.tables[Ident(table) := rows])
  }

  function Step(d: Db, op: Op): (Db, Answer)
    requires Valid(d)
  {
    match op
    case Append(r) => (d.(events := d.events[d.lastSeq + 1 := r], lastSeq := d.lastSeq + 1), Stored(r))
    case Put(t, id, r) =>
      if !HasRecords(t) then (d, Thrown) else (WithRows(d, t, Upsert(RowsOf(d, t), id, r)), Stored(r))
    case Get(t, id) =>
      if !HasRecords(t) then (d, Thrown) else (WithRows(d, t, RowsOf(d, t)), Found(SelectRow(RowsOf(d, t), id)))
    case Delete(t, id) =>
      if !HasRecords(t) then (d, Thrown)
      else (WithRows(d, t, DeleteRow(RowsOf(d, t), id)), Deleted(HasRow(RowsOf(d, t), id)))
    case List(t, q, limit, desc) =>
      if t == EVENTS then (d, Answer.Rows(Select(EventsOf(d.events), q, limit, desc)))
      else if !HasRecords(t) then (d, Thrown)
      else (WithRows(d, t, RowsOf(d, t)), Answer.Rows(Select(Records(Ordered(RowsOf(d, t))), q, limit, desc)))
  }

  /** A call is refused, and changes nothing, exactly when it is about the records of the event log or about a table
      whose name holds no letter, digit or underscore. */
  lemma RefusedIff(d: Db, op: Op)
    requires Valid(d)
    ensures Step(d, op).1 == Thrown <==>
      !op.Append? && (Ident(op.table) == "" || (op.table == EVENTS && !op.List?))
    ensures Step(d, op).1 == Thrown ==> Step(d, op).0 == d
  {
    FilterAll(EVENTS, IsWordChar);
  }

  // ---- rows in rowid order are the entries of a Map ----

  lemma {:induction false} OrderedMembers(rows: Rows)
    ensures forall e :: e in Ordered(rows) <==> exists k :: k in rows && rows[k] == e
    decreases |rows|
  {
    if rows != map[] {
      var m := MaxOf(rows.Keys);
      var rest := rows - {m};
      OrderedMembers(rest);
      forall k | k in rows ensures rows[k] in Ordered(rows) {
        if k != m {
          assert rest[k] in Ordered(rest);
        }
      }
    }
  }

  lemma HasAgrees(rows: Rows, id: string)
    ensures Has(Ordered(rows), id) <==> HasRow(rows, id)
  {
    OrderedMembers(rows);
    if HasRow(rows, id) {
      var k :| k in rows && rows[k].id == id;
      assert rows[k] in Ordered(rows);
    }
  }

  /** Taking away the largest row. */
  lemma Peel(rows: Rows, m: nat)
    requires m in rows && forall k :: k in rows ==> k <= m
    ensures Ordered(rows) == Ordered(rows - {m}) + [rows[m]]
  {
    assert MaxOf(rows.Keys) == m;
  }

  /** A row with a new largest rowid goes to the end. */
  lemma InsertAgrees(rows: Rows, k: nat, e: Entry)
    requires forall j :: j in rows ==> j < k
    ensures Ordered(rows[k := e]) == Ordered(rows) + [e]
  {
    Peel(rows[k := e], k);
    assert rows[k := e] - {k} == rows;
  }

  lemma ReplaceLast(es: Entries, last: Entry, id: string, r: Record)
    ensures Replace(es + [last], id, r) == Replace(es, id, r) + [if last.id == id then Entry(id, r) else last]
  {
    assert (es + [last])[..|es|] == es;
  }

  lemma UpdateLargest(rows: Rows, k: nat, r: Record)
    requires OneRowPerId(rows) && k in rows && forall j :: j in rows ==> j <= k
    ensures Ordered(rows[k := Entry(rows[k].id, r)]) == Replace(Ordered(rows), rows[k].id, r)
  {
    var id, rows' := rows[k].id, rows[k := Entry(rows[k].id, r)];
    Peel(rows, k);
    Peel(rows', k);
    assert rows' - {k} == rows - {k};
    OthersLack(rows, k);
    ReplaceAbsent(Ordered(rows - {k}), id, r);
    ReplaceLast(Ordered(rows - {k}), rows[k], id, r);
  }

  /** Changing a row that is not the largest changes the rows below it. */
  lemma UpdateSmaller(rows: Rows, m: nat, k: nat, e: Entry)
    requires m in rows && k in rows && k != m && forall j :: j in rows ==> j <= m
    ensures Ordered(rows[k := e]) == Ordered((rows - {m})[k := e]) + [rows[m]]
  {
    Peel(rows[k := e], m);
    assert rows[k := e] - {m} == (rows - {m})[k := e];
  }

  lemma {:induction false} UpdateAgrees(rows: Rows, k: nat, r: Record)
    requires OneRowPerId(rows) && k in rows
    ensures Ordered(rows[k := Entry(rows[k].id, r)]) == Replace(Ordered(rows), rows[k].id, r)
    decreases |rows|
  {
    var m := MaxOf(rows.Keys);
    if k == m {
      UpdateLargest(rows, k, r);
    } else {
      UpdateSmaller(rows, m, k, Entry(rows[k].id, r));
      UpdateAgrees(rows - {m}, k, r);
      ReplaceLast(Ordered(rows - {m}), rows[m], rows[k].id, r);
    }
  }

  lemma OthersLack(rows: Rows, k: nat)
    requires OneRowPerId(rows) && k in rows
    ensures !Has(Ordered(rows - {k}), rows[k].id)
  {
    HasAgrees(rows - {k}, rows[k].id);
  }

  lemma {:induction false} ReplaceAbsent(es: Entries, id: string, r: Record)
    requires !Has(es, id)
    ensures Replace(es, id, r) == es
  {
    if es != [] {
      var front, last := es[..|es| - 1], es[|es| - 1];
      assert es == front + [last];
      assert last in es;
      ReplaceAbsent(front, id, r);
    }
  }

  lemma {:induction false} RemoveAbsent(es: Entries, id: string)
    requires !Has(es, id)
    ensures Remove(es, id) == es
  {
    if es != [] {
      var front, last := es[..|es| - 1], es[|es| - 1];
      assert es == front + [last];
      assert last in es;
      RemoveAbsent(front, id);
    }
  }

  lemma {:induction false} DeleteAgrees(rows: Rows, k: nat)
    requires OneRowPerId(rows) && k in rows
    ensures Ordered(rows - {k}) == Remove(Ordered(rows), rows[k].id)
    decreases |rows|
  {
    var id := rows[k].id;
    var m := MaxOf(rows.Keys);
    Peel(rows, m);
    if k == m {
      OthersLack(rows, m);
      RemoveAbsent(Ordered(rows - {m}), id);
    } else {
      Peel(rows - {k}, m);
      assert rows - {k} - {m} == rows - {m} - {k};
      DeleteAgrees(rows - {m}, k);
    }
  }

  lemma {:induction false} SelectRowAgrees(rows: Rows, id: string)
    requires OneRowPerId(rows)
    ensures SelectRow(rows, id) == Lookup(Ordered(rows), id)
    decreases |rows|
  {
    if rows != map[] {
      var m := MaxOf(rows.Keys);
      Peel(rows, m);
      SelectRowAgrees(rows - {m}, id);
      if rows[m].id != id && HasRow(rows, id) {
        assert RowidOf(rows, id) in rows - {m};
      }
    }
  }

  /** Upsert keeps the place of an existing id and appends a new one. */
  lemma UpsertAgrees(rows: Rows, id: string, r: Record)
    requires OneRowPerId(rows)
    ensures Ordered(Upsert(rows, id, r)) == Set(Ordered(rows), id, r) && OneRowPerId(Upsert(rows, id, r))
  {
    HasAgrees(rows, id);
    if HasRow(rows, id) {
      UpdateAgrees(rows, RowidOf(rows, id), r);
    } else {
      InsertAgrees(rows, NextRowid(rows), Entry(id, r));
    }
  }

  lemma DeleteRowAgrees(rows: Rows, id: string)
    requires OneRowPerId(rows)
    ensures Ordered(DeleteRow(rows, id)) == Remove(Ordered(rows), id) && OneRowPerId(DeleteRow(rows, id))
  {
    HasAgrees(rows, id);
    if HasRow(rows, id) {
      DeleteAgrees(rows, RowidOf(rows, id));
    } else {
      RemoveAbsent(Ordered(rows), id);
    }
  }

  lemma EventAgrees(events: map<nat, Record>, k: nat, r: Record)
    requires forall j :: j in events ==> j < k
    ensures EventsOf(events[k := r]) == EventsOf(events) + [r]
  {
    assert k in events[k := r];
    assert MaxOf(events[k := r].Keys) == k;
    assert events[k := r] - {k} == events;
  }

  // ---- filters ----

  /** No filter entry asks for the JSON text of an object or array stored in the record. */
  predicate NoClash(r: Record, q: Query) {
    forall e :: e in q && e.0 in r ==> r[e.0] != Composite(e.1)
  }

  /** The two notions of a match agree on every filter exactly for records without objects or arrays. */
  lemma MatchAgreesIff(r: Record)
    ensures (forall q :: SqlMatches(r, q) <==> Matches(r, q)) <==> (forall k :: k in r ==> !r[k].Composite?)
  {
    forall k | k in r && r[k].Composite?
      ensures exists q :: SqlMatches(r, q) && !Matches(r, q)
    {
      var q := [(k, r[k].json)];
      assert (k, r[k].json) in q;
      assert SqlMatches(r, q) && !Matches(r, q);
    }
  }

  lemma {:induction false} FilterReverse(s: seq<Record>, p: Record -> bool)
    ensures Filter(Reverse(s), p) == Reverse(Filter(s, p))
  {
    if s != [] {
      var front, last := s[..|s| - 1], s[|s| - 1];
      FilterReverse(front, p);
      FilterConcat([last], Reverse(front), p);
      assert [last][..0] == [];
      var hits := Filter(front, p);
      if p(last) {
        assert (hits + [last])[..|hits|] == hits;
      }
    }
  }

  lemma {:induction false} FilterSame(s: seq<Record>, p: Record -> bool, p': Record -> bool)
    requires forall r :: r in s ==> p(r) == p'(r)
    ensures Filter(s, p) == Filter(s, p')
  {
    if s != [] {
      FilterSame(s[..|s| - 1], p, p');
    }
  }

  /** Ordering before or after filtering gives the same rows. */
  lemma SelectAgrees(rows: seq<Record>, q: Query, limit: Option<nat>, desc: bool)
    requires forall r :: r in rows ==> NoClash(r, q)
    ensures Select(rows, q, limit, desc) == Pick(rows, q, limit, desc)
  {
    var p, p' := (r: Record) => SqlMatches(r, q), (r: Record) => Matches(r, q);
    forall r | r in rows ensures p(r) == p'(r) {
      assert NoClash(r, q);
    }
    FilterSame(rows, p, p');
    FilterReverse(rows, p);
  }

  // ---- every operation keeps one row per id ----

  lemma StepValid(d: Db, op: Op)
    requires Valid(d)
    ensures Valid(Step(d, op).0)
  {
    match op
    case Append(_) =>
    case Put(t, id, r) =>
      UpsertAgrees(RowsOf(d, t), id, r);
      WithTable(d, t, Upsert(RowsOf(d, t), id, r));
    case Delete(t, id) =>
      DeleteRowAgrees(RowsOf(d, t), id);
      WithTable(d, t, DeleteRow(RowsOf(d, t), id));
    case Get(t, _) => WithTable(d, t, RowsOf(d, t));
    case List(t, _, _, _) => WithTable(d, t, RowsOf(d, t));
  }

  lemma WithTable(d: Db, t: string, rows: Rows)
    requires OneRowPerId(rows) && Valid(d)
    ensures Valid(WithRows(d, t, rows))
  {
  }
}

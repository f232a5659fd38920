/** The three adapters answer every sequence of operations alike. */
module StoreAgreement {
  import opened Common
  import opened StoreModel
  import Sql = SqliteModel
  import opened JsonModel

  // ---- SQLite against the ordered map ----

  /** A name that is written into statements as it is. */
  predicate PlainName(table: string) {
    table != "" && Sql.Ident(table) == table
  }

  /** Appending goes to the events table, everything but queries to the others, whose names are plain. */
  predicate Plain(op: Op) {
    op.Append? || (op.List? && op.table == EVENTS) || (op.table != EVENTS && PlainName(op.table))
  }

  /** The tables of the store, which refuses all others. */
  const TABLES: seq<string> := [
    "runs", "nodes", "run_node_selection", "urls", "jobs", "events", "results", "comparisons", "artifacts", "commands",
    "enrollments", "credentials", "site_packets", "node_update_events"]

  /** All of them have plain names. */
  lemma TablesArePlain(i: nat)
    requires i < |TABLES|
    ensures PlainName(TABLES[i])
  {
    FilterAll(TABLES[i], Sql.IsWordChar);
  }

  /** No query of the sequence filters a field by the JSON text of an object or array stored in it. */
  predicate ScalarFilters(ops: seq<Op>) {
    forall op, asked :: op in ops && asked in ops && asked.List? ==>
      (op.Put? ==> Sql.NoClash(op.record, asked.filter)) && (op.Append? ==> Sql.NoClash(op.event, asked.filter))
  }

  function DbAfter(ops: seq<Op>): (d: Sql.Db)
    ensures Sql.Valid(d)
  {
    if ops == [] then Sql.EMPTY_DB
    else
      var d, op := DbAfter(ops[..|ops| - 1]), ops[|ops| - 1];
      Sql.StepValid(d, op);
      Sql.Step(d, op).0
  }

  function DbAnswers(ops: seq<Op>): seq<Answer> {
    if ops == [] then []
    else DbAnswers(ops[..|ops| - 1]) + [Sql.Step(DbAfter(ops[..|ops| - 1]), ops[|ops| - 1]).1]
  }

  /** Rows ordered by rowid, and events by sequence number, are what the ordered map holds. */
  ghost predicate Tracks(s: Store, d: Sql.Db, t: string) {
    if t == EVENTS then DocOf(s, t).events == Sql.EventsOf(d.events)
    else DocOf(s, t).records == Sql.Ordered(Sql.RowsOf(d, t))
  }

  lemma StepTracks(s: Store, d: Sql.Db, op: Op, t: string)
    requires Plain(op) && (t == EVENTS || PlainName(t)) && Tracks(s, d, t) && Sql.Valid(d)
    ensures Tracks(StoreModel.Step(s, op).0, Sql.Step(d, op).0, t)
  {
    if TableOf(op) == t {
      match op
      case Put(_, id, r) => Sql.UpsertAgrees(Sql.RowsOf(d, t), id, r);
      case Delete(_, id) => Sql.DeleteRowAgrees(Sql.RowsOf(d, t), id);
      case Append(r) => Sql.EventAgrees(d.events, d.lastSeq + 1, r);
      case _ =>
    }
  }

  lemma StepAnswers(s: Store, d: Sql.Db, op: Op)
    requires Plain(op) && Tracks(s, d, TableOf(op)) && Sql.Valid(d)
    requires op.List? ==> forall r :: r in Source(DocOf(s, op.table), op.table) ==> Sql.NoClash(r, op.filter)
    ensures StoreModel.Step(s, op).1 == Sql.Step(d, op).1
  {
    match op
    case Get(t, id) => Sql.SelectRowAgrees(Sql.RowsOf(d, t), id);
    case Delete(t, id) => Sql.HasAgrees(Sql.RowsOf(d, t), id);
    case List(t, q, limit, desc) => Sql.SelectAgrees(Source(DocOf(s, t), t), q, limit, desc);
    case _ =>
  }

  lemma {:induction false} AlwaysTracks(ops: seq<Op>, t: string)
    requires t == EVENTS || PlainName(t)
    requires forall op :: op in ops ==> Plain(op)
    ensures Tracks(After(ops), DbAfter(ops), t)
  {
    if ops != [] {
      AlwaysTracks(ops[..|ops| - 1], t);
      StepTracks(After(ops[..|ops| - 1]), DbAfter(ops[..|ops| - 1]), ops[|ops| - 1], t);
    }
  }

  // ---- stored records were put or appended ----

  lemma {:induction false} RecordsOf(es: Entries, r: Record)
    ensures r in Records(es) <==> exists e :: e in es && e.record == r
  {
    if es != [] {
      RecordsOf(es[..|es| - 1], r);
      assert es == es[..|es| - 1] + [es[|es| - 1]];
    }
  }

  lemma SetEntries(es: Entries, id: string, r: Record, e: Entry)
    requires e in Set(es, id, r)
    ensures e in es || e == Entry(id, r)
  {
    ReplaceKeepsPlaces(es, id, r);
  }

  /** Every entry of a table was put there, every event appended. */
  lemma {:induction false} EntriesWerePut(ops: seq<Op>, t: string, e: Entry)
    requires e in DocOf(After(ops), t).records
    ensures Put(t, e.id, e.record) in ops
  {
    if ops != [] {
      var front, op := ops[..|ops| - 1], ops[|ops| - 1];
      var before := DocOf(After(front), t).records;
      if e in before {
        EntriesWerePut(front, t, e);
      } else if TableOf(op) == t {
        if op.Put? {
          SetEntries(before, op.id, op.record, e);
        } else if op.Delete? {
          RemoveIds(before, op.id);
        }
      }
    }
  }

  lemma {:induction false} EventsWereAppended(ops: seq<Op>, r: Record)
    requires r in DocOf(After(ops), EVENTS).events
    ensures Append(r) in ops
  {
    if ops != [] {
      var front := ops[..|ops| - 1];
      if r in DocOf(After(front), EVENTS).events {
        EventsWereAppended(front, r);
      }
    }
  }

  lemma RecordWasPut(ops: seq<Op>, t: string, r: Record)
    requires r in Records(DocOf(After(ops), t).records)
    ensures exists id :: Put(t, id, r) in ops
  {
    RecordsOf(DocOf(After(ops), t).records, r);
    var e :| e in DocOf(After(ops), t).records && e.record == r;
    EntriesWerePut(ops, t, e);
  }

  lemma PutIsScalar(ops: seq<Op>, t: string, id: string, r: Record, op: Op)
    requires Put(t, id, r) in ops && op in ops && op.List? && ScalarFilters(ops)
    ensures Sql.NoClash(r, op.filter)
  {
  }

  lemma AppendIsScalar(ops: seq<Op>, r: Record, op: Op)
    requires Append(r) in ops && op in ops && op.List? && ScalarFilters(ops)
    ensures Sql.NoClash(r, op.filter)
  {
  }

  lemma SourceIsScalar(front: seq<Op>, ops: seq<Op>, op: Op, r: Record)
    requires op in ops && op.List? && forall o :: o in front ==> o in ops
    requires r in Source(DocOf(After(front), op.table), op.table)
    requires ScalarFilters(ops)
    ensures Sql.NoClash(r, op.filter)
  {
    if op.table == EVENTS {
      EventsWereAppended(front, r);
      AppendIsScalar(ops, r, op);
    } else {
      RecordWasPut(front, op.table, r);
      var id :| Put(op.table, id, r) in front;
      PutIsScalar(ops, op.table, id, r, op);
    }
  }

  lemma PlainTable(op: Op)
    requires Plain(op)
    ensures TableOf(op) == EVENTS || PlainName(TableOf(op))
  {
  }

  lemma FrontFits(ops: seq<Op>)
    requires ops != [] && (forall op :: op in ops ==> Plain(op)) && ScalarFilters(ops)
    ensures var front := ops[..|ops| - 1];
      && (forall op :: op in front ==> op in ops && Plain(op)) && ScalarFilters(front)
      && ops[|ops| - 1] in ops && Plain(ops[|ops| - 1])
  {
    assert ops == ops[..|ops| - 1] + [ops[|ops| - 1]];
  }

  /** SQLite agrees with the in-memory adapter on every sequence of operations: same answers, same order. */
  lemma {:induction false} SqliteAgrees(ops: seq<Op>)
    requires (forall op :: op in ops ==> Plain(op)) && ScalarFilters(ops)
    ensures DbAnswers(ops) == Answers(ops)
  {
    if ops != [] {
      var front, op := ops[..|ops| - 1], ops[|ops| - 1];
      FrontFits(ops);
      PlainTable(op);
      SqliteAgrees(front);
      AlwaysTracks(front, TableOf(op));
      if op.List? {
        forall r | r in Source(DocOf(After(front), op.table), op.table) ensures Sql.NoClash(r, op.filter) {
          SourceIsScalar(front, ops, op, r);
        }
      }
      StepAnswers(After(front), DbAfter(front), op);
    }
  }

  // ---- where SQLite does not agree ----

  lemma AnswersToTwo(x: Op, y: Op)
    ensures Answers([x, y])
         == [StoreModel.Step(map[], x).1, StoreModel.Step(StoreModel.Step(map[], x).0, y).1]
  {
    var one, two: seq<Op> := [x], [x, y];
    assert one[..0] == [] && two[..1] == one;
    assert After([]) == map[] && After(one) == StoreModel.Step(map[], x).0;
    assert Answers(one) == [StoreModel.Step(map[], x).1];
  }

  lemma DbAnswersToTwo(x: Op, y: Op)
    ensures Sql.Valid(Sql.EMPTY_DB) && Sql.Valid(Sql.Step(Sql.EMPTY_DB, x).0)
    ensures DbAnswers([x, y]) == [Sql.Step(Sql.EMPTY_DB, x).1, Sql.Step(Sql.Step(Sql.EMPTY_DB, x).0, y).1]
  {
    var one, two: seq<Op> := [x], [x, y];
    Sql.StepValid(Sql.EMPTY_DB, x);
    assert one[..0] == [] && two[..1] == one;
    assert DbAfter([]) == Sql.EMPTY_DB && DbAfter(one) == Sql.Step(Sql.EMPTY_DB, x).0;
    assert DbAnswers(one) == [Sql.Step(Sql.EMPTY_DB, x).1];
  }

  /** Two names that are written alike share a table: what is put under one is found under the other. */
  lemma SharedTable(t: string, t': string, id: string, r: Record)
    requires t != t' && Sql.HasRecords(t) && Sql.HasRecords(t') && Sql.Ident(t) == Sql.Ident(t')
    ensures DbAnswers([Put(t, id, r), Get(t', id)]) == [Stored(r), Found(Some(r))]
    ensures Answers([Put(t, id, r), Get(t', id)]) == [Stored(r), Found(None)]
  {
    AnswersToTwo(Put(t, id, r), Get(t', id));
    DbAnswersToTwo(Put(t, id, r), Get(t', id));
    var rows := Sql.Upsert(map[], id, r);
    assert 1 in rows && rows[1] == Entry(id, r);
  }

  lemma WrittenAlike()
    ensures Sql.Ident("a-b") == "ab" && Sql.Ident("ab") == "ab"
  {
    assert "a-b" == "a" + "-b" && "-b" == "-" + "b" && "ab" == "a" + "b";
    FilterConcat("a", "-b", Sql.IsWordChar);
    FilterConcat("-", "b", Sql.IsWordChar);
    FilterAll("ab", Sql.IsWordChar);
  }

  /** As "a-b" and "ab" do. */
  lemma NamesCollide(id: string, r: Record)
    ensures DbAnswers([Put("a-b", id, r), Get("ab", id)]) == [Stored(r), Found(Some(r))]
    ensures Answers([Put("a-b", id, r), Get("ab", id)]) == [Stored(r), Found(None)]
  {
    WrittenAlike();
    SharedTable("a-b", "ab", id, r);
  }

  /** An object asked for by its JSON text: SQLite lists the record, the in-memory adapter does not. */
  lemma ObjectFilterDiffers(t: string, id: string, key: string, json: string)
    requires t != EVENTS && PlainName(t)
    ensures var r: Record := map[key := Composite(json)]; var q := [(key, json)];
      && DbAnswers([Put(t, id, r), List(t, q, None, false)]) == [Stored(r), Rows([r])]
      && Answers([Put(t, id, r), List(t, q, None, false)]) == [Stored(r), Rows([])]
  {
    var r: Record := map[key := Composite(json)];
    var q := [(key, json)];
    AnswersToTwo(Put(t, id, r), List(t, q, None, false));
    DbAnswersToTwo(Put(t, id, r), List(t, q, None, false));
    Sql.UpsertAgrees(map[], id, r);
    assert Set([], id, r) == [Entry(id, r)] && Records([Entry(id, r)]) == [r];
    ObjectMatches(key, json);
  }

  lemma ObjectMatches(key: string, json: string)
    ensures var r: Record := map[key := Composite(json)]; var q := [(key, json)];
      Sql.Select([r], q, None, false) == [r] && Pick([r], q, None, false) == []
  {
    var r: Record := map[key := Composite(json)];
    var q := [(key, json)];
    assert (key, json) in q && Sql.SqlMatches(r, q) && !Matches(r, q);
    FilterAll([r], (x: Record) => Sql.SqlMatches(x, q));
    FilterNone([r], (x: Record) => Matches(x, q));
  }

  // ---- local JSON against the ordered map ----

  datatype Event = Do(op: Op) | Restarted

  function JsonStep(j: Json, e: Event): Json {
    if e.Do? then JsonModel.Step(j, e.op).0 else Restart(j)
  }

  function JsonAfter(events: seq<Event>): Json {
    if events == [] then EMPTY_JSON else JsonStep(JsonAfter(events[..|events| - 1]), events[|events| - 1])
  }

  function JsonAnswers(events: seq<Event>): seq<Answer> {
    if events == [] then []
    else
      var front, e := events[..|events| - 1], events[|events| - 1];
      if e.Do? then JsonAnswers(front) + [JsonModel.Step(JsonAfter(front), e.op).1] else JsonAnswers(front)
  }

  function OpsOf(events: seq<Event>): seq<Op> {
    if events == [] then []
    else
      var front, e := events[..|events| - 1], events[|events| - 1];
      if e.Do? then OpsOf(front) + [e.op] else OpsOf(front)
  }

  /** What is cached is what reading the file would give, but for the order. */
  ghost predicate Saved(j: Json) {
    forall t :: t in j.cache ==>
      if t in j.files then j.files[t] == ThroughObject(j.cache[t]) else j.cache[t] == EMPTY_DOC
  }

  lemma ThroughTwice(d: Doc)
    ensures ThroughObject(ThroughObject(d)) == ThroughObject(d)
  {
    ObjectOrderIndexFirst(d.records);
    OrderedAlready(ObjectOrder(d.records));
  }

  /** A file always holds some table that has been through an object. */
  ghost predicate FilesOrdered(j: Json) {
    forall t :: t in j.files ==> ThroughObject(j.files[t]) == j.files[t]
  }

  lemma {:induction false} AlwaysSaved(events: seq<Event>)
    ensures Saved(JsonAfter(events)) && FilesOrdered(JsonAfter(events))
  {
    if events != [] {
      var j, e := JsonAfter(events[..|events| - 1]), events[|events| - 1];
      AlwaysSaved(events[..|events| - 1]);
      if e.Do? {
        ThroughTwice(JsonModel.Step(j, e.op).0.cache[TableOf(e.op)]);
      }
    }
  }

  /** In every reachable state, a restart leaves a table as it was exactly when its index-like ids come first, in
      ascending order. */
  lemma RestartKeepsIff(events: seq<Event>, t: string)
    ensures var j := JsonAfter(events);
      Loaded(Restart(j), t) == Loaded(j, t) <==> IndexFirst(Loaded(j, t).records)
  {
    var j := JsonAfter(events);
    AlwaysSaved(events);
    var d := Loaded(j, t);
    if t in j.cache && t in j.files {
      ReloadKeepsIff(d.records);
    } else if t in j.files {
      ObjectOrderIndexFirst(j.files[t].records);
    }
  }

  /** At every restart, every table has its index-like ids first, in ascending order. */
  ghost predicate OrderSafe(events: seq<Event>) {
    forall i, t :: 0 <= i < |events| && events[i].Restarted? && t in JsonAfter(events[..i]).cache ==>
      IndexFirst(JsonAfter(events[..i]).cache[t].records)
  }

  lemma OrderSafePrefix(events: seq<Event>)
    requires events != [] && OrderSafe(events)
    ensures OrderSafe(events[..|events| - 1])
  {
    var front := events[..|events| - 1];
    forall i, t | 0 <= i < |front| && front[i].Restarted? && t in JsonAfter(front[..i]).cache
      ensures IndexFirst(JsonAfter(front[..i]).cache[t].records)
    {
      assert front[..i] == events[..i] && events[i].Restarted?;
    }
  }

  ghost predicate InStep(s: Store, j: Json) {
    forall t :: Loaded(j, t) == DocOf(s, t)
  }

  lemma AfterMore(ops: seq<Op>, op: Op)
    ensures After(ops + [op]) == StoreModel.Step(After(ops), op).0
    ensures Answers(ops + [op]) == Answers(ops) + [StoreModel.Step(After(ops), op).1]
  {
    assert (ops + [op])[..|ops|] == ops;
  }

  lemma OpInStep(s: Store, j: Json, op: Op)
    requires InStep(s, j)
    ensures InStep(StoreModel.Step(s, op).0, JsonModel.Step(j, op).0)
  {
    var s', j' := StoreModel.Step(s, op).0, JsonModel.Step(j, op).0;
    forall t ensures Loaded(j', t) == DocOf(s', t) {
      assert Loaded(j, t) == DocOf(s, t);
    }
  }

  lemma RestartInStep(events: seq<Event>, s: Store)
    requires InStep(s, JsonAfter(events))
    requires forall t :: t in JsonAfter(events).cache ==> IndexFirst(JsonAfter(events).cache[t].records)
    ensures InStep(s, Restart(JsonAfter(events)))
  {
    var j := JsonAfter(events);
    forall t ensures Loaded(Restart(j), t) == DocOf(s, t) {
      RestartKeepsIff(events, t);
      assert Loaded(j, t) == DocOf(s, t);
    }
  }

  lemma {:induction false} JsonInStep(events: seq<Event>)
    requires OrderSafe(events)
    ensures InStep(After(OpsOf(events)), JsonAfter(events))
  {
    if events != [] {
      var front, e := events[..|events| - 1], events[|events| - 1];
      OrderSafePrefix(events);
      JsonInStep(front);
      if e.Restarted? {
        assert events[|front|].Restarted? && events[..|front|] == front;
        RestartInStep(front, After(OpsOf(front)));
      } else {
        AfterMore(OpsOf(front), e.op);
        OpInStep(After(OpsOf(front)), JsonAfter(front), e.op);
      }
    }
  }

  /** Local JSON agrees with the in-memory adapter, restarts included, as long as every restart finds index-like ids
      first and ascending. */
  lemma {:induction false} JsonAgrees(events: seq<Event>)
    requires OrderSafe(events)
    ensures JsonAnswers(events) == Answers(OpsOf(events))
  {
    if events != [] {
      var front, e := events[..|events| - 1], events[|events| - 1];
      OrderSafePrefix(events);
      JsonAgrees(front);
      JsonInStep(front);
      if e.Do? {
        AfterMore(OpsOf(front), e.op);
        assert Loaded(JsonAfter(front), TableOf(e.op)) == DocOf(After(OpsOf(front)), TableOf(e.op));
      }
    }
  }

  ghost predicate NamesOnly(j: Json) {
    && (forall t, e :: t in j.cache && e in j.cache[t].records ==> !IsIndex(e.id))
    && (forall t, e :: t in j.files && e in j.files[t].records ==> !IsIndex(e.id))
  }

  lemma ThroughMembers(d: Doc, e: Entry)
    ensures e in ThroughObject(d).records <==> e in d.records
  {
    ReloadPermutes(d.records);
    assert e in multiset(ObjectOrder(d.records)) <==> e in multiset(d.records);
  }

  lemma NamesStay(j: Json, op: Op)
    requires op.Put? ==> !IsIndex(op.id)
    requires NamesOnly(j)
    ensures NamesOnly(JsonModel.Step(j, op).0)
  {
    var t := TableOf(op);
    var before, after := Loaded(j, t), OnDoc(Loaded(j, t), op).0;
    forall e | e in after.records ensures !IsIndex(e.id) {
      if op.Put? {
        if e in before.records {
          LoadedNames(j, t, e);
        } else {
          SetEntries(before.records, op.id, op.record, e);
        }
      } else if op.Delete? {
        RemoveIds(before.records, op.id);
        LoadedNames(j, t, e);
      } else {
        LoadedNames(j, t, e);
      }
    }
    forall e | e in ThroughObject(after).records ensures !IsIndex(e.id) {
      ThroughMembers(after, e);
    }
  }

  lemma LoadedNames(j: Json, t: string, e: Entry)
    requires NamesOnly(j) && e in Loaded(j, t).records
    ensures !IsIndex(e.id)
  {
    if t !in j.cache && t in j.files {
      ThroughMembers(j.files[t], e);
    }
  }

  lemma {:induction false} AlwaysNamesOnly(events: seq<Event>)
    requires forall e :: e in events && e.Do? && e.op.Put? ==> !IsIndex(e.op.id)
    ensures NamesOnly(JsonAfter(events))
  {
    if events != [] {
      var front, e := events[..|events| - 1], events[|events| - 1];
      AlwaysNamesOnly(front);
      if e.Do? {
        NamesStay(JsonAfter(front), e.op);
      }
    }
  }

  /** Without integer-like ids, local JSON agrees with the in-memory adapter wherever it is restarted. */
  lemma JsonAgreesOnNames(events: seq<Event>)
    requires forall e :: e in events && e.Do? && e.op.Put? ==> !IsIndex(e.op.id)
    ensures JsonAnswers(events) == Answers(OpsOf(events))
  {
    forall i, t | 0 <= i < |events| && events[i].Restarted? && t in JsonAfter(events[..i]).cache
      ensures IndexFirst(JsonAfter(events[..i]).cache[t].records)
    {
      AlwaysNamesOnly(events[..i]);
      NoIndexFirst(JsonAfter(events[..i]).cache[t].records);
    }
    JsonAgrees(events);
  }

  lemma NoIndexFirst(es: Entries)
    requires forall e :: e in es ==> !IsIndex(e.id)
    ensures IndexFirst(es)
  {
    forall i | 0 <= i < |es| ensures !IsIndex(es[i].id) {
      assert es[i] in es;
    }
  }

  lemma AfterTwo(x: Event, y: Event)
    ensures JsonAfter([x, y]) == JsonStep(JsonStep(EMPTY_JSON, x), y)
  {
    var one, two: seq<Event> := [x], [x, y];
    assert one[..0] == [] && JsonAfter([]) == EMPTY_JSON;
    assert JsonAfter(one) == JsonStep(EMPTY_JSON, x);
    assert two[..1] == one && two[1] == y;
  }

  /** Integer-like ids do get reordered: put "2", then "1", restart, and the table no longer lists them in that order. */
  lemma IntegerIdsReorder(t: string, a: Record, b: Record)
    ensures var j := JsonAfter([Do(Put(t, "2", a)), Do(Put(t, "1", b))]); Loaded(Restart(j), t) != Loaded(j, t)
  {
    var x, y := Do(Put(t, "2", a)), Do(Put(t, "1", b));
    AfterTwo(x, y);
    RestartKeepsIff([x, y], t);
    TwoThenOne(Loaded(JsonAfter([x, y]), t).records, a, b);
  }

  lemma TwoThenOne(es: Entries, a: Record, b: Record)
    requires es == Set(Set([], "2", a), "1", b)
    ensures !IndexFirst(es)
  {
    assert Set([], "2", a) == [Entry("2", a)];
    assert es == [Entry("2", a), Entry("1", b)];
    assert "2"[..0] == "" && "1"[..0] == "";
    assert IsIndex("2") && IsIndex("1") && Index("2") == 2 && Index("1") == 1;
    assert IsIndex(es[1].id) && Index(es[0].id) > Index(es[1].id);
  }
}

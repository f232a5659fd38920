/** What a state store is asked and what it answers, and the ordered map that defines the answers
    (control-plane/state/adapters/memory.mjs). */
module StoreModel {
  import opened Common

  /** A field of a record; objects and arrays are known by their JSON text. */
  datatype Value = Text(text: string) | Number(number: int) | Flag(flag: bool) | Null | Composite(json: string)

  type Record = map<string, Value>

  /** The entries of a filter object; every value is a string. */
  type Query = seq<(string, string)>

  datatype Op =
    | Append(event: Record)
    | Put(table: string, id: string, record: Record)
    | Get(table: string, id: string)
    | Delete(table: string, id: string)
    | List(table: string, filter: Query, limit: Option<nat>, desc: bool)

  datatype Answer =
    | Stored(record: Record)
    | Found(found: Option<Record>)
    | Deleted(existed: bool)
    | Rows(rows: seq<Record>)
    | Thrown

  /** The append-only table. */
  const EVENTS := "events"

  /** === on every filter entry. */
  predicate Matches(r: Record, q: Query) {
    forall e :: e in q ==> e.0 in r && r[e.0] == Text(e.1)
  }

  function Reverse<T>(s: seq<T>): (r: seq<T>)
    ensures |r| == |s|
  {
    if s == [] then [] else [s[|s| - 1]] + Reverse(s[..|s| - 1])
  }

  lemma {:induction false} ReverseAt(s: seq<Record>, i: nat)
    requires i < |s|
    ensures Reverse(s)[i] == s[|s| - 1 - i]
  {
    if i > 0 {
      ReverseAt(s[..|s| - 1], i - 1);
    }
  }

  function Limited<T>(s: seq<T>, limit: Option<nat>): seq<T> {
    if limit.Some? then Take(s, limit.value) else s
  }

  /** Filter, then reverse, then cut off. */
  function Pick(rows: seq<Record>, q: Query, limit: Option<nat>, desc: bool): seq<Record> {
    var hits := Filter(rows, (r: Record) => Matches(r, q));
    Limited(if desc then Reverse(hits) else hits, limit)
  }

  // ---- a Map keeps its keys in insertion order ----

  datatype Entry = Entry(id: string, record: Record)

  /** The entries of a Map, in order. */
  type Entries = seq<Entry>

  predicate Has(es: Entries, id: string) {
    exists e :: e in es && e.id == id
  }

  predicate UniqueIds(es: Entries) {
    forall i, j :: 0 <= i < j < |es| ==> es[i].id != es[j].id
  }

  function Lookup(es: Entries, id: string): Option<Record> {
    if es == [] then None
    else if es[|es| - 1].id == id then Some(es[|es| - 1].record)
    else Lookup(es[..|es| - 1], id)
  }

  /** Map.set: an existing key keeps its place, a new one goes to the end. */
  function Set(es: Entries, id: string, r: Record): Entries {
    if Has(es, id) then Replace(es, id, r) else es + [Entry(id, r)]
  }

  function Replace(es: Entries, id: string, r: Record): (s: Entries)
    ensures |s| == |es|
  {
    if es == [] then []
    else
      var last := es[|es| - 1];
      Replace(es[..|es| - 1], id, r) + [if last.id == id then Entry(id, r) else last]
  }

  function Remove(es: Entries, id: string): Entries {
    if es == [] then []
    else
      var last := es[|es| - 1];
      Remove(es[..|es| - 1], id) + (if last.id == id then [] else [last])
  }

  function Records(es: Entries): (rs: seq<Record>)
    ensures |rs| == |es|
  {
    if es == [] then [] else Records(es[..|es| - 1]) + [es[|es| - 1].record]
  }

  /** Set keeps the other entries and their order; a deleted key that is set again goes to the end. */
  lemma ReinsertMovesToEnd(es: Entries, id: string, r: Record)
    ensures Set(Remove(es, id), id, r) == Remove(es, id) + [Entry(id, r)]
  {
    RemoveIds(es, id);
  }

  lemma {:induction false} RemoveIds(es: Entries, id: string)
    ensures !Has(Remove(es, id), id)
    ensures forall e :: e in Remove(es, id) <==> e in es && e.id != id
    ensures UniqueIds(es) ==> UniqueIds(Remove(es, id))
  {
    if es != [] {
      RemoveIds(es[..|es| - 1], id);
      assert es == es[..|es| - 1] + [es[|es| - 1]];
    }
  }

  lemma {:induction false} ReplaceKeepsPlaces(es: Entries, id: string, r: Record)
    ensures forall i :: 0 <= i < |es| ==>
      Replace(es, id, r)[i] == if es[i].id == id then Entry(id, r) else es[i]
  {
    if es != [] {
      ReplaceKeepsPlaces(es[..|es| - 1], id, r);
    }
  }

  lemma SetUnique(es: Entries, id: string, r: Record)
    requires UniqueIds(es)
    ensures UniqueIds(Set(es, id, r))
  {
    ReplaceKeepsPlaces(es, id, r);
  }

  // ---- the store ----

  /** A table: its records by id, and its log, used by the events table alone. */
  datatype Doc = Doc(records: Entries, events: seq<Record>)

  const EMPTY_DOC := Doc([], [])

  type Store = map<string, Doc>

  function DocOf(s: Store, table: string): Doc {
    if table in s then s[table] else EMPTY_DOC
  }

  /** What a query on a table goes through. */
  function Source(d: Doc, table: string): seq<Record> {
    if table == EVENTS then d.events else Records(d.records)
  }

  /** The table an operation is about. */
  function TableOf(op: Op): string {
    if op.Append? then EVENTS else op.table
  }

  /** One operation on its table. */
  function OnDoc(d: Doc, op: Op): (Doc, Answer) {
    match op
    case Append(r) => (d.(events := d.events + [r]), Stored(r))
    case Put(_, id, r) => (d.(records := Set(d.records, id, r)), Stored(r))
    case Get(_, id) => (d, Found(Lookup(d.records, id)))
    case Delete(_, id) => (d.(records := Remove(d.records, id)), Deleted(Has(d.records, id)))
    case List(t, q, limit, desc) => (d, Rows(Pick(Source(d, t), q, limit, desc)))
  }

  function Step(s: Store, op: Op): (Store, Answer) {
    var (d, answer) := OnDoc(DocOf(s, TableOf(op)), op);
    (s[TableOf(op) := d], answer)
  }

  function After(ops: seq<Op>): Store {
    if ops == [] then map[] else Step(After(ops[..|ops| - 1]), ops[|ops| - 1]).0
  }

  /** The answers to a sequence of operations, in order. */
  function Answers(ops: seq<Op>): seq<Answer> {
    if ops == [] then []
    else Answers(ops[..|ops| - 1]) + [Step(After(ops[..|ops| - 1]), ops[|ops| - 1]).1]
  }

  /** In every reachable store no table holds an id twice, as the keys of a Map are. */
  lemma {:induction false} IdsUnique(ops: seq<Op>, t: string)
    ensures UniqueIds(DocOf(After(ops), t).records)
  {
    if ops != [] {
      var front, op := ops[..|ops| - 1], ops[|ops| - 1];
      IdsUnique(front, t);
      if op.Put? {
        SetUnique(DocOf(After(front), t).records, op.id, op.record);
      } else if op.Delete? {
        RemoveIds(DocOf(After(front), t).records, op.id);
      }
    }
  }
}

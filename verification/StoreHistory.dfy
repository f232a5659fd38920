/** What a store answers, read off the operations before. */
module StoreHistory {
  import opened Common
  import opened StoreModel

  /** The record last put under the id, unless it has been deleted since. */
  function LastPut(ops: seq<Op>, table: string, id: string): Option<Record> {
    if ops == [] then None
    else
      match ops[|ops| - 1]
      case Put(t, i, r) => if t == table && i == id then Some(r) else LastPut(ops[..|ops| - 1], table, id)
      case Delete(t, i) => if t == table && i == id then None else LastPut(ops[..|ops| - 1], table, id)
      case _ => LastPut(ops[..|ops| - 1], table, id)
  }

  lemma {:induction false} HasIffFound(es: Entries, id: string)
    ensures Has(es, id) <==> Lookup(es, id).Some?
  {
    if es != [] {
      var front, last := es[..|es| - 1], es[|es| - 1];
      assert es == front + [last];
      HasIffFound(front, id);
    }
  }

  lemma {:induction false} LookupReplaced(es: Entries, id: string, r: Record, other: string)
    ensures Lookup(Replace(es, id, r), other)
         == if other == id && Lookup(es, id).Some? then Some(r) else Lookup(es, other)
  {
    if es != [] {
      var front, s := es[..|es| - 1], Replace(es, id, r);
      assert s[..|s| - 1] == Replace(front, id, r);
      LookupReplaced(front, id, r, other);
    }
  }

  lemma LookupSet(es: Entries, id: string, r: Record, other: string)
    ensures Lookup(Set(es, id, r), other) == if other == id then Some(r) else Lookup(es, other)
  {
    HasIffFound(es, id);
    if Has(es, id) {
      LookupReplaced(es, id, r, other);
    } else {
      assert (es + [Entry(id, r)])[..|es|] == es;
    }
  }

  lemma {:induction false} LookupRemoved(es: Entries, id: string, other: string)
    ensures Lookup(Remove(es, id), other) == if other == id then None else Lookup(es, other)
  {
    if es != [] {
      var front, last := es[..|es| - 1], es[|es| - 1];
      LookupRemoved(front, id, other);
      if last.id != id {
        var s := Remove(es, id);
        assert s[..|s| - 1] == Remove(front, id);
      } else {
        assert Remove(es, id) == Remove(front, id);
      }
    }
  }

  lemma {:induction false} FindsLastPut(ops: seq<Op>, table: string, id: string)
    ensures Lookup(DocOf(After(ops), table).records, id) == LastPut(ops, table, id)
  {
    if ops != [] {
      var front, op := ops[..|ops| - 1], ops[|ops| - 1];
      FindsLastPut(front, table, id);
      var es := DocOf(After(front), table).records;
      match op
      case Put(t, i, r) => LookupSet(es, i, r, id);
      case Delete(t, i) => LookupRemoved(es, i, id);
      case _ =>
    }
  }

  /** A store reads back what was written: get finds the record last put and not deleted since, and delete says whether
      there was one. */
  lemma ReadsLastPut(ops: seq<Op>, table: string, id: string)
    ensures Step(After(ops), Get(table, id)).1 == Found(LastPut(ops, table, id))
    ensures Step(After(ops), Delete(table, id)).1 == Deleted(LastPut(ops, table, id).Some?)
  {
    FindsLastPut(ops, table, id);
    HasIffFound(DocOf(After(ops), table).records, id);
  }

  /** The events appended, in order. */
  function Appended(ops: seq<Op>): seq<Record> {
    if ops == [] then []
    else
      var last := ops[|ops| - 1];
      Appended(ops[..|ops| - 1]) + (if last.Append? then [last.event] else [])
  }

  lemma {:induction false} LogIsAppended(ops: seq<Op>)
    ensures DocOf(After(ops), EVENTS).events == Appended(ops)
  {
    if ops != [] {
      LogIsAppended(ops[..|ops| - 1]);
    }
  }

  /** All filter entries are met by fields of that text. */
  function MeetsAll(q: Query): Record -> bool {
    (r: Record) => forall e :: e in q ==> e.0 in r && r[e.0] == Text(e.1)
  }

  /** The records that a table of the store lists, in order. */
  function Listed(ops: seq<Op>, table: string): seq<Record> {
    if table == EVENTS then Appended(ops) else Records(DocOf(After(ops), table).records)
  }

  lemma PickForwards(rows: seq<Record>, q: Query, n: nat)
    ensures var hits := Filter(rows, MeetsAll(q));
      Pick(rows, q, None, false) == hits && Pick(rows, q, Some(n), false) == hits[..Min(n, |hits|)]
  {
    SameHits(rows, q);
  }

  lemma PickBackwards(rows: seq<Record>, q: Query, n: nat)
    ensures var hits, back := Filter(rows, MeetsAll(q)), Pick(rows, q, None, true);
      && |back| == |hits| && (forall i :: 0 <= i < |back| ==> back[i] == hits[|hits| - 1 - i])
      && Pick(rows, q, Some(n), true) == back[..Min(n, |back|)]
  {
    SameHits(rows, q);
    var hits := Filter(rows, MeetsAll(q));
    forall i | 0 <= i < |hits| ensures Reverse(hits)[i] == hits[|hits| - 1 - i] {
      ReverseAt(hits, i);
    }
  }

  lemma ListIsPick(ops: seq<Op>, table: string, q: Query, limit: Option<nat>, desc: bool)
    ensures Step(After(ops), List(table, q, limit, desc)).1 == Rows(Pick(Listed(ops, table), q, limit, desc))
  {
    LogIsAppended(ops);
  }

  /** The first n of them, with a limit; all of them without. */
  function Cut(rows: seq<Record>, limit: Option<nat>): seq<Record> {
    match limit
    case None => rows
    case Some(n) => rows[..Min(n, |rows|)]
  }

  /** A list answers the records that meet the filter, in order, or the other way round when asked for; with a limit the
      first of these. */
  lemma ListAnswers(ops: seq<Op>, table: string, q: Query, limit: Option<nat>) returns (back: seq<Record>)
    ensures var hits := Filter(Listed(ops, table), MeetsAll(q));
      && Step(After(ops), List(table, q, limit, false)).1 == Rows(Cut(hits, limit))
      && Step(After(ops), List(table, q, limit, true)).1 == Rows(Cut(back, limit))
      && |back| == |hits| && forall i :: 0 <= i < |back| ==> back[i] == hits[|hits| - 1 - i]
  {
    var n := if limit.Some? then limit.value else 0;
    back := Pick(Listed(ops, table), q, None, true);
    PickForwards(Listed(ops, table), q, n);
    PickBackwards(Listed(ops, table), q, n);
    ListIsPick(ops, table, q, limit, false);
    ListIsPick(ops, table, q, limit, true);
  }

  lemma {:induction false} SameHits(rows: seq<Record>, q: Query)
    ensures Filter(rows, (r: Record) => Matches(r, q)) == Filter(rows, MeetsAll(q))
  {
    if rows != [] {
      SameHits(rows[..|rows| - 1], q);
    }
  }
}

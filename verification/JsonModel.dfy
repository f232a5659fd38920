/** The local JSON adapter: a cache of whole tables, each rewritten to its file after every change and read back from
    it after a restart (control-plane/state/adapters/local-json.mjs). */
module JsonModel {
  import opened Common
  import opened StoreModel
  import Versions

  // ---- the order of the keys of a JavaScript object ----

  const MAX_INDEX := 4294967295

  /** A key that an object lists as an array index: a canonical decimal number below 2^32 - 1. */
  predicate IsIndex(id: string) {
    && id != "" && (forall c :: c in id ==> Versions.IsDigit(c))
    && (id[0] != '0' || |id| == 1) && Versions.Number(id) < MAX_INDEX
  }

  /** These are the numbers below 2^32 - 1, as they are written in decimal. */
  lemma IsIndexIff(id: string)
    ensures IsIndex(id) <==> exists n: nat :: n < 4294967295 && id == Versions.Decimal(n)
  {
    if IsIndex(id) {
      Versions.CanonicalIsDecimal(id);
    }
    forall n: nat | n < 4294967295 && id == Versions.Decimal(n) ensures IsIndex(id) {
      Versions.DecimalReads(n);
      Versions.DecimalIsCanonical(n);
    }
  }

  function Index(id: string): nat {
    if IsIndex(id) then Versions.Number(id) else 0
  }

  /** Put an index key into its ascending place. */
  function InsertByIndex(es: Entries, e: Entry): Entries {
    if es == [] || Index(es[|es| - 1].id) <= Index(e.id) then es + [e]
    else InsertByIndex(es[..|es| - 1], e) + [es[|es| - 1]]
  }

  function Indices(es: Entries): Entries {
    if es == [] then []
    else if IsIndex(es[|es| - 1].id) then InsertByIndex(Indices(es[..|es| - 1]), es[|es| - 1])
    else Indices(es[..|es| - 1])
  }

  function Names(es: Entries): Entries {
    Filter(es, (e: Entry) => !IsIndex(e.id))
  }

  /** Index keys ascending, then the other keys in insertion order. */
  function ObjectOrder(es: Entries): Entries {
    Indices(es) + Names(es)
  }

  /** Index keys come first and in ascending order. */
  predicate IndexFirst(es: Entries) {
    forall i, j :: 0 <= i < j < |es| && IsIndex(es[j].id) ==> IsIndex(es[i].id) && Index(es[i].id) <= Index(es[j].id)
  }

  lemma {:induction false} InsertOrdered(es: Entries, e: Entry)
    requires IsIndex(e.id) && (forall x :: x in es ==> IsIndex(x.id)) && IndexFirst(es)
    ensures (forall x :: x in InsertByIndex(es, e) ==> IsIndex(x.id)) && IndexFirst(InsertByIndex(es, e))
    ensures forall x :: x in InsertByIndex(es, e) <==> x in es || x == e
  {
    if es != [] && Index(es[|es| - 1].id) > Index(e.id) {
      var front, last := es[..|es| - 1], es[|es| - 1];
      assert es == front + [last];
      InsertOrdered(front, e);
      LargerLast(InsertByIndex(front, e), last);
    }
  }

  lemma LargerLast(es: Entries, last: Entry)
    requires IndexFirst(es) && IsIndex(last.id) && forall x :: x in es ==> IsIndex(x.id) && Index(x.id) <= Index(last.id)
    ensures IndexFirst(es + [last])
  {
  }

  lemma {:induction false} IndicesOrdered(es: Entries)
    ensures (forall x :: x in Indices(es) ==> IsIndex(x.id)) && IndexFirst(Indices(es))
  {
    if es != [] {
      IndicesOrdered(es[..|es| - 1]);
      if IsIndex(es[|es| - 1].id) {
        InsertOrdered(Indices(es[..|es| - 1]), es[|es| - 1]);
      }
    }
  }

  lemma ObjectOrderIndexFirst(es: Entries)
    ensures IndexFirst(ObjectOrder(es))
  {
    IndicesOrdered(es);
    FilterMembers(es, (e: Entry) => !IsIndex(e.id));
    IndicesThenNames(Indices(es), Names(es));
  }

  lemma IndicesThenNames(a: Entries, b: Entries)
    requires IndexFirst(a) && (forall x :: x in a ==> IsIndex(x.id)) && (forall x :: x in b ==> !IsIndex(x.id))
    ensures IndexFirst(a + b)
  {
    var c: Entries := a + b;
    forall i | |a| <= i < |c| ensures !IsIndex(c[i].id) {
      assert b[i - |a|] in b;
    }
    assert c[..|a|] == a;
  }

  lemma {:induction false} AllIndices(es: Entries)
    requires IndexFirst(es) && forall x :: x in es ==> IsIndex(x.id)
    ensures Indices(es) == es && Names(es) == []
  {
    if es != [] {
      var front, last := es[..|es| - 1], es[|es| - 1];
      AllIndices(front);
      LargestLast(es);
      assert InsertByIndex(front, last) == front + [last] == es;
    }
  }

  lemma LargestLast(es: Entries)
    requires es != [] && IndexFirst(es) && forall x :: x in es ==> IsIndex(x.id)
    ensures var front, last := es[..|es| - 1], es[|es| - 1];
      IsIndex(last.id) && (front != [] ==> Index(front[|front| - 1].id) <= Index(last.id))
  {
    assert es[|es| - 1] in es;
    if |es| > 1 {
      assert IsIndex(es[|es| - 2].id) && Index(es[|es| - 2].id) <= Index(es[|es| - 1].id);
    }
  }

  lemma {:induction false} OrderedAlready(es: Entries)
    requires IndexFirst(es)
    ensures ObjectOrder(es) == es
  {
    if es != [] {
      var front, last := es[..|es| - 1], es[|es| - 1];
      assert es == front + [last];
      if IsIndex(last.id) {
        forall x | x in es ensures IsIndex(x.id) {
          var i :| 0 <= i < |es| && es[i] == x;
        }
        AllIndices(es);
      } else {
        OrderedAlready(front);
        assert ObjectOrder(es) == ObjectOrder(front) + [last];
      }
    }
  }

  /** Writing a table and reading it back keeps the order of its entries exactly when index keys come first, ascending. */
  lemma ReloadKeepsIff(es: Entries)
    ensures ObjectOrder(ObjectOrder(es)) == es <==> IndexFirst(es)
  {
    ObjectOrderIndexFirst(es);
    OrderedAlready(ObjectOrder(es));
    if IndexFirst(es) {
      OrderedAlready(es);
    }
  }

  lemma {:induction false} InsertPermutes(es: Entries, e: Entry)
    ensures multiset(InsertByIndex(es, e)) == multiset(es + [e])
  {
    if es != [] && Index(es[|es| - 1].id) > Index(e.id) {
      assert es == es[..|es| - 1] + [es[|es| - 1]];
      InsertPermutes(es[..|es| - 1], e);
    }
  }

  /** Whatever the keys, reading back loses no entry and adds none. */
  lemma {:induction false} ReloadPermutes(es: Entries)
    ensures multiset(ObjectOrder(es)) == multiset(es)
  {
    if es != [] {
      var front, last := es[..|es| - 1], es[|es| - 1];
      assert es == front + [last];
      ReloadPermutes(front);
      if IsIndex(last.id) {
        InsertPermutes(Indices(front), last);
      }
    }
  }

  // ---- cache and files ----

  /** cache holds the tables loaded since the last start; files what has been written. */
  datatype Json = Json(cache: Store, files: Store)

  const EMPTY_JSON := Json(map[], map[])

  /** A table after a trip through a JavaScript object: Object.fromEntries when it is written, JSON.parse and
      Object.entries when it is read. */
  function ThroughObject(d: Doc): Doc {
    Doc(ObjectOrder(d.records), d.events)
  }

  function Loaded(j: Json, table: string): Doc {
    if table in j.cache then j.cache[table]
    else if table in j.files then ThroughObject(j.files[table])
    else EMPTY_DOC
  }

  function Load(j: Json, table: string): Json {
    j.(cache := j.cache[table := Loaded(j, table)])
  }

  predicate Changes(op: Op) {
    op.Append? || op.Put? || op.Delete?
  }

  function Step(j: Json, op: Op): (Json, Answer) {
    var t := TableOf(op);
    var (d, answer) := OnDoc(Loaded(j, t), op);
    (Json(j.cache[t := d], if Changes(op) then j.files[t := ThroughObject(d)] else j.files), answer)
  }

  /** The process stops and starts again. */
  function Restart(j: Json): Json {
    j.(cache := map[])
  }
}

/**
 The contract of the MongoDB server the writer relies on: documents live in collections, `_id` is
 the one unique index, and each update or delete of one document is atomic.
 */
module Mongo {
  import opened Wrappers
  import opened Writer

  datatype DocKey = DocKey(coll: string, id: string)

  type Store = map<DocKey, Doc>

  /** How one model of a bulk ends. */
  datatype Outcome = Matched | Upserted | Deleted | MissedDelete | DuplicateKey

  function KeyOf(ev: CDCEvent): DocKey {
    DocKey(ev.table, DocId(ev))
  }

  /** `$lt` compares numbers only, so a missing or non-numeric sourceLsn is not below anything. */
  predicate Holds(c: Clause, d: Doc) {
    match c
    case LsnBelow(bound) => SOURCE_LSN in d && d[SOURCE_LSN].Int? && d[SOURCE_LSN].n < bound
    case LsnMissing => SOURCE_LSN !in d
  }

  predicate Matches(f: Filter, d: Doc) {
    exists i :: 0 <= i < |f.anyOf| && Holds(f.anyOf[i], d)
  }

  /** deleteOne, or updateOne with upsert, against the document (if any) whose `_id` the filter names. */
  function Exec(cur: Option<Doc>, op: WriteOp): (Option<Doc>, Outcome) {
    match op
    case Delete(f) =>
      if cur.Some? && Matches(f, cur.value) then (None, Deleted) else (cur, MissedDelete)
    case Upsert(f, assign) =>
      if cur.None? then (Some(assign), Upserted)
      else if Matches(f, cur.value) then (Some(cur.value + assign), Matched)
      else (cur, DuplicateKey)
  }

  function Lookup(s: Store, k: DocKey): Option<Doc> {
    if k in s then Some(s[k]) else None
  }

  function Put(s: Store, k: DocKey, d: Option<Doc>): Store {
    if d.Some? then s[k := d.value] else s - {k}
  }

  function ExecIn(s: Store, coll: string, op: WriteOp): (Store, Outcome) {
    var k := DocKey(coll, op.filter.id);
    var (d, o) := Exec(Lookup(s, k), op);
    (Put(s, k, d), o)
  }

  /** The effect of one event on the document of its row. */
  function Gated(cur: Option<Doc>, ev: CDCEvent, schemaVersion: int): (Option<Doc>, Outcome) {
    Exec(cur, WriteFor(ev, schemaVersion))
  }

  /** The store after the writes of `evs`, executed in that order. */
  function Run(s: Store, evs: seq<CDCEvent>, schemaVersion: int): Store {
    if evs == [] then s
    else
      var before := Run(s, evs[..|evs| - 1], schemaVersion);
      var ev := evs[|evs| - 1];
      Put(before, KeyOf(ev), Gated(Lookup(before, KeyOf(ev)), ev, schemaVersion).0)
  }

  /** The outcome of each write of Run, in execution order. */
  function Outcomes(s: Store, evs: seq<CDCEvent>, schemaVersion: int): (os: seq<Outcome>)
    ensures |os| == |evs|
  {
    if evs == [] then []
    else
      var n := |evs| - 1;
      Outcomes(s, evs[..n], schemaVersion)
      + [Gated(Lookup(Run(s, evs[..n], schemaVersion), KeyOf(evs[n])), evs[n], schemaVersion).1]
  }

  lemma RunSnoc(s: Store, evs: seq<CDCEvent>, ev: CDCEvent, schemaVersion: int)
    ensures Run(s, evs + [ev], schemaVersion)
         == Put(Run(s, evs, schemaVersion), KeyOf(ev),
                Gated(Lookup(Run(s, evs, schemaVersion), KeyOf(ev)), ev, schemaVersion).0)
    ensures Outcomes(s, evs + [ev], schemaVersion)
         == Outcomes(s, evs, schemaVersion)
            + [Gated(Lookup(Run(s, evs, schemaVersion), KeyOf(ev)), ev, schemaVersion).1]
  {
    assert (evs + [ev])[..|evs|] == evs;
  }

  lemma {:induction false} RunConcat(s: Store, a: seq<CDCEvent>, b: seq<CDCEvent>, schemaVersion: int)
    ensures Run(s, a + b, schemaVersion) == Run(Run(s, a, schemaVersion), b, schemaVersion)
    ensures Outcomes(s, a + b, schemaVersion)
         == Outcomes(s, a, schemaVersion) + Outcomes(Run(s, a, schemaVersion), b, schemaVersion)
    decreases |b|
  {
    if b == [] {
      assert a + b == a;
    } else {
      var n := |b| - 1;
      RunConcat(s, a, b[..n], schemaVersion);
      assert a + b == (a + b[..n]) + [b[n]];
      RunSnoc(s, a + b[..n], b[n], schemaVersion);
    }
  }

  /** A row keeps its document through writes of other rows. */
  lemma {:induction false} RunMisses(s: Store, evs: seq<CDCEvent>, k: DocKey, schemaVersion: int)
    requires forall e :: e in evs ==> KeyOf(e) != k
    ensures Lookup(Run(s, evs, schemaVersion), k) == Lookup(s, k)
  {
    hide Gated, KeyOf;
    if evs != [] {
      RunMisses(s, evs[..|evs| - 1], k, schemaVersion);
    }
  }

  /** The outcomes of writes, and what they leave of a row, depend on the documents of their own rows only. */
  lemma {:induction false} RunFrame(s: Store, t: Store, evs: seq<CDCEvent>, k: DocKey, schemaVersion: int)
    requires (forall e :: e in evs ==> Lookup(s, KeyOf(e)) == Lookup(t, KeyOf(e))) && Lookup(s, k) == Lookup(t, k)
    ensures Outcomes(s, evs, schemaVersion) == Outcomes(t, evs, schemaVersion)
    ensures Lookup(Run(s, evs, schemaVersion), k) == Lookup(Run(t, evs, schemaVersion), k)
  {
    hide Gated, KeyOf;
    if evs != [] {
      var n := |evs| - 1;
      assert evs[n] in evs;
      RunFrame(s, t, evs[..n], k, schemaVersion);
      RunFrame(s, t, evs[..n], KeyOf(evs[n]), schemaVersion);
    }
  }

  /** Two rows never share a document: the collection fixes the table, and then the id fixes the key. */
  lemma KeyIdentifiesRow(a: CDCEvent, b: CDCEvent)
    ensures KeyOf(a) == KeyOf(b) <==> a.table == b.table && a.pk == b.pk
  {
    if KeyOf(a) == KeyOf(b) {
      var n := |a.table| + 1;
      assert a.pk == DocId(a)[n..] == DocId(b)[n..] == b.pk;
    }
  }

  /** The `_id` alone does not: these two rows have the same id, in different collections. */
  lemma IdAloneIsAmbiguous(a: CDCEvent, b: CDCEvent)
    requires a.table == "a" && a.pk == "b:c"
    requires b.table == "a:b" && b.pk == "c"
    ensures DocId(a) == DocId(b) && KeyOf(a) != KeyOf(b)
  {
    assert DocId(a) == "a:b:c" == DocId(b);
  }

  /** What the filter of one event accepts, on any stored document. */
  lemma FilterMeaning(ev: CDCEvent, schemaVersion: int, d: Doc)
    ensures Matches(WriteFor(ev, schemaVersion).filter, d)
       <==> || (SOURCE_LSN !in d && !IsDelete(ev))
            || (SOURCE_LSN in d && d[SOURCE_LSN].Int? && d[SOURCE_LSN].n < ev.lsn)
  {
    var f := WriteFor(ev, schemaVersion).filter;
    assert f.anyOf[0] == LsnBelow(ev.lsn);
    if !IsDelete(ev) {
      assert f.anyOf[1] == LsnMissing;
    }
  }
}

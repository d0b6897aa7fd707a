/**
 services/sink/internal/writer/writer.go: the LSN-gated write of one change event.
 */
module Writer {
  import opened Wrappers
  import opened JsonValues

  datatype CDCEvent = CDCEvent(
    table: string,
    pk: string,
    lsn: int,
    sourceTsMs: int,
    op: string,
    after: Option<Fields>,
    before: Option<Fields>)

  const OP_DELETE := "d"
  const SOURCE_LSN := "sourceLsn"
  const SCHEMA_VERSION := "schemaVersion"

  /** A stored field: the writer's own integers, or a value copied from the row image. */
  datatype Value = Int(n: int) | Copied(json: Json)

  type Doc = map<string, Value>

  /** The two query clauses the writer uses: `{sourceLsn: {$lt: n}}` and `{sourceLsn: {$exists: false}}`. */
  datatype Clause = LsnBelow(bound: int) | LsnMissing

  /** `_id` equality together with a disjunction of clauses. */
  datatype Filter = Filter(id: string, anyOf: seq<Clause>)

  datatype WriteOp =
    | Delete(filter: Filter)
    | Upsert(filter: Filter, assign: Doc)

  predicate IsDelete(ev: CDCEvent) {
    ev.op == OP_DELETE
  }

  /** The events BuildWriteOp accepts: a delete, or anything that carries a row image. */
  predicate Buildable(ev: CDCEvent) {
    IsDelete(ev) || ev.after.Some?
  }

  function DocId(ev: CDCEvent): string {
    ev.table + ":" + ev.pk
  }

  /** The `$set` document: the row image, then the two bookkeeping fields on top of it. */
  function Image(ev: CDCEvent, schemaVersion: int): Doc {
    var copied := if ev.after.Some? then map f | f in ev.after.value :: Copied(ev.after.value[f]) else map[];
    copied[SOURCE_LSN := Int(ev.lsn)][SCHEMA_VERSION := Int(schemaVersion)]
  }

  function WriteFor(ev: CDCEvent, schemaVersion: int): WriteOp {
    if IsDelete(ev) then
      Delete(Filter(DocId(ev), [LsnBelow(ev.lsn)]))
    else
      Upsert(Filter(DocId(ev), [LsnBelow(ev.lsn), LsnMissing]), Image(ev, schemaVersion))
  }

  /** Field by field: the row image of `ev`, its LSN and the schema version on top of it, and nothing else. */
  ghost predicate ShowsAfter(d: Doc, ev: CDCEvent, schemaVersion: int) {
    && ev.after.Some?
    && d.Keys == ev.after.value.Keys + {"sourceLsn", "schemaVersion"}
    && d["sourceLsn"] == Int(ev.lsn) && d["schemaVersion"] == Int(schemaVersion)
    && forall f | f in ev.after.value && f != "sourceLsn" && f != "schemaVersion" ::
         d[f] == Copied(ev.after.value[f])
  }

  /** That says all there is to say about the `$set` document. */
  lemma ImageIffAfter(d: Doc, ev: CDCEvent, schemaVersion: int)
    requires ev.after.Some?
    ensures d == Image(ev, schemaVersion) <==> ShowsAfter(d, ev, schemaVersion)
  {
    if ShowsAfter(d, ev, schemaVersion) {
      var image := Image(ev, schemaVersion);
      assert d.Keys == image.Keys;
      forall f | f in d ensures d[f] == image[f] {
      }
    }
  }

  method BuildWriteOp(ev: CDCEvent, schemaVersion: int) returns (r: Result<WriteOp>)
    ensures r.Err? <==> ev.op != "d" && ev.after.None?
    ensures r.Ok? ==> r.value.filter.id == ev.table + ":" + ev.pk
    ensures r.Ok? ==> (r.value.Delete? <==> ev.op == "d")
    ensures r.Ok? && ev.op == "d" ==> r.value.filter.anyOf == [LsnBelow(ev.lsn)]
    ensures r.Ok? && ev.op != "d" ==> r.value.filter.anyOf == [LsnBelow(ev.lsn), LsnMissing]
    ensures r.Ok? && ev.op != "d" ==> ShowsAfter(r.value.assign, ev, schemaVersion)
    ensures r.Ok? ==> Buildable(ev) && r.value == WriteFor(ev, schemaVersion)
  {
    var id := ev.table + ":" + ev.pk;
    if ev.op != OP_DELETE && ev.after.None? {
      return Err;
    }
    if ev.op == OP_DELETE {
      return Ok(Delete(Filter(id, [LsnBelow(ev.lsn)])));
    }
    var assign: Doc := map[];
    var todo := ev.after.value.Keys;
    while todo != {}
      invariant todo <= ev.after.value.Keys
      invariant assign == map f | f in ev.after.value && f !in todo :: Copied(ev.after.value[f])
      decreases |todo|
    {
      var f :| f in todo;
      assign := assign[f := Copied(ev.after.value[f])];
      todo := todo - {f};
    }
    assert assign == map f | f in ev.after.value :: Copied(ev.after.value[f]);
    assign := assign[SOURCE_LSN := Int(ev.lsn)];
    assign := assign[SCHEMA_VERSION := Int(schemaVersion)];
    ImageIffAfter(assign, ev, schemaVersion);
    return Ok(Upsert(Filter(id, [LsnBelow(ev.lsn), LsnMissing]), assign));
  }
}

/**
 services/sink/internal/writer/mongo_writer.go: grouping a batch by collection, one unordered bulk
 write per collection, absorbing all-duplicate-key failures, and counting skipped events.
 */
module MongoWriter {
  import opened Wrappers
  import opened Writer
  import opened Mongo
  import opened Survivor

  const DUPLICATE_KEY := 11000

  /**
   What the server and the network do with one unordered bulk: the order in which models execute,
   the models the server refuses and their codes, whether the connection is lost, and whether the
   write concern fails.
   */
  datatype Fate = Fate(order: seq<nat>, refused: seq<(nat, int)>, lost: bool, concern: bool)

  /** The driver's answer to one bulk write. */
  datatype Reply =
    | Success(matched: nat, upserted: nat, deleted: nat)
    | BulkException(codes: seq<int>)
    | OtherError

  predicate Distinct(s: seq<nat>) {
    forall i, j :: 0 <= i < j < |s| ==> s[i] != s[j]
  }

  predicate InRange(s: seq<nat>, n: nat) {
    forall i :: 0 <= i < |s| ==> s[i] < n
  }

  /**
   No model executes twice or is refused twice, none is both executed and refused, and only `_id` is
   unique, so a refusal never carries the duplicate-key code. Unless the connection is lost every
   model ends.
   */
  predicate ValidFate(f: Fate, n: nat) {
    && Distinct(f.order) && InRange(f.order, n)
    && (forall i, j :: 0 <= i < j < |f.refused| ==> f.refused[i].0 != f.refused[j].0)
    && (forall r :: r in f.refused ==> r.0 < n && r.0 !in f.order && r.1 != DUPLICATE_KEY)
    && (!f.lost ==> |f.order| + |f.refused| == n)
    && (!f.lost && f.refused == [] ==> forall i: nat :: i < n ==> i in f.order)
  }

  function Pick<T>(s: seq<T>, order: seq<nat>): (r: seq<T>)
    requires InRange(order, |s|)
    ensures |r| == |order| && forall j :: 0 <= j < |order| ==> r[j] == s[order[j]]
  {
    seq(|order|, j requires 0 <= j < |order| => s[order[j]])
  }

  function Count(os: seq<Outcome>, o: Outcome): nat {
    multiset(os)[o]
  }

  function Acked(os: seq<Outcome>): nat {
    Count(os, Matched) + Count(os, Upserted) + Count(os, Deleted)
  }

  /** The writes the LSN gate turned away. */
  function Rejected(os: seq<Outcome>): nat {
    Count(os, MissedDelete) + Count(os, DuplicateKey)
  }

  /** Every write ends in exactly one of the five ways. */
  lemma {:induction false} OutcomesPartition(os: seq<Outcome>)
    ensures |os| == Acked(os) + Rejected(os)
  {
    if os != [] {
      var n := |os| - 1;
      OutcomesPartition(os[..n]);
      assert os == os[..n] + [os[n]];
      assert multiset(os) == multiset(os[..n]) + multiset{os[n]};
      match os[n] case Matched => case Upserted => case Deleted => case MissedDelete => case DuplicateKey =>
    }
  }

  function DuplicateCodes(os: seq<Outcome>): (codes: seq<int>)
    ensures forall c :: c in codes ==> c == DUPLICATE_KEY
    ensures codes != [] <==> DuplicateKey in os
  {
    if os == [] then [] else DuplicateCodes(os[..|os| - 1]) + if os[|os| - 1].DuplicateKey? then [DUPLICATE_KEY] else []
  }

  /** Write errors and write-concern errors surface together as one bulk exception. */
  function ReplyOf(os: seq<Outcome>, f: Fate): Reply {
    var codes := DuplicateCodes(os) + seq(|f.refused|, i requires 0 <= i < |f.refused| => f.refused[i].1);
    if f.lost then OtherError
    else if codes != [] || f.concern then BulkException(codes)
    else Success(Count(os, Matched), Count(os, Upserted), Count(os, Deleted))
  }

  function RunOps(s: Store, coll: string, ops: seq<WriteOp>): (Store, seq<Outcome>) {
    if ops == [] then (s, [])
    else
      var (before, os) := RunOps(s, coll, ops[..|ops| - 1]);
      var (after, o) := ExecIn(before, coll, ops[|ops| - 1]);
      (after, os + [o])
  }

  lemma {:induction false} RunOpsIsRun(
      s: Store, coll: string, ops: seq<WriteOp>, evs: seq<CDCEvent>, schemaVersion: int)
    requires |ops| == |evs|
    requires forall i :: 0 <= i < |ops| ==> evs[i].table == coll && ops[i] == WriteFor(evs[i], schemaVersion)
    ensures RunOps(s, coll, ops) == (Run(s, evs, schemaVersion), Outcomes(s, evs, schemaVersion))
  {
    if ops != [] {
      var n := |ops| - 1;
      RunOpsIsRun(s, coll, ops[..n], evs[..n], schemaVersion);
      assert KeyOf(evs[n]) == DocKey(coll, ops[n].filter.id);
    }
  }

  /** The positions of a table's events in the batch, in batch order. */
  function IndicesOf(evs: seq<CDCEvent>, table: string): (r: seq<nat>)
    ensures forall j :: 0 <= j < |r| ==> r[j] < |evs| && evs[r[j]].table == table
    ensures forall a, b :: 0 <= a < b < |r| ==> r[a] < r[b]
  {
    if evs == [] then []
    else
      var n := |evs| - 1;
      IndicesOf(evs[..n], table) + if evs[n].table == table then [n] else []
  }

  lemma {:induction false} IndicesComplete(evs: seq<CDCEvent>, table: string, i: nat)
    requires i < |evs| && evs[i].table == table
    ensures i in IndicesOf(evs, table)
  {
    var n := |evs| - 1;
    if i < n {
      IndicesComplete(evs[..n], table, i);
    }
  }

  /** The progress of one ApplyBatch: the store, the batch positions executed so far in order, the skip counters. */
  datatype Applied = Applied(store: Store, trace: seq<nat>, skips: map<string, nat>, ok: bool)

  /** When a bulk's failure, if any, counts as success. */
  predicate Absorbed(os: seq<Outcome>, f: Fate) {
    !f.lost && f.refused == [] && (f.concern ==> DuplicateKey in os)
  }

  function ReportedSkips(os: seq<Outcome>): nat {
    if DuplicateKey in os then |os| else Count(os, MissedDelete)
  }

  function AddSkips(skips: map<string, nat>, table: string, n: nat): map<string, nat> {
    if n == 0 then skips else skips[table := (if table in skips then skips[table] else 0) + n]
  }

  ghost predicate ValidPlan(evs: seq<CDCEvent>, tables: seq<string>, fates: map<string, Fate>) {
    forall t :: t in tables ==> t in fates && ValidFate(fates[t], |IndicesOf(evs, t)|)
  }

  /** The batch positions a table's bulk executes. */
  ghost function Part(evs: seq<CDCEvent>, t: string, f: Fate): (part: seq<nat>)
    requires ValidFate(f, |IndicesOf(evs, t)|)
    ensures InRange(part, |evs|) && Distinct(part)
    ensures forall j :: 0 <= j < |part| ==> evs[part[j]].table == t
  {
    Pick(IndicesOf(evs, t), f.order)
  }

  lemma PartIsWhole(evs: seq<CDCEvent>, t: string, f: Fate, i: nat)
    requires ValidFate(f, |IndicesOf(evs, t)|) && !f.lost && f.refused == []
    requires i < |evs| && evs[i].table == t
    ensures i in Part(evs, t, f)
  {
    var idx := IndicesOf(evs, t);
    IndicesComplete(evs, t, i);
    var a :| 0 <= a < |idx| && idx[a] == i;
    assert a in f.order;
    var b :| 0 <= b < |f.order| && f.order[b] == a;
    assert Part(evs, t, f)[b] == i;
  }

  /** One table's bulk. */
  ghost function ApplyTable(acc: Applied, evs: seq<CDCEvent>, table: string, f: Fate, schemaVersion: int): Applied
    requires ValidFate(f, |IndicesOf(evs, table)|)
  {
    var part := Part(evs, table, f);
    var os := Outcomes(acc.store, Pick(evs, part), schemaVersion);
    var ok := Absorbed(os, f);
    Applied(Run(acc.store, Pick(evs, part), schemaVersion), acc.trace + part,
            if ok then AddSkips(acc.skips, table, ReportedSkips(os)) else acc.skips, ok)
  }

  /** The bulks of the tables, one after the other, until one fails. */
  ghost function ApplyTables(
      acc: Applied, evs: seq<CDCEvent>, tables: seq<string>, fates: map<string, Fate>, schemaVersion: int): Applied
    requires ValidPlan(evs, tables, fates)
    decreases |tables|
  {
    if tables == [] then acc
    else
      var next := ApplyTable(acc, evs, tables[0], fates[tables[0]], schemaVersion);
      if next.ok then ApplyTables(next, evs, tables[1..], fates, schemaVersion) else next
  }

  /**
   The bulk of table `t`, run against `s`, succeeds: nothing is lost or refused, and the write concern
   holds or its failure comes with a duplicate key.
   */
  ghost predicate BulkGoes(s: Store, evs: seq<CDCEvent>, t: string, f: Fate, schemaVersion: int)
    requires ValidFate(f, |IndicesOf(evs, t)|)
  {
    && !f.lost && f.refused == []
    && (f.concern ==> DuplicateKey in Outcomes(s, Pick(evs, Part(evs, t, f)), schemaVersion))
  }

  ghost predicate BulksGo(
    s: Store, evs: seq<CDCEvent>, tables: seq<string>, fates: map<string, Fate>, schemaVersion: int)
    requires ValidPlan(evs, tables, fates)
  {
    forall t | t in tables :: BulkGoes(s, evs, t, fates[t], schemaVersion)
  }

  function Tally(skips: map<string, nat>, t: string): nat {
    if t in skips then skips[t] else 0
  }

  /** Progress that has left the rows of `tables`, and their skip counters, as they were in `s` and `skips`. */
  ghost predicate Untouched(acc: Applied, s: Store, skips: map<string, nat>, tables: seq<string>) {
    forall t | t in tables ::
      && (forall id :: Lookup(acc.store, DocKey(t, id)) == Lookup(s, DocKey(t, id)))
      && Tally(acc.skips, t) == Tally(skips, t)
  }

  lemma BulkTouchesItsTable(acc: Applied, evs: seq<CDCEvent>, t: string, f: Fate, schemaVersion: int, k: DocKey)
    requires ValidFate(f, |IndicesOf(evs, t)|) && k.coll != t
    ensures Lookup(ApplyTable(acc, evs, t, f, schemaVersion).store, k) == Lookup(acc.store, k)
    ensures Tally(ApplyTable(acc, evs, t, f, schemaVersion).skips, k.coll) == Tally(acc.skips, k.coll)
  {
    RunMisses(acc.store, Pick(evs, Part(evs, t, f)), k, schemaVersion);
  }

  /** A bulk's outcomes are those it would have had against the store the whole batch began with. */
  lemma BulkFromStart(acc: Applied, s: Store, evs: seq<CDCEvent>, t: string, f: Fate, schemaVersion: int)
    requires ValidFate(f, |IndicesOf(evs, t)|)
    requires forall id :: Lookup(acc.store, DocKey(t, id)) == Lookup(s, DocKey(t, id))
    ensures var os := Outcomes(s, Pick(evs, Part(evs, t, f)), schemaVersion);
      var next := ApplyTable(acc, evs, t, f, schemaVersion);
      && (next.ok <==> BulkGoes(s, evs, t, f, schemaVersion))
      && (next.ok ==> Tally(next.skips, t) == Tally(acc.skips, t) + ReportedSkips(os))
  {
    hide Run, Outcomes, IndicesOf, ReportedSkips;
    var run := Pick(evs, Part(evs, t, f));
    SameOutcomes(acc.store, s, run, t, schemaVersion);
  }

  lemma SameOutcomes(a: Store, b: Store, run: seq<CDCEvent>, t: string, schemaVersion: int)
    requires forall id :: Lookup(a, DocKey(t, id)) == Lookup(b, DocKey(t, id))
    requires forall j :: 0 <= j < |run| ==> run[j].table == t
    ensures Outcomes(a, run, schemaVersion) == Outcomes(b, run, schemaVersion)
  {
    hide Run, Lookup, DocId;
    forall e | e in run ensures Lookup(a, KeyOf(e)) == Lookup(b, KeyOf(e)) {
      assert KeyOf(e) == DocKey(t, DocId(e));
    }
    if run != [] {
      assert run[0] in run;
      RunFrame(a, b, run, KeyOf(run[0]), schemaVersion);
    }
  }

  /**
   ApplyBatch returns nil exactly when every table's bulk succeeds, each judged against the store the
   batch began with; then each table's skip counter has grown by what its bulk reports.
   */
  lemma {:induction false} AppliedIff(
      acc: Applied, s: Store, skips: map<string, nat>, evs: seq<CDCEvent>, tables: seq<string>,
      fates: map<string, Fate>, schemaVersion: int)
    requires ValidPlan(evs, tables, fates) && acc.ok && Untouched(acc, s, skips, tables)
    requires forall i, j :: 0 <= i < j < |tables| ==> tables[i] != tables[j]
    ensures var r := ApplyTables(acc, evs, tables, fates, schemaVersion);
      && (r.ok <==> BulksGo(s, evs, tables, fates, schemaVersion))
      && (r.ok ==> forall t | t in tables ::
            var os := Outcomes(s, Pick(evs, Part(evs, t, fates[t])), schemaVersion);
            Tally(r.skips, t) == Tally(skips, t) + ReportedSkips(os))
      && (forall t | t !in tables :: Tally(r.skips, t) == Tally(acc.skips, t))
    decreases |tables|
  {
    hide Run, Outcomes, ApplyTable, IndicesOf, Part, BulkGoes, ReportedSkips, Tally;
    if tables != [] {
      var t, rest := tables[0], tables[1..];
      assert t in tables && t !in rest && forall u :: u in tables <==> u == t || u in rest;
      BulkFromStart(acc, s, evs, t, fates[t], schemaVersion);
      var next := ApplyTable(acc, evs, t, fates[t], schemaVersion);
      forall u, id | u != t ensures Lookup(next.store, DocKey(u, id)) == Lookup(acc.store, DocKey(u, id)) {
        BulkTouchesItsTable(acc, evs, t, fates[t], schemaVersion, DocKey(u, id));
      }
      forall u | u != t ensures Tally(next.skips, u) == Tally(acc.skips, u) {
        BulkTouchesItsTable(acc, evs, t, fates[t], schemaVersion, DocKey(u, ""));
      }
      if next.ok {
        AppliedIff(next, s, skips, evs, rest, fates, schemaVersion);
      }
    }
  }

  /**
   What ApplyBatch leaves behind, row by row: the tables up to and with the first whose bulk fails have
   been written by that bulk alone, and the ones after it are as they were.
   */
  lemma {:induction false} StopsAtFirst(
      acc: Applied, s: Store, evs: seq<CDCEvent>, tables: seq<string>, fates: map<string, Fate>, n: nat, k: DocKey,
      schemaVersion: int)
    requires ValidPlan(evs, tables, fates) && acc.ok && n <= |tables|
    requires forall t, id | t in tables :: Lookup(acc.store, DocKey(t, id)) == Lookup(s, DocKey(t, id))
    requires forall i, j :: 0 <= i < j < |tables| ==> tables[i] != tables[j]
    requires forall i | 0 <= i < n :: BulkGoes(s, evs, tables[i], fates[tables[i]], schemaVersion)
    requires n < |tables| ==> !BulkGoes(s, evs, tables[n], fates[tables[n]], schemaVersion)
    ensures var r := ApplyTables(acc, evs, tables, fates, schemaVersion);
      Lookup(r.store, k) ==
        if k.coll in tables[..if n < |tables| then n + 1 else n] then
          Lookup(Run(s, Pick(evs, Part(evs, k.coll, fates[k.coll])), schemaVersion), k)
        else Lookup(acc.store, k)
    decreases |tables|
  {
    hide Run, Outcomes, IndicesOf, Part, BulkGoes, ReportedSkips, Absorbed, AddSkips;
    if tables != [] {
      var t, rest := tables[0], tables[1..];
      assert t in tables && t !in rest && forall u :: u in tables <==> u == t || u in rest;
      BulkFromStart(acc, s, evs, t, fates[t], schemaVersion);
      var next := ApplyTable(acc, evs, t, fates[t], schemaVersion);
      if k.coll == t {
        assert k == DocKey(t, k.id);
        RunFrame(acc.store, s, Pick(evs, Part(evs, t, fates[t])), k, schemaVersion);
      } else {
        BulkTouchesItsTable(acc, evs, t, fates[t], schemaVersion, k);
      }
      if n > 0 {
        forall u, id | u in rest ensures Lookup(next.store, DocKey(u, id)) == Lookup(s, DocKey(u, id)) {
          BulkTouchesItsTable(acc, evs, t, fates[t], schemaVersion, DocKey(u, id));
        }
        StopsAtFirst(next, s, evs, rest, fates, n - 1, k, schemaVersion);
        var m := if n < |tables| then n + 1 else n;
        assert tables[..m] == [t] + rest[..m - 1];
      } else {
        assert tables[..1] == [t];
      }
    }
  }

  predicate AllBuildable(evs: seq<CDCEvent>) {
    forall i :: 0 <= i < |evs| ==> Buildable(evs[i])
  }

  /** `tables` is an iteration order of the batch's collections. */
  ghost predicate CoversTables(evs: seq<CDCEvent>, tables: seq<string>) {
    && (forall i, j :: 0 <= i < j < |tables| ==> tables[i] != tables[j])
    && (forall e :: e in evs ==> e.table in tables)
    && (forall t :: t in tables ==> exists e :: e in evs && e.table == t)
  }

  lemma PickConcat<T>(s: seq<T>, a: seq<nat>, b: seq<nat>)
    requires InRange(a, |s|) && InRange(b, |s|)
    ensures InRange(a + b, |s|) && Pick(s, a + b) == Pick(s, a) + Pick(s, b)
  {
  }

  /** Progress `acc` is a run of distinct batch events from store `s`. */
  ghost predicate IsRunOf(acc: Applied, s: Store, evs: seq<CDCEvent>, schemaVersion: int) {
    && InRange(acc.trace, |evs|) && Distinct(acc.trace)
    && acc.store == Run(s, Pick(evs, acc.trace), schemaVersion)
  }

  lemma ApplyTableRunsTrace(s: Store, acc: Applied, evs: seq<CDCEvent>, t: string, f: Fate, schemaVersion: int)
    requires ValidFate(f, |IndicesOf(evs, t)|)
    requires IsRunOf(acc, s, evs, schemaVersion)
    requires forall j :: 0 <= j < |acc.trace| ==> evs[acc.trace[j]].table != t
    ensures var r := ApplyTable(acc, evs, t, f, schemaVersion);
      && IsRunOf(r, s, evs, schemaVersion)
      && r.trace == acc.trace + Part(evs, t, f)
      && (r.ok ==> forall i: nat :: i < |evs| && evs[i].table == t ==> i in r.trace)
  {
    var part := Part(evs, t, f);
    var r := ApplyTable(acc, evs, t, f, schemaVersion);
    PickConcat(evs, acc.trace, part);
    RunConcat(s, Pick(evs, acc.trace), Pick(evs, part), schemaVersion);
    forall i: nat | r.ok && i < |evs| && evs[i].table == t ensures i in r.trace {
      PartIsWhole(evs, t, f, i);
    }
  }

  /**
   One ApplyBatch, whatever the map iteration order and the server do, is a run of distinct events
   of the batch; when it succeeds it is a run of all of them. Failure may leave any part executed.
   */
  lemma {:induction false} ApplyTablesRunsTrace(
      s: Store, acc: Applied, evs: seq<CDCEvent>, tables: seq<string>, fates: map<string, Fate>, schemaVersion: int)
    requires ValidPlan(evs, tables, fates)
    requires forall i, j :: 0 <= i < j < |tables| ==> tables[i] != tables[j]
    requires IsRunOf(acc, s, evs, schemaVersion) && acc.ok
    requires forall j :: 0 <= j < |acc.trace| ==> evs[acc.trace[j]].table !in tables
    ensures var r := ApplyTables(acc, evs, tables, fates, schemaVersion);
      && IsRunOf(r, s, evs, schemaVersion)
      && acc.trace <= r.trace
      && (r.ok ==> forall i: nat :: i < |evs| && evs[i].table in tables ==> i in r.trace)
    decreases |tables|
  {
    hide Run, Outcomes, ApplyTable, IndicesOf;
    if tables != [] {
      var t := tables[0];
      ApplyTableRunsTrace(s, acc, evs, t, fates[t], schemaVersion);
      var next := ApplyTable(acc, evs, t, fates[t], schemaVersion);
      if next.ok {
        forall j | 0 <= j < |next.trace| ensures evs[next.trace[j]].table !in tables[1..] {
          assert j < |acc.trace| || evs[next.trace[j]].table == t;
        }
        ApplyTablesRunsTrace(s, next, evs, tables[1..], fates, schemaVersion);
        var r := ApplyTables(next, evs, tables[1..], fates, schemaVersion);
        forall i: nat | r.ok && i < |evs| && evs[i].table in tables ensures i in r.trace {
          if evs[i].table == t {
            assert i in next.trace;
          } else {
            assert evs[i].table in tables[1..];
          }
        }
      }
    }
  }

  /** No event executes behind a later event of the batch that covers it. */
  predicate OrderKept(evs: seq<CDCEvent>, trace: seq<nat>)
    requires InRange(trace, |evs|)
  {
    forall a, b :: 0 <= a < b < |trace| && trace[b] < trace[a] ==> !Covers(evs[trace[a]], evs[trace[b]])
  }

  /** Order only matters within a row, so it is enough that every table's bulk keeps it. */
  lemma {:induction false} BulksKeepOrder(
      acc: Applied, evs: seq<CDCEvent>, tables: seq<string>, fates: map<string, Fate>, schemaVersion: int)
    requires ValidPlan(evs, tables, fates)
    requires forall t :: t in tables ==> OrderKept(evs, Part(evs, t, fates[t]))
    requires forall i, j :: 0 <= i < j < |tables| ==> tables[i] != tables[j]
    requires InRange(acc.trace, |evs|) && OrderKept(evs, acc.trace)
    requires forall j :: 0 <= j < |acc.trace| ==> evs[acc.trace[j]].table !in tables
    ensures var r := ApplyTables(acc, evs, tables, fates, schemaVersion);
      InRange(r.trace, |evs|) && OrderKept(evs, r.trace)
    decreases |tables|
  {
    hide Run, Outcomes, Absorbed, AddSkips, ReportedSkips, IndicesOf, Part;
    if tables != [] {
      var t := tables[0];
      var part := Part(evs, t, fates[t]);
      var next := ApplyTable(acc, evs, t, fates[t], schemaVersion);
      assert t in tables && next.trace == acc.trace + part;
      assert forall a, b :: 0 <= a < |acc.trace| && 0 <= b < |part| ==> evs[acc.trace[a]].table != evs[part[b]].table;
      if next.ok {
        BulksKeepOrder(next, evs, tables[1..], fates, schemaVersion);
      }
    }
  }

  /** Every stored document carries an integer LSN, as all documents this writer creates do. */
  predicate Stamped(cur: Option<Doc>) {
    cur.Some? ==> SOURCE_LSN in cur.value && cur.value[SOURCE_LSN].Int?
  }

  /** The row already shows an event at this LSN or a newer one. */
  predicate AlreadyAt(cur: Option<Doc>, lsn: int) {
    cur.Some? && SOURCE_LSN in cur.value && cur.value[SOURCE_LSN].Int? && cur.value[SOURCE_LSN].n >= lsn
  }

  /**
   An upsert hits the unique index exactly when its row is already at its LSN or newer, and a delete
   misses exactly when its row has no older document; both leave the row alone. All other writes
   take effect.
   */
  lemma RejectedExactlyWhenRedundant(cur: Option<Doc>, ev: CDCEvent, schemaVersion: int)
    requires Stamped(cur)
    ensures var (next, o) := Gated(cur, ev, schemaVersion);
      && (o.DuplicateKey? <==> !IsDelete(ev) && AlreadyAt(cur, ev.lsn))
      && (o.MissedDelete? <==> IsDelete(ev) && (cur.None? || AlreadyAt(cur, ev.lsn)))
      && (o.DuplicateKey? || o.MissedDelete? ==> next == cur)
      && (o.Deleted? <==> IsDelete(ev) && next.None? && cur.Some?)
      && (o.Upserted? || o.Matched? <==> !IsDelete(ev) && !AlreadyAt(cur, ev.lsn))
      && (o.Upserted? || o.Matched? ==> next.Some? && AlreadyAt(next, ev.lsn) && next.value[SOURCE_LSN] == Int(ev.lsn))
      && Stamped(next)
  {
    if cur.Some? {
      FilterMeaning(ev, schemaVersion, cur.value);
    }
  }

  /** Of two events of a row with one LSN the second to run is dropped, even if it is the newer one. */
  lemma SecondIsDropped(older: CDCEvent, newer: CDCEvent, schemaVersion: int)
    requires KeyOf(older) == KeyOf(newer) && older.lsn == newer.lsn && !IsDelete(older)
    ensures Run(map[], [older, newer], schemaVersion) == Run(map[], [older], schemaVersion)
  {
    var first := Run(map[], [older], schemaVersion);
    assert [] + [older] == [older] && [older] + [newer] == [older, newer];
    RunSnoc(map[], [], older, schemaVersion);
    RunSnoc(map[], [older], newer, schemaVersion);
    var cur := Lookup(first, KeyOf(older));
    assert Lookup(map[], KeyOf(older)) == None && cur == Some(Image(older, schemaVersion));
    RejectedExactlyWhenRedundant(cur, newer, schemaVersion);
    assert Put(first, KeyOf(newer), cur) == first;
  }

  lemma {:induction false} RunStaysStamped(s: Store, evs: seq<CDCEvent>, k: DocKey, schemaVersion: int)
    requires forall j :: Stamped(Lookup(s, j))
    ensures Stamped(Lookup(Run(s, evs, schemaVersion), k))
  {
    if evs != [] {
      var n := |evs| - 1;
      RunStaysStamped(s, evs[..n], k, schemaVersion);
      RunStaysStamped(s, evs[..n], KeyOf(evs[n]), schemaVersion);
      RejectedExactlyWhenRedundant(Lookup(Run(s, evs[..n], schemaVersion), KeyOf(evs[n])), evs[n], schemaVersion);
    }
  }

  /**
   Absorbing a duplicate-key failure loses nothing: when a bulk is absorbed every one of its events
   ran, and each one that had no effect found its row at its LSN or newer, or, for a delete, absent.
   */
  lemma AbsorbedLosesNothing(s: Store, evs: seq<CDCEvent>, f: Fate, schemaVersion: int, i: nat)
    requires ValidFate(f, |evs|) && forall k :: Stamped(Lookup(s, k))
    requires Absorbed(Outcomes(s, Pick(evs, f.order), schemaVersion), f) && i < |evs|
    ensures exists p :: (0 <= p < |f.order| && f.order[p] == i
      && var cur := Lookup(Run(s, Pick(evs, f.order)[..p], schemaVersion), KeyOf(evs[i]));
         var o := Outcomes(s, Pick(evs, f.order), schemaVersion)[p];
         && o == Gated(cur, evs[i], schemaVersion).1
         && (o.DuplicateKey? || o.MissedDelete? <==> AlreadyAt(cur, evs[i].lsn) || (IsDelete(evs[i]) && cur.None?)))
  {
    var run := Pick(evs, f.order);
    assert i in f.order;
    var p :| 0 <= p < |f.order| && f.order[p] == i;
    RunStaysStamped(s, run[..p], KeyOf(evs[i]), schemaVersion);
    RejectedExactlyWhenRedundant(Lookup(Run(s, run[..p], schemaVersion), KeyOf(evs[i])), evs[i], schemaVersion);
    OutcomeAt(s, run, p, schemaVersion);
  }

  /**
   The write at position `p` of an execution is without effect exactly when its row is, at that point,
   at its LSN or newer, or, for a delete, absent.
   */
  ghost predicate IneffectiveIffRedundant(s: Store, run: seq<CDCEvent>, p: nat, schemaVersion: int)
    requires p < |run|
  {
    var cur := Lookup(Run(s, run[..p], schemaVersion), KeyOf(run[p]));
    var o := Outcomes(s, run, schemaVersion)[p];
    o.DuplicateKey? || o.MissedDelete? <==> AlreadyAt(cur, run[p].lsn) || (IsDelete(run[p]) && cur.None?)
  }

  lemma EachWriteCounts(s: Store, run: seq<CDCEvent>, p: nat, schemaVersion: int)
    requires (forall k :: Stamped(Lookup(s, k))) && p < |run|
    ensures IneffectiveIffRedundant(s, run, p, schemaVersion)
  {
    hide Gated, Run, Outcomes;
    RunStaysStamped(s, run[..p], KeyOf(run[p]), schemaVersion);
    RejectedExactlyWhenRedundant(Lookup(Run(s, run[..p], schemaVersion), KeyOf(run[p])), run[p], schemaVersion);
    OutcomeAt(s, run, p, schemaVersion);
  }

  /**
   When ApplyBatch returns nil, over all its tables and whatever failures it absorbed, each event of
   the batch has run, and was without effect exactly when it was redundant.
   */
  lemma BatchLosesNothing(
      start: Applied, evs: seq<CDCEvent>, tables: seq<string>, fates: map<string, Fate>, schemaVersion: int, i: nat)
    requires CoversTables(evs, tables) && ValidPlan(evs, tables, fates) && start.trace == [] && start.ok
    requires forall k :: Stamped(Lookup(start.store, k))
    requires ApplyTables(start, evs, tables, fates, schemaVersion).ok && i < |evs|
    ensures var trace := ApplyTables(start, evs, tables, fates, schemaVersion).trace;
      && InRange(trace, |evs|) && Distinct(trace)
      && exists p: nat | p < |trace| && trace[p] == i ::
           IneffectiveIffRedundant(start.store, Pick(evs, trace), p, schemaVersion)
  {
    hide ApplyTables, Run, IneffectiveIffRedundant, ValidPlan;
    var r := ApplyTables(start, evs, tables, fates, schemaVersion);
    assert IsRunOf(start, start.store, evs, schemaVersion) by { NothingRun(start, evs, schemaVersion); }
    ApplyTablesRunsTrace(start.store, start, evs, tables, fates, schemaVersion);
    assert evs[i] in evs && i in r.trace;
    var p :| 0 <= p < |r.trace| && r.trace[p] == i;
    EachWriteCounts(start.store, Pick(evs, r.trace), p, schemaVersion);
  }

  lemma NothingRun(start: Applied, evs: seq<CDCEvent>, schemaVersion: int)
    requires start.trace == []
    ensures IsRunOf(start, start.store, evs, schemaVersion)
  {
  }

  lemma {:induction false} OutcomeAt(s: Store, evs: seq<CDCEvent>, p: nat, schemaVersion: int)
    requires p < |evs|
    ensures Outcomes(s, evs, schemaVersion)[p]
         == Gated(Lookup(Run(s, evs[..p], schemaVersion), KeyOf(evs[p])), evs[p], schemaVersion).1
    decreases |evs|
  {
    hide Gated;
    var n := |evs| - 1;
    if p < n {
      OutcomeAt(s, evs[..n], p, schemaVersion);
      assert evs[..n][..p] == evs[..p];
    }
  }

  /**
   The skip count is exact when nothing collided, never below the true number of rejections, and on
   the all-duplicate-key path exact only when the bulk had no effect at all.
   */
  lemma SkipAccounting(os: seq<Outcome>)
    ensures Rejected(os) <= ReportedSkips(os)
    ensures DuplicateKey !in os ==> ReportedSkips(os) == Rejected(os) == Count(os, MissedDelete)
    ensures DuplicateKey in os ==> ReportedSkips(os) == |os| == Rejected(os) + Acked(os)
    ensures DuplicateKey in os ==> (ReportedSkips(os) == Rejected(os) <==> Acked(os) == 0)
  {
    OutcomesPartition(os);
  }

  predicate AllDuplicates(codes: seq<int>) {
    codes != [] && forall c :: c in codes ==> c == 11000
  }

  /** What the reply to an executed bulk tells the writer. */
  lemma ReplyMeaning(os: seq<Outcome>, f: Fate)
    requires forall r :: r in f.refused ==> r.1 != DUPLICATE_KEY
    ensures var reply := ReplyOf(os, f);
      && (reply.Success? ==> Absorbed(os, f) && DuplicateKey !in os)
      && (reply.Success? ==> reply.matched + reply.upserted + reply.deleted == Acked(os))
      && (!reply.Success? ==>
            (Absorbed(os, f) <==> reply.BulkException? && AllDuplicates(reply.codes)))
      && (!reply.Success? && Absorbed(os, f) ==> DuplicateKey in os)
  {
    var reply := ReplyOf(os, f);
    if !f.lost && f.refused != [] {
      var last := |f.refused| - 1;
      assert f.refused[last] in f.refused;
      assert reply.codes[|reply.codes| - 1] == f.refused[last].1;
      assert reply.codes[|reply.codes| - 1] in reply.codes;
    }
  }

  /** The models of one table, in batch order. */
  function Models(evs: seq<CDCEvent>, table: string, schemaVersion: int): seq<WriteOp> {
    if evs == [] then []
    else
      var n := |evs| - 1;
      Models(evs[..n], table, schemaVersion) + if evs[n].table == table then [WriteFor(evs[n], schemaVersion)] else []
  }

  lemma {:induction false} ModelsAreWrites(evs: seq<CDCEvent>, table: string, schemaVersion: int)
    ensures var idx := IndicesOf(evs, table);
      && |Models(evs, table, schemaVersion)| == |idx|
      && forall i :: 0 <= i < |idx| ==> Models(evs, table, schemaVersion)[i] == WriteFor(evs[idx[i]], schemaVersion)
                                        && evs[idx[i]].table == table
  {
    hide WriteFor;
    if evs != [] {
      ModelsAreWrites(evs[..|evs| - 1], table, schemaVersion);
    }
  }

  lemma NoModels(evs: seq<CDCEvent>, table: string, schemaVersion: int)
    requires forall e :: e in evs ==> e.table != table
    ensures Models(evs, table, schemaVersion) == []
  {
    if evs != [] {
      NoModels(evs[..|evs| - 1], table, schemaVersion);
    }
  }

  /** The database behind the client. BulkWrite states the server's contract. */
  class Database {
    var store: Store

    constructor ()
      ensures store == map[]
    {
      store := map[];
    }

    method BulkWrite(coll: string, models: seq<WriteOp>, f: Fate) returns (reply: Reply)
      requires ValidFate(f, |models|)
      modifies this
      ensures store == RunOps(old(store), coll, Pick(models, f.order)).0
      ensures reply == ReplyOf(RunOps(old(store), coll, Pick(models, f.order)).1, f)
    {
      var (after, os) := RunOps(store, coll, Pick(models, f.order));
      store := after;
      reply := ReplyOf(os, f);
    }
  }

  method AllDuplicateKey(reply: Reply) returns (all: bool)
    ensures all <==> reply.BulkException? && AllDuplicates(reply.codes)
  {
    if !reply.BulkException? {
      return false;
    }
    if |reply.codes| == 0 {
      return false;
    }
    for i := 0 to |reply.codes|
      invariant forall j :: 0 <= j < i ==> reply.codes[j] == DUPLICATE_KEY
    {
      if reply.codes[i] != DUPLICATE_KEY {
        assert reply.codes[i] in reply.codes;
        return false;
      }
    }
    return true;
  }

  class BatchWriter {
    const db: Database
    const schemaVersion: int
    var skips: map<string, nat>

    constructor (db: Database, schemaVersion: int)
      ensures this.db == db && this.schemaVersion == schemaVersion && skips == map[]
    {
      this.db := db;
      this.schemaVersion := schemaVersion;
      skips := map[];
    }

    method RecordSkip(table: string, n: int)
      requires n >= 0
      modifies this
      ensures skips == AddSkips(old(skips), table, n)
      ensures n > 0 ==> table in skips && skips[table] == (if table in old(skips) then old(skips[table]) else 0) + n
      ensures forall t | t != table || n == 0 :: Tally(skips, t) == Tally(old(skips), t)
    {
      if n > 0 {
        skips := skips[table := (if table in skips then skips[table] else 0) + n];
      }
    }

    /** `evs` is the whole batch; `models` are the writes of its events of this table. */
    method BulkWriteTable(table: string, models: seq<WriteOp>, ghost evs: seq<CDCEvent>, f: Fate, ghost acc: Applied)
      returns (ok: bool, ghost next: Applied)
      requires acc.ok && acc.store == db.store && acc.skips == skips
      requires models == Models(evs, table, schemaVersion) && ValidFate(f, |IndicesOf(evs, table)|)
      modifies this, db
      ensures next == ApplyTable(acc, evs, table, f, schemaVersion)
      ensures db.store == next.store && skips == next.skips && ok == next.ok
    {
      hide Run, RunOps, Outcomes, ReplyOf, IndicesOf;
      ModelsAreWrites(evs, table, schemaVersion);
      ghost var run := Pick(evs, Part(evs, table, f));
      ghost var os := Outcomes(db.store, run, schemaVersion);
      RunOpsIsRun(db.store, table, Pick(models, f.order), run, schemaVersion);
      OutcomesPartition(os);
      ReplyMeaning(os, f);
      next := ApplyTable(acc, evs, table, f, schemaVersion);
      var reply := db.BulkWrite(table, models, f);
      ReplyMeaning(os, f);
      if !reply.Success? {
        var absorbed := AllDuplicateKey(reply);
        if absorbed {
          RecordSkip(table, |models|);
          return true, next;
        }
        return false, next;
      }
      var acked := reply.matched + reply.upserted + reply.deleted;
      var skipped := |models| - acked;
      if skipped > 0 {
        RecordSkip(table, skipped);
      }
      return true, next;
    }

    /** One model list per collection, each in batch order. */
    method Group(evs: seq<CDCEvent>) returns (r: Result<map<string, seq<WriteOp>>>)
      ensures r.Ok? <==> AllBuildable(evs)
      ensures r.Ok? ==> forall e :: e in evs ==> e.table in r.value
      ensures r.Ok? ==> forall t :: t in r.value ==> r.value[t] == Models(evs, t, schemaVersion)
    {
      var byColl: map<string, seq<WriteOp>> := map[];
      for i := 0 to |evs|
        invariant AllBuildable(evs[..i])
        invariant forall e :: e in evs[..i] ==> e.table in byColl
        invariant forall t :: t in byColl ==> byColl[t] == Models(evs[..i], t, schemaVersion)
      {
        var built := BuildWriteOp(evs[i], schemaVersion);
        if built.Err? {
          return Err;
        }
        var t := evs[i].table;
        assert evs[..i + 1] == evs[..i] + [evs[i]];
        assert evs[..i + 1][..i] == evs[..i];
        if t !in byColl {
          NoModels(evs[..i], t, schemaVersion);
        }
        byColl := byColl[t := (if t in byColl then byColl[t] else []) + [built.value]];
      }
      assert evs[..|evs|] == evs;
      return Ok(byColl);
    }

    /** `tables` is the order in which Go iterates the map of collections. */
    method ApplyBatch(evs: seq<CDCEvent>, tables: seq<string>, fates: map<string, Fate>) returns (ok: bool)
      requires CoversTables(evs, tables) && ValidPlan(evs, tables, fates)
      modifies this, db
      ensures !AllBuildable(evs) ==> !ok && db.store == old(db.store) && skips == old(skips)
      ensures AllBuildable(evs) ==>
        var r := ApplyTables(Applied(old(db.store), [], old(skips), true), evs, tables, fates, schemaVersion);
        db.store == r.store && skips == r.skips && ok == r.ok
      ensures ok <==> AllBuildable(evs) && BulksGo(old(db.store), evs, tables, fates, schemaVersion)
      ensures ok ==> forall t | t in tables ::
        var os := Outcomes(old(db.store), Pick(evs, Part(evs, t, fates[t])), schemaVersion);
        Tally(skips, t) == Tally(old(skips), t) + ReportedSkips(os)
    {
      hide BulksGo, BulkGoes, ReportedSkips, Part, Outcomes, Run, ApplyTable;
      assert tables != [] ==> tables[0] in tables;
      AppliedIff(Applied(db.store, [], skips, true), db.store, skips, evs, tables, fates, schemaVersion);
      if |evs| == 0 {
        return true;
      }
      var grouped := Group(evs);
      if grouped.Err? {
        return false;
      }
      var byColl := grouped.value;
      ghost var start := Applied(db.store, [], skips, true);
      ghost var acc := start;
      for i := 0 to |tables|
        invariant acc.ok && acc.store == db.store && acc.skips == skips
        invariant ApplyTables(acc, evs, tables[i..], fates, schemaVersion)
               == ApplyTables(start, evs, tables, fates, schemaVersion)
      {
        var t := tables[i];
        assert t in tables;
        assert tables[i..][0] == t && tables[i..][1..] == tables[i + 1..];
        var written;
        written, acc := BulkWriteTable(t, byColl[t], evs, fates[t], acc);
        if !written {
          return false;
        }
      }
      return true;
    }
  }
}

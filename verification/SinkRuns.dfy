/**
 Whole runs of the sink: what the store shows after any sequence of batches, failures, crashes and
 redeliveries, and on what the fate of a deleted row depends.
 */
module SinkRuns {
  import opened Wrappers
  import opened Writer
  import opened Mongo
  import opened Survivor
  import opened Kafka
  import opened Decoder
  import opened SinkProtocol

  /** The sink after the first `n` moves, from an empty Mongo and no committed offsets. */
  ghost function SinkAt(logs: Logs<Body>, moves: seq<Move>, n: nat, v: int): Sink
    requires n <= |moves|
  {
    if n == 0 then INIT
    else
      var s := SinkAt(logs, moves, n - 1, v);
      if Enabled(logs, s, moves[n - 1]) then After(logs, s, moves[n - 1], v) else s
  }

  ghost predicate Legal(logs: Logs<Body>, moves: seq<Move>, v: int) {
    forall i: nat :: i < |moves| ==> Enabled(logs, SinkAt(logs, moves, i, v), moves[i])
  }

  lemma {:induction false} RunIsSafe(logs: Logs<Body>, moves: seq<Move>, n: nat, v: int)
    requires n <= |moves|
    ensures Safe(logs, SinkAt(logs, moves, n, v), v)
  {
    hide Safe, After, Enabled;
    if n == 0 {
      InitIsSafe(logs, v);
    } else {
      RunIsSafe(logs, moves, n - 1, v);
      var s := SinkAt(logs, moves, n - 1, v);
      if Enabled(logs, s, moves[n - 1]) {
        SafeStep(logs, s, moves[n - 1], v);
      }
    }
  }

  lemma InitIsSafe(logs: Logs<Body>, v: int)
    ensures Safe(logs, INIT, v)
  {
    assert EventsAt(logs, []) == [];
  }

  lemma {:induction false} RunGrows(logs: Logs<Body>, moves: seq<Move>, m: nat, n: nat, v: int)
    requires m <= n <= |moves|
    ensures SinkAt(logs, moves, m, v).hist <= SinkAt(logs, moves, n, v).hist
    ensures forall tp :: At(SinkAt(logs, moves, m, v).committed, tp) <= At(SinkAt(logs, moves, n, v).committed, tp)
    decreases n
  {
    hide Safe, After, Enabled;
    if m < n {
      RunGrows(logs, moves, m, n - 1, v);
      var s := SinkAt(logs, moves, n - 1, v);
      if Enabled(logs, s, moves[n - 1]) {
        RunIsSafe(logs, moves, n - 1, v);
        SafeStep(logs, s, moves[n - 1], v);
      }
    }
  }

  /** Move `i` takes its partition's committed offset past `x`. */
  ghost predicate Passes(logs: Logs<Body>, moves: seq<Move>, i: nat, x: Pos, v: int) {
    && i < |moves|
    && At(SinkAt(logs, moves, i, v).committed, x.tp) <= x.off < At(SinkAt(logs, moves, i + 1, v).committed, x.tp)
  }

  /** Each committed record was passed by some move. */
  lemma {:induction false} SomeMovePasses(logs: Logs<Body>, moves: seq<Move>, n: nat, x: Pos, v: int) returns (i: nat)
    requires n <= |moves| && x.off < At(SinkAt(logs, moves, n, v).committed, x.tp)
    ensures i < n && Passes(logs, moves, i, x, v)
    decreases n
  {
    if x.off < At(SinkAt(logs, moves, n - 1, v).committed, x.tp) {
      i := SomeMovePasses(logs, moves, n - 1, x, v);
    } else {
      i := n - 1;
    }
  }

  /** The move that passes a record is a batch that was applied and had polled it. */
  lemma PassingBatch(logs: Logs<Body>, moves: seq<Move>, i: nat, x: Pos, v: int)
    requires Passes(logs, moves, i, x, v)
    ensures moves[i].Take? && Enabled(logs, SinkAt(logs, moves, i, v), moves[i])
    ensures moves[i].batch.applied && x in moves[i].batch.fetch
    ensures Settled(logs, moves[i].batch.ran, x)
    ensures SinkAt(logs, moves, i + 1, v).hist == SinkAt(logs, moves, i, v).hist + moves[i].batch.ran
  {
    hide Run, ValidFetch, Advance;
    RunIsSafe(logs, moves, i, v);
    var s := SinkAt(logs, moves, i, v);
    OffsetsAfter(logs, s, moves[i].batch, v, x.tp);
    FetchHas(logs, s.position, moves[i].batch.fetch, x);
  }

  lemma CommittedAfter(logs: Logs<Body>, moves: seq<Move>, i: nat, x: Pos, v: int)
    requires Passes(logs, moves, i, x, v)
    ensures i < |moves| && x.off < At(SinkAt(logs, moves, i + 1, v).committed, x.tp)
  {
  }

  /** `x` is the newest record of its row among those in `hist`. */
  ghost predicate NewestRun(logs: Logs<Body>, hist: seq<Pos>, x: Pos) {
    && Writable(logs, x)
    && forall p :: p in hist && Writable(logs, p) && SameRow(logs, p, x) ==>
         p.tp == x.tp && p.off <= x.off && EventAt(logs, p).lsn <= EventAt(logs, x).lsn
  }

  lemma NewestEverRun(logs: Logs<Body>, s: Sink, x: Pos, v: int)
    requires RowsPartitioned(logs) && Safe(logs, s, v) && NewestBelow(logs, x, |LogOf(logs, x.tp)|)
    ensures NewestRun(logs, s.hist, x)
  {
  }

  lemma NewestSettledRun(logs: Logs<Body>, s: Sink, x: Pos, v: int)
    requires RowsPartitioned(logs) && Safe(logs, s, v) && NewestBelow(logs, x, At(s.committed, x.tp))
    requires NothingPending(logs, s, KeyOf(EventAt(logs, x)))
    ensures NewestRun(logs, s.hist, x)
  {
  }

  /** Every upsert of row `k` in `ran` is followed there by a delete that covers it. */
  ghost predicate Cleared(logs: Logs<Body>, ran: seq<Pos>, k: DocKey) {
    AllWritable(logs, ran) && forall i :: !UncoveredOf(EventsAt(logs, ran), k, i)
  }

  lemma UncoveredTail(h: seq<CDCEvent>, a: seq<CDCEvent>, k: DocKey, i: nat)
    ensures UncoveredOf(h + a, k, |h| + i) <==> UncoveredOf(a, k, i)
  {
    if i < |a| {
      assert forall j :: |h| <= j < |h + a| ==> (h + a)[j] == a[j - |h|];
      assert forall j :: 0 <= j < |a| ==> (h + a)[|h| + j] == a[j];
    }
  }

  /** A write that ran before the newest event's delete is covered by it. */
  lemma OlderIsCovered(logs: Logs<Body>, hist: seq<Pos>, ran: seq<Pos>, x: Pos, i: nat)
    requires AllWritable(logs, hist + ran) && NewestRun(logs, hist + ran, x) && LsnsIdentify(logs)
    requires IsDelete(EventAt(logs, x)) && x in ran && i < |hist|
    ensures !UncoveredOf(EventsAt(logs, hist + ran), KeyOf(EventAt(logs, x)), i)
  {
    var all, evs := hist + ran, EventsAt(logs, hist + ran);
    var j :| 0 <= j < |ran| && ran[j] == x;
    assert all[|hist| + j] == x && evs[|hist| + j] == EventAt(logs, x);
    assert all[i] in all && evs[i] == EventAt(logs, all[i]);
    if KeyOf(evs[i]) == KeyOf(EventAt(logs, x)) && !IsDelete(evs[i]) {
      assert SameRow(logs, all[i], x);
      assert Covers(evs[|hist| + j], evs[i]);
    }
  }

  /** Whatever ran before, the batch that runs a row's newest delete leaves it absent exactly when it clears it. */
  lemma BatchDecides(logs: Logs<Body>, s: Sink, b: Batch, x: Pos, v: int)
    requires Explained(logs, s, v) && AllWritable(logs, b.ran) && x in b.ran && LsnsIdentify(logs)
    requires NewestRun(logs, s.hist + b.ran, x) && IsDelete(EventAt(logs, x))
    ensures KeyOf(EventAt(logs, x)) !in AfterBatch(logs, s, b, v).store
       <==> Cleared(logs, b.ran, KeyOf(EventAt(logs, x)))
  {
    hide Run;
    var k, h, a := KeyOf(EventAt(logs, x)), EventsAt(logs, s.hist), EventsAt(logs, b.ran);
    ExplainedAfter(logs, s, b, v);
    EventsConcat(logs, s.hist, b.ran);
    SurvivorTheorem(h + a, k, v);
    forall i: nat | i < |h| ensures !UncoveredOf(h + a, k, i) {
      OlderIsCovered(logs, s.hist, b.ran, x, i);
    }
    forall i: nat ensures UncoveredOf(h + a, k, |h| + i) <==> UncoveredOf(a, k, i) {
      UncoveredTail(h, a, k, i);
    }
    if i :| UncoveredOf(h + a, k, i) {
      assert UncoveredOf(a, k, i - |h|);
    }
  }

  /** Once a row's newest record is committed no later move touches the row. */
  lemma {:induction false} RowStays(logs: Logs<Body>, moves: seq<Move>, m: nat, n: nat, x: Pos, v: int)
    requires m <= n <= |moves| && NewestRun(logs, SinkAt(logs, moves, n, v).hist, x)
    requires x.off < At(SinkAt(logs, moves, m, v).committed, x.tp)
    ensures Lookup(SinkAt(logs, moves, n, v).store, KeyOf(EventAt(logs, x)))
         == Lookup(SinkAt(logs, moves, m, v).store, KeyOf(EventAt(logs, x)))
    decreases n
  {
    hide Run, ValidFetch, Advance;
    if m < n {
      var s, t := SinkAt(logs, moves, n - 1, v), SinkAt(logs, moves, n, v);
      RunGrows(logs, moves, n - 1, n, v);
      RunGrows(logs, moves, m, n - 1, v);
      assert forall p :: p in s.hist ==> p in t.hist;
      RowStays(logs, moves, m, n - 1, x, v);
      if Enabled(logs, s, moves[n - 1]) && moves[n - 1].Take? {
        BatchMissesRow(logs, s, moves[n - 1].batch, x, v);
      }
    }
  }

  lemma BatchMissesRow(logs: Logs<Body>, s: Sink, b: Batch, x: Pos, v: int)
    requires Resumed(s) && ValidBatch(logs, s, b) && NewestRun(logs, s.hist + b.ran, x)
    requires x.off < At(s.committed, x.tp)
    ensures Lookup(AfterBatch(logs, s, b, v).store, KeyOf(EventAt(logs, x))) == Lookup(s.store, KeyOf(EventAt(logs, x)))
  {
    hide Run, ValidFetch, Advance;
    var evs := EventsAt(logs, b.ran);
    forall e | e in evs ensures KeyOf(e) != KeyOf(EventAt(logs, x)) {
      var i :| 0 <= i < |evs| && evs[i] == e;
      assert b.ran[i] in s.hist + b.ran;
      FetchHas(logs, s.position, b.fetch, b.ran[i]);
    }
    RunMisses(s.store, evs, KeyOf(EventAt(logs, x)), v);
  }

  /**
   In every reachable state after its newest delete was committed, a row is absent exactly when the
   batch that committed the delete ran no upsert of the row without a newer delete behind it.
   */
  lemma DeletedRowDecided(logs: Logs<Body>, moves: seq<Move>, i: nat, n: nat, x: Pos, v: int)
    requires LsnsIdentify(logs) && i < n <= |moves| && Passes(logs, moves, i, x, v)
    requires NewestRun(logs, SinkAt(logs, moves, n, v).hist, x) && IsDelete(EventAt(logs, x))
    ensures moves[i].Take?
    ensures KeyOf(EventAt(logs, x)) !in SinkAt(logs, moves, n, v).store
       <==> Cleared(logs, moves[i].batch.ran, KeyOf(EventAt(logs, x)))
  {
    hide Run, ValidFetch, Advance, Cleared, InBounds, NoLoss, LsnsIdentify, Passes;
    assert x.off < At(SinkAt(logs, moves, i + 1, v).committed, x.tp) by { CommittedAfter(logs, moves, i, x, v); }
    PassingBatch(logs, moves, i, x, v);
    RunIsSafe(logs, moves, i, v);
    RunGrows(logs, moves, i + 1, n, v);
    var s, t := SinkAt(logs, moves, i, v), SinkAt(logs, moves, n, v);
    assert forall p :: p in s.hist + moves[i].batch.ran ==> p in t.hist;
    BatchDecides(logs, s, moves[i].batch, x, v);
    RowStays(logs, moves, i + 1, n, x, v);
  }

  lemma NewestUpsertShows(logs: Logs<Body>, s: Sink, x: Pos, v: int)
    requires LsnsIdentify(logs) && RowsFull(logs) && Explained(logs, s, v)
    requires NewestRun(logs, s.hist, x) && !IsDelete(EventAt(logs, x)) && x in s.hist
    ensures Lookup(s.store, KeyOf(EventAt(logs, x))) == Some(Image(EventAt(logs, x), v))
  {
    hide Run, Image, ShowsAfter;
    var evs := EventsAt(logs, s.hist);
    var k := KeyOf(EventAt(logs, x));
    var at :| 0 <= at < |s.hist| && s.hist[at] == x;
    forall e | e in evs && KeyOf(e) == k ensures e.lsn < evs[at].lsn || e == evs[at] {
      var i :| 0 <= i < |evs| && evs[i] == e;
      assert s.hist[i] in s.hist && SameRow(logs, s.hist[i], x);
    }
    FullRowsAgree(logs, s.hist, k);
    NewestUpsertWins(evs, k, v, at);
  }

  /**
   In every reachable state, a row whose newest record is committed shows exactly that event: always
   if it is an upsert, and if it is a delete exactly when the batch that committed it cleared the row.
   */
  lemma RowShowsNewestIff(logs: Logs<Body>, moves: seq<Move>, i: nat, n: nat, x: Pos, v: int)
    requires LsnsIdentify(logs) && RowsFull(logs) && i < n <= |moves| && Passes(logs, moves, i, x, v)
    requires NewestRun(logs, SinkAt(logs, moves, n, v).hist, x)
    ensures moves[i].Take?
    ensures Lookup(SinkAt(logs, moves, n, v).store, KeyOf(EventAt(logs, x))) == Effect(EventAt(logs, x), v)
       <==> (IsDelete(EventAt(logs, x)) ==> Cleared(logs, moves[i].batch.ran, KeyOf(EventAt(logs, x))))
  {
    hide Run, ValidFetch, Advance, Cleared, Image, SinkAt, Enabled, InBounds, NoLoss;
    PassingBatch(logs, moves, i, x, v);
    if IsDelete(EventAt(logs, x)) {
      DeletedRowDecided(logs, moves, i, n, x, v);
    } else {
      RunIsSafe(logs, moves, n, v);
      RunGrows(logs, moves, i + 1, n, v);
      assert forall p :: p in SinkAt(logs, moves, i + 1, v).hist ==> p in SinkAt(logs, moves, n, v).hist;
      NewestUpsertShows(logs, SinkAt(logs, moves, n, v), x, v);
    }
  }

  /** LSNs of a row rise along its partition, as they do in the source log. */
  ghost predicate LsnsRise(logs: Logs<Body>) {
    forall p, q | Writable(logs, p) && Writable(logs, q) && SameRow(logs, p, q) ::
      p.tp == q.tp && p.off < q.off ==> EventAt(logs, p).lsn < EventAt(logs, q).lsn
  }

  lemma RisingIdentify(logs: Logs<Body>)
    requires RowsPartitioned(logs) && LsnsRise(logs)
    ensures LsnsIdentify(logs)
  {
    forall p, q | Writable(logs, p) && Writable(logs, q) && SameRow(logs, p, q)
      && EventAt(logs, p).lsn == EventAt(logs, q).lsn ensures EventAt(logs, p) == EventAt(logs, q)
    {
      assert p == q || p.off < q.off || q.off < p.off;
    }
  }

  /** No record of the row of `x` follows it below the offset `bound`. */
  ghost predicate LastOfRow(logs: Logs<Body>, x: Pos, bound: nat) {
    && Writable(logs, x)
    && forall p | Writable(logs, p) && p.tp == x.tp && x.off < p.off < bound :: !SameRow(logs, p, x)
  }

  /**
   The sink reading an LSN-ordered log: in every reachable state each row without pending writes
   shows the last committed event of its row, with the same single exception.
   */
  lemma SinkFollowsLog(logs: Logs<Body>, moves: seq<Move>, i: nat, n: nat, x: Pos, v: int)
    requires RowsPartitioned(logs) && LsnsRise(logs) && RowsFull(logs)
    requires i < n <= |moves| && Passes(logs, moves, i, x, v)
    requires LastOfRow(logs, x, At(SinkAt(logs, moves, n, v).committed, x.tp))
    requires AllWritable(logs, SinkAt(logs, moves, n, v).hist)
    requires NothingPending(logs, SinkAt(logs, moves, n, v), KeyOf(EventAt(logs, x)))
    ensures moves[i].Take?
    ensures Lookup(SinkAt(logs, moves, n, v).store, KeyOf(EventAt(logs, x))) == Effect(EventAt(logs, x), v)
       <==> (IsDelete(EventAt(logs, x)) ==> Cleared(logs, moves[i].batch.ran, KeyOf(EventAt(logs, x))))
  {
    hide Run, Image, Cleared, SinkAt, Enabled, Settled;
    RunIsSafe(logs, moves, n, v);
    RunGrows(logs, moves, i + 1, n, v);
    RisingIdentify(logs);
    assert NewestBelow(logs, x, At(SinkAt(logs, moves, n, v).committed, x.tp));
    NewestSettledRun(logs, SinkAt(logs, moves, n, v), x, v);
    RowShowsNewestIff(logs, moves, i, n, x, v);
  }

  /** A bulk that keeps list order clears every row whose newest record it deletes. */
  lemma OrderedBulkClears(logs: Logs<Body>, ran: seq<Pos>, x: Pos)
    requires AllWritable(logs, ran) && KeepsOrder(logs, ran) && LsnsIdentify(logs)
    requires x in ran && NewestRun(logs, ran, x) && IsDelete(EventAt(logs, x))
    ensures Cleared(logs, ran, KeyOf(EventAt(logs, x)))
  {
    var evs, k := EventsAt(logs, ran), KeyOf(EventAt(logs, x));
    var j :| 0 <= j < |ran| && ran[j] == x;
    forall i ensures !UncoveredOf(evs, k, i) {
      if 0 <= i < |evs| && !IsDelete(evs[i]) && KeyOf(evs[i]) == k {
        assert ran[i] in ran && SameRow(logs, ran[i], x) && Covers(evs[j], evs[i]);
      }
    }
  }

  /** The same move, its writes executed in another order. */
  ghost predicate SameMove(m: Move, other: Move) {
    || m == other
    || (m.Take? && other.Take? && other.batch == m.batch.(ran := other.batch.ran)
        && multiset(m.batch.ran) == multiset(other.batch.ran))
  }

  /** The same run as far as polls, results and commits go; only the servers' execution orders differ. */
  ghost predicate Reorders(moves: seq<Move>, others: seq<Move>) {
    |moves| == |others| && forall i :: 0 <= i < |moves| ==> SameMove(moves[i], others[i])
  }

  ghost predicate SameOffsets(s: Sink, t: Sink) {
    s.position == t.position && s.marked == t.marked && s.committed == t.committed
  }

  lemma SameElements<T>(a: seq<T>, b: seq<T>)
    requires multiset(a) == multiset(b)
    ensures |a| == |b| && forall e :: e in a <==> e in b
    ensures (forall i, j :: 0 <= i < j < |a| ==> a[i] != a[j]) ==> forall i, j :: 0 <= i < j < |b| ==> b[i] != b[j]
  {
    assert |multiset(a)| == |a| && |multiset(b)| == |b|;
    assert forall e :: e in a <==> e in multiset(a);
    assert forall e :: e in b <==> e in multiset(b);
    if forall i, j :: 0 <= i < j < |a| ==> a[i] != a[j] {
      forall i, j | 0 <= i < j < |b| ensures b[i] != b[j] {
        if b[i] == b[j] {
          TwiceIn(b, i, j);
          OnceIn(a, b[i]);
        }
      }
    }
  }

  lemma TwiceIn<T>(b: seq<T>, i: nat, j: nat)
    requires i < j < |b| && b[i] == b[j]
    ensures multiset(b)[b[i]] >= 2
  {
    assert b == b[..i + 1] + b[i + 1..];
    assert b[..i + 1][i] == b[i] && b[i + 1..][j - i - 1] == b[i];
    assert multiset(b) == multiset(b[..i + 1]) + multiset(b[i + 1..]);
  }

  lemma {:induction false} OnceIn<T>(a: seq<T>, e: T)
    requires forall i, j :: 0 <= i < j < |a| ==> a[i] != a[j]
    ensures multiset(a)[e] <= 1
  {
    if a != [] {
      var n := |a| - 1;
      OnceIn(a[..n], e);
      assert a == a[..n] + [a[n]];
      if a[n] == e {
        assert e !in a[..n];
      }
    }
  }

  lemma ReorderedStep(logs: Logs<Body>, s: Sink, t: Sink, m: Move, other: Move, v: int)
    requires SameOffsets(s, t) && SameMove(m, other) && Enabled(logs, s, m)
    ensures Enabled(logs, t, other) && SameOffsets(After(logs, s, m, v), After(logs, t, other, v))
  {
    hide Run, ValidFetch, Advance;
    if m.Take? {
      SameElements(m.batch.ran, other.batch.ran);
      forall i | 0 <= i < |other.batch.ran| ensures Writable(logs, other.batch.ran[i]) {
        assert other.batch.ran[i] in m.batch.ran;
      }
    }
  }

  lemma {:induction false} ReorderedRun(logs: Logs<Body>, moves: seq<Move>, others: seq<Move>, n: nat, v: int)
    requires Legal(logs, moves, v) && Reorders(moves, others) && n <= |moves|
    ensures SameOffsets(SinkAt(logs, moves, n, v), SinkAt(logs, others, n, v))
    ensures n < |moves| ==> Enabled(logs, SinkAt(logs, others, n, v), others[n])
  {
    hide After, Enabled, SameOffsets, SameMove;
    if n > 0 {
      ReorderedRun(logs, moves, others, n - 1, v);
      var s, t := SinkAt(logs, moves, n - 1, v), SinkAt(logs, others, n - 1, v);
      ReorderedStep(logs, s, t, moves[n - 1], others[n - 1], v);
    } else {
      assert SameOffsets(INIT, INIT) by { SameAsItself(INIT); }
    }
    if n < |moves| {
      ReorderedStep(logs, SinkAt(logs, moves, n, v), SinkAt(logs, others, n, v), moves[n], others[n], v);
    }
  }

  lemma SameAsItself(s: Sink)
    ensures SameOffsets(s, s)
  {
  }

  /** The poll held no upsert of the row of `x`. */
  ghost predicate NoUpsertPolled(logs: Logs<Body>, fetch: seq<Pos>, x: Pos) {
    && Writable(logs, x)
    && forall p | p in fetch && Writable(logs, p) && SameRow(logs, p, x) :: IsDelete(EventAt(logs, p))
  }

  lemma NothingToClear(logs: Logs<Body>, b: Batch, x: Pos)
    requires AllWritable(logs, b.ran) && (forall p :: p in b.ran ==> p in b.fetch) && NoUpsertPolled(logs, b.fetch, x)
    ensures Cleared(logs, b.ran, KeyOf(EventAt(logs, x)))
  {
    forall i ensures !UncoveredOf(EventsAt(logs, b.ran), KeyOf(EventAt(logs, x)), i) {
      if 0 <= i < |b.ran| {
        assert b.ran[i] in b.fetch;
      }
    }
  }

  /** `ran` with the record at `i` executed last. */
  function RunLast(ran: seq<Pos>, i: nat): (r: seq<Pos>)
    requires i < |ran|
    ensures |r| == |ran| && r[|r| - 1] == ran[i]
  {
    ran[..i] + ran[i + 1..] + [ran[i]]
  }

  lemma RunLastPermutes(ran: seq<Pos>, i: nat)
    requires i < |ran|
    ensures multiset(ran) == multiset(RunLast(ran, i))
  {
    assert ran == ran[..i] + [ran[i]] + ran[i + 1..];
  }

  lemma UpsertLastStays(logs: Logs<Body>, ran: seq<Pos>, x: Pos, i: nat)
    requires AllWritable(logs, ran) && Writable(logs, x) && i < |ran|
    requires SameRow(logs, ran[i], x) && !IsDelete(EventAt(logs, ran[i]))
    ensures !Cleared(logs, RunLast(ran, i), KeyOf(EventAt(logs, x)))
  {
    var last := RunLast(ran, i);
    if AllWritable(logs, last) {
      assert UncoveredOf(EventsAt(logs, last), KeyOf(EventAt(logs, x)), |last| - 1);
    }
  }

  /**
   The condition on what was polled. Whatever the servers' execution orders, a row whose last record
   in the log is a committed delete is absent exactly when the batch that committed that delete had
   polled no upsert of the row.
   */
  lemma DeletedRowAbsentIff(logs: Logs<Body>, moves: seq<Move>, i: nat, x: Pos, v: int)
    requires RowsPartitioned(logs) && LsnsIdentify(logs) && Legal(logs, moves, v)
    requires Passes(logs, moves, i, x, v) && NewestBelow(logs, x, |LogOf(logs, x.tp)|) && IsDelete(EventAt(logs, x))
    ensures moves[i].Take?
    ensures (forall others :: Reorders(moves, others)
               ==> KeyOf(EventAt(logs, x)) !in SinkAt(logs, others, |others|, v).store)
       <==> NoUpsertPolled(logs, moves[i].batch.fetch, x)
  {
    hide SinkAt, Legal, Enabled, Cleared, NoUpsertPolled, Reorders;
    PassingBatch(logs, moves, i, x, v);
    if NoUpsertPolled(logs, moves[i].batch.fetch, x) {
      forall others | Reorders(moves, others)
        ensures KeyOf(EventAt(logs, x)) !in SinkAt(logs, others, |others|, v).store
      {
        SeparatedRowAbsent(logs, moves, others, i, x, v);
      }
    } else {
      var others := UpsertLast(logs, moves, i, x, v);
    }
  }

  lemma ReorderedPasses(logs: Logs<Body>, moves: seq<Move>, others: seq<Move>, i: nat, x: Pos, v: int)
    requires Legal(logs, moves, v) && Reorders(moves, others) && Passes(logs, moves, i, x, v)
    ensures Passes(logs, others, i, x, v)
  {
    hide SinkAt, Enabled, Legal;
    ReorderedRun(logs, moves, others, i, v);
    ReorderedRun(logs, moves, others, i + 1, v);
  }

  lemma SeparatedRowAbsent(logs: Logs<Body>, moves: seq<Move>, others: seq<Move>, i: nat, x: Pos, v: int)
    requires RowsPartitioned(logs) && LsnsIdentify(logs) && Legal(logs, moves, v) && Reorders(moves, others)
    requires Passes(logs, moves, i, x, v) && NewestBelow(logs, x, |LogOf(logs, x.tp)|) && IsDelete(EventAt(logs, x))
    requires moves[i].Take? && NoUpsertPolled(logs, moves[i].batch.fetch, x)
    ensures KeyOf(EventAt(logs, x)) !in SinkAt(logs, others, |others|, v).store
  {
    hide SinkAt, Legal, Cleared, Safe, NewestRun;
    ReorderedPasses(logs, moves, others, i, x, v);
    PassingBatch(logs, others, i, x, v);
    RunIsSafe(logs, others, |others|, v);
    NewestEverRun(logs, SinkAt(logs, others, |others|, v), x, v);
    NothingToClear(logs, others[i].batch, x);
    DeletedRowDecided(logs, others, i, |others|, x, v);
  }

  /** A polled upsert of an applied batch is somewhere in its execution. */
  lemma PolledUpsertRan(logs: Logs<Body>, s: Sink, b: Batch, x: Pos) returns (j: nat)
    requires ValidBatch(logs, s, b) && b.applied && Writable(logs, x) && !NoUpsertPolled(logs, b.fetch, x)
    ensures j < |b.ran| && AllWritable(logs, b.ran)
    ensures SameRow(logs, b.ran[j], x) && !IsDelete(EventAt(logs, b.ran[j]))
  {
    hide ValidFetch, Malformed;
    var p :| p in b.fetch && Writable(logs, p) && SameRow(logs, p, x) && !IsDelete(EventAt(logs, p));
    assert Settled(logs, b.ran, p);
    j :| 0 <= j < |b.ran| && b.ran[j] == p;
  }

  lemma ReorderOne(moves: seq<Move>, i: nat, ran: seq<Pos>)
    requires i < |moves| && moves[i].Take? && multiset(moves[i].batch.ran) == multiset(ran)
    ensures Reorders(moves, moves[i := Take(moves[i].batch.(ran := ran))])
  {
  }

  /** Executing a polled upsert of the row last leaves the row behind. */
  lemma UpsertLast(logs: Logs<Body>, moves: seq<Move>, i: nat, x: Pos, v: int) returns (others: seq<Move>)
    requires RowsPartitioned(logs) && LsnsIdentify(logs) && Legal(logs, moves, v)
    requires Passes(logs, moves, i, x, v) && NewestBelow(logs, x, |LogOf(logs, x.tp)|) && IsDelete(EventAt(logs, x))
    requires moves[i].Take? && !NoUpsertPolled(logs, moves[i].batch.fetch, x)
    ensures Reorders(moves, others) && i < |moves| && others == moves[i := others[i]] && others[i].Take?
    ensures KeyOf(EventAt(logs, x)) in SinkAt(logs, others, |others|, v).store
  {
    hide SinkAt, Legal, Cleared, Safe, NewestRun, NoUpsertPolled, ValidBatch, SameRow, Reorders, Settled;
    PassingBatch(logs, moves, i, x, v);
    var b := moves[i].batch;
    var j := PolledUpsertRan(logs, SinkAt(logs, moves, i, v), b, x);
    RunLastPermutes(b.ran, j);
    others := moves[i := Take(b.(ran := RunLast(b.ran, j)))];
    ReorderOne(moves, i, RunLast(b.ran, j));
    ReorderedPasses(logs, moves, others, i, x, v);
    RunIsSafe(logs, others, |others|, v);
    NewestEverRun(logs, SinkAt(logs, others, |others|, v), x, v);
    UpsertLastStays(logs, b.ran, x, j);
    DeletedRowDecided(logs, others, i, |others|, x, v);
  }
}

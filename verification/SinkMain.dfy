/**
 services/sink/cmd/sink/main.go: the loop that retries RunOnce with a growing delay, the delay in
 64-bit arithmetic, and the writer that reports progress to the checkpointer.
 */
module SinkMain {
  import opened Wrappers
  import opened JsonValues
  import opened Writer
  import opened Mongo
  import opened MongoWriter
  import opened Kafka
  import opened KafkaClient
  import opened Decoder
  import opened SinkProtocol
  import opened Consumer
  import Checkpoint

  /** Nanoseconds, as time.Duration counts them. */
  const BASE_BACKOFF := 500_000_000
  const MAX_BACKOFF := 30_000_000_000

  function Pow2(n: nat): (p: nat)
    ensures p > 0
  {
    if n == 0 then 1 else 2 * Pow2(n - 1)
  }

  /** Two's complement of 64 bits. */
  function Int64(x: int): int {
    (x + 0x8000_0000_0000_0000) % 0x1_0000_0000_0000_0000 - 0x8000_0000_0000_0000
  }

  function ShiftLeft(x: int, k: nat): int {
    Int64(x * Pow2(k))
  }

  function BackoffDuration(n: int): int {
    if n <= 0 then BASE_BACKOFF
    else
      var d := ShiftLeft(BASE_BACKOFF, n - 1);
      if d <= 0 || d > MAX_BACKOFF then MAX_BACKOFF else d
  }

  lemma {:induction false} Pow2Sum(a: nat, b: nat)
    ensures Pow2(a + b) == Pow2(a) * Pow2(b)
  {
    if a > 0 {
      Pow2Sum(a - 1, b);
      assert Pow2(a + b) == 2 * Pow2(a + b - 1);
    }
  }

  lemma {:induction false} Pow2Grows(a: nat, b: nat)
    requires a <= b
    ensures Pow2(a) <= Pow2(b)
    decreases b
  {
    if a < b {
      Pow2Grows(a, b - 1);
    }
  }

  lemma Pow2Constants()
    ensures Pow2(34) == 0x4_0000_0000 && Pow2(35) == 0x8_0000_0000
  {
    assert Pow2(10) == 1024;
    Pow2Sum(10, 10);
    Pow2Sum(20, 10);
    assert Pow2(4) == 16 && Pow2(5) == 32;
    Pow2Sum(30, 4);
    Pow2Sum(30, 5);
  }

  /** What is left of a multiple of 2^35 after wrapping to 64 bits is one too, so it cannot land inside the cap. */
  lemma WrappedIsOutside(m: int)
    ensures var d := Int64(m * 0x8_0000_0000);
      d <= 0 || d > MAX_BACKOFF
  {
    var x := m * 0x8_0000_0000;
    var q := (x + 0x8000_0000_0000_0000) / 0x1_0000_0000_0000_0000;
    assert Int64(x) == x - q * 0x1_0000_0000_0000_0000;
    assert Int64(x) == (m - q * 0x2000_0000) * 0x8_0000_0000;
  }

  /** For every retry number the wrapping shift still doubles from the base up to the cap. */
  lemma BackoffExact(n: int)
    requires n >= 1
    ensures var ideal := 500_000_000 * Pow2(n - 1);
      BackoffDuration(n) == if ideal <= 30_000_000_000 then ideal else 30_000_000_000
  {
    var k := n - 1;
    Pow2Constants();
    if k <= 34 {
      Pow2Grows(k, 34);
      assert 0 < BASE_BACKOFF * Pow2(k) < 0x8000_0000_0000_0000;
    } else {
      Pow2Sum(k - 35, 35);
      Pow2Grows(35, k);
      var m := BASE_BACKOFF * Pow2(k - 35);
      assert BASE_BACKOFF * Pow2(k) == m * 0x8_0000_0000;
      WrappedIsOutside(m);
    }
  }

  lemma BackoffMonotone(n: int, m: int)
    requires n <= m
    ensures BASE_BACKOFF <= BackoffDuration(n) <= BackoffDuration(m) <= MAX_BACKOFF
  {
    if m >= 1 {
      BackoffExact(m);
    }
    if n >= 1 {
      BackoffExact(n);
      Pow2Grows(n - 1, m - 1);
    }
  }

  /** Failures in a row at the end of `results`. */
  function Streak(results: seq<bool>): nat {
    if results == [] || results[|results| - 1] then 0 else Streak(results[..|results| - 1]) + 1
  }

  /** The delay after each turn that failed. */
  ghost predicate Delayed(results: seq<bool>, delays: seq<Option<int>>) {
    && |delays| == |results|
    && forall i :: 0 <= i < |results| ==> delays[i] == DelayAfter(results[..i + 1])
  }

  function DelayAfter(results: seq<bool>): Option<int> {
    if Streak(results) == 0 then None else Some(BackoffDuration(Streak(results)))
  }

  lemma DelayedSnoc(results: seq<bool>, delays: seq<Option<int>>, ok: bool)
    requires Delayed(results, delays)
    ensures Streak(results + [ok]) == if ok then 0 else Streak(results) + 1
    ensures Delayed(results + [ok], delays + [DelayAfter(results + [ok])])
  {
    var more, n := results + [ok], |results|;
    assert more[..n] == results && more[..n + 1] == more;
    forall i | 0 <= i < |more| ensures (delays + [DelayAfter(more)])[i] == DelayAfter(more[..i + 1]) {
      if i < n {
        assert more[..i + 1] == results[..i + 1];
      }
    }
  }

  lemma {:induction false} StreakGrows(results: seq<bool>, i: nat, j: nat)
    requires i <= j < |results| && forall k :: i <= k <= j ==> !results[k]
    ensures Streak(results[..j + 1]) == Streak(results[..i]) + j + 1 - i
    decreases j
  {
    assert results[..j + 1][..j] == results[..j];
    if i < j {
      StreakGrows(results, i, j - 1);
    }
  }

  /** The n-th retry behind a success or the start waits the base doubled n - 1 times, up to the cap; here n - 1. */
  lemma DelaysAre(results: seq<bool>, delays: seq<Option<int>>, i: nat, n: nat)
    requires Delayed(results, delays) && i + n < |results| && (i == 0 || results[i - 1])
    requires forall k :: i <= k <= i + n ==> !results[k]
    ensures var ideal := 500_000_000 * Pow2(n);
      delays[i + n] == Some(if ideal <= 30_000_000_000 then ideal else 30_000_000_000)
  {
    StreakGrows(results, i, i + n);
    assert Streak(results[..i]) == 0;
    hide BackoffDuration, Streak, Pow2;
    assert Streak(results[..i + n + 1]) == n + 1;
    BackoffExact(n + 1);
    assert delays[i + n] == DelayAfter(results[..i + n + 1]);
  }

  lemma SuccessWaitsNot(results: seq<bool>, delays: seq<Option<int>>, i: nat)
    requires Delayed(results, delays) && i < |results| && results[i]
    ensures delays[i] == None
  {
  }

  /** During a run of failures the delays start at the base after a success, never shrink, and stay within the cap. */
  lemma DelaysNeverShrink(results: seq<bool>, delays: seq<Option<int>>, i: nat, j: nat)
    requires Delayed(results, delays) && i <= j < |results| && forall k :: i <= k <= j ==> !results[k]
    ensures delays[i].Some? && delays[j].Some?
    ensures BASE_BACKOFF <= delays[i].value <= delays[j].value <= MAX_BACKOFF
    ensures i == 0 || results[i - 1] ==> delays[i].value == BASE_BACKOFF
  {
    StreakGrows(results, i, i);
    StreakGrows(results, i, j);
    BackoffMonotone(Streak(results[..i + 1]), Streak(results[..j + 1]));
    if i == 0 || results[i - 1] {
      assert Streak(results[..i]) == 0;
      BackoffExact(1);
    }
  }

  /** What one turn does: the batch RunOnce makes of the poll, and a rewind if it failed. */
  ghost predicate TurnTaken(logs: Logs<Body>, s: Sink, w: Weather, ok: bool, t: Sink, v: int) {
    exists b ::
      && BatchTaken(logs, s, w, ok, b, v)
      && t == if ok then AfterBatch(logs, s, b, v) else Rewound(AfterBatch(logs, s, b, v))
  }

  /** The turns so far: `views` are what lies before, between and behind them. */
  ghost predicate TurnsTaken(
    logs: Logs<Body>, views: seq<Sink>, world: (nat, Offsets) -> Weather, results: seq<bool>, v: int)
  {
    && |views| == |results| + 1
    && forall k: nat | k < |results| ::
         TurnTaken(logs, views[k], world(k, views[k].position), results[k], views[k + 1], v)
  }

  lemma NoTurnYet(logs: Logs<Body>, s: Sink, world: (nat, Offsets) -> Weather, v: int)
    ensures TurnsTaken(logs, [s], world, [], v)
  {
  }

  lemma OneMoreTurn(
      logs: Logs<Body>, views: seq<Sink>, world: (nat, Offsets) -> Weather, results: seq<bool>,
      ok: bool, t: Sink, v: int)
    requires TurnsTaken(logs, views, world, results, v)
    requires var n := |results|; TurnTaken(logs, views[n], world(n, views[n].position), ok, t, v)
    ensures TurnsTaken(logs, views + [t], world, results + [ok], v)
  {
    hide TurnTaken;
  }

  /**
   The main loop, for at most `turns` calls. `world` decides what happens around each call, given
   where the consumer stands; `canceled` says whether an error of a call is its context's, which ends
   the loop. After an error the next poll starts at the committed offsets, which is what Poll's
   contract says.
   */
  method RunLoop(loop: Loop, turns: nat, world: (nat, Offsets) -> Weather, canceled: nat -> bool)
    returns (results: seq<bool>, delays: seq<Option<int>>, ghost views: seq<Sink>)
    requires forall k, position :: ValidWeather(loop.canon, loop.cons.log, position, world(k, position))
    requires Safe(loop.Logs(), loop.View(), loop.writer.schemaVersion) && Resumed(loop.View())
    modifies loop, loop.cons`position, loop.cons`marked, loop.cons`committed, loop.writer, loop.writer.db
    ensures Safe(loop.Logs(), loop.View(), loop.writer.schemaVersion) && Resumed(loop.View())
    ensures forall tp :: At(old(loop.cons.committed), tp) <= At(loop.cons.committed, tp)
    ensures |results| <= turns && Delayed(results, delays)
    ensures |views| > 0 && views[0] == old(loop.View()) && views[|views| - 1] == loop.View()
    ensures |results| == turns ==> TurnsTaken(loop.Logs(), views, world, results, loop.writer.schemaVersion)
    ensures |results| < turns ==> canceled(|results|)
    ensures |results| < turns ==> TurnsTaken(loop.Logs(), views, world, results + [false], loop.writer.schemaVersion)
    ensures forall k: nat :: k < |results| && !results[k] ==> !canceled(k)
  {
    hide Safe, ValidWeather, AfterBatch, ValidBatch, BackoffDuration, TurnTaken, TurnsTaken;
    var consecutive := 0;
    results, delays, views := [], [], [loop.View()];
    NoTurnYet(loop.Logs(), loop.View(), world, loop.writer.schemaVersion);
    for turn := 0 to turns
      invariant Safe(loop.Logs(), loop.View(), loop.writer.schemaVersion) && Resumed(loop.View())
      invariant forall tp :: At(old(loop.cons.committed), tp) <= At(loop.cons.committed, tp)
      invariant |results| == turn && Delayed(results, delays) && consecutive == Streak(results)
      invariant |views| == turn + 1 && views[0] == old(loop.View()) && views[turn] == loop.View()
      invariant TurnsTaken(loop.Logs(), views, world, results, loop.writer.schemaVersion)
      invariant forall k: nat :: k < turn && !results[k] ==> !canceled(k)
    {
      var ok := Turn(loop, world(turn, loop.cons.position));
      OneMoreTurn(loop.Logs(), views, world, results, ok, loop.View(), loop.writer.schemaVersion);
      views := views + [loop.View()];
      if !ok && canceled(turn) {
        return;
      }
      DelayedSnoc(results, delays, ok);
      results := results + [ok];
      if ok {
        consecutive := 0;
        delays := delays + [None];
      } else {
        consecutive := consecutive + 1;
        delays := delays + [Some(BackoffDuration(consecutive))];
      }
    }
  }

  /** A batch leaves the sink safe; it is ready for the next poll if the batch succeeded, and after resuming if not. */
  lemma TurnStep(logs: Logs<Body>, s: Sink, b: Batch, v: int)
    requires Safe(logs, s, v) && Resumed(s) && ValidBatch(logs, s, b)
    ensures var t := AfterBatch(logs, s, b, v);
      && Safe(logs, t, v) && Safe(logs, Rewound(t), v)
      && (b.fetch == [] || b.commit.Took? ==> Resumed(t))
      && (forall tp :: At(s.committed, tp) <= At(t.committed, tp))
  {
    hide Run, ValidFetch, Advance;
    var t := AfterBatch(logs, s, b, v);
    SafeStep(logs, s, Take(b), v);
    SafeStep(logs, t, Rewind, v);
    if b.fetch == [] {
      NothingRead(s.position);
    } else if b.commit.Took? {
      SuccessResumes(logs, s, b, v);
    }
  }

  lemma NothingRead(m: Offsets)
    ensures Advance(m, []) == m
  {
  }

  lemma TurnIs(logs: Logs<Body>, s: Sink, w: Weather, ok: bool, b: Batch, v: int)
    requires BatchTaken(logs, s, w, ok, b, v) && (w.acked ==> w.took) && Safe(logs, s, v) && Resumed(s)
    ensures var t := AfterBatch(logs, s, b, v);
      && TurnTaken(logs, s, w, ok, if ok then t else Rewound(t), v)
      && Safe(logs, t, v) && Safe(logs, Rewound(t), v) && (ok ==> Resumed(t))
      && (forall tp :: At(s.committed, tp) <= At(t.committed, tp))
  {
    hide Safe, AfterBatch, ValidBatch, Applies, ValidPlan, EventsIn, At, Resumed, Rewound;
    TurnStep(logs, s, b, v);
  }

  lemma IsTaken(logs: Logs<Body>, s: Sink, w: Weather, ok: bool, b: Batch, v: int)
    requires forall i :: 0 <= i < |w.fetch| ==> InLog(logs, w.fetch[i])
    requires ValidPlan(EventsIn(logs, w.fetch), w.tables, w.fates)
    requires ValidBatch(logs, s, b) && b.fetch == w.fetch && (b.applied <==> Applies(logs, s.store, w, v))
    requires b.applied ==> (b.commit.Took? <==> w.took)
    requires ok <==> !w.failed && (w.fetch == [] || (b.applied && w.acked))
    ensures BatchTaken(logs, s, w, ok, b, v)
  {
  }

  /** The call itself. */
  method Attempt(loop: Loop, w: Weather) returns (ok: bool)
    requires ValidWeather(loop.canon, loop.cons.log, loop.cons.position, w)
    requires Safe(loop.Logs(), loop.View(), loop.writer.schemaVersion) && Resumed(loop.View())
    modifies loop, loop.cons`position, loop.cons`marked, loop.cons`committed, loop.writer, loop.writer.db
    ensures var t, v := loop.View(), loop.writer.schemaVersion;
      && TurnTaken(loop.Logs(), old(loop.View()), w, ok, if ok then t else Rewound(t), v)
      && Safe(loop.Logs(), t, v) && Safe(loop.Logs(), Rewound(t), v) && (ok ==> Resumed(t))
    ensures forall tp :: At(old(loop.cons.committed), tp) <= At(loop.cons.committed, tp)
  {
    WeatherPlan(loop.canon, loop.cons.log, loop.cons.position, w);
    hide Safe, AfterBatch, ValidBatch, Bodies, ValidWeather, Applies, ValidPlan, EventsIn, Malformed, AllTombstones;
    hide Calm, Run, ValidFetch, TurnTaken, BulksInOrder, KeepsOrder, Writable, BatchTaken;
    ghost var s, v := loop.View(), loop.writer.schemaVersion;
    ghost var b;
    ok, b := loop.RunOnce(w);
    IsTaken(loop.Logs(), s, w, ok, b, v);
    TurnIs(loop.Logs(), s, w, ok, b, v);
  }

  /** One call of RunOnce, and what Poll's contract does if it failed. */
  method Turn(loop: Loop, w: Weather) returns (ok: bool)
    requires ValidWeather(loop.canon, loop.cons.log, loop.cons.position, w)
    requires Safe(loop.Logs(), loop.View(), loop.writer.schemaVersion) && Resumed(loop.View())
    modifies loop, loop.cons`position, loop.cons`marked, loop.cons`committed, loop.writer, loop.writer.db
    ensures Safe(loop.Logs(), loop.View(), loop.writer.schemaVersion) && Resumed(loop.View())
    ensures forall tp :: At(old(loop.cons.committed), tp) <= At(loop.cons.committed, tp)
    ensures TurnTaken(loop.Logs(), old(loop.View()), w, ok, loop.View(), loop.writer.schemaVersion)
  {
    hide Safe, AfterBatch, Bodies, ValidWeather, TurnTaken;
    ok := Attempt(loop, w);
    if !ok {
      loop.cons.Resume();
    }
  }

  method MaxLsn(evs: seq<CDCEvent>) returns (maxLSN: int)
    ensures maxLSN >= 0 && forall e :: e in evs ==> e.lsn <= maxLSN
    ensures maxLSN == 0 || exists e :: e in evs && e.lsn == maxLSN
  {
    maxLSN := 0;
    for i := 0 to |evs|
      invariant maxLSN >= 0 && forall j :: 0 <= j < i ==> evs[j].lsn <= maxLSN
      invariant maxLSN == 0 || exists e :: e in evs && e.lsn == maxLSN
    {
      if evs[i].lsn > maxLSN {
        maxLSN := evs[i].lsn;
      }
    }
  }

  /** The writer the loop is given: the batch, then its largest LSN and its size to the checkpointer. */
  class InstrumentedWriter {
    const inner: BatchWriter
    const cp: Checkpoint.Checkpointer

    constructor (inner: BatchWriter, cp: Checkpoint.Checkpointer)
      ensures this.inner == inner && this.cp == cp
    {
      this.inner := inner;
      this.cp := cp;
    }

    /**
     The result is the inner writer's; progress moves to the batch's largest LSN if that is ahead, and
     only on success.
     */
    method ApplyBatch(evs: seq<CDCEvent>, tables: seq<string>, fates: map<string, Fate>) returns (ok: bool)
      requires CoversTables(evs, tables) && ValidPlan(evs, tables, fates) && cp.maxLSN >= 0
      modifies inner, inner.db, cp
      ensures !AllBuildable(evs) ==> !ok && inner.db.store == old(inner.db.store)
      ensures AllBuildable(evs) ==>
        var start := Applied(old(inner.db.store), [], old(inner.skips), true);
        var r := ApplyTables(start, evs, tables, fates, inner.schemaVersion);
        inner.db.store == r.store && ok == r.ok
      ensures !ok ==> cp.maxLSN == old(cp.maxLSN) && cp.eventCount == old(cp.eventCount) && cp.dirty == old(cp.dirty)
      ensures ok ==> cp.dirty && cp.eventCount == old(cp.eventCount) + |evs|
      ensures ok ==> old(cp.maxLSN) <= cp.maxLSN && forall e :: e in evs ==> e.lsn <= cp.maxLSN
      ensures ok ==> cp.maxLSN == old(cp.maxLSN) || exists e :: e in evs && e.lsn == cp.maxLSN
    {
      hide ApplyTables, ValidPlan;
      ok := inner.ApplyBatch(evs, tables, fates);
      if !ok {
        return;
      }
      var maxLSN := MaxLsn(evs);
      cp.MarkProgress(maxLSN, |evs|);
    }
  }
}

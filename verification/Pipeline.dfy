/**
 The two stages together: source log, transformer, transformed log, sink, Mongo. Transformer and
 sink steps interleave freely; the transformed log, with all its replayed segments, is what the
 sink reads.
 */
module Pipeline {
  import opened Wrappers
  import opened Writer
  import opened Mongo
  import opened Survivor
  import opened Decoder
  import opened Kafka
  import opened SinkProtocol
  import opened SinkRuns
  import opened TransformerProtocol

  datatype Pipe = Pipe(stage: Stage, sink: Sink)

  /** One step of either stage. */
  datatype PipeMove = Transforming(round: Round) | Restarting | Sinking(move: Move)

  function CopyOf(src: Logs<Item>, p: Pos): Body {
    if Forwardable(src, p) then RecordAt(src, p).out.value else Poison
  }

  /** The log the sink reads. */
  function Downstream(src: Logs<Item>, out: Logs<Pos>): Logs<Body> {
    map d | d in out :: seq(|out[d]|, i requires 0 <= i < |out[d]| => CopyOf(src, out[d][i]))
  }

  ghost predicate CanMove(src: Logs<Item>, s: Pipe, m: PipeMove) {
    match m
    case Transforming(r) => AtCommitted(s.stage) && ValidRound(src, s.stage, r)
    case Restarting => true
    case Sinking(move) => Enabled(Downstream(src, s.stage.out), s.sink, move)
  }

  ghost function Moved(src: Logs<Item>, s: Pipe, m: PipeMove, v: int): Pipe
    requires CanMove(src, s, m)
  {
    match m
    case Transforming(r) => s.(stage := AfterRound(src, s.stage, r))
    case Restarting => s.(stage := Restarted(s.stage))
    case Sinking(move) => s.(sink := After(Downstream(src, s.stage.out), s.sink, move, v))
  }

  /** Both stages after the first `n` moves. */
  ghost function PipeAt(src: Logs<Item>, moves: seq<PipeMove>, n: nat, v: int): Pipe
    requires n <= |moves|
  {
    if n == 0 then Pipe(START, INIT)
    else
      var s := PipeAt(src, moves, n - 1, v);
      if CanMove(src, s, moves[n - 1]) then Moved(src, s, moves[n - 1], v) else s
  }

  ghost function End(src: Logs<Item>, moves: seq<PipeMove>, v: int): Pipe {
    PipeAt(src, moves, |moves|, v)
  }

  ghost predicate PipeRun(src: Logs<Item>, moves: seq<PipeMove>, v: int) {
    forall i: nat :: i < |moves| ==> CanMove(src, PipeAt(src, moves, i, v), moves[i])
  }

  lemma {:induction false} StageIsSafe(src: Logs<Item>, moves: seq<PipeMove>, n: nat, v: int)
    requires n <= |moves|
    ensures StageSafe(src, PipeAt(src, moves, n, v).stage)
  {
    hide AfterRound, ValidRound, Enabled, After;
    if n > 0 {
      StageIsSafe(src, moves, n - 1, v);
      var s := PipeAt(src, moves, n - 1, v);
      if CanMove(src, s, moves[n - 1]) && !moves[n - 1].Sinking? {
        assert NextStage(src, s.stage, Moved(src, s, moves[n - 1], v).stage);
        StageStep(src, s.stage, Moved(src, s, moves[n - 1], v).stage);
      }
    }
  }

  predicate Grows(logs: Logs<Body>, more: Logs<Body>, tp: TP) {
    LogOf(logs, tp) <= LogOf(more, tp)
  }

  lemma {:induction false} OutputGrows(src: Logs<Item>, moves: seq<PipeMove>, m: nat, n: nat, v: int)
    requires m <= n <= |moves|
    ensures forall d :: LogOf(PipeAt(src, moves, m, v).stage.out, d) <= LogOf(PipeAt(src, moves, n, v).stage.out, d)
    decreases n
  {
    hide AfterRound, ValidRound, Enabled, After, StageSafe;
    if m < n {
      OutputGrows(src, moves, m, n - 1, v);
      StageIsSafe(src, moves, n - 1, v);
      var s, t := PipeAt(src, moves, n - 1, v), PipeAt(src, moves, n, v);
      if CanMove(src, s, moves[n - 1]) && !moves[n - 1].Sinking? {
        assert NextStage(src, s.stage, t.stage);
        StageStep(src, s.stage, t.stage);
      }
    }
  }

  /** The log the sink reads only grows. */
  lemma DownstreamGrows(src: Logs<Item>, out: Logs<Pos>, more: Logs<Pos>)
    requires forall d :: LogOf(out, d) <= LogOf(more, d)
    ensures forall d :: Grows(Downstream(src, out), Downstream(src, more), d)
  {
    hide CopyOf;
    forall d ensures Grows(Downstream(src, out), Downstream(src, more), d) {
      assert LogOf(out, d) <= LogOf(more, d);
    }
  }

  lemma GrowthKeepsRecords(logs: Logs<Body>, more: Logs<Body>, p: Pos)
    requires Grows(logs, more, p.tp) && InLog(logs, p)
    ensures InLog(more, p) && RecordAt(more, p) == RecordAt(logs, p)
    ensures Writable(more, p) <==> Writable(logs, p)
    ensures Skippable(more, p) <==> Skippable(logs, p)
  {
  }

  lemma {:induction false} FetchUnderGrowth(logs: Logs<Body>, more: Logs<Body>, m: Offsets, fetch: seq<Pos>)
    requires (forall tp :: Grows(logs, more, tp)) && ValidFetch(logs, m, fetch)
    ensures ValidFetch(more, m, fetch)
  {
    if fetch != [] {
      FetchUnderGrowth(logs, more, m, fetch[..|fetch| - 1]);
      assert Grows(logs, more, fetch[|fetch| - 1].tp);
    }
  }

  /** Appending to the log changes nothing about a step of the sink. */
  lemma StepUnderGrowth(logs: Logs<Body>, more: Logs<Body>, s: Sink, m: Move, v: int)
    requires (forall tp :: Grows(logs, more, tp)) && Enabled(logs, s, m)
    ensures Enabled(more, s, m) && After(more, s, m, v) == After(logs, s, m, v)
  {
    if m.Take? {
      hide Run, Advance;
      var b := m.batch;
      FetchUnderGrowth(logs, more, s.position, b.fetch);
      FetchCovers(logs, s.position, b.fetch);
      hide ValidFetch;
      forall p | p in b.fetch
        ensures InLog(more, p) && RecordAt(more, p) == RecordAt(logs, p)
        ensures Writable(more, p) <==> Writable(logs, p)
        ensures Skippable(more, p) <==> Skippable(logs, p)
      {
        GrowthKeepsRecords(logs, more, p);
      }
      assert AllWritable(more, b.ran) by {
        assert forall i :: 0 <= i < |b.ran| ==> b.ran[i] in b.fetch;
      }
      assert EventsAt(more, b.ran) == EventsAt(logs, b.ran) by {
        assert forall i :: 0 <= i < |b.ran| ==> b.ran[i] in b.fetch;
      }
      assert forall p :: p in b.fetch && Settled(logs, b.ran, p) ==> Settled(more, b.ran, p);
    }
  }

  function SinkMove(m: PipeMove): Move {
    if m.Sinking? then m.move else Stay
  }

  function SinkMoves(moves: seq<PipeMove>): seq<Move> {
    seq(|moves|, i requires 0 <= i < |moves| => SinkMove(moves[i]))
  }

  /** The transformed log at the end of a run. */
  ghost function FinalLog(src: Logs<Item>, moves: seq<PipeMove>, v: int): Logs<Body> {
    Downstream(src, End(src, moves, v).stage.out)
  }

  /** However the log grew meanwhile, the sink ran as if the whole log had been there from the start. */
  lemma {:induction false} SinkRunsOverFinalLog(src: Logs<Item>, moves: seq<PipeMove>, n: nat, v: int)
    requires PipeRun(src, moves, v) && n <= |moves|
    ensures SinkAt(FinalLog(src, moves, v), SinkMoves(moves), n, v) == PipeAt(src, moves, n, v).sink
  {
    hide Enabled, After, FinalLog, CanMove, PipeRun;
    if n > 0 {
      SinkRunsOverFinalLog(src, moves, n - 1, v);
      SinkStepOverFinalLog(src, moves, n - 1, v);
    }
  }

  lemma SinkStepOverFinalLog(src: Logs<Item>, moves: seq<PipeMove>, n: nat, v: int)
    requires PipeRun(src, moves, v) && n < |moves|
    ensures var s, m := PipeAt(src, moves, n, v), SinkMoves(moves)[n];
      && Enabled(FinalLog(src, moves, v), s.sink, m)
      && After(FinalLog(src, moves, v), s.sink, m, v) == PipeAt(src, moves, n + 1, v).sink
  {
    hide AfterRound, ValidRound, ValidBatch, AfterBatch, Downstream, Resumed;
    OutputGrows(src, moves, n, |moves|, v);
    var s := PipeAt(src, moves, n, v);
    DownstreamGrows(src, s.stage.out, End(src, moves, v).stage.out);
    if moves[n].Sinking? {
      StepUnderGrowth(Downstream(src, s.stage.out), FinalLog(src, moves, v), s.sink, moves[n].move, v);
    }
  }

  lemma SinkRunIsLegal(src: Logs<Item>, moves: seq<PipeMove>, v: int)
    requires PipeRun(src, moves, v)
    ensures Legal(FinalLog(src, moves, v), SinkMoves(moves), v)
    ensures SinkAt(FinalLog(src, moves, v), SinkMoves(moves), |moves|, v) == End(src, moves, v).sink
  {
    hide Enabled, After, Downstream, CanMove;
    var logs, sinks := FinalLog(src, moves, v), SinkMoves(moves);
    forall n: nat | n < |moves| ensures Enabled(logs, SinkAt(logs, sinks, n, v), sinks[n]) {
      SinkRunsOverFinalLog(src, moves, n, v);
      SinkStepOverFinalLog(src, moves, n, v);
    }
    SinkRunsOverFinalLog(src, moves, |moves|, v);
  }

  /** Every interleaving keeps both stages safe. */
  lemma PipeRunIsSafe(src: Logs<Item>, moves: seq<PipeMove>, v: int)
    requires PipeRun(src, moves, v)
    ensures StageSafe(src, End(src, moves, v).stage)
    ensures Safe(FinalLog(src, moves, v), End(src, moves, v).sink, v)
  {
    hide Safe, StageSafe, PipeRun, Legal;
    StageIsSafe(src, moves, |moves|, v);
    SinkRunIsLegal(src, moves, v);
    RunIsSafe(FinalLog(src, moves, v), SinkMoves(moves), |moves|, v);
  }

  /** The source position whose copy sits at `x` of the transformed log. */
  function Origin(out: Logs<Pos>, x: Pos): Pos
    requires InLog(out, x)
  {
    RecordAt(out, x)
  }

  /** A source record whose forwarded form the sink writes. */
  predicate SourceEvent(src: Logs<Item>, p: Pos) {
    Forwardable(src, p) && CopyOf(src, p).Event? && Buildable(CopyOf(src, p).ev)
  }

  function SourceEventAt(src: Logs<Item>, p: Pos): CDCEvent
    requires SourceEvent(src, p)
  {
    CopyOf(src, p).ev
  }

  predicate SameSourceRow(src: Logs<Item>, p: Pos, q: Pos)
    requires SourceEvent(src, p) && SourceEvent(src, q)
  {
    KeyOf(SourceEventAt(src, p)) == KeyOf(SourceEventAt(src, q))
  }

  /**
   What the source log owes the pipeline: the records of a row share an input and an output
   partition, their LSNs rise in log order, and upserts carry full rows.
   */
  ghost predicate OrderlySource(src: Logs<Item>) {
    forall p, q | SourceEvent(src, p) && SourceEvent(src, q) && SameSourceRow(src, p, q) ::
      && p.tp == q.tp && DestOf(src, p) == DestOf(src, q)
      && (p.off < q.off ==> SourceEventAt(src, p).lsn < SourceEventAt(src, q).lsn)
      && (IsDelete(SourceEventAt(src, p)) || IsDelete(SourceEventAt(src, q))
          || Image(SourceEventAt(src, p), 0).Keys == Image(SourceEventAt(src, q), 0).Keys)
  }

  lemma OriginOf(src: Logs<Item>, out: Logs<Pos>, x: Pos)
    requires WellRouted(src, out)
    ensures InLog(Downstream(src, out), x) <==> InLog(out, x)
    ensures InLog(out, x) ==> RecordAt(Downstream(src, out), x) == CopyOf(src, Origin(out, x))
                              && Forwardable(src, Origin(out, x)) && DestOf(src, Origin(out, x)) == x.tp
    ensures Writable(Downstream(src, out), x)
      ==> SourceEvent(src, Origin(out, x)) && SourceEventAt(src, Origin(out, x)) == EventAt(Downstream(src, out), x)
  {
  }

  lemma DownstreamIsOrderly(src: Logs<Item>, out: Logs<Pos>)
    requires WellRouted(src, out) && OrderlySource(src)
    ensures var logs := Downstream(src, out);
      RowsPartitioned(logs) && LsnsIdentify(logs) && RowsFull(logs)
  {
    hide Image, KeyOf;
    var logs := Downstream(src, out);
    forall x, y | Writable(logs, x) && Writable(logs, y) && SameRow(logs, x, y)
      ensures x.tp == y.tp
      ensures EventAt(logs, x).lsn == EventAt(logs, y).lsn ==> EventAt(logs, x) == EventAt(logs, y)
      ensures IsDelete(EventAt(logs, x)) || IsDelete(EventAt(logs, y)) || SameImageKeys(logs, x, y)
    {
      OriginOf(src, out, x);
      OriginOf(src, out, y);
      var p, q := Origin(out, x), Origin(out, y);
      assert SameSourceRow(src, p, q) && SameSourceRow(src, q, p);
      assert p == q || p.off < q.off || q.off < p.off;
    }
  }

  predicate HasRow(src: Logs<Item>, p: Pos, k: DocKey) {
    SourceEvent(src, p) && KeyOf(SourceEventAt(src, p)) == k
  }

  /** The row in the source after the first `n` records of its partition: the last event decides. */
  function RowAfter(src: Logs<Item>, tp: TP, k: DocKey, n: nat, v: int): Option<Doc>
    requires n <= |LogOf(src, tp)|
  {
    if n == 0 then None
    else if HasRow(src, Pos(tp, n - 1), k) then Effect(SourceEventAt(src, Pos(tp, n - 1)), v)
    else RowAfter(src, tp, k, n - 1, v)
  }

  lemma {:induction false} RowAfterIsNewest(src: Logs<Item>, tp: TP, k: DocKey, n: nat, v: int, some: Pos)
    returns (p: Pos)
    requires n <= |LogOf(src, tp)| && some.tp == tp && some.off < n && HasRow(src, some, k)
    ensures p.tp == tp && p.off < n && HasRow(src, p, k)
    ensures forall q: Pos :: q.tp == tp && p.off < q.off < n ==> !HasRow(src, q, k)
    ensures RowAfter(src, tp, k, n, v) == Effect(SourceEventAt(src, p), v)
  {
    p := Pos(tp, n - 1);
    if !HasRow(src, p, k) {
      p := RowAfterIsNewest(src, tp, k, n - 1, v, some);
      forall q: Pos | q.tp == tp && p.off < q.off < n ensures !HasRow(src, q, k) {
        assert q == Pos(tp, n - 1) || q.off < n - 1;
      }
    }
  }

  /** Both stages have committed everything there is to read. */
  ghost predicate Drained(src: Logs<Item>, s: Pipe) {
    && (forall tp :: At(s.stage.committed, tp) == |LogOf(src, tp)|)
    && (forall d :: At(s.sink.committed, d) == |LogOf(Downstream(src, s.stage.out), d)|)
  }

  /** The newest event of its row in the source. */
  ghost predicate NewestInSource(src: Logs<Item>, p: Pos) {
    && SourceEvent(src, p)
    && forall q: Pos | q.tp == p.tp && p.off < q.off < |LogOf(src, p.tp)| ::
         !HasRow(src, q, KeyOf(SourceEventAt(src, p)))
  }

  /**
   Once the transformer has committed a partition, the newest event of each of its rows is the last
   event of that row in the transformed log and has its highest LSN, for all the replays before it.
   */
  lemma NewestEndsDownstream(src: Logs<Item>, s: Stage, p: Pos) returns (x: Pos)
    requires StageSafe(src, s) && OrderlySource(src)
    requires NewestInSource(src, p) && p.off < At(s.committed, p.tp)
    ensures NewestBelow(Downstream(src, s.out), x, |LogOf(Downstream(src, s.out), x.tp)|)
    ensures EventAt(Downstream(src, s.out), x) == SourceEventAt(src, p)
  {
    hide KeyOf, Image;
    var logs, d := Downstream(src, s.out), DestOf(src, p);
    assert LastCopy(src, s.out, p);
    var i :| LastAt(LogOf(s.out, d), p, i);
    x := Pos(d, i);
    OriginOf(src, s.out, x);
    forall y: Pos | y.tp == d && y.off < |LogOf(logs, d)| && Writable(logs, y) && SameRow(logs, y, x)
      ensures y.off <= i && EventAt(logs, y).lsn <= EventAt(logs, x).lsn
    {
      OriginOf(src, s.out, y);
      var o := Origin(s.out, y);
      assert SameSourceRow(src, o, p);
      assert o.off <= p.off by {
        assert HasRow(src, o, KeyOf(SourceEventAt(src, p)));
      }
      assert LogOf(s.out, d)[y.off] == o;
    }
  }

  /** Move `i` commits, in the sink, the last transformed record `x` of the row of `p`. */
  ghost predicate Decides(src: Logs<Item>, moves: seq<PipeMove>, p: Pos, i: nat, x: Pos, v: int) {
    && Passes(FinalLog(src, moves, v), SinkMoves(moves), i, x, v)
    && SourceEvent(src, p) && NewestBelow(FinalLog(src, moves, v), x, |LogOf(FinalLog(src, moves, v), x.tp)|)
    && EventAt(FinalLog(src, moves, v), x) == SourceEventAt(src, p)
  }

  /** In a drained run some move does. */
  lemma SomeMoveDecides(src: Logs<Item>, moves: seq<PipeMove>, p: Pos, v: int) returns (i: nat, x: Pos)
    requires OrderlySource(src) && PipeRun(src, moves, v) && Drained(src, End(src, moves, v)) && NewestInSource(src, p)
    ensures Decides(src, moves, p, i, x, v)
  {
    hide KeyOf, Image, SinkAt, Enabled, OrderlySource, StageSafe, Safe, PipeRun;
    PipeRunIsSafe(src, moves, v);
    x := NewestEndsDownstream(src, End(src, moves, v).stage, p);
    SinkRunIsLegal(src, moves, v);
    i := SomeMovePasses(FinalLog(src, moves, v), SinkMoves(moves), |moves|, x, v);
  }

  /** The batch of move `i` left no upsert of row `k` without a covering delete behind it. */
  ghost predicate ClearedBy(src: Logs<Item>, moves: seq<PipeMove>, i: nat, k: DocKey, v: int)
    requires i < |moves| && SinkMove(moves[i]).Take?
  {
    Cleared(FinalLog(src, moves, v), SinkMove(moves[i]).batch.ran, k)
  }

  lemma FinalLogIsOrderly(src: Logs<Item>, moves: seq<PipeMove>, v: int)
    requires OrderlySource(src)
    ensures var logs := FinalLog(src, moves, v);
      RowsPartitioned(logs) && LsnsIdentify(logs) && RowsFull(logs)
  {
    hide OrderlySource, PipeAt, RowsPartitioned, LsnsIdentify, RowsFull;
    StageIsSafe(src, moves, |moves|, v);
    DownstreamIsOrderly(src, End(src, moves, v).stage.out);
  }

  /**
   End to end, for one execution: for every source log and every interleaving of transformer and sink
   steps, with errors in the middle of batches, partial bulks, lost commits, crashes and redelivery,
   once both stages have drained their input each row shows its newest source event. A row that ends
   alive always does; a row that ends deleted does exactly when the batch that committed its delete
   left no upsert of the row uncovered.
   */
  lemma EndToEnd(src: Logs<Item>, moves: seq<PipeMove>, p: Pos, i: nat, x: Pos, v: int)
    requires OrderlySource(src) && PipeRun(src, moves, v) && Drained(src, End(src, moves, v))
    requires NewestInSource(src, p) && Decides(src, moves, p, i, x, v)
    ensures i < |moves| && SinkMove(moves[i]).Take?
    ensures Lookup(End(src, moves, v).sink.store, KeyOf(SourceEventAt(src, p))) == Effect(SourceEventAt(src, p), v)
       <==> (IsDelete(SourceEventAt(src, p)) ==> ClearedBy(src, moves, i, KeyOf(SourceEventAt(src, p)), v))
  {
    hide KeyOf, Image, SinkAt, Enabled, StageSafe, PipeRun, Cleared, OrderlySource, Legal, FinalLog, End, Drained, Safe;
    var logs := FinalLog(src, moves, v);
    PipeRunIsSafe(src, moves, v);
    SinkRunIsLegal(src, moves, v);
    FinalLogIsOrderly(src, moves, v);
    NewestEverRun(logs, End(src, moves, v).sink, x, v);
    RowShowsNewestIff(logs, SinkMoves(moves), i, |moves|, x, v);
  }

  lemma LiveRowConverges(src: Logs<Item>, moves: seq<PipeMove>, p: Pos, v: int)
    requires OrderlySource(src) && PipeRun(src, moves, v) && Drained(src, End(src, moves, v))
    requires NewestInSource(src, p) && !IsDelete(SourceEventAt(src, p))
    ensures ShowsEvent(End(src, moves, v).sink.store, SourceEventAt(src, p), v)
    ensures Lookup(End(src, moves, v).sink.store, KeyOf(SourceEventAt(src, p))) == Effect(SourceEventAt(src, p), v)
  {
    hide PipeRun, OrderlySource, Drained, Decides, End, ShowsEvent;
    var i, x := SomeMoveDecides(src, moves, p, v);
    EndToEnd(src, moves, p, i, x, v);
    EffectIffShown(End(src, moves, v).sink.store, SourceEventAt(src, p), v);
  }

  /** And nothing else: in every reachable state a document's row has an event in the source. */
  lemma NoForeignDocuments(src: Logs<Item>, moves: seq<PipeMove>, k: DocKey, v: int)
    requires PipeRun(src, moves, v) && k in End(src, moves, v).sink.store
    ensures exists p :: HasRow(src, p, k) && !IsDelete(SourceEventAt(src, p))
                        && Carries(End(src, moves, v).sink.store[k], SourceEventAt(src, p), v)
  {
    hide PipeRun, CanMove, Moved, Image;
    var s, logs := End(src, moves, v), FinalLog(src, moves, v);
    PipeRunIsSafe(src, moves, v);
    DocumentsHaveProvenance(logs, s.sink, k, v);
    var i :| 0 <= i < |s.sink.hist|
             && KeyOf(EventAt(logs, s.sink.hist[i])) == k && !IsDelete(EventAt(logs, s.sink.hist[i]))
             && Carries(s.sink.store[k], EventAt(logs, s.sink.hist[i]), v);
    OriginOf(src, s.stage.out, s.sink.hist[i]);
    assert HasRow(src, Origin(s.stage.out, s.sink.hist[i]), k);
  }
}

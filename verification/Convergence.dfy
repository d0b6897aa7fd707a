/**
 End-to-end convergence over every order in which the servers may execute the bulks of a run: the
 exact condition, which speaks only of what the sink polled, and a run that does not meet it.
 */
module Convergence {
  import opened Wrappers
  import opened Writer
  import opened Mongo
  import opened Survivor
  import opened Decoder
  import opened Kafka
  import opened SinkProtocol
  import opened SinkRuns
  import opened TransformerProtocol
  import opened Pipeline

  /** The same run of the pipeline, its bulks executed in other orders. */
  ghost predicate PipeReorders(moves: seq<PipeMove>, others: seq<PipeMove>) {
    && |moves| == |others|
    && forall i :: 0 <= i < |moves| ==> SamePipeMove(moves[i], others[i])
  }

  ghost predicate SamePipeMove(m: PipeMove, other: PipeMove) {
    m == other || (m.Sinking? && other.Sinking? && SameMove(m.move, other.move))
  }

  lemma SameMoveItself(m: PipeMove)
    ensures SamePipeMove(m, m)
  {
  }

  lemma ReorderedPipeStep(src: Logs<Item>, s: Pipe, t: Pipe, m: PipeMove, other: PipeMove, v: int)
    requires s.stage == t.stage && SameOffsets(s.sink, t.sink) && SamePipeMove(m, other) && CanMove(src, s, m)
    ensures CanMove(src, t, other)
    ensures Moved(src, s, m, v).stage == Moved(src, t, other, v).stage
    ensures SameOffsets(Moved(src, s, m, v).sink, Moved(src, t, other, v).sink)
  {
    hide Enabled, After, SameOffsets, SameMove, ValidRound, AfterRound, AtCommitted;
    if m.Sinking? {
      SameMoveRefl(m.move);
      ReorderedStep(Downstream(src, s.stage.out), s.sink, t.sink, m.move, other.move, v);
    }
  }

  lemma SameMoveRefl(m: Move)
    ensures SameMove(m, m)
  {
  }

  /** Other execution orders leave every offset and the whole transformed log as they were. */
  lemma {:induction false} ReorderedPipe(src: Logs<Item>, moves: seq<PipeMove>, others: seq<PipeMove>, n: nat, v: int)
    requires PipeRun(src, moves, v) && PipeReorders(moves, others) && n <= |moves|
    ensures PipeAt(src, moves, n, v).stage == PipeAt(src, others, n, v).stage
    ensures SameOffsets(PipeAt(src, moves, n, v).sink, PipeAt(src, others, n, v).sink)
    ensures n < |moves| ==> CanMove(src, PipeAt(src, others, n, v), others[n])
  {
    hide CanMove, Moved, SameOffsets, SamePipeMove;
    if n > 0 {
      ReorderedPipe(src, moves, others, n - 1, v);
      var s, t := PipeAt(src, moves, n - 1, v), PipeAt(src, others, n - 1, v);
      ReorderedPipeStep(src, s, t, moves[n - 1], others[n - 1], v);
    } else {
      SameAsItself(INIT);
    }
    if n < |moves| {
      ReorderedPipeStep(src, PipeAt(src, moves, n, v), PipeAt(src, others, n, v), moves[n], others[n], v);
    }
  }

  lemma ReorderedRunIsRun(src: Logs<Item>, moves: seq<PipeMove>, others: seq<PipeMove>, v: int)
    requires PipeRun(src, moves, v) && PipeReorders(moves, others)
    ensures PipeRun(src, others, v) && FinalLog(src, others, v) == FinalLog(src, moves, v)
    ensures Drained(src, End(src, moves, v)) ==> Drained(src, End(src, others, v))
    ensures Reorders(SinkMoves(moves), SinkMoves(others))
  {
    hide CanMove, Moved, Downstream;
    forall n: nat | n < |others| ensures CanMove(src, PipeAt(src, others, n, v), others[n]) {
      ReorderedPipe(src, moves, others, n, v);
    }
    ReorderedPipe(src, moves, others, |moves|, v);
  }

  /**
   What a caller can check of a run: if the row ends deleted, the batch that committed its last
   record had polled no upsert of the row.
   */
  ghost predicate Separated(src: Logs<Item>, moves: seq<PipeMove>, p: Pos, v: int) {
    SourceEvent(src, p) && IsDelete(SourceEventAt(src, p)) ==>
      forall i: nat, x | Decides(src, moves, p, i, x, v) :: PolledApart(src, moves, i, x, v)
  }

  ghost predicate PolledApart(src: Logs<Item>, moves: seq<PipeMove>, i: nat, x: Pos, v: int)
    requires i < |moves|
  {
    SinkMove(moves[i]).Take? && NoUpsertPolled(FinalLog(src, moves, v), SinkMove(moves[i]).batch.fetch, x)
  }

  /** The moves and positions that decide a row are the same in every reordering. */
  lemma ReorderedDecides(
      src: Logs<Item>, moves: seq<PipeMove>, others: seq<PipeMove>, p: Pos, i: nat, x: Pos, v: int)
    requires PipeRun(src, moves, v) && PipeReorders(moves, others) && Decides(src, moves, p, i, x, v)
    ensures Decides(src, others, p, i, x, v)
  {
    hide PipeRun, PipeReorders, FinalLog, Passes, Reorders, Legal;
    ReorderedRunIsRun(src, moves, others, v);
    SinkRunIsLegal(src, moves, v);
    ReorderedPasses(FinalLog(src, moves, v), SinkMoves(moves), SinkMoves(others), i, x, v);
  }

  /** A separated row converges in whatever order the bulks execute. */
  lemma SeparatedRowConverges(src: Logs<Item>, moves: seq<PipeMove>, others: seq<PipeMove>, p: Pos, v: int)
    requires OrderlySource(src) && PipeRun(src, moves, v) && Drained(src, End(src, moves, v))
    requires NewestInSource(src, p) && Separated(src, moves, p, v) && PipeReorders(moves, others)
    ensures Lookup(End(src, others, v).sink.store, KeyOf(SourceEventAt(src, p))) == Effect(SourceEventAt(src, p), v)
  {
    hide PipeRun, OrderlySource, Drained, End, FinalLog, Cleared, KeyOf, Image;
    hide PipeReorders, NoUpsertPolled, Legal, Reorders;
    ReorderedRunIsRun(src, moves, others, v);
    if IsDelete(SourceEventAt(src, p)) {
      var i, x := SomeMoveDecides(src, moves, p, v);
      assert PolledApart(src, moves, i, x, v);
      ReorderedDecides(src, moves, others, p, i, x, v);
      SinkRunIsLegal(src, moves, v);
      SinkRunIsLegal(src, others, v);
      FinalLogIsOrderly(src, moves, v);
      SeparatedRowAbsent(FinalLog(src, moves, v), SinkMoves(moves), SinkMoves(others), i, x, v);
    } else {
      LiveRowConverges(src, others, p, v);
    }
  }

  /** A row that is not separated is left behind when a polled upsert of it executes last. */
  lemma UnseparatedRowStays(src: Logs<Item>, moves: seq<PipeMove>, p: Pos, v: int) returns (others: seq<PipeMove>)
    requires OrderlySource(src) && PipeRun(src, moves, v) && Drained(src, End(src, moves, v))
    requires SourceEvent(src, p) && !Separated(src, moves, p, v)
    ensures PipeReorders(moves, others)
    ensures Lookup(End(src, others, v).sink.store, KeyOf(SourceEventAt(src, p))) != Effect(SourceEventAt(src, p), v)
  {
    hide PipeRun, OrderlySource, Drained, End, FinalLog, Cleared, KeyOf, Image, NoUpsertPolled, Legal, Reorders;
    var i: nat, x :| Decides(src, moves, p, i, x, v) && !PolledApart(src, moves, i, x, v);
    SinkRunIsLegal(src, moves, v);
    FinalLogIsOrderly(src, moves, v);
    var reordered := UndecidedOrder(FinalLog(src, moves, v), SinkMoves(moves), i, x, v);
    others := moves[i := Sinking(reordered[i])];
    LiftedReorder(moves, reordered, i);
    ReorderedRunIsRun(src, moves, others, v);
    SinkRunIsLegal(src, others, v);
  }

  lemma UndecidedOrder(logs: Logs<Body>, moves: seq<Move>, i: nat, x: Pos, v: int) returns (others: seq<Move>)
    requires RowsPartitioned(logs) && LsnsIdentify(logs) && Legal(logs, moves, v)
    requires Passes(logs, moves, i, x, v) && NewestBelow(logs, x, |LogOf(logs, x.tp)|) && IsDelete(EventAt(logs, x))
    requires !(moves[i].Take? && NoUpsertPolled(logs, moves[i].batch.fetch, x))
    ensures Reorders(moves, others) && moves[i].Take? && others == moves[i := others[i]]
    ensures KeyOf(EventAt(logs, x)) in SinkAt(logs, others, |others|, v).store
  {
    hide SinkAt, Legal, Enabled, NoUpsertPolled, Reorders;
    PassingBatch(logs, moves, i, x, v);
    others := UpsertLast(logs, moves, i, x, v);
  }

  lemma LiftedReorder(moves: seq<PipeMove>, reordered: seq<Move>, i: nat)
    requires i < |moves| && SinkMove(moves[i]).Take? && Reorders(SinkMoves(moves), reordered)
    requires reordered == SinkMoves(moves)[i := reordered[i]]
    ensures PipeReorders(moves, moves[i := Sinking(reordered[i])])
    ensures SinkMoves(moves[i := Sinking(reordered[i])]) == reordered
  {
    var others := moves[i := Sinking(reordered[i])];
    assert SameMove(SinkMoves(moves)[i], reordered[i]);
    forall j | 0 <= j < |moves| ensures SamePipeMove(moves[j], others[j]) {
      SameMoveItself(moves[j]);
    }
  }

  /** The store holds the fold of the source log, row by row, and nothing else. */
  ghost predicate MirrorsSource(src: Logs<Item>, store: Store, v: int) {
    && (forall p | SourceEvent(src, p) :: ShowsRow(src, store, p.tp, KeyOf(SourceEventAt(src, p)), v))
    && forall k :: k in store ==> exists p :: HasRow(src, p, k)
  }

  ghost predicate ShowsRow(src: Logs<Item>, store: Store, tp: TP, k: DocKey, v: int) {
    Lookup(store, k) == RowAfter(src, tp, k, |LogOf(src, tp)|, v)
  }

  /**
   Field by field: every row of the source shows the `after` of its newest event, or nothing if that is
   a delete, and there is no other document.
   */
  lemma MirrorsSourceIff(src: Logs<Item>, store: Store, v: int)
    ensures MirrorsSource(src, store, v)
       <==> && (forall p | NewestInSource(src, p) :: ShowsEvent(store, SourceEventAt(src, p), v))
            && forall k :: k in store ==> exists p :: HasRow(src, p, k)
  {
    hide KeyOf, Effect, ShowsEvent, ShowsRow, CopyOf;
    if forall p | NewestInSource(src, p) :: ShowsEvent(store, SourceEventAt(src, p), v) {
      forall p | SourceEvent(src, p) ensures ShowsRow(src, store, p.tp, KeyOf(SourceEventAt(src, p)), v) {
        var q := RowShownIff(src, store, p, v);
      }
    }
    forall p | NewestInSource(src, p)
      ensures SourceEvent(src, p)
      ensures ShowsRow(src, store, p.tp, KeyOf(SourceEventAt(src, p)), v)
        <==> ShowsEvent(store, SourceEventAt(src, p), v)
    {
      NewestShownIff(src, store, p, v);
    }
  }

  lemma RowShownIff(src: Logs<Item>, store: Store, p: Pos, v: int) returns (q: Pos)
    requires SourceEvent(src, p)
    ensures NewestInSource(src, q)
    ensures ShowsRow(src, store, p.tp, KeyOf(SourceEventAt(src, p)), v) <==> ShowsEvent(store, SourceEventAt(src, q), v)
  {
    hide KeyOf, Effect, ShowsEvent;
    q := NewestOfRow(src, p, v);
    EffectIffShown(store, SourceEventAt(src, q), v);
  }

  lemma NewestShownIff(src: Logs<Item>, store: Store, p: Pos, v: int)
    requires NewestInSource(src, p)
    ensures SourceEvent(src, p)
    ensures ShowsRow(src, store, p.tp, KeyOf(SourceEventAt(src, p)), v)
       <==> ShowsEvent(store, SourceEventAt(src, p), v)
  {
    hide KeyOf, Effect, ShowsEvent;
    NewestIsItself(src, p, v);
    EffectIffShown(store, SourceEventAt(src, p), v);
  }

  lemma NewestIsItself(src: Logs<Item>, p: Pos, v: int)
    requires NewestInSource(src, p)
    ensures RowAfter(src, p.tp, KeyOf(SourceEventAt(src, p)), |LogOf(src, p.tp)|, v) == Effect(SourceEventAt(src, p), v)
  {
    hide KeyOf, Effect;
    var newest := RowAfterIsNewest(src, p.tp, KeyOf(SourceEventAt(src, p)), |LogOf(src, p.tp)|, v, p);
    assert newest == p;
  }

  /**
   Convergence end to end. For every source log and every interleaving of transformer and sink steps
   that drains both stages, Mongo ends as the fold of the source log in whatever order the servers
   executed the bulks, exactly when each row that ends deleted is separated.
   */
  lemma EndToEndIff(src: Logs<Item>, moves: seq<PipeMove>, v: int)
    requires OrderlySource(src) && PipeRun(src, moves, v) && Drained(src, End(src, moves, v))
    ensures (forall others | PipeReorders(moves, others) :: MirrorsSource(src, End(src, others, v).sink.store, v))
       <==> forall p | NewestInSource(src, p) :: Separated(src, moves, p, v)
  {
    hide PipeRun, OrderlySource, Drained, End, Separated, MirrorsSource, PipeReorders, NewestInSource;
    if forall p | NewestInSource(src, p) :: Separated(src, moves, p, v) {
      forall others | PipeReorders(moves, others) ensures MirrorsSource(src, End(src, others, v).sink.store, v) {
        SeparatedRunMirrors(src, moves, others, v);
      }
    } else {
      var p :| NewestInSource(src, p) && !Separated(src, moves, p, v);
      UnseparatedRunFails(src, moves, p, v);
    }
  }

  lemma SeparatedRunMirrors(src: Logs<Item>, moves: seq<PipeMove>, others: seq<PipeMove>, v: int)
    requires OrderlySource(src) && PipeRun(src, moves, v) && Drained(src, End(src, moves, v))
    requires (forall p | NewestInSource(src, p) :: Separated(src, moves, p, v)) && PipeReorders(moves, others)
    ensures MirrorsSource(src, End(src, others, v).sink.store, v)
  {
    hide PipeRun, OrderlySource, Drained, End, Separated, PipeReorders, KeyOf, Effect, SourceEvent;
    var store := End(src, others, v).sink.store;
    forall p | SourceEvent(src, p) ensures ShowsRow(src, store, p.tp, KeyOf(SourceEventAt(src, p)), v) {
      var newest := NewestOfRow(src, p, v);
      SeparatedRowConverges(src, moves, others, newest, v);
    }
    ReorderedRunIsRun(src, moves, others, v);
    forall k | k in store ensures exists p :: HasRow(src, p, k) {
      NoForeignDocuments(src, others, k, v);
    }
  }

  /** The fold shows the row's newest event. */
  lemma NewestOfRow(src: Logs<Item>, p: Pos, v: int) returns (newest: Pos)
    requires SourceEvent(src, p)
    ensures NewestInSource(src, newest) && KeyOf(SourceEventAt(src, newest)) == KeyOf(SourceEventAt(src, p))
    ensures RowAfter(src, p.tp, KeyOf(SourceEventAt(src, p)), |LogOf(src, p.tp)|, v)
         == Effect(SourceEventAt(src, newest), v)
  {
    hide KeyOf, Effect;
    newest := RowAfterIsNewest(src, p.tp, KeyOf(SourceEventAt(src, p)), |LogOf(src, p.tp)|, v, p);
  }

  lemma UnseparatedRunFails(src: Logs<Item>, moves: seq<PipeMove>, p: Pos, v: int)
    requires OrderlySource(src) && PipeRun(src, moves, v) && Drained(src, End(src, moves, v))
    requires NewestInSource(src, p) && !Separated(src, moves, p, v)
    ensures exists others | PipeReorders(moves, others) :: !MirrorsSource(src, End(src, others, v).sink.store, v)
  {
    hide PipeRun, OrderlySource, Drained, End, Separated, PipeReorders, KeyOf, Effect;
    var others := UnseparatedRowStays(src, moves, p, v);
    NewestIsItself(src, p, v);
    assert !ShowsRow(src, End(src, others, v).sink.store, p.tp, KeyOf(SourceEventAt(src, p)), v);
  }

  const SOURCE := TP("cdc.users", 0)
  const TARGET := TP("transformed.users", 0)

  /** A source log with one upsert and one delete of the same row. */
  function TwoRecords(u: CDCEvent, d: CDCEvent): Logs<Item> {
    map[SOURCE := [Item(TARGET, Some(Event(u))), Item(TARGET, Some(Event(d)))]]
  }

  function Forwarding(): PipeMove {
    Transforming(Round([Pos(SOURCE, 0), Pos(SOURCE, 1)], 2, false, Took))
  }

  /** Both records in one poll, the delete executed first, everything acknowledged. */
  function DeleteFirst(): PipeMove {
    Sinking(Take(Batch([Pos(TARGET, 0), Pos(TARGET, 1)], [Pos(TARGET, 1), Pos(TARGET, 0)], true, Took)))
  }

  function Forwarded(): Stage {
    Stage(map[SOURCE := 2], map[SOURCE := 2], map[SOURCE := 2], map[TARGET := [Pos(SOURCE, 0), Pos(SOURCE, 1)]])
  }

  lemma TwoAdvance(m: Offsets, tp: TP)
    ensures Advance(m, [Pos(tp, 0), Pos(tp, 1)]) == m[tp := 2]
    ensures Advance(m, [Pos(tp, 0), Pos(tp, 1)][..1]) == m[tp := 1]
  {
    var ps := [Pos(tp, 0), Pos(tp, 1)];
    assert ps[..1] == [Pos(tp, 0)] && ps[..1][..0] == [];
    assert Advance(m, ps[..1][..0]) == m;
  }

  lemma TwoFetched<R>(logs: Logs<R>, tp: TP)
    requires |LogOf(logs, tp)| == 2
    ensures ValidFetch(logs, map[], [Pos(tp, 0), Pos(tp, 1)])
  {
    var one, two := [Pos(tp, 0)], [Pos(tp, 0), Pos(tp, 1)];
    assert one[..0] == [] && two[..1] == one;
    TwoAdvance(map[], tp);
    assert Advance(map[], one[..0]) == map[] && ValidFetch(logs, map[], one[..0]);
    assert ValidFetch(logs, map[], one);
  }

  lemma TwoPublished(u: CDCEvent, d: CDCEvent)
    ensures Publish(TwoRecords(u, d), map[], [Pos(SOURCE, 0), Pos(SOURCE, 1)]) == Forwarded().out
  {
    var src, one, two := TwoRecords(u, d), [Pos(SOURCE, 0)], [Pos(SOURCE, 0), Pos(SOURCE, 1)];
    assert one[..0] == [] && two[..1] == one;
    var none: Logs<Pos> := map[];
    assert Publish(src, none, one[..0]) == none && DestOf(src, one[0]) == TARGET && DestOf(src, two[1]) == TARGET;
    assert LogOf(none, TARGET) + [one[0]] == one && one + [two[1]] == two;
    assert Publish(src, none, one) == map[TARGET := one];
    assert Publish(src, none, two) == map[TARGET := two];
  }

  lemma ForwardingStep(u: CDCEvent, d: CDCEvent, v: int)
    ensures CanMove(TwoRecords(u, d), Pipe(START, INIT), Forwarding())
    ensures Moved(TwoRecords(u, d), Pipe(START, INIT), Forwarding(), v) == Pipe(Forwarded(), INIT)
  {
    hide Advance, ValidFetch;
    var src, ps := TwoRecords(u, d), [Pos(SOURCE, 0), Pos(SOURCE, 1)];
    TwoFetched(src, SOURCE);
    TwoAdvance(map[], SOURCE);
    assert ps[..2] == ps;
    TwoPublished(u, d);
  }

  lemma TwoDownstream(u: CDCEvent, d: CDCEvent)
    ensures Downstream(TwoRecords(u, d), Forwarded().out) == map[TARGET := [Event(u), Event(d)]]
  {
    assert Downstream(TwoRecords(u, d), Forwarded().out)[TARGET] == [Event(u), Event(d)];
  }

  lemma DeleteFirstStep(u: CDCEvent, d: CDCEvent, v: int)
    requires Covers(d, u) && Buildable(u)
    ensures CanMove(TwoRecords(u, d), Pipe(Forwarded(), INIT), DeleteFirst())
    ensures var t := Moved(TwoRecords(u, d), Pipe(Forwarded(), INIT), DeleteFirst(), v);
      && t.stage == Forwarded() && t.sink.committed == map[TARGET := 2]
      && t.sink.store == Run(map[], [d, u], v)
  {
    hide Advance, ValidFetch, Run, Covers;
    var b, logs := DeleteFirst().move.batch, Downstream(TwoRecords(u, d), Forwarded().out);
    TwoDownstream(u, d);
    TwoFetched(logs, TARGET);
    TwoAdvance(map[], TARGET);
    assert IsDelete(d) && Writable(logs, Pos(TARGET, 0)) && Writable(logs, Pos(TARGET, 1)) by { CoversDelete(d, u); }
    assert b.ran[0] == Pos(TARGET, 1) && b.ran[1] == Pos(TARGET, 0) && b.fetch[0] == b.ran[1] && b.fetch[1] == b.ran[0];
    assert EventsAt(logs, b.ran) == [d, u];
  }

  lemma CoversDelete(d: CDCEvent, u: CDCEvent)
    requires Covers(d, u)
    ensures IsDelete(d) && !IsDelete(u) && KeyOf(d) == KeyOf(u) && u.lsn < d.lsn
  {
  }

  /**
   A run that fails: any row inserted and then deleted, both records polled together, the delete
   executed first. Every step succeeds, everything is committed, and the row is left behind.
   */
  lemma ResurrectedRow(u: CDCEvent, d: CDCEvent, v: int)
    requires Covers(d, u) && Buildable(u)
    ensures var src, moves := TwoRecords(u, d), [Forwarding(), DeleteFirst()];
      && OrderlySource(src) && PipeRun(src, moves, v) && Drained(src, End(src, moves, v))
      && RowAfter(src, SOURCE, KeyOf(u), 2, v) == None && KeyOf(u) in End(src, moves, v).sink.store
  {
    hide CanMove, Moved, Covers, KeyOf, Image, Run;
    var src, moves := TwoRecords(u, d), [Forwarding(), DeleteFirst()];
    ForwardingStep(u, d, v);
    DeleteFirstStep(u, d, v);
    CoversDelete(d, u);
    assert PipeAt(src, moves, 0, v) == Pipe(START, INIT);
    assert PipeAt(src, moves, 1, v) == Pipe(Forwarded(), INIT);
    assert CanMove(src, PipeAt(src, moves, 1, v), moves[1]);
    assert PipeAt(src, moves, 2, v) == Moved(src, Pipe(Forwarded(), INIT), DeleteFirst(), v);
    TwoDownstream(u, d);
    DeleteFirstResurrects(u, d, v);
    assert HasRow(src, Pos(SOURCE, 1), KeyOf(u));
  }
}

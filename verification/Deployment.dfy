/**
 Both programs running side by side: services/transformer/cmd/transformer/main.go and
 services/sink/cmd/sink/main.go, each in its own loop, with Kafka between them. Any interleaving of
 their calls is a run of the pipeline.
 */
module Deployment {
  import opened Wrappers
  import opened JsonValues
  import opened Kafka
  import opened KafkaClient
  import opened Decoder
  import opened MongoWriter
  import opened SinkProtocol
  import opened Consumer
  import opened Mapper
  import opened TransformerProtocol
  import opened Transformer
  import opened Pipeline
  import opened Convergence

  lemma PipeSnoc(src: Logs<Item>, moves: seq<PipeMove>, m: PipeMove, v: int)
    requires PipeRun(src, moves, v) && CanMove(src, End(src, moves, v), m)
    ensures PipeRun(src, moves + [m], v)
    ensures End(src, moves + [m], v) == Moved(src, End(src, moves, v), m, v)
  {
    hide CanMove, Moved;
    forall n: nat | n <= |moves| ensures PipeAt(src, moves + [m], n, v) == PipeAt(src, moves, n, v) {
      PipePrefix(src, moves, m, n, v);
    }
  }

  lemma {:induction false} PipePrefix(src: Logs<Item>, moves: seq<PipeMove>, m: PipeMove, n: nat, v: int)
    requires n <= |moves|
    ensures PipeAt(src, moves + [m], n, v) == PipeAt(src, moves, n, v)
  {
    hide CanMove, Moved;
    if n > 0 {
      PipePrefix(src, moves, m, n - 1, v);
    }
  }

  /** What happens around one call of the transformer's runOnce. */
  datatype Shift = Shift(
    fetch: seq<Pos>, failed: bool, fates: seq<ProduceFate>, orders: seq<Orders>, took: bool, acked: bool)

  ghost predicate ValidShift(cfg: Setup, log: Logs<Raw>, position: Offsets, w: Shift) {
    && (w.acked ==> w.took)
    && ValidFetch(log, position, w.fetch) && |w.fates| == |w.orders| == |w.fetch|
    && forall i | 0 <= i < |w.fetch| && InLog(log, w.fetch[i]) ::
         Iterates(cfg, RecordAt(log, w.fetch[i]), w.orders[i])
  }

  /** What one runOnce of the transformer makes of its poll, and its result. */
  ghost predicate RoundTaken(cfg: Setup, log: Logs<Raw>, w: Shift, ok: bool, r: Round) {
    && |w.fates| == |w.orders| == |w.fetch| && r.fetch == w.fetch && r.acked <= |w.fetch|
    && (w.failed ==> r.acked == 0 && !r.stray)
    && (forall i | 0 <= i < r.acked :: GoesAt(cfg, log, w.fetch[i], w.orders[i], w.fates[i]))
    && (!w.failed && r.acked < |w.fetch| ==> !GoesAt(cfg, log, w.fetch[r.acked], w.orders[r.acked], w.fates[r.acked]))
    && (r.acked > 0 ==> (r.commit.Took? <==> w.took))
    && (ok <==> !w.failed && r.acked == |w.fetch| && (r.acked == 0 || w.acked))
  }

  /** One turn of either loop: where the pipeline stood, what happened around the call, and what it made of it. */
  datatype Turn =
    | Transformed(before: Pipe, w: Shift, r: Round, ok: bool)
    | Sank(before: Pipe, log: Logs<Raw>, weather: Weather, b: Batch, ok: bool)

  /** After an error the program's next poll starts at the committed offsets. */
  function MovesOf(t: Turn): seq<PipeMove> {
    match t
    case Transformed(_, _, r, ok) => [Transforming(r)] + if ok then [] else [Restarting]
    case Sank(_, _, _, b, ok) => [Sinking(Take(b))] + if ok then [] else [Sinking(Rewind)]
  }

  function AllMoves(turns: seq<Turn>): seq<PipeMove> {
    if turns == [] then [] else AllMoves(turns[..|turns| - 1]) + MovesOf(turns[|turns| - 1])
  }

  /** The turn is a call of the program it belongs to; the sink reads the bytes the transformer has stored. */
  ghost predicate TurnTaken(cfg: Setup, log: Logs<Raw>, t: Turn, v: int) {
    match t
    case Transformed(_, w, r, ok) => RoundTaken(cfg, log, w, ok, r)
    case Sank(before, out, w, b, ok) =>
      && Mirrors(cfg, log, out, before.stage.out)
      && BatchTaken(Bodies(cfg.canon, out), before.sink, w, ok, b, v)
  }

  /** What happens in each turn, given where the consumer whose turn it is stands. */
  datatype World = World(
    sinkTurn: nat -> bool, shifts: (nat, Offsets) -> Shift, weathers: (nat, Logs<Raw>, Offsets) -> Weather)

  ghost predicate ValidWorld(cfg: Setup, log: Logs<Raw>, world: World) {
    && (forall k, position :: ValidShift(cfg, log, position, world.shifts(k, position)))
    && forall k, out, position :: ValidWeather(cfg.canon, out, position, world.weathers(k, out, position))
  }

  /** Turn `k` belongs to the program whose turn it is and meets what the world has in store for it. */
  ghost predicate InWorld(world: World, k: nat, t: Turn) {
    match t
    case Transformed(before, w, _, _) => !world.sinkTurn(k) && w == world.shifts(k, before.stage.position)
    case Sank(before, out, w, _, _) => world.sinkTurn(k) && w == world.weathers(k, out, before.sink.position)
  }

  /** Behind the moves `start`, every turn begins where the moves before it end, and is what the world makes it. */
  ghost predicate Happened(cfg: Setup, log: Logs<Raw>, world: World, start: seq<PipeMove>, taken: seq<Turn>, v: int) {
    forall k: nat | k < |taken| :: HappenedAt(cfg, log, world, start + AllMoves(taken[..k]), k, taken[k], v)
  }

  ghost predicate HappenedAt(
    cfg: Setup, log: Logs<Raw>, world: World, moves: seq<PipeMove>, k: nat, t: Turn, v: int)
  {
    t.before == End(Items(cfg, log), moves, v) && InWorld(world, k, t) && TurnTaken(cfg, log, t, v)
  }

  lemma HappenedSnoc(
      cfg: Setup, log: Logs<Raw>, world: World, start: seq<PipeMove>, taken: seq<Turn>, t: Turn, v: int)
    requires Happened(cfg, log, world, start, taken, v)
    requires HappenedAt(cfg, log, world, start + AllMoves(taken), |taken|, t, v)
    ensures Happened(cfg, log, world, start, taken + [t], v)
    ensures start + AllMoves(taken + [t]) == start + AllMoves(taken) + MovesOf(t)
  {
    hide HappenedAt, MovesOf;
    var more := taken + [t];
    assert more[..|taken|] == taken;
    forall k: nat | k < |more| ensures HappenedAt(cfg, log, world, start + AllMoves(more[..k]), k, more[k], v) {
      if k < |taken| {
        assert more[..k] == taken[..k] && more[k] == taken[k];
      }
    }
  }

  class Deployment {
    const service: Service
    const loop: Loop
    ghost var moves: seq<PipeMove>

    constructor (service: Service, loop: Loop)
      requires service.Valid() && AllDetermined(service.cfg, service.cons.log) && service.cfg.canon == loop.canon
      requires service.cons != loop.cons && loop.cons.log == service.out
      requires service.View() == START && loop.View() == INIT
      ensures this.service == service && this.loop == loop && Valid() && moves == []
    {
      this.service := service;
      this.loop := loop;
      moves := [];
    }

    ghost function Source(): Logs<Item>
      reads service.cons`log
    {
      Items(service.cfg, service.cons.log)
    }

    /** The calls so far are a run of the pipeline, and both programs are where that run ends. */
    ghost predicate Running()
      reads this, service, service.cons, loop, loop.cons, loop.writer.db
    {
      && service.cons != loop.cons && service.cfg.canon == loop.canon
      && service.Valid() && AllDetermined(service.cfg, service.cons.log)
      && loop.cons.log == service.out
      && PipeRun(Source(), moves, loop.writer.schemaVersion)
      && End(Source(), moves, loop.writer.schemaVersion) == Pipe(service.View(), loop.View())
    }

    /** Between turns both consumers stand at their committed offsets. */
    ghost predicate Valid()
      reads this, service, service.cons, loop, loop.cons, loop.writer.db
    {
      Running() && AtCommitted(service.View()) && Resumed(loop.View())
    }

    ghost method Record(m: PipeMove)
      requires PipeRun(Source(), moves, loop.writer.schemaVersion)
      requires CanMove(Source(), End(Source(), moves, loop.writer.schemaVersion), m)
      modifies this`moves
      ensures moves == old(moves) + [m] && PipeRun(Source(), moves, loop.writer.schemaVersion)
      ensures End(Source(), moves, loop.writer.schemaVersion)
           == Moved(Source(), End(Source(), old(moves), loop.writer.schemaVersion), m, loop.writer.schemaVersion)
    {
      PipeSnoc(Source(), moves, m, loop.writer.schemaVersion);
      moves := moves + [m];
    }

    method TransformerCall(w: Shift) returns (ok: bool, ghost r: Round)
      requires Valid() && ValidShift(service.cfg, service.cons.log, service.cons.position, w)
      modifies this`moves, service`out, service`prov
      modifies service.cons`position, service.cons`marked, service.cons`committed, loop.cons`log
      ensures Running() && moves == old(moves) + [Transforming(r)] && (ok ==> AtCommitted(service.View()))
      ensures RoundTaken(service.cfg, service.cons.log, w, ok, r)
    {
      hide PipeRun, End, AllDetermined, Items, ValidFetch, Mirrors, Iterates;
      hide ValidRound, AfterRound, StageSafe, AtCommitted, TransformsAt;
      ghost var src, s := Source(), service.View();
      StageEndIsSafe(src, moves, s, loop.View(), loop.writer.schemaVersion);
      ok, r := service.RunOnce(w.fetch, w.failed, w.fates, w.orders, w.took, w.acked);
      Record(Transforming(r));
      loop.cons.Arrive(service.out);
      if ok {
        FullRoundResumes(src, s, r);
      }
    }

    /** One turn of the transformer's loop; after an error its next poll starts at the committed offsets. */
    method TransformerTurn(w: Shift) returns (ok: bool, ghost t: Turn)
      requires Valid() && ValidShift(service.cfg, service.cons.log, service.cons.position, w)
      modifies this`moves, service`out, service`prov
      modifies service.cons`position, service.cons`marked, service.cons`committed, loop.cons`log
      ensures Valid() && moves == old(moves) + MovesOf(t)
      ensures t.Transformed? && t.before == old(Pipe(service.View(), loop.View())) && t.w == w && t.ok == ok
      ensures TurnTaken(service.cfg, service.cons.log, t, loop.writer.schemaVersion)
    {
      hide PipeRun, End, AllDetermined, Items, Mirrors, ValidShift, RoundTaken;
      ghost var r;
      ok, r := TransformerCall(w);
      t := Transformed(old(Pipe(service.View(), loop.View())), w, r, ok);
      if !ok {
        Record(Restarting);
        service.cons.Resume();
      }
    }

    method SinkCall(w: Weather) returns (ok: bool, ghost b: Batch)
      requires Valid() && ValidWeather(loop.canon, loop.cons.log, loop.cons.position, w)
      modifies this`moves, loop, loop.cons`position, loop.cons`marked, loop.cons`committed, loop.writer, loop.writer.db
      ensures Running() && moves == old(moves) + [Sinking(Take(b))]
      ensures AtCommitted(service.View()) && (ok ==> Resumed(loop.View()))
      ensures BatchTaken(Bodies(loop.canon, loop.cons.log), old(loop.View()), w, ok, b, loop.writer.schemaVersion)
    {
      hide PipeRun, End, AllDetermined, Items, ValidFetch, Mirrors, Downstream, Bodies;
      hide ValidBatch, AfterBatch, ValidWeather, AtCommitted, Resumed, Malformed;
      hide Applies, EventsIn, ValidPlan, AllTombstones, BulksInOrder, KeepsOrder, Writable;
      WeatherPlan(loop.canon, loop.cons.log, loop.cons.position, w);
      ghost var s, v := loop.View(), loop.writer.schemaVersion;
      SinkReadsDownstream(service.cfg, service.cons.log, service.out, service.prov);
      SinkEndIsSafe(Source(), moves, service.View(), s, v);
      ok, b := loop.RunOnce(w);
      Record(Sinking(Take(b)));
      if ok {
        SuccessfulTurn(loop.Logs(), s, b, v);
      }
    }

    /** One turn of the sink's loop; after an error its next poll starts at the committed offsets. */
    method SinkTurn(w: Weather) returns (ok: bool, ghost t: Turn)
      requires Valid() && ValidWeather(loop.canon, loop.cons.log, loop.cons.position, w)
      modifies this`moves, loop, loop.cons`position, loop.cons`marked, loop.cons`committed, loop.writer, loop.writer.db
      ensures Valid() && moves == old(moves) + MovesOf(t)
      ensures t.Sank? && t.before == old(Pipe(service.View(), loop.View())) && t.log == loop.cons.log
      ensures t.weather == w && t.ok == ok && TurnTaken(service.cfg, service.cons.log, t, loop.writer.schemaVersion)
    {
      hide PipeRun, End, AllDetermined, Items, Mirrors, ValidWeather, BatchTaken, Bodies;
      ghost var b;
      ok, b := SinkCall(w);
      t := Sank(old(Pipe(service.View(), loop.View())), loop.cons.log, w, b, ok);
      if !ok {
        Record(Sinking(Rewind));
        loop.cons.Resume();
      }
    }

    /**
     Any interleaving of the two loops: the world says whose turn it is and what happens around each
     call.
     */
    method Run(turns: nat, world: World) returns (ghost taken: seq<Turn>)
      requires Valid() && ValidWorld(service.cfg, service.cons.log, world)
      modifies this`moves, service`out, service`prov
      modifies service.cons`position, service.cons`marked, service.cons`committed, loop.cons
      modifies loop, loop.writer, loop.writer.db
      ensures Valid() && |taken| == turns && moves == old(moves) + AllMoves(taken)
      ensures Happened(service.cfg, service.cons.log, world, old(moves), taken, loop.writer.schemaVersion)
    {
      hide PipeRun, End, AllDetermined, Items, Mirrors, ValidWeather, ValidShift, AtCommitted, Resumed, TurnTaken;
      hide MovesOf, Happened, AllMoves;
      taken := [];
      NothingYet(service.cfg, service.cons.log, world, moves, loop.writer.schemaVersion);
      for turn := 0 to turns
        invariant Valid() && service.cons.log == old(service.cons.log)
        invariant |taken| == turn && moves == old(moves) + AllMoves(taken)
        invariant Happened(service.cfg, service.cons.log, world, old(moves), taken, loop.writer.schemaVersion)
      {
        ghost var t;
        var ok;
        if world.sinkTurn(turn) {
          ok, t := SinkTurn(world.weathers(turn, loop.cons.log, loop.cons.position));
        } else {
          ok, t := TransformerTurn(world.shifts(turn, service.cons.position));
        }
        HappenedSnoc(service.cfg, service.cons.log, world, old(moves), taken, t, loop.writer.schemaVersion);
        taken := taken + [t];
      }
    }
  }

  lemma NothingYet(cfg: Setup, log: Logs<Raw>, world: World, start: seq<PipeMove>, v: int)
    ensures Happened(cfg, log, world, start, [], v) && start + AllMoves([]) == start
  {
  }

  lemma SuccessfulTurn(logs: Logs<Body>, s: Sink, b: Batch, v: int)
    requires InBounds(logs, s) && Resumed(s) && ValidBatch(logs, s, b) && (b.fetch == [] || b.commit.Took?)
    ensures Resumed(AfterBatch(logs, s, b, v))
  {
    if b.fetch == [] {
      EmptyPollStays(logs, s, b, v);
    } else {
      SuccessResumes(logs, s, b, v);
    }
  }

  /**
   Whatever the two loops have been through, once both have committed everything Mongo holds the fold
   of the source log, if each row that ends deleted is separated.
   */
  lemma DrainedDeploymentMirrors(d: Deployment)
    requires d.Valid() && OrderlySource(d.Source())
    requires Drained(d.Source(), Pipe(d.service.View(), d.loop.View()))
    requires forall p | NewestInSource(d.Source(), p) :: Separated(d.Source(), d.moves, p, d.loop.writer.schemaVersion)
    ensures MirrorsSource(d.Source(), d.loop.writer.db.store, d.loop.writer.schemaVersion)
  {
    hide PipeRun, End, Drained, OrderlySource, Separated, MirrorsSource, Items, NewestInSource, Mirrors, AllDetermined;
    SameOrder(d.moves);
    SeparatedRunMirrors(d.Source(), d.moves, d.moves, d.loop.writer.schemaVersion);
  }

  lemma SameOrder(moves: seq<PipeMove>)
    ensures PipeReorders(moves, moves)
  {
    hide SamePipeMove;
    forall i | 0 <= i < |moves| ensures SamePipeMove(moves[i], moves[i]) {
      SameMoveItself(moves[i]);
    }
  }

  lemma EmptyPollStays(logs: Logs<Body>, s: Sink, b: Batch, v: int)
    requires ValidBatch(logs, s, b) && b.fetch == [] && Resumed(s)
    ensures Resumed(AfterBatch(logs, s, b, v))
  {
  }

  lemma StageEndIsSafe(src: Logs<Item>, moves: seq<PipeMove>, stage: Stage, sink: Sink, v: int)
    requires End(src, moves, v) == Pipe(stage, sink)
    ensures OffsetsInBounds(src, stage)
  {
    hide PipeAt;
    StageIsSafe(src, moves, |moves|, v);
  }

  lemma SinkEndIsSafe(src: Logs<Item>, moves: seq<PipeMove>, stage: Stage, sink: Sink, v: int)
    requires PipeRun(src, moves, v) && End(src, moves, v) == Pipe(stage, sink)
    ensures InBounds(Downstream(src, stage.out), sink)
  {
    hide PipeAt, PipeRun;
    PipeRunIsSafe(src, moves, v);
  }
}

/**
 services/sink/internal/consumer/consumer.go: Loop.RunOnce, which polls, decodes, applies, marks and
 commits. Each call is one batch of the sink protocol.
 */
module Consumer {
  import opened Wrappers
  import opened JsonValues
  import opened Writer
  import opened Mongo
  import opened Survivor
  import opened MongoWriter
  import opened Kafka
  import opened KafkaClient
  import opened Decoder
  import opened SinkProtocol

  /** The log as the decoder reads it. */
  function Bodies(canon: string -> string, log: Logs<Raw>): Logs<Body> {
    map tp | tp in log ::
      seq(|log[tp]|, i requires 0 <= i < |log[tp]| => Decode(canon, log[tp][i].key, log[tp][i].value))
  }

  lemma BodyAt(canon: string -> string, log: Logs<Raw>, p: Pos)
    ensures InLog(Bodies(canon, log), p) <==> InLog(log, p)
    ensures InLog(log, p) ==>
      RecordAt(Bodies(canon, log), p) == Decode(canon, RecordAt(log, p).key, RecordAt(log, p).value)
  {
  }

  lemma {:induction false} FetchOfBodies(canon: string -> string, log: Logs<Raw>, m: Offsets, fetch: seq<Pos>)
    requires ValidFetch(log, m, fetch)
    ensures ValidFetch(Bodies(canon, log), m, fetch)
  {
    if fetch != [] {
      FetchOfBodies(canon, log, m, fetch[..|fetch| - 1]);
      BodyAt(canon, log, fetch[|fetch| - 1]);
    }
  }

  /** The events among the polled records, by position. */
  function EventPositions(logs: Logs<Body>, fetch: seq<Pos>): (ps: seq<Pos>)
    requires forall i :: 0 <= i < |fetch| ==> InLog(logs, fetch[i])
    ensures forall i :: 0 <= i < |ps| ==> InLog(logs, ps[i]) && RecordAt(logs, ps[i]).Event?
  {
    if fetch == [] then []
    else
      var n := |fetch| - 1;
      EventPositions(logs, fetch[..n]) + if RecordAt(logs, fetch[n]).Event? then [fetch[n]] else []
  }

  lemma {:induction false} EventPositionsAre(logs: Logs<Body>, fetch: seq<Pos>, p: Pos)
    requires forall i :: 0 <= i < |fetch| ==> InLog(logs, fetch[i])
    ensures p in EventPositions(logs, fetch) <==> p in fetch && RecordAt(logs, p).Event?
  {
    if fetch != [] {
      var n := |fetch| - 1;
      EventPositionsAre(logs, fetch[..n], p);
      assert fetch == fetch[..n] + [fetch[n]];
    }
  }

  function EventsIn(logs: Logs<Body>, fetch: seq<Pos>): (evs: seq<CDCEvent>)
    requires forall i :: 0 <= i < |fetch| ==> InLog(logs, fetch[i])
  {
    var ps := EventPositions(logs, fetch);
    seq(|ps|, i requires 0 <= i < |ps| => RecordAt(logs, ps[i]).ev)
  }

  lemma NoEvents(logs: Logs<Body>)
    ensures EventsIn(logs, []) == []
  {
  }

  lemma EventsInSnoc(logs: Logs<Body>, fetch: seq<Pos>, i: nat)
    requires forall j :: 0 <= j < |fetch| ==> InLog(logs, fetch[j])
    requires i < |fetch|
    ensures EventsIn(logs, fetch[..i + 1])
         == EventsIn(logs, fetch[..i]) + if RecordAt(logs, fetch[i]).Event? then [RecordAt(logs, fetch[i]).ev] else []
  {
    assert fetch[..i + 1][..i] == fetch[..i];
  }

  /** What happens around one RunOnce: the poll, Mongo's and the driver's choices, the commit. */
  datatype Weather = Weather(
    fetch: seq<Pos>, failed: bool, tables: seq<string>, fates: map<string, Fate>, took: bool, acked: bool)

  ghost predicate ValidWeather(canon: string -> string, log: Logs<Raw>, position: Offsets, w: Weather) {
    && (w.acked ==> w.took)
    && ValidFetch(log, position, w.fetch)
    && (forall i :: 0 <= i < |w.fetch| ==> InLog(Bodies(canon, log), w.fetch[i]))
    && CoversTables(EventsIn(Bodies(canon, log), w.fetch), w.tables)
    && ValidPlan(EventsIn(Bodies(canon, log), w.fetch), w.tables, w.fates)
  }

  /** Each table's bulk keeps every delete behind the upserts it covers. */
  ghost predicate BulksInOrder(events: seq<CDCEvent>, tables: seq<string>, fates: map<string, Fate>)
    requires ValidPlan(events, tables, fates)
  {
    forall t :: t in tables ==> OrderKept(events, Part(events, t, fates[t]))
  }

  predicate NoPoison(logs: Logs<Body>, fetch: seq<Pos>) {
    forall i :: 0 <= i < |fetch| ==> InLog(logs, fetch[i]) && !RecordAt(logs, fetch[i]).Poison?
  }

  /** A poll without malformed records is one whose records decode and whose events have what they need. */
  lemma MalformedIff(logs: Logs<Body>, fetch: seq<Pos>)
    requires forall i :: 0 <= i < |fetch| ==> InLog(logs, fetch[i])
    ensures Malformed(logs, fetch) <==> !(NoPoison(logs, fetch) && AllBuildable(EventsIn(logs, fetch)))
  {
    hide EventPositions;
    var ps, evs := EventPositions(logs, fetch), EventsIn(logs, fetch);
    if NoPoison(logs, fetch) && AllBuildable(evs) {
      forall p | p in fetch ensures Skippable(logs, p) || Writable(logs, p) {
        EventPositionsAre(logs, fetch, p);
        if p in ps {
          var i :| 0 <= i < |ps| && ps[i] == p;
          assert Buildable(evs[i]);
        }
      }
    } else if NoPoison(logs, fetch) {
      var i :| 0 <= i < |evs| && !Buildable(evs[i]);
      EventPositionsAre(logs, fetch, ps[i]);
      assert ps[i] in ps;
      assert !Skippable(logs, ps[i]) && !Writable(logs, ps[i]);
    } else {
      var i :| 0 <= i < |fetch| && RecordAt(logs, fetch[i]).Poison?;
      assert fetch[i] in fetch && !Skippable(logs, fetch[i]) && !Writable(logs, fetch[i]);
    }
  }

  /**
   When a call applies its batch: the poll works and holds records, none of them malformed, and every
   table's bulk succeeds against the store the call began with.
   */
  ghost predicate Applies(logs: Logs<Body>, store: Store, w: Weather, schemaVersion: int)
    requires forall i :: 0 <= i < |w.fetch| ==> InLog(logs, w.fetch[i])
    requires ValidPlan(EventsIn(logs, w.fetch), w.tables, w.fates)
  {
    && !w.failed && w.fetch != [] && !Malformed(logs, w.fetch)
    && BulksGo(store, EventsIn(logs, w.fetch), w.tables, w.fates, schemaVersion)
  }

  /** What one RunOnce makes of the poll, and its result. */
  ghost predicate BatchTaken(logs: Logs<Body>, s: Sink, w: Weather, ok: bool, b: Batch, v: int) {
    && (forall i :: 0 <= i < |w.fetch| ==> InLog(logs, w.fetch[i]))
    && ValidPlan(EventsIn(logs, w.fetch), w.tables, w.fates)
    && ValidBatch(logs, s, b) && b.fetch == w.fetch
    && (b.applied <==> Applies(logs, s.store, w, v))
    && (b.applied ==> (b.commit.Took? <==> w.took))
    && (ok <==> !w.failed && (w.fetch == [] || (b.applied && w.acked)))
  }

  /** A bulk that meets no trouble at all. */
  predicate Calm(f: Fate) {
    !f.lost && f.refused == [] && !f.concern
  }

  lemma CalmApplies(logs: Logs<Body>, store: Store, w: Weather, schemaVersion: int)
    requires forall i :: 0 <= i < |w.fetch| ==> InLog(logs, w.fetch[i])
    requires ValidPlan(EventsIn(logs, w.fetch), w.tables, w.fates)
    requires !w.failed && w.fetch != [] && !Malformed(logs, w.fetch) && forall t | t in w.tables :: Calm(w.fates[t])
    ensures Applies(logs, store, w, schemaVersion)
  {
    hide EventsIn, Malformed;
  }

  /** Records that are tombstones on the wire. */
  predicate AllTombstones(log: Logs<Raw>, fetch: seq<Pos>) {
    forall i :: 0 <= i < |fetch| ==> InLog(log, fetch[i]) && IsTombstone(RecordAt(log, fetch[i]).value)
  }

  /** A record the loop gets past: a tombstone, or a good key with a good envelope. */
  ghost predicate WellFormed(key: Wire, value: Wire) {
    IsTombstone(value) || (value.Text? && GoodEnvelope(value.json) && GoodKey(key))
  }

  lemma PoisonOnWire(canon: string -> string, key: Wire, value: Wire)
    ensures Decode(canon, key, value).Poison? <==> !WellFormed(key, value)
  {
    hide Decode, GoodEnvelope, GoodKey;
    PoisonIff(canon, key, value);
  }

  predicate IsTombstone(value: Wire) {
    value == Nil || value == Empty || value == Text(Null)
  }

  lemma {:induction false} TombstonesOnly(canon: string -> string, log: Logs<Raw>, fetch: seq<Pos>)
    requires AllTombstones(log, fetch)
    ensures forall i :: 0 <= i < |fetch| ==> InLog(Bodies(canon, log), fetch[i])
    ensures EventsIn(Bodies(canon, log), fetch) == [] && !Malformed(Bodies(canon, log), fetch)
  {
    hide Decode, Bodies;
    var logs := Bodies(canon, log);
    forall i | 0 <= i < |fetch| ensures InLog(logs, fetch[i]) && RecordAt(logs, fetch[i]).Tombstone? {
      BodyAt(canon, log, fetch[i]);
      TombstoneIff(canon, RecordAt(log, fetch[i]).key, RecordAt(log, fetch[i]).value);
    }
    var ps := EventPositions(logs, fetch);
    if ps != [] {
      assert ps[0] in ps;
      EventPositionsAre(logs, fetch, ps[0]);
      assert false;
    }
    forall p | p in fetch ensures Skippable(logs, p) {
      var i :| 0 <= i < |fetch| && fetch[i] == p;
    }
  }

  /** What it means for the events, the store and the offsets that a call's batch was applied as it should be. */
  lemma BatchMeans(canon: string -> string, log: Logs<Raw>, s: Sink, b: Batch, w: Weather, v: int)
    requires ValidWeather(canon, log, s.position, w) && ValidBatch(Bodies(canon, log), s, b) && b.fetch == w.fetch
    requires b.applied <==> Applies(Bodies(canon, log), s.store, w, v)
    requires b.applied ==> (b.commit.Took? <==> w.took)
    ensures var logs, t := Bodies(canon, log), AfterBatch(Bodies(canon, log), s, b, v);
      && (b.applied ==> forall p :: p in w.fetch && Writable(logs, p) ==> p in b.ran)
      && (b.applied && w.took ==> forall p :: p in w.fetch ==> p.off < At(t.committed, p.tp))
      && (!w.failed && w.fetch != [] && !Malformed(logs, w.fetch) && (forall t | t in w.tables :: Calm(w.fates[t]))
          ==> b.applied)
      && (!w.failed && w.fetch != [] && AllTombstones(log, w.fetch) ==> b.applied && t.store == s.store)
  {
    hide ValidFetch, Advance, Bodies, EventsIn, Malformed, BulksGo, AllTombstones;
    var logs := Bodies(canon, log);
    if b.applied {
      assert forall p :: p in b.fetch ==> Settled(logs, b.ran, p);
      if w.took {
        CommitsPast(logs, s, b, v);
      }
    }
    if !w.failed && w.fetch != [] && !Malformed(logs, w.fetch) && forall t | t in w.tables :: Calm(w.fates[t]) {
      CalmApplies(logs, s.store, w, v);
    }
    if !w.failed && w.fetch != [] && AllTombstones(log, w.fetch) {
      TombstonePoll(canon, log, s, b, w, v);
    }
  }

  lemma WeatherPlan(canon: string -> string, log: Logs<Raw>, position: Offsets, w: Weather)
    requires ValidWeather(canon, log, position, w)
    ensures forall i :: 0 <= i < |w.fetch| ==> InLog(Bodies(canon, log), w.fetch[i])
    ensures ValidPlan(EventsIn(Bodies(canon, log), w.fetch), w.tables, w.fates) && (w.acked ==> w.took)
  {
    hide EventsIn, ValidPlan, Bodies;
  }

  lemma TableHasEvent(events: seq<CDCEvent>, tables: seq<string>, i: nat)
    requires CoversTables(events, tables) && i < |tables|
    ensures events != []
  {
    assert tables[i] in tables;
    var e :| e in events && e.table == tables[i];
  }

  lemma NoEventsNoTables(events: seq<CDCEvent>, tables: seq<string>)
    requires CoversTables(events, tables) && events == []
    ensures tables == []
  {
    if tables != [] {
      TableHasEvent(events, tables, 0);
      assert false;
    }
  }

  /** Without events there is nothing to apply, and that succeeds. */
  lemma NothingToApply(s: Store, events: seq<CDCEvent>, tables: seq<string>, fates: map<string, Fate>, v: int)
    requires CoversTables(events, tables) && ValidPlan(events, tables, fates) && events == []
    ensures AllBuildable(events) && BulksGo(s, events, tables, fates, v) && Pick(events, []) == []
    ensures Run(s, [], v) == s
  {
    NoEventsNoTables(events, tables);
  }

  lemma TombstonePoll(canon: string -> string, log: Logs<Raw>, s: Sink, b: Batch, w: Weather, v: int)
    requires ValidWeather(canon, log, s.position, w) && ValidBatch(Bodies(canon, log), s, b) && b.fetch == w.fetch
    requires b.applied <==> Applies(Bodies(canon, log), s.store, w, v)
    requires !w.failed && w.fetch != [] && AllTombstones(log, w.fetch)
    ensures b.applied && AfterBatch(Bodies(canon, log), s, b, v).store == s.store
  {
    hide ValidFetch, Advance, Bodies, EventsIn, Decode, Malformed;
    var logs := Bodies(canon, log);
    TombstonesOnly(canon, log, w.fetch);
    NoEventsNoTables(EventsIn(logs, w.fetch), w.tables);
    if b.ran != [] {
      assert b.ran[0] in b.fetch;
      TombstoneNotWritable(canon, log, w.fetch, b.ran[0]);
      assert false;
    }
    assert EventsAt(logs, b.ran) == [];
  }

  lemma TombstoneNotWritable(canon: string -> string, log: Logs<Raw>, fetch: seq<Pos>, p: Pos)
    requires AllTombstones(log, fetch) && p in fetch
    ensures !Writable(Bodies(canon, log), p)
  {
    hide Decode, Bodies;
    BodyAt(canon, log, p);
    TombstoneIff(canon, RecordAt(log, p).key, RecordAt(log, p).value);
  }

  lemma {:induction false} EventsFollowOffsets(logs: Logs<Body>, fetch: seq<Pos>)
    requires forall i :: 0 <= i < |fetch| ==> InLog(logs, fetch[i])
    requires forall i, j :: 0 <= i < j < |fetch| && fetch[i].tp == fetch[j].tp ==> fetch[i].off < fetch[j].off
    ensures var ps := EventPositions(logs, fetch);
      forall i, j :: 0 <= i < j < |ps| && ps[i].tp == ps[j].tp ==> ps[i].off < ps[j].off
  {
    if fetch != [] {
      var n := |fetch| - 1;
      EventsFollowOffsets(logs, fetch[..n]);
      var prev, ps := EventPositions(logs, fetch[..n]), EventPositions(logs, fetch);
      forall i, j | 0 <= i < j < |ps| && ps[i].tp == ps[j].tp ensures ps[i].off < ps[j].off {
        assert ps[i] == prev[i];
        EventPositionsAre(logs, fetch[..n], prev[i]);
        if j == |prev| {
          var k :| 0 <= k < n && fetch[..n][k] == prev[i];
          assert fetch[k] == ps[i] && fetch[n] == ps[j];
        }
      }
    }
  }

  /** The positions a batch trace stands for. */
  function RanPositions(logs: Logs<Body>, fetch: seq<Pos>, trace: seq<nat>): (ran: seq<Pos>)
    requires forall i :: 0 <= i < |fetch| ==> InLog(logs, fetch[i])
    requires InRange(trace, |EventPositions(logs, fetch)|)
    ensures |ran| == |trace|
  {
    Pick(EventPositions(logs, fetch), trace)
  }

  lemma TraceKeepsOrder(logs: Logs<Body>, fetch: seq<Pos>, trace: seq<nat>)
    requires forall i :: 0 <= i < |fetch| ==> InLog(logs, fetch[i])
    requires var ps := EventPositions(logs, fetch);
      forall i, j :: 0 <= i < j < |ps| && ps[i].tp == ps[j].tp ==> ps[i].off < ps[j].off
    requires InRange(trace, |EventsIn(logs, fetch)|) && OrderKept(EventsIn(logs, fetch), trace)
    requires AllWritable(logs, RanPositions(logs, fetch, trace))
    ensures KeepsOrder(logs, RanPositions(logs, fetch, trace))
  {
    hide EventPositions;
    var ran := RanPositions(logs, fetch, trace);
    forall i, j | 0 <= i < j < |ran| && ran[i].tp == ran[j].tp && ran[j].off < ran[i].off
      ensures !Covers(EventAt(logs, ran[i]), EventAt(logs, ran[j]))
    {
      assert trace[j] < trace[i];
    }
  }

  /** A trace of distinct events, all of them if applied, is a batch of the protocol. */
  lemma TraceIsBatch(logs: Logs<Body>, s: Sink, fetch: seq<Pos>, trace: seq<nat>, applied: bool, commit: CommitFate)
    requires ValidFetch(logs, s.position, fetch) && NoPoison(logs, fetch)
    requires AllBuildable(EventsIn(logs, fetch))
    requires InRange(trace, |EventsIn(logs, fetch)|) && Distinct(trace)
    requires applied ==> forall i: nat :: i < |EventsIn(logs, fetch)| ==> i in trace
    requires commit.NotTried? <==> !applied || fetch == []
    ensures InRange(trace, |EventPositions(logs, fetch)|)
    ensures ValidBatch(logs, s, Batch(fetch, RanPositions(logs, fetch, trace), applied, commit))
    ensures EventsAt(logs, RanPositions(logs, fetch, trace)) == Pick(EventsIn(logs, fetch), trace)
    ensures OrderKept(EventsIn(logs, fetch), trace) ==> KeepsOrder(logs, RanPositions(logs, fetch, trace))
  {
    hide ValidFetch, EventPositions, OrderKept, KeepsOrder;
    var ps, evs := EventPositions(logs, fetch), EventsIn(logs, fetch);
    var ran := RanPositions(logs, fetch, trace);
    FetchCovers(logs, s.position, fetch);
    EventsFollowOffsets(logs, fetch);
    forall i | 0 <= i < |ps| ensures Writable(logs, ps[i]) {
      assert Buildable(evs[i]);
    }
    forall p ensures p in ps <==> p in fetch && RecordAt(logs, p).Event? {
      EventPositionsAre(logs, fetch, p);
    }
    assert AllWritable(logs, ran);
    forall p | p in fetch ensures Skippable(logs, p) || Writable(logs, p)
                          ensures applied ==> Settled(logs, ran, p) {
      var f :| 0 <= f < |fetch| && fetch[f] == p;
      if RecordAt(logs, p).Event? {
        var i :| 0 <= i < |ps| && ps[i] == p;
        if applied {
          assert i in trace;
          var j :| 0 <= j < |trace| && trace[j] == i;
          assert ran[j] == p;
        }
      }
    }
    if OrderKept(evs, trace) {
      TraceKeepsOrder(logs, fetch, trace);
    }
  }

  class Loop {
    const cons: GroupConsumer
    const writer: BatchWriter
    const canon: string -> string
    ghost var hist: seq<Pos>

    constructor (cons: GroupConsumer, writer: BatchWriter, canon: string -> string)
      ensures this.cons == cons && this.writer == writer && this.canon == canon && hist == []
    {
      this.cons := cons;
      this.writer := writer;
      this.canon := canon;
      hist := [];
    }

    ghost function View(): Sink
      reads this, cons, writer.db
    {
      Sink(cons.position, cons.marked, cons.committed, hist, writer.db.store)
    }

    ghost function Logs(): Logs<Body>
      reads cons`log
    {
      Bodies(canon, cons.log)
    }

    /** The records are those at the polled positions. */
    ghost predicate Polled(records: seq<Record>, fetch: seq<Pos>)
      reads cons`log
    {
      && |records| == |fetch|
      && (forall i :: 0 <= i < |fetch| ==> InLog(Logs(), fetch[i]) && records[i].pos == fetch[i])
      && forall i :: 0 <= i < |fetch| ==> Decode(canon, records[i].key, records[i].value) == RecordAt(Logs(), fetch[i])
    }

    /** Decode until the first bad record; tombstones are skipped. */
    method DecodeAll(records: seq<Record>, ghost fetch: seq<Pos>) returns (r: Result<seq<CDCEvent>>)
      requires Polled(records, fetch)
      ensures r.Ok? <==> forall i | 0 <= i < |records| :: WellFormed(records[i].key, records[i].value)
      ensures r.Ok? <==> NoPoison(Logs(), fetch)
      ensures r.Ok? ==> r.value == EventsIn(Logs(), fetch)
    {
      hide Decode, Bodies, EventPositions, EventsIn, WellFormed;
      assert NoPoison(Logs(), fetch)
        <==> forall i | 0 <= i < |records| :: WellFormed(records[i].key, records[i].value) by {
        forall i | 0 <= i < |records|
          ensures RecordAt(Logs(), fetch[i]).Poison? <==> !WellFormed(records[i].key, records[i].value)
        {
          PoisonOnWire(canon, records[i].key, records[i].value);
        }
      }
      var events: seq<CDCEvent> := [];
      NoEvents(Logs());
      for i := 0 to |records|
        invariant NoPoison(Logs(), fetch[..i])
        invariant events == EventsIn(Logs(), fetch[..i])
      {
        EventsInSnoc(Logs(), fetch, i);
        var body := Decode(canon, records[i].key, records[i].value);
        if body.Tombstone? {
          continue;
        }
        if body.Poison? {
          return Err;
        }
        events := events + [body.ev];
      }
      assert fetch[..|fetch|] == fetch;
      return Ok(events);
    }

    method MarkAll(records: seq<Record>, ghost fetch: seq<Pos>)
      requires Polled(records, fetch)
      modifies cons`marked
      ensures cons.marked == Advance(old(cons.marked), fetch)
    {
      hide Decode, Bodies;
      for i := 0 to |records|
        invariant cons.marked == Advance(old(cons.marked), fetch[..i])
      {
        assert fetch[..i + 1][..i] == fetch[..i];
        cons.MarkCommit(records[i]);
      }
      assert fetch[..|fetch|] == fetch;
    }

    method RunOnce(w: Weather) returns (ok: bool, ghost b: Batch)
      requires ValidWeather(canon, cons.log, cons.position, w)
      modifies this`hist, cons`position, cons`marked, cons`committed, writer, writer.db
      ensures b.fetch == w.fetch && ValidBatch(Logs(), old(View()), b)
      ensures View() == AfterBatch(Logs(), old(View()), b, writer.schemaVersion)
      ensures b.applied <==> Applies(Logs(), old(writer.db.store), w, writer.schemaVersion)
      ensures ok <==> !w.failed && (w.fetch == [] || (b.applied && w.acked))
      ensures b.applied ==> forall p :: p in w.fetch && Writable(Logs(), p) ==> p in b.ran
      ensures b.applied && w.took ==> forall p :: p in w.fetch ==> p.off < At(cons.committed, p.tp)
      ensures !w.failed && w.fetch != [] && !Malformed(Logs(), w.fetch) ==>
        (forall t | t in w.tables :: Calm(w.fates[t])) ==> b.applied
      ensures !w.failed && w.acked && AllTombstones(cons.log, w.fetch) ==>
        ok && writer.db.store == old(writer.db.store) && forall p :: p in w.fetch ==> p.off < At(cons.committed, p.tp)
      ensures !b.applied ==> cons.marked == old(cons.marked) && cons.committed == old(cons.committed)
      ensures Malformed(Logs(), w.fetch) ==> !ok && !b.applied && writer.db.store == old(writer.db.store)
      ensures b.applied ==> (b.commit.Took? <==> w.took)
      ensures b.applied && BulksInOrder(EventsIn(Logs(), b.fetch), w.tables, w.fates) ==> KeepsOrder(Logs(), b.ran)
    {
      hide ValidFetch, Advance, Decode, Bodies, Run, EventPositions, EventsIn, Part, ValidBatch, Malformed;
      hide AfterBatch, BulksGo, AllTombstones, ValidPlan, CoversTables, BulksInOrder;
      var polled := cons.Poll(w.fetch, w.failed);
      ghost var logs, s := Logs(), old(View());
      FetchOfBodies(canon, cons.log, s.position, w.fetch);
      if polled.Err? {
        b := Batch(w.fetch, [], false, NotTried);
        StoppedBatch(logs, s, w.fetch);
        FailureKeeps(logs, s, b, writer.schemaVersion);
        BatchMeans(canon, cons.log, s, b, w, writer.schemaVersion);
        return false, b;
      }
      MalformedIff(logs, w.fetch);
      var records := polled.value;
      if |records| == 0 {
        b := Batch([], [], false, NotTried);
        NothingPolled(logs, s, writer.schemaVersion);
        FailureKeeps(logs, s, b, writer.schemaVersion);
        BatchMeans(canon, cons.log, s, b, w, writer.schemaVersion);
        return true, b;
      }
      assert Polled(records, w.fetch) by {
        forall i | 0 <= i < |w.fetch|
          ensures InLog(logs, w.fetch[i])
          ensures Decode(canon, records[i].key, records[i].value) == RecordAt(logs, w.fetch[i])
        {
          BodyAt(canon, cons.log, w.fetch[i]);
        }
      }
      var decoded := DecodeAll(records, w.fetch);
      if decoded.Err? {
        b := Batch(w.fetch, [], false, NotTried);
        StoppedBatch(logs, s, w.fetch);
        FailureKeeps(logs, s, b, writer.schemaVersion);
        BatchMeans(canon, cons.log, s, b, w, writer.schemaVersion);
        return false, b;
      }
      ok, b := Deliver(records, decoded.value, w, s, w.fetch);
      FailureKeeps(logs, s, b, writer.schemaVersion);
      BatchMeans(canon, cons.log, s, b, w, writer.schemaVersion);
    }

    /** The second half of RunOnce, from ApplyBatch on. */
    method Deliver(records: seq<Record>, events: seq<CDCEvent>, w: Weather, ghost s: Sink, ghost fetch: seq<Pos>)
      returns (ok: bool, ghost b: Batch)
      requires Polled(records, fetch) && fetch != [] && (w.acked ==> w.took)
      requires ValidFetch(Logs(), s.position, fetch) && NoPoison(Logs(), fetch) && events == EventsIn(Logs(), fetch)
      requires CoversTables(events, w.tables) && ValidPlan(events, w.tables, w.fates)
      requires View() == s.(position := Advance(s.position, fetch))
      modifies this`hist, cons`marked, cons`committed, writer, writer.db
      ensures b.fetch == fetch && ValidBatch(Logs(), s, b) && View() == AfterBatch(Logs(), s, b, writer.schemaVersion)
      ensures ok <==> b.applied && w.acked
      ensures b.applied <==> AllBuildable(events) && BulksGo(s.store, events, w.tables, w.fates, writer.schemaVersion)
      ensures b.applied ==> (b.commit.Took? <==> w.took)
      ensures b.applied && BulksInOrder(events, w.tables, w.fates) ==> KeepsOrder(Logs(), b.ran)
    {
      hide ValidFetch, Advance, Decode, Bodies, Run, EventPositions, EventsIn, Part, ValidBatch;
      hide BulksGo, BulksInOrder, KeepsOrder, ValidPlan, AllBuildable;
      ghost var logs := Logs();
      ghost var trace: seq<nat> := [];
      ghost var commit := if w.took then Took else DidNotTake;
      if |events| > 0 {
        var applied;
        applied, trace := Apply(events, w.tables, w.fates);
        if !AllBuildable(events) {
          b := Batch(fetch, [], false, NotTried);
          StoppedBatch(logs, s, fetch);
          return false, b;
        }
        TraceIsBatch(logs, s, fetch, trace, applied, if applied then commit else NotTried);
        hist := hist + RanPositions(logs, fetch, trace);
        if !applied {
          b := Batch(fetch, RanPositions(logs, fetch, trace), false, NotTried);
          return false, b;
        }
      } else {
        NothingToApply(s.store, events, w.tables, w.fates, writer.schemaVersion);
        TraceIsBatch(logs, s, fetch, trace, true, commit);
      }
      MarkAll(records, fetch);
      b := Batch(fetch, RanPositions(logs, fetch, trace), true, commit);
      ok := cons.CommitMarked(w.took, w.acked);
    }

    /** ApplyBatch together with the trace of what it executed. */
    method Apply(events: seq<CDCEvent>, tables: seq<string>, fates: map<string, Fate>)
      returns (applied: bool, ghost trace: seq<nat>)
      requires CoversTables(events, tables) && ValidPlan(events, tables, fates)
      modifies writer, writer.db
      ensures applied <==>
        AllBuildable(events) && BulksGo(old(writer.db.store), events, tables, fates, writer.schemaVersion)
      ensures !AllBuildable(events) ==> writer.db.store == old(writer.db.store)
      ensures AllBuildable(events) ==> InRange(trace, |events|) && Distinct(trace)
      ensures AllBuildable(events) ==>
        writer.db.store == Run(old(writer.db.store), Pick(events, trace), writer.schemaVersion)
      ensures AllBuildable(events) && applied ==> forall i: nat :: i < |events| ==> i in trace
      ensures AllBuildable(events) && BulksInOrder(events, tables, fates) ==> OrderKept(events, trace)
    {
      hide Run, Outcomes, ApplyTables, IndicesOf, Part;
      ghost var start := Applied(writer.db.store, [], writer.skips, true);
      NothingRun(start, events, writer.schemaVersion);
      applied := writer.ApplyBatch(events, tables, fates);
      trace := ApplyTables(start, events, tables, fates, writer.schemaVersion).trace;
      ApplyTablesRunsTrace(start.store, start, events, tables, fates, writer.schemaVersion);
      if BulksInOrder(events, tables, fates) {
        BulksKeepOrder(start, events, tables, fates, writer.schemaVersion);
      }
    }
  }

  lemma NothingPolled(logs: Logs<Body>, s: Sink, v: int)
    ensures ValidBatch(logs, s, Batch([], [], false, NotTried))
    ensures AfterBatch(logs, s, Batch([], [], false, NotTried), v) == s && Advance(s.position, []) == s.position
  {
  }

  /** A record that does not decode, or an event without a row image, stops the batch with nothing written. */
  lemma StoppedBatch(logs: Logs<Body>, s: Sink, fetch: seq<Pos>)
    requires ValidFetch(logs, s.position, fetch)
    ensures ValidBatch(logs, s, Batch(fetch, [], false, NotTried))
    ensures forall v ::
      AfterBatch(logs, s, Batch(fetch, [], false, NotTried), v) == s.(position := Advance(s.position, fetch))
  {
  }
}

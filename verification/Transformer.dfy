/**
 services/transformer/cmd/transformer/main.go: runOnce, which transforms and republishes one poll and
 commits what it has published before the first error. Each call is one round of the protocol.
 */
module Transformer {
  import opened Wrappers
  import opened JsonValues
  import opened Decoder
  import opened Writer
  import opened Mongo
  import opened Mapper
  import opened Commute
  import opened Kafka
  import opened KafkaClient
  import opened Consumer
  import opened SinkProtocol
  import opened TransformerProtocol
  import opened SinkRuns
  import opened Pipeline
  import opened Convergence

  /** "cdc.users" becomes "transformed.users"; any other name is prefixed. */
  function TargetTopic(source: string): string {
    "transformed." + if |source| >= 4 && source[..4] == "cdc." then source[4..] else source
  }

  lemma TargetTopicIs(name: string)
    ensures TargetTopic("cdc." + name) == "transformed." + name
    ensures !("cdc." <= name) ==> TargetTopic(name) == "transformed." + name
  {
    assert ("cdc." + name)[..4] == "cdc." && ("cdc." + name)[4..] == name;
  }

  /** Two topics are forwarded to one exactly when they are the same, or one is the other behind "cdc.". */
  lemma TargetTopicsMeetIff(a: string, b: string)
    ensures TargetTopic(a) == TargetTopic(b)
       <==> a == b || (a == "cdc." + b && !("cdc." <= b)) || (b == "cdc." + a && !("cdc." <= a))
  {
    var x := if "cdc." <= a then a[4..] else a;
    var y := if "cdc." <= b then b[4..] else b;
    assert "cdc." <= a ==> a == "cdc." + x;
    assert "cdc." <= b ==> b == "cdc." + y;
    assert TargetTopic(a) == "transformed." + x && TargetTopic(b) == "transformed." + y by {
      TargetTopicIs(x);
      TargetTopicIs(y);
    }
    assert ("transformed." + x)[12..] == x && ("transformed." + y)[12..] == y;
    assert ("cdc." + b)[4..] == b && ("cdc." + a)[4..] == a;
  }

  /** How this deployment transforms and routes: the rules, double printing, and the output topics' partitioner. */
  datatype Setup = Setup(rules: Rules, canon: string -> string, partition: (string, Wire) -> int)

  /** What is published for a record, if it transforms: a tombstone as it is, the key kept. */
  function Sent(cfg: Setup, topic: string, raw: Raw, orders: Orders): Result<Raw> {
    if raw.value.Nil? then Ok(raw)
    else
      var value := Transform(cfg.rules, cfg.canon, topic, raw.value, orders);
      if value.Ok? then Ok(Raw(raw.key, value.value)) else Err
  }

  ghost predicate TransformsAt(cfg: Setup, log: Logs<Raw>, p: Pos, orders: Orders) {
    InLog(log, p) && Sent(cfg, p.tp.topic, RecordAt(log, p), orders).Ok?
  }

  /** The record at `p` transforms, and its produce is acknowledged. */
  ghost predicate GoesAt(cfg: Setup, log: Logs<Raw>, p: Pos, orders: Orders, fate: ProduceFate) {
    TransformsAt(cfg, log, p, orders) && fate.Acked?
  }

  /** `orders` are ways for Go to iterate the maps of one call on this record. */
  ghost predicate Iterates(cfg: Setup, raw: Raw, orders: Orders) {
    raw.value.Nil? || ValidOrders(cfg.rules, cfg.canon, raw.value, orders)
  }

  /** `sent` is what some execution publishes for the record; executions may iterate maps differently. */
  ghost predicate CameFrom(cfg: Setup, topic: string, raw: Raw, sent: Raw) {
    exists orders :: Iterates(cfg, raw, orders) && Sent(cfg, topic, raw, orders) == Ok(sent)
  }

  ghost function SomeSent(cfg: Setup, topic: string, raw: Raw): Result<Raw> {
    Sent(cfg, topic, raw, SomeOrders(cfg.rules, cfg.canon, raw.value))
  }

  function Destination(cfg: Setup, topic: string, key: Wire): TP {
    TP(TargetTopic(topic), cfg.partition(TargetTopic(topic), key))
  }

  ghost function ItemOf(cfg: Setup, topic: string, raw: Raw): Item {
    var sent := SomeSent(cfg, topic, raw);
    Item(Destination(cfg, topic, raw.key),
         if sent.Ok? then Some(Decode(cfg.canon, sent.value.key, sent.value.value)) else None)
  }

  /** The input log as the protocol sees it. */
  ghost function Items(cfg: Setup, log: Logs<Raw>): Logs<Item> {
    map tp | tp in log :: seq(|log[tp]|, i requires 0 <= i < |log[tp]| => ItemOf(cfg, tp.topic, log[tp][i]))
  }

  /** Every record of the log transforms to one value, whatever the iteration orders. */
  ghost predicate AllDetermined(cfg: Setup, log: Logs<Raw>) {
    forall p | InLog(log, p) :: Determined(cfg.rules, cfg.canon, p.tp.topic, RecordAt(log, p).value)
  }

  /** Executions agree on whether a record is published, and on what if it is determined. */
  lemma SendsAgree(cfg: Setup, topic: string, raw: Raw, orders: Orders)
    requires Iterates(cfg, raw, orders)
    ensures Sent(cfg, topic, raw, orders).Ok? <==> SomeSent(cfg, topic, raw).Ok?
    ensures Determined(cfg.rules, cfg.canon, topic, raw.value)
      ==> Sent(cfg, topic, raw, orders) == SomeSent(cfg, topic, raw)
  {
    hide Transform, Determined, ValidOrders, SomeOrders;
    if !raw.value.Nil? {
      TransformOrderFree(cfg.rules, cfg.canon, topic, raw.value, orders);
    }
  }

  lemma ItemAt(cfg: Setup, log: Logs<Raw>, p: Pos)
    ensures InLog(Items(cfg, log), p) <==> InLog(log, p)
    ensures InLog(log, p) ==> RecordAt(Items(cfg, log), p) == ItemOf(cfg, p.tp.topic, RecordAt(log, p))
  {
    hide ItemOf;
  }

  lemma {:induction false} FetchOfItems(cfg: Setup, log: Logs<Raw>, m: Offsets, fetch: seq<Pos>)
    requires ValidFetch(log, m, fetch)
    ensures ValidFetch(Items(cfg, log), m, fetch)
  {
    if fetch != [] {
      FetchOfItems(cfg, log, m, fetch[..|fetch| - 1]);
      ItemAt(cfg, log, fetch[|fetch| - 1]);
    }
  }

  /** `out` holds, record for record, what some execution published for the input positions in `prov`. */
  ghost predicate Mirrors(cfg: Setup, log: Logs<Raw>, out: Logs<Raw>, prov: Logs<Pos>) {
    && out.Keys == prov.Keys
    && (forall d :: d in out ==> |out[d]| == |prov[d]|)
    && forall d, i | d in out && 0 <= i < |out[d]| ::
         InLog(log, prov[d][i]) && CameFrom(cfg, prov[d][i].tp.topic, RecordAt(log, prov[d][i]), out[d][i])
  }

  /** The log the sink decodes is the one the pipeline protocol derives from the provenance. */
  lemma SinkReadsDownstream(cfg: Setup, log: Logs<Raw>, out: Logs<Raw>, prov: Logs<Pos>)
    requires Mirrors(cfg, log, out, prov) && AllDetermined(cfg, log)
    ensures Bodies(cfg.canon, out) == Downstream(Items(cfg, log), prov)
  {
    hide Sent, Decode, Determined, Iterates, SomeSent;
    var left, right := Bodies(cfg.canon, out), Downstream(Items(cfg, log), prov);
    forall d | d in out ensures left[d] == right[d] {
      forall i | 0 <= i < |out[d]| ensures left[d][i] == right[d][i] {
        var p := prov[d][i];
        ItemAt(cfg, log, p);
        assert CameFrom(cfg, p.tp.topic, RecordAt(log, p), out[d][i]);
        var orders :| Iterates(cfg, RecordAt(log, p), orders)
                      && Sent(cfg, p.tp.topic, RecordAt(log, p), orders) == Ok(out[d][i]);
        SendsAgree(cfg, p.tp.topic, RecordAt(log, p), orders);
      }
    }
  }

  /** The output is what it was before, plus the first `n` records of the poll. */
  ghost predicate PublishedUpTo(src: Logs<Item>, before: Logs<Pos>, prov: Logs<Pos>, fetch: seq<Pos>, n: nat) {
    n <= |fetch| && AllForwardable(src, fetch[..n]) && prov == Publish(src, before, fetch[..n])
  }

  lemma NothingPublished(src: Logs<Item>, before: Logs<Pos>, fetch: seq<Pos>)
    ensures PublishedUpTo(src, before, before, fetch, 0)
  {
  }

  lemma OneMorePublished(src: Logs<Item>, before: Logs<Pos>, prov: Logs<Pos>, fetch: seq<Pos>, i: nat)
    requires i < |fetch| && PublishedUpTo(src, before, prov, fetch, i) && Forwardable(src, fetch[i])
    ensures PublishedUpTo(src, before, Publish(src, prov, [fetch[i]]), fetch, i + 1)
  {
    assert fetch[..i + 1][..i] == fetch[..i];
    assert [fetch[i]][..0] == [];
  }

  /** The fate of one produce: acknowledged, failed but stored all the same, or failed. */
  datatype ProduceFate = Acked | Stored | Dropped

  lemma Publishable(cfg: Setup, log: Logs<Raw>, p: Pos, sent: Raw)
    requires InLog(log, p) && CameFrom(cfg, p.tp.topic, RecordAt(log, p), sent)
    ensures Forwardable(Items(cfg, log), p)
    ensures DestOf(Items(cfg, log), p) == Destination(cfg, p.tp.topic, RecordAt(log, p).key)
  {
    hide Sent, Iterates, SomeSent, Decode;
    ItemAt(cfg, log, p);
    var raw := RecordAt(log, p);
    var orders :| Iterates(cfg, raw, orders) && Sent(cfg, p.tp.topic, raw, orders) == Ok(sent);
    SendsAgree(cfg, p.tp.topic, raw, orders);
  }

  class Service {
    const cons: GroupConsumer
    const mapper: RuleMapper
    const cfg: Setup
    var out: Logs<Raw>
    ghost var prov: Logs<Pos>

    constructor (cons: GroupConsumer, mapper: RuleMapper, cfg: Setup)
      requires mapper.byQName == cfg.rules
      ensures this.cons == cons && this.mapper == mapper && this.cfg == cfg && out == map[] && prov == map[]
      ensures Valid()
    {
      this.cons := cons;
      this.mapper := mapper;
      this.cfg := cfg;
      out, prov := map[], map[];
    }

    ghost predicate Valid()
      reads this, cons`log
    {
      mapper.byQName == cfg.rules && Mirrors(cfg, cons.log, out, prov)
    }

    ghost function View(): Stage
      reads this, cons
    {
      Stage(cons.position, cons.marked, cons.committed, prov)
    }

    ghost function Source(): Logs<Item>
      reads cons`log
    {
      Items(cfg, cons.log)
    }

    /** Transform one record; a nil value is forwarded unchanged. */
    method Outgoing(r: Record, orders: Orders) returns (sent: Result<Raw>)
      requires Valid() && Iterates(cfg, Raw(r.key, r.value), orders)
      ensures sent == Sent(cfg, r.pos.tp.topic, Raw(r.key, r.value), orders)
      ensures r.value.Nil? ==> sent == Ok(Raw(r.key, Nil))
      ensures sent.Ok? ==> sent.value.key == r.key
      ensures sent.Ok? ==> CameFrom(cfg, r.pos.tp.topic, Raw(r.key, r.value), sent.value)
    {
      if r.value.Nil? {
        return Ok(Raw(r.key, Nil));
      }
      var value := mapper.ApplyJSON(cfg.canon, r.pos.tp.topic, r.value, orders);
      if value.Err? {
        return Err;
      }
      return Ok(Raw(r.key, value.value));
    }

    method Produce(r: Record, sent: Raw, fate: ProduceFate) returns (ok: bool)
      requires Valid() && InLog(cons.log, r.pos) && r == RecordOf(cons.log, r.pos)
      requires CameFrom(cfg, r.pos.tp.topic, RecordAt(cons.log, r.pos), sent)
      modifies this`out, this`prov
      ensures Valid() && ok == fate.Acked? && Forwardable(Source(), r.pos)
      ensures prov == if fate.Dropped? then old(prov) else Publish(Source(), old(prov), [r.pos])
      ensures forall d :: LogOf(old(out), d) <= LogOf(out, d)
      ensures var dest := TP(TargetTopic(r.pos.tp.topic), cfg.partition(TargetTopic(r.pos.tp.topic), r.key));
        out == if fate.Dropped? then old(out) else old(out)[dest := LogOf(old(out), dest) + [sent]]
    {
      hide Sent, SomeSent, Iterates;
      var dest := Destination(cfg, r.pos.tp.topic, r.key);
      Publishable(cfg, cons.log, r.pos, sent);
      if !fate.Dropped? {
        assert Publish(Source(), prov, [r.pos][..0]) == prov;
        out := out[dest := LogOf(out, dest) + [sent]];
        prov := prov[dest := LogOf(prov, dest) + [r.pos]];
      }
      return fate.Acked?;
    }

    /** The record transforms, and its produce is acknowledged. */
    ghost predicate Goes(r: Record, orders: Orders, fate: ProduceFate) {
      Sent(cfg, r.pos.tp.topic, Raw(r.key, r.value), orders).Ok? && fate.Acked?
    }

    /** The records that are processed before the first error, and how far the output got. */
    method ProcessAll(records: seq<Record>, fates: seq<ProduceFate>, orders: seq<Orders>, ghost fetch: seq<Pos>)
      returns (committable: seq<Record>, failed: bool, ghost stray: bool)
      requires Valid() && |records| == |fates| == |orders| == |fetch|
      requires forall i :: 0 <= i < |fetch| ==> InLog(cons.log, fetch[i]) && records[i] == RecordOf(cons.log, fetch[i])
      requires forall i :: 0 <= i < |fetch| ==> Iterates(cfg, Raw(records[i].key, records[i].value), orders[i])
      modifies this`out, this`prov
      ensures Valid() && committable <= records
      ensures failed <==> committable != records
      ensures forall i | 0 <= i < |committable| :: Goes(records[i], orders[i], fates[i])
      ensures failed ==> var i := |committable|; i < |records| && !Goes(records[i], orders[i], fates[i])
      ensures stray <==> failed && var i := |committable|;
        Sent(cfg, records[i].pos.tp.topic, Raw(records[i].key, records[i].value), orders[i]).Ok? && fates[i].Stored?
      ensures PublishedUpTo(Source(), old(prov), prov, fetch, |committable| + if stray then 1 else 0)
      ensures forall d :: LogOf(old(out), d) <= LogOf(out, d)
    {
      hide Items, Mirrors, Sent, PublishedUpTo, Iterates, Publish, TargetTopic, CameFrom;
      NothingPublished(Source(), prov, fetch);
      committable, failed, stray := [], false, false;
      for i := 0 to |records|
        invariant Valid() && committable <= records
        invariant if failed then |committable| < i else |committable| == i
        invariant forall j | 0 <= j < |committable| :: Goes(records[j], orders[j], fates[j])
        invariant failed ==> !Goes(records[|committable|], orders[|committable|], fates[|committable|])
        invariant stray <==> failed && var j := |committable|;
          Sent(cfg, records[j].pos.tp.topic, Raw(records[j].key, records[j].value), orders[j]).Ok? && fates[j].Stored?
        invariant PublishedUpTo(Source(), old(prov), prov, fetch, |committable| + if stray then 1 else 0)
        invariant forall d :: LogOf(old(out), d) <= LogOf(out, d)
      {
        if failed {
          continue;
        }
        var sent := Outgoing(records[i], orders[i]);
        if sent.Err? {
          failed := true;
          continue;
        }
        ghost var before := prov;
        var acked := Produce(records[i], sent.value, fates[i]);
        OneMorePublished(Source(), old(prov), before, fetch, i);
        if !acked {
          failed := true;
          stray := fates[i].Stored?;
          continue;
        }
        committable := committable + [records[i]];
      }
    }

    /** `orders` are the map iterations of this execution; a replayed record may meet others. */
    method RunOnce(
        fetch: seq<Pos>, pollFailed: bool, fates: seq<ProduceFate>, orders: seq<Orders>, took: bool, acked: bool)
      returns (ok: bool, ghost r: Round)
      requires Valid() && (acked ==> took)
      requires ValidFetch(cons.log, cons.position, fetch) && |fates| == |orders| == |fetch|
      requires forall i | 0 <= i < |fetch| && InLog(cons.log, fetch[i]) ::
        Iterates(cfg, RecordAt(cons.log, fetch[i]), orders[i])
      modifies this`out, this`prov, cons`position, cons`marked, cons`committed
      ensures Valid() && r.fetch == fetch
      ensures ValidRound(Source(), old(View()), r) && View() == AfterRound(Source(), old(View()), r)
      ensures pollFailed ==> !ok && r.acked == 0 && !r.stray && out == old(out)
      ensures !pollFailed ==> forall i | 0 <= i < r.acked :: GoesAt(cfg, cons.log, fetch[i], orders[i], fates[i])
      ensures !pollFailed && r.acked < |fetch| ==>
        !GoesAt(cfg, cons.log, fetch[r.acked], orders[r.acked], fates[r.acked])
      ensures r.stray ==> !pollFailed && r.acked < |fetch|
      ensures !pollFailed && r.acked < |fetch| ==>
        (r.stray <==> TransformsAt(cfg, cons.log, fetch[r.acked], orders[r.acked]) && fates[r.acked].Stored?)
      ensures !pollFailed && (forall i | 0 <= i < |fetch| :: GoesAt(cfg, cons.log, fetch[i], orders[i], fates[i]))
        ==> r.acked == |fetch| && (acked ==> ok)
      ensures !pollFailed ==> (ok <==> r.acked == |r.fetch| && (r.acked == 0 || acked))
      ensures r.acked > 0 ==> r.commit == if took then Took else DidNotTake
      ensures forall d :: LogOf(old(out), d) <= LogOf(out, d)
    {
      hide ValidFetch, Advance, Items, Publish, Iterates, Mirrors, Sent;
      ghost var s := old(View());
      FetchOfItems(cfg, cons.log, s.position, fetch);
      var polled := cons.Poll(fetch, pollFailed);
      if polled.Err? {
        r := Round(fetch, 0, false, NotTried);
        PublishNothing(Source(), prov, fetch);
        return false, r;
      }
      var records := polled.value;
      ghost var stray;
      var committable, failed;
      committable, failed, stray := ProcessAll(records, fates, orders, fetch);
      ghost var commit := if |committable| == 0 then NotTried else if took then Took else DidNotTake;
      r := Round(fetch, |committable|, stray, commit);
      assert Produced(r) == fetch[..|committable| + if stray then 1 else 0];
      ok := !failed;
      if |committable| > 0 {
        assert Positions(committable) == fetch[..|committable|];
        cons.MarkCommitRecords(committable);
        var done := cons.CommitMarked(took, acked);
        ok := ok && done;
      }
    }
  }

  lemma PublishNothing(src: Logs<Item>, out: Logs<Pos>, fetch: seq<Pos>)
    ensures Produced(Round(fetch, 0, false, NotTried)) == [] && Publish(src, out, []) == out
  {
  }

  /** The rule of a record and the event its envelope decodes to with that rule's renames. */
  ghost function RenamedRecord(cfg: Setup, topic: string, raw: Raw): Body {
    var orders := SomeOrders(cfg.rules, cfg.canon, raw.value);
    RenamedBody(Decode(cfg.canon, raw.key, raw.value), Selected(cfg.rules, cfg.canon, topic, raw.value, orders), orders)
  }

  /** An image and what becomes of it: each field under the name the rule gives it. */
  ghost predicate RenamedImage(before: Option<Fields>, after: Option<Fields>, rule: Rule) {
    && (before.Some? <==> after.Some?)
    && (before.Some? ==> RenamesTo(before.value, rule.fields, after.value))
  }

  /** The rule of a record is that of its payload and topic; only the images of its event change, each field renamed. */
  lemma RenamedRecordIs(cfg: Setup, topic: string, raw: Raw)
    requires Decode(cfg.canon, raw.key, raw.value).Event?
    ensures HasPayload(raw.value) && RenamedRecord(cfg, topic, raw).Event?
    ensures var ev, sent := Decode(cfg.canon, raw.key, raw.value).ev, RenamedRecord(cfg, topic, raw).ev;
      var rule := LookupForPayload(cfg.rules, Listing(cfg.rules.Keys), PayloadOf(cfg.canon, raw.value), topic);
      && sent == ev.(after := sent.after, before := sent.before)
      && (rule.None? ==> sent == ev)
      && (rule.Some? ==> RenamedImage(ev.after, sent.after, rule.value))
      && (rule.Some? ==> RenamedImage(ev.before, sent.before, rule.value))
  {
    hide LookupForPayload, RenamesTo, Renamed, Listing;
    EventHasPayload(cfg.canon, raw.key, raw.value);
    var ev := Decode(cfg.canon, raw.key, raw.value).ev;
    var orders := SomeOrders(cfg.rules, cfg.canon, raw.value);
    var rule := LookupForPayload(cfg.rules, Listing(cfg.rules.Keys), PayloadOf(cfg.canon, raw.value), topic);
    assert rule == Selected(cfg.rules, cfg.canon, topic, raw.value, orders);
    hide Decode, Selected, SomeOrders;
    if rule.Some? {
      if ev.after.Some? {
        RenamedMeans(ev.after.value, rule.value.fields, orders.after);
      }
      if ev.before.Some? {
        RenamedMeans(ev.before.value, rule.value.fields, orders.before);
      }
    }
  }

  /** A decoded event's images are those of the payload. */
  lemma EventHasPayload(canon: string -> string, key: Wire, value: Wire)
    requires Decode(canon, key, value).Event?
    ensures HasPayload(value)
    ensures var ev, payload := Decode(canon, key, value).ev, PayloadOf(canon, value);
      && (ev.after.Some? <==> "after" in payload && payload["after"].Obj?)
      && (ev.after.Some? ==> payload["after"].fields == ev.after.value)
      && (ev.before.Some? <==> "before" in payload && payload["before"].Obj?)
      && (ev.before.Some? ==> payload["before"].fields == ev.before.value)
  {
    hide DecodeKey, ParseInt64, IsNumberLiteral;
    EmptyDoesNotParse();
  }

  lemma EmptyDoesNotParse()
    ensures ParseInt64("") == None
  {
  }

  ghost predicate NumbersSurvive(cfg: Setup, raw: Raw) {
    Prints(cfg.canon, Member(SourceOf(raw.value), "lsn")) && Prints(cfg.canon, Member(SourceOf(raw.value), "ts_ms"))
  }

  /**
   What the sink makes of a forwarded record: the event of the source record with its row images
   renamed by the rule of its envelope, as long as its LSN and timestamp survive a double.
   */
  lemma ForwardedBodyIsRenamed(cfg: Setup, log: Logs<Raw>, p: Pos)
    requires InLog(log, p) && Forwardable(Items(cfg, log), p)
    requires Stable(cfg.canon) && NumbersSurvive(cfg, RecordAt(log, p))
    ensures CopyOf(Items(cfg, log), p) == RenamedRecord(cfg, p.tp.topic, RecordAt(log, p))
  {
    hide Transform, Selected, Decode, RenamedBody, Prints, Member, SourceOf, SomeOrders;
    var raw := RecordAt(log, p);
    ItemAt(cfg, log, p);
    var orders := SomeOrders(cfg.rules, cfg.canon, raw.value);
    if raw.value.Nil? {
      NilIsUnchanged(cfg, p.tp.topic, raw, orders);
    } else {
      TransformThenDecode(cfg.rules, cfg.canon, p.tp.topic, raw.key, raw.value, orders);
    }
  }

  lemma NilIsUnchanged(cfg: Setup, topic: string, raw: Raw, orders: Orders)
    requires raw.value.Nil?
    ensures var rule := Selected(cfg.rules, cfg.canon, topic, raw.value, orders);
      RenamedBody(Decode(cfg.canon, raw.key, raw.value), rule, orders) == Decode(cfg.canon, raw.key, raw.value)
  {
  }

  /**
   End to end on the wire: with both stages drained, whatever order the bulks executed in, Mongo shows
   for each separated row the newest source event, its fields renamed, or nothing if that event is a
   delete.
   */
  lemma MongoShowsRenamedRow(
      cfg: Setup, log: Logs<Raw>, moves: seq<PipeMove>, others: seq<PipeMove>, p: Pos, v: int)
    requires OrderlySource(Items(cfg, log)) && PipeRun(Items(cfg, log), moves, v)
    requires Drained(Items(cfg, log), End(Items(cfg, log), moves, v)) && PipeReorders(moves, others)
    requires InLog(log, p) && NewestInSource(Items(cfg, log), p) && Separated(Items(cfg, log), moves, p, v)
    requires Stable(cfg.canon) && NumbersSurvive(cfg, RecordAt(log, p))
    ensures var b := RenamedRecord(cfg, p.tp.topic, RecordAt(log, p));
      b.Event? && ShowsEvent(End(Items(cfg, log), others, v).sink.store, b.ev, v)
  {
    hide Items, RenamedRecord, PipeRun, Drained, End, Separated, OrderlySource, PipeReorders, KeyOf, Effect, ShowsEvent;
    EffectIffShown(End(Items(cfg, log), others, v).sink.store, SourceEventAt(Items(cfg, log), p), v);
    ForwardedBodyIsRenamed(cfg, log, p);
    SeparatedRowConverges(Items(cfg, log), moves, others, p, v);
  }
}

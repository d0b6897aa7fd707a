/**
 The sink as a state machine: services/sink/internal/consumer/consumer.go over a partitioned log,
 with partial bulk failures, failed commits, crashes and redelivery.
 */
module SinkProtocol {
  import opened Wrappers
  import opened Writer
  import opened Mongo
  import opened Survivor
  import opened Kafka
  import opened Decoder

  /**
   `position` is where the next poll reads, `marked` the marked and `committed` the committed
   offsets; `hist` lists the records whose writes ran against Mongo, in execution order.
   */
  datatype Sink = Sink(position: Offsets, marked: Offsets, committed: Offsets, hist: seq<Pos>, store: Store)

  const INIT := Sink(map[], map[], map[], [], map[])

  datatype CommitFate = NotTried | Took | DidNotTake

  /** One RunOnce: the poll, the writes that ran in order, whether ApplyBatch returned nil, the commit. */
  datatype Batch = Batch(fetch: seq<Pos>, ran: seq<Pos>, applied: bool, commit: CommitFate)

  predicate Writable(logs: Logs<Body>, p: Pos) {
    InLog(logs, p) && RecordAt(logs, p).Event? && Buildable(RecordAt(logs, p).ev)
  }

  predicate AllWritable(logs: Logs<Body>, ps: seq<Pos>) {
    forall i :: 0 <= i < |ps| ==> Writable(logs, ps[i])
  }

  function EventAt(logs: Logs<Body>, p: Pos): CDCEvent
    requires Writable(logs, p)
  {
    RecordAt(logs, p).ev
  }

  function EventsAt(logs: Logs<Body>, ps: seq<Pos>): (evs: seq<CDCEvent>)
    requires AllWritable(logs, ps)
    ensures |evs| == |ps| && forall i :: 0 <= i < |ps| ==> evs[i] == EventAt(logs, ps[i])
  {
    seq(|ps|, i requires 0 <= i < |ps| => EventAt(logs, ps[i]))
  }

  predicate Skippable(logs: Logs<Body>, p: Pos) {
    InLog(logs, p) && RecordAt(logs, p).Tombstone?
  }

  /** The record needs nothing more: a tombstone, or an event whose write has run. */
  predicate Settled(logs: Logs<Body>, hist: seq<Pos>, p: Pos) {
    Skippable(logs, p) || (Writable(logs, p) && p in hist)
  }

  ghost predicate ValidBatch(logs: Logs<Body>, s: Sink, b: Batch) {
    && ValidFetch(logs, s.position, b.fetch)
    && AllWritable(logs, b.ran)
    && (forall p :: p in b.ran ==> p in b.fetch)
    && (forall i, j :: 0 <= i < j < |b.ran| ==> b.ran[i] != b.ran[j])
    // A record that does not decode, or has no row image, stops the batch before any write.
    && (Malformed(logs, b.fetch) ==> b.ran == [] && !b.applied)
    && (b.applied ==> forall p :: p in b.fetch ==> Settled(logs, b.ran, p))
    && (b.commit.NotTried? <==> !b.applied || b.fetch == [])
  }

  /** Offsets are marked and committed only when the batch was applied; a failed commit may still have taken. */
  function AfterBatch(logs: Logs<Body>, s: Sink, b: Batch, v: int): Sink
    requires AllWritable(logs, b.ran)
  {
    var marked := if b.applied then Advance(s.marked, b.fetch) else s.marked;
    Sink(Advance(s.position, b.fetch), marked, if b.commit.Took? then s.committed + marked else s.committed,
         s.hist + b.ran, Run(s.store, EventsAt(logs, b.ran), v))
  }

  /** Some record of the poll does not decode, or is an event without a row image. */
  ghost predicate Malformed(logs: Logs<Body>, fetch: seq<Pos>) {
    exists p :: p in fetch && !Skippable(logs, p) && !Writable(logs, p)
  }

  /** A batch that fails leaves all offsets; one with a malformed record also leaves the store. */
  lemma FailureKeeps(logs: Logs<Body>, s: Sink, b: Batch, v: int)
    requires ValidBatch(logs, s, b)
    ensures var t := AfterBatch(logs, s, b, v);
      && (!b.applied ==> t.marked == s.marked && t.committed == s.committed)
      && (Malformed(logs, b.fetch) ==> !b.applied && b.fetch != [] && t.store == s.store)
  {
  }

  /** A commit that takes moves past every record of the batch. */
  lemma CommitsPast(logs: Logs<Body>, s: Sink, b: Batch, v: int)
    requires ValidBatch(logs, s, b) && b.applied && b.commit.Took?
    ensures forall p :: p in b.fetch ==> p.off < At(AfterBatch(logs, s, b, v).committed, p.tp)
  {
    forall p | p in b.fetch ensures p.off < At(AfterBatch(logs, s, b, v).committed, p.tp) {
      FetchHas(logs, s.position, b.fetch, p);
      AdvanceAt(s.marked, s.position, b.fetch, p.tp);
    }
  }

  /** A restart, a crash or a rebalance: reading resumes at the committed offsets, marks are forgotten. */
  function Rewound(s: Sink): Sink {
    s.(position := s.committed, marked := map[])
  }

  /** The redelivery contract of Poll: a batch starts at the committed offsets. */
  ghost predicate Resumed(s: Sink) {
    forall tp :: At(s.position, tp) == At(s.committed, tp)
  }

  /** One step of the sink; it stays put while something else in the pipeline moves. */
  datatype Move = Stay | Rewind | Take(batch: Batch)

  ghost predicate Enabled(logs: Logs<Body>, s: Sink, m: Move) {
    m.Take? ==> Resumed(s) && ValidBatch(logs, s, m.batch)
  }

  function After(logs: Logs<Body>, s: Sink, m: Move, v: int): Sink
    requires m.Take? ==> AllWritable(logs, m.batch.ran)
  {
    match m
    case Stay => s
    case Rewind => Rewound(s)
    case Take(b) => AfterBatch(logs, s, b, v)
  }

  ghost predicate InBounds(logs: Logs<Body>, s: Sink) {
    && (forall tp :: At(s.committed, tp) <= At(s.position, tp) <= |LogOf(logs, tp)|)
    && (forall tp :: tp in s.marked ==> At(s.committed, tp) <= s.marked[tp] <= At(s.position, tp))
  }

  /** The store is the result of the writes that ran, and nothing else. */
  ghost predicate Explained(logs: Logs<Body>, s: Sink, v: int) {
    AllWritable(logs, s.hist) && s.store == Run(map[], EventsAt(logs, s.hist), v)
  }

  /** Nothing below a committed offset was skipped. */
  ghost predicate NoLoss(logs: Logs<Body>, s: Sink) {
    forall p: Pos :: p.off < At(s.committed, p.tp) ==> Settled(logs, s.hist, p)
  }

  ghost predicate Safe(logs: Logs<Body>, s: Sink, v: int) {
    InBounds(logs, s) && Explained(logs, s, v) && NoLoss(logs, s)
  }

  lemma EventsConcat(logs: Logs<Body>, a: seq<Pos>, b: seq<Pos>)
    requires AllWritable(logs, a) && AllWritable(logs, b)
    ensures AllWritable(logs, a + b) && EventsAt(logs, a + b) == EventsAt(logs, a) + EventsAt(logs, b)
  {
  }

  lemma ExplainedAfter(logs: Logs<Body>, s: Sink, b: Batch, v: int)
    requires Explained(logs, s, v) && AllWritable(logs, b.ran)
    ensures Explained(logs, AfterBatch(logs, s, b, v), v)
  {
    hide Run;
    EventsConcat(logs, s.hist, b.ran);
    RunConcat(map[], EventsAt(logs, s.hist), EventsAt(logs, b.ran), v);
  }

  /** The offsets of one partition after one batch, wherever the batch starts. */
  lemma OffsetsAfter(logs: Logs<Body>, s: Sink, b: Batch, v: int, tp: TP)
    requires InBounds(logs, s) && ValidBatch(logs, s, b)
    ensures var t := AfterBatch(logs, s, b, v);
      && At(s.committed, tp) <= At(t.committed, tp) <= At(t.position, tp) <= |LogOf(logs, tp)|
      && (tp in t.marked ==> At(t.committed, tp) <= t.marked[tp] <= At(t.position, tp))
      && (At(t.committed, tp) == At(s.committed, tp)
          || (b.commit.Took? && tp in t.marked && At(t.committed, tp) == t.marked[tp]))
      && (tp in t.marked ==> if b.applied && Touches(b.fetch, tp) then t.marked[tp] == At(t.position, tp)
                             else tp in s.marked && t.marked[tp] == s.marked[tp])
  {
    AdvanceAt(s.marked, s.position, b.fetch, tp);
    AdvanceAt(s.position, s.marked, b.fetch, tp);
    FetchHas(logs, s.position, b.fetch, Pos(tp, 0));
    if At(Advance(s.position, b.fetch), tp) > At(s.position, tp) {
      FetchHas(logs, s.position, b.fetch, Pos(tp, At(Advance(s.position, b.fetch), tp) - 1));
    }
  }

  lemma SafeAfterBatch(logs: Logs<Body>, s: Sink, b: Batch, v: int)
    requires Safe(logs, s, v) && Resumed(s) && ValidBatch(logs, s, b)
    ensures Safe(logs, AfterBatch(logs, s, b, v), v)
    ensures forall tp :: At(s.committed, tp) <= At(AfterBatch(logs, s, b, v).committed, tp)
  {
    hide Run, ValidFetch, Advance;
    var t := AfterBatch(logs, s, b, v);
    assert InBounds(logs, t) && forall tp :: At(s.committed, tp) <= At(t.committed, tp) by {
      forall tp ensures At(s.committed, tp) <= At(t.committed, tp) <= At(t.position, tp) <= |LogOf(logs, tp)|
                ensures tp in t.marked ==> At(t.committed, tp) <= t.marked[tp] <= At(t.position, tp) {
        OffsetsAfter(logs, s, b, v, tp);
      }
    }
    assert NoLoss(logs, t) by {
      forall p: Pos | p.off < At(t.committed, p.tp) ensures Settled(logs, t.hist, p) {
        CommittedIsSettled(logs, s, b, v, p);
      }
    }
    assert Explained(logs, t, v) by {
      ExplainedAfter(logs, s, b, v);
    }
  }

  /** Under the redelivery contract every step keeps the sink safe, and committed offsets never go back. */
  lemma SafeStep(logs: Logs<Body>, s: Sink, m: Move, v: int)
    requires Safe(logs, s, v) && Enabled(logs, s, m)
    ensures Safe(logs, After(logs, s, m, v), v)
    ensures forall tp :: At(s.committed, tp) <= At(After(logs, s, m, v).committed, tp)
    ensures s.hist <= After(logs, s, m, v).hist
  {
    hide ValidFetch, Run, Advance;
    if m.Take? {
      SafeAfterBatch(logs, s, m.batch, v);
    }
  }

  lemma CommittedIsSettled(logs: Logs<Body>, s: Sink, b: Batch, v: int, p: Pos)
    requires InBounds(logs, s) && NoLoss(logs, s) && Resumed(s) && ValidBatch(logs, s, b)
    requires p.off < At(AfterBatch(logs, s, b, v).committed, p.tp)
    ensures Settled(logs, s.hist + b.ran, p)
  {
    if p.off < At(s.committed, p.tp) {
      assert Settled(logs, s.hist, p);
    } else {
      OffsetsAfter(logs, s, b, v, p.tp);
      FetchHas(logs, s.position, b.fetch, p);
      assert Settled(logs, b.ran, p);
    }
  }

  /** The contract costs nothing after success: the next poll already starts at the committed offsets. */
  lemma SuccessResumes(logs: Logs<Body>, s: Sink, b: Batch, v: int)
    requires InBounds(logs, s) && Resumed(s) && ValidBatch(logs, s, b) && b.commit.Took?
    ensures Resumed(AfterBatch(logs, s, b, v))
  {
    var t := AfterBatch(logs, s, b, v);
    forall tp ensures At(t.position, tp) == At(t.committed, tp) {
      OffsetsAfter(logs, s, b, v, tp);
      AdvanceAt(s.position, s.marked, b.fetch, tp);
    }
  }

  /** The records between a partition's committed offset and its read position are settled. */
  ghost predicate GapSettled(logs: Logs<Body>, s: Sink, fetch: seq<Pos>) {
    forall p: Pos :: Touches(fetch, p.tp) && At(s.committed, p.tp) <= p.off < At(s.position, p.tp)
      ==> Settled(logs, s.hist, p)
  }

  /**
   Without the contract: a successful commit keeps the sink free of loss exactly when nothing
   unsettled lies between the committed offset and the position the batch was read from.
   */
  lemma CommitSafeIff(logs: Logs<Body>, s: Sink, b: Batch, v: int)
    requires InBounds(logs, s) && NoLoss(logs, s) && ValidBatch(logs, s, b) && b.commit.Took?
    requires forall p: Pos :: p.tp in s.marked && p.off < s.marked[p.tp] ==> Settled(logs, s.hist, p)
    ensures NoLoss(logs, AfterBatch(logs, s, b, v)) <==> GapSettled(logs, s, b.fetch)
  {
    var t := AfterBatch(logs, s, b, v);
    if NoLoss(logs, t) {
      forall p: Pos | Touches(b.fetch, p.tp) && At(s.committed, p.tp) <= p.off < At(s.position, p.tp)
        ensures Settled(logs, s.hist, p)
      {
        AdvanceAt(s.marked, s.position, b.fetch, p.tp);
        FetchHas(logs, s.position, b.fetch, p);
        assert Settled(logs, t.hist, p);
      }
    }
    if GapSettled(logs, s, b.fetch) {
      forall p: Pos | p.off < At(t.committed, p.tp) ensures Settled(logs, t.hist, p) {
        OffsetsAfter(logs, s, b, v, p.tp);
        FetchHas(logs, s.position, b.fetch, p);
        if p in b.fetch {
          assert Settled(logs, b.ran, p);
        } else {
          assert Settled(logs, s.hist, p);
        }
      }
    }
  }

  /**
   Polling again after an error without resuming loses data: if a batch fails before the write of a
   record has run and the next batch of that partition is read on from there and committed, the
   committed offset has passed a record whose write never ran.
   */
  lemma WithoutResumeLoses(logs: Logs<Body>, s: Sink, failed: Batch, next: Batch, p: Pos, v: int)
    requires InBounds(logs, s) && NoLoss(logs, s) && Resumed(s) && s.marked == map[]
    requires ValidBatch(logs, s, failed) && !failed.applied
    requires p in failed.fetch && p !in failed.ran && p !in s.hist && !Skippable(logs, p)
    requires ValidBatch(logs, AfterBatch(logs, s, failed, v), next) && next.commit.Took? && Touches(next.fetch, p.tp)
    ensures var t := AfterBatch(logs, AfterBatch(logs, s, failed, v), next, v);
      p.off < At(t.committed, p.tp) && !Settled(logs, t.hist, p)
  {
    var m := AfterBatch(logs, s, failed, v);
    FetchHas(logs, s.position, failed.fetch, p);
    FetchHas(logs, m.position, next.fetch, p);
    AdvanceAt(m.marked, m.position, next.fetch, p.tp);
  }

  /** The writes of one ApplyBatch never put a delete ahead of an earlier record's upsert it would cover. */
  ghost predicate KeepsOrder(logs: Logs<Body>, ran: seq<Pos>)
    requires AllWritable(logs, ran)
  {
    forall i, j | 0 <= i < j < |ran| && ran[i].tp == ran[j].tp && ran[j].off < ran[i].off ::
      !Covers(EventAt(logs, ran[i]), EventAt(logs, ran[j]))
  }

  /** What the newest event of a row leaves in Mongo. */
  function Effect(ev: CDCEvent, v: int): Option<Doc> {
    if IsDelete(ev) then None else Some(Image(ev, v))
  }

  /** The store shows event `ev` of its row: no document after a delete, and otherwise its `after`, field by field. */
  ghost predicate ShowsEvent(store: Store, ev: CDCEvent, v: int) {
    if ev.op == "d" then KeyOf(ev) !in store else KeyOf(ev) in store && ShowsAfter(store[KeyOf(ev)], ev, v)
  }

  lemma EffectIffShown(store: Store, ev: CDCEvent, v: int)
    requires Buildable(ev)
    ensures Lookup(store, KeyOf(ev)) == Effect(ev, v) <==> ShowsEvent(store, ev, v)
  {
    hide KeyOf, Image, ShowsAfter;
    if !IsDelete(ev) && KeyOf(ev) in store {
      ImageIffAfter(store[KeyOf(ev)], ev, v);
    }
  }

  predicate SameRow(logs: Logs<Body>, p: Pos, q: Pos)
    requires Writable(logs, p) && Writable(logs, q)
  {
    KeyOf(EventAt(logs, p)) == KeyOf(EventAt(logs, q))
  }

  /** The events of a row all live in one partition of the log. */
  ghost predicate RowsPartitioned(logs: Logs<Body>) {
    forall p, q | Writable(logs, p) && Writable(logs, q) && SameRow(logs, p, q) :: p.tp == q.tp
  }

  /** Copies of an event are equal, and different events of a row differ in LSN. */
  ghost predicate LsnsIdentify(logs: Logs<Body>) {
    forall p, q | Writable(logs, p) && Writable(logs, q) && SameRow(logs, p, q) ::
      EventAt(logs, p).lsn == EventAt(logs, q).lsn ==> EventAt(logs, p) == EventAt(logs, q)
  }

  predicate SameImageKeys(logs: Logs<Body>, p: Pos, q: Pos)
    requires Writable(logs, p) && Writable(logs, q)
  {
    Image(EventAt(logs, p), 0).Keys == Image(EventAt(logs, q), 0).Keys
  }

  /** The upserts of a row name the same fields, as full row images do. */
  ghost predicate RowsFull(logs: Logs<Body>) {
    forall p, q | Writable(logs, p) && Writable(logs, q) && SameRow(logs, p, q) ::
      IsDelete(EventAt(logs, p)) || IsDelete(EventAt(logs, q)) || SameImageKeys(logs, p, q)
  }

  /** `q` holds the row's newest event below the offset `bound`, and no event of the row follows it there. */
  ghost predicate NewestBelow(logs: Logs<Body>, q: Pos, bound: nat) {
    && Writable(logs, q) && q.off < bound
    && forall p: Pos :: p.tp == q.tp && p.off < bound && Writable(logs, p) && SameRow(logs, p, q)
         ==> p.off <= q.off && EventAt(logs, p).lsn <= EventAt(logs, q).lsn
  }

  /** No write of the row has run from a record that is not committed yet. */
  ghost predicate NothingPending(logs: Logs<Body>, s: Sink, k: DocKey)
    requires AllWritable(logs, s.hist)
  {
    forall i :: 0 <= i < |s.hist| && KeyOf(EventAt(logs, s.hist[i])) == k
      ==> s.hist[i].off < At(s.committed, s.hist[i].tp)
  }

  lemma FullRowsAgree(logs: Logs<Body>, hist: seq<Pos>, k: DocKey)
    requires RowsFull(logs) && AllWritable(logs, hist)
    ensures SameFields(EventsAt(logs, hist), k)
  {
    var evs := EventsAt(logs, hist);
    forall a, b | a in evs && b in evs && KeyOf(a) == KeyOf(b) == k && !IsDelete(a) && !IsDelete(b)
      ensures Image(a, 0).Keys == Image(b, 0).Keys
    {
      var i :| 0 <= i < |evs| && evs[i] == a;
      var j :| 0 <= j < |evs| && evs[j] == b;
      assert SameRow(logs, hist[i], hist[j]);
    }
  }

  /** Every document carries the LSN and the fields of some event whose write ran. */
  lemma DocumentsHaveProvenance(logs: Logs<Body>, s: Sink, k: DocKey, v: int)
    requires Safe(logs, s, v) && k in s.store
    ensures exists i :: 0 <= i < |s.hist| && KeyOf(EventAt(logs, s.hist[i])) == k && !IsDelete(EventAt(logs, s.hist[i]))
                        && Carries(s.store[k], EventAt(logs, s.hist[i]), v)
  {
    var evs := EventsAt(logs, s.hist);
    SurvivorTheorem(evs, k, v);
    var i :| Holder(evs, k, i, s.store[k], v);
    assert evs[i] == EventAt(logs, s.hist[i]);
  }
}

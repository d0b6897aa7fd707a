/**
 The transformer as a state machine: services/transformer/cmd/transformer/main.go over partitioned
 input and output logs, with errors in the middle of a batch, unacknowledged but stored produces,
 failed commits, crashes and redelivery.
 */
module TransformerProtocol {
  import opened Wrappers
  import opened Decoder
  import opened Kafka
  import opened SinkProtocol

  /**
   An input record: the output partition its key and topic select, and what the sink will make of
   the forwarded record, or None when the mapper rejects it.
   */
  datatype Item = Item(dest: TP, out: Option<Body>)

  /** `out` holds, per output partition, the input positions whose records were produced to it. */
  datatype Stage = Stage(position: Offsets, marked: Offsets, committed: Offsets, out: Logs<Pos>)

  const START := Stage(map[], map[], map[], map[])

  /**
   One runOnce: the first `acked` records were transformed and produced with an ack; `stray` says that
   the next one was stored although its produce failed; NotTried with acked records is a crash.
   */
  datatype Round = Round(fetch: seq<Pos>, acked: nat, stray: bool, commit: CommitFate)

  predicate Forwardable(src: Logs<Item>, p: Pos) {
    InLog(src, p) && RecordAt(src, p).out.Some?
  }

  predicate AllForwardable(src: Logs<Item>, ps: seq<Pos>) {
    forall i :: 0 <= i < |ps| ==> Forwardable(src, ps[i])
  }

  function DestOf(src: Logs<Item>, p: Pos): TP
    requires InLog(src, p)
  {
    RecordAt(src, p).dest
  }

  function Publish(src: Logs<Item>, out: Logs<Pos>, ps: seq<Pos>): Logs<Pos>
    requires AllForwardable(src, ps)
  {
    if ps == [] then out
    else
      var n := |ps| - 1;
      var before := Publish(src, out, ps[..n]);
      before[DestOf(src, ps[n]) := LogOf(before, DestOf(src, ps[n])) + [ps[n]]]
  }

  function Produced(r: Round): seq<Pos>
    requires r.acked + (if r.stray then 1 else 0) <= |r.fetch|
  {
    r.fetch[..r.acked + if r.stray then 1 else 0]
  }

  predicate ValidRound(src: Logs<Item>, s: Stage, r: Round) {
    && ValidFetch(src, s.position, r.fetch)
    && r.acked + (if r.stray then 1 else 0) <= |r.fetch|
    && AllForwardable(src, Produced(r))
    && (r.acked == 0 ==> r.commit.NotTried?)
  }

  /** Only the acked prefix is marked; the rest of the poll is dropped. */
  function AfterRound(src: Logs<Item>, s: Stage, r: Round): Stage
    requires ValidRound(src, s, r)
  {
    var marked := if r.commit.NotTried? then s.marked else Advance(s.marked, r.fetch[..r.acked]);
    Stage(Advance(s.position, r.fetch), marked, if r.commit.Took? then s.committed + marked else s.committed,
          Publish(src, s.out, Produced(r)))
  }

  function Restarted(s: Stage): Stage {
    s.(position := s.committed, marked := map[])
  }

  /** The redelivery contract, as for the sink: a poll starts at the committed offsets. */
  ghost predicate AtCommitted(s: Stage) {
    forall tp :: At(s.position, tp) == At(s.committed, tp)
  }

  ghost predicate NextStage(src: Logs<Item>, s: Stage, t: Stage) {
    || t == Restarted(s)
    || exists r :: AtCommitted(s) && ValidRound(src, s, r) && t == AfterRound(src, s, r)
  }

  ghost predicate OffsetsInBounds(src: Logs<Item>, s: Stage) {
    && (forall tp :: At(s.committed, tp) <= At(s.position, tp))
    && (forall tp :: tp in s.marked ==> At(s.committed, tp) <= s.marked[tp] <= At(s.position, tp))
  }

  /** Every output record is the copy of a forwardable input record routed to that partition. */
  predicate WellRouted(src: Logs<Item>, out: Logs<Pos>) {
    forall d, i :: d in out && 0 <= i < |out[d]| ==> Forwardable(src, out[d][i]) && DestOf(src, out[d][i]) == d
  }

  ghost predicate LastAt(log: seq<Pos>, p: Pos, i: nat) {
    i < |log| && log[i] == p && forall j :: i < j < |log| && log[j].tp == p.tp ==> p.off < log[j].off
  }

  /** The output holds a copy of `p` behind which only later records of p's partition follow. */
  ghost predicate LastCopy(src: Logs<Item>, out: Logs<Pos>, p: Pos) {
    Forwardable(src, p) && exists i :: LastAt(LogOf(out, DestOf(src, p)), p, i)
  }

  ghost predicate StageSafe(src: Logs<Item>, s: Stage) {
    && OffsetsInBounds(src, s)
    && WellRouted(src, s.out)
    && forall p: Pos :: p.off < At(s.committed, p.tp) ==> LastCopy(src, s.out, p)
  }

  lemma {:induction false} PublishExtends(src: Logs<Item>, out: Logs<Pos>, ps: seq<Pos>)
    requires AllForwardable(src, ps)
    ensures forall d :: LogOf(out, d) <= LogOf(Publish(src, out, ps), d)
  {
    if ps != [] {
      PublishExtends(src, out, ps[..|ps| - 1]);
    }
  }

  lemma {:induction false} PublishRoutes(src: Logs<Item>, out: Logs<Pos>, ps: seq<Pos>)
    requires AllForwardable(src, ps) && WellRouted(src, out)
    ensures WellRouted(src, Publish(src, out, ps))
  {
    if ps != [] {
      PublishRoutes(src, out, ps[..|ps| - 1]);
    }
  }

  lemma PublishOneKeeps(src: Logs<Item>, out: Logs<Pos>, e: Pos, p: Pos)
    requires Forwardable(src, e) && LastCopy(src, out, p)
    requires e.tp == p.tp ==> p.off < e.off
    ensures LastCopy(src, out[DestOf(src, e) := LogOf(out, DestOf(src, e)) + [e]], p)
  {
    var i :| LastAt(LogOf(out, DestOf(src, p)), p, i);
    assert LastAt(LogOf(out[DestOf(src, e) := LogOf(out, DestOf(src, e)) + [e]], DestOf(src, p)), p, i);
  }

  lemma {:induction false} PublishKeeps(src: Logs<Item>, out: Logs<Pos>, ps: seq<Pos>, p: Pos)
    requires AllForwardable(src, ps) && LastCopy(src, out, p)
    requires forall i :: 0 <= i < |ps| && ps[i].tp == p.tp ==> p.off < ps[i].off
    ensures LastCopy(src, Publish(src, out, ps), p)
  {
    if ps != [] {
      var n := |ps| - 1;
      PublishKeeps(src, out, ps[..n], p);
      PublishOneKeeps(src, Publish(src, out, ps[..n]), ps[n], p);
    }
  }

  lemma {:induction false} PublishGives(src: Logs<Item>, out: Logs<Pos>, ps: seq<Pos>, k: nat)
    requires AllForwardable(src, ps) && k < |ps|
    requires forall i :: k < i < |ps| && ps[i].tp == ps[k].tp ==> ps[k].off < ps[i].off
    ensures LastCopy(src, Publish(src, out, ps), ps[k])
    decreases |ps|
  {
    var n := |ps| - 1;
    if k == n {
      var log := LogOf(Publish(src, out, ps), DestOf(src, ps[n]));
      assert LastAt(log, ps[n], |log| - 1);
    } else {
      PublishGives(src, out, ps[..n], k);
      PublishOneKeeps(src, Publish(src, out, ps[..n]), ps[n], ps[k]);
    }
  }

  /**
   Wherever the first error falls, the marked records are, in each partition, exactly a contiguous
   run of offsets from the read position, and each of them has been produced.
   */
  lemma MarkedIsProducedPrefix(src: Logs<Item>, s: Stage, r: Round, p: Pos)
    requires ValidRound(src, s, r)
    ensures var bound := At(Advance(s.position, r.fetch[..r.acked]), p.tp);
      && (p in r.fetch[..r.acked] <==> At(s.position, p.tp) <= p.off < bound)
      && bound <= At(Advance(s.position, r.fetch), p.tp)
    ensures p in r.fetch[..r.acked] ==> LastCopy(src, AfterRound(src, s, r).out, p)
  {
    hide ValidFetch, Advance, Publish;
    FetchPrefix(src, s.position, r.fetch, r.acked);
    FetchHas(src, s.position, r.fetch[..r.acked], p);
    PrefixBehind(src, s.position, r.fetch, r.acked, p.tp);
    if p in r.fetch[..r.acked] {
      var k :| 0 <= k < r.acked && r.fetch[k] == p;
      FetchCovers(src, s.position, r.fetch);
      assert Produced(r)[k] == p;
      PublishGives(src, s.out, Produced(r), k);
    }
  }

  lemma {:induction false} PrefixBehind(src: Logs<Item>, m: Offsets, fetch: seq<Pos>, n: nat, tp: TP)
    requires ValidFetch(src, m, fetch) && n <= |fetch|
    ensures At(Advance(m, fetch[..n]), tp) <= At(Advance(m, fetch), tp)
    decreases |fetch|
  {
    if n < |fetch| {
      PrefixBehind(src, m, fetch[..|fetch| - 1], n, tp);
      assert fetch[..|fetch| - 1][..n] == fetch[..n];
    } else {
      assert fetch[..n] == fetch;
    }
  }

  lemma StageOffsetsAfter(src: Logs<Item>, s: Stage, r: Round, tp: TP)
    requires OffsetsInBounds(src, s) && ValidRound(src, s, r) && AtCommitted(s)
    ensures var t := AfterRound(src, s, r);
      && At(s.committed, tp) <= At(t.committed, tp) <= At(t.position, tp)
      && (tp in t.marked ==> At(t.committed, tp) <= t.marked[tp] <= At(t.position, tp))
      && (At(t.committed, tp) == At(s.committed, tp)
          || At(t.committed, tp) == At(Advance(s.position, r.fetch[..r.acked]), tp))
  {
    var acked := r.fetch[..r.acked];
    FetchPrefix(src, s.position, r.fetch, r.acked);
    FetchHas(src, s.position, acked, Pos(tp, 0));
    PrefixBehind(src, s.position, r.fetch, r.acked, tp);
    AdvanceAt(s.marked, s.position, acked, tp);
  }

  /** After a round that was acknowledged and committed in full, the next poll is at the committed offsets. */
  lemma FullRoundResumes(src: Logs<Item>, s: Stage, r: Round)
    requires OffsetsInBounds(src, s) && AtCommitted(s) && ValidRound(src, s, r)
    requires r.acked == |r.fetch| && (r.acked == 0 || r.commit.Took?)
    ensures AtCommitted(AfterRound(src, s, r))
  {
    hide Publish, ValidFetch;
    assert r.fetch[..r.acked] == r.fetch;
    forall tp ensures At(AfterRound(src, s, r).position, tp) == At(AfterRound(src, s, r).committed, tp) {
      AdvanceAt(s.marked, s.position, r.fetch, tp);
      AdvanceAt(s.position, s.marked, r.fetch, tp);
    }
  }

  /**
   Every step keeps a last copy of each committed input record: a rewind restarts at the committed
   offset, so whatever is produced again is followed by a forward run over everything committed later.
   */
  lemma StageStep(src: Logs<Item>, s: Stage, t: Stage)
    requires StageSafe(src, s) && NextStage(src, s, t)
    ensures StageSafe(src, t)
    ensures forall tp :: At(s.committed, tp) <= At(t.committed, tp)
    ensures forall d :: LogOf(s.out, d) <= LogOf(t.out, d)
  {
    if t != Restarted(s) {
      var r :| AtCommitted(s) && ValidRound(src, s, r) && t == AfterRound(src, s, r);
      StageAfterRound(src, s, r);
    }
  }

  lemma StageAfterRound(src: Logs<Item>, s: Stage, r: Round)
    requires StageSafe(src, s) && AtCommitted(s) && ValidRound(src, s, r)
    ensures StageSafe(src, AfterRound(src, s, r))
    ensures forall tp :: At(s.committed, tp) <= At(AfterRound(src, s, r).committed, tp)
    ensures forall d :: LogOf(s.out, d) <= LogOf(AfterRound(src, s, r).out, d)
  {
    hide ValidFetch, Advance, Publish;
    var t := AfterRound(src, s, r);
    PublishExtends(src, s.out, Produced(r));
    PublishRoutes(src, s.out, Produced(r));
    assert OffsetsInBounds(src, t) && forall tp :: At(s.committed, tp) <= At(t.committed, tp) by {
      forall tp ensures At(s.committed, tp) <= At(t.committed, tp) <= At(t.position, tp)
                ensures tp in t.marked ==> At(t.committed, tp) <= t.marked[tp] <= At(t.position, tp) {
        StageOffsetsAfter(src, s, r, tp);
      }
    }
    forall p: Pos | p.off < At(t.committed, p.tp) ensures LastCopy(src, t.out, p) {
      CommittedHasLastCopy(src, s, r, p);
    }
  }

  lemma CommittedHasLastCopy(src: Logs<Item>, s: Stage, r: Round, p: Pos)
    requires StageSafe(src, s) && AtCommitted(s) && ValidRound(src, s, r)
    requires p.off < At(AfterRound(src, s, r).committed, p.tp)
    ensures LastCopy(src, AfterRound(src, s, r).out, p)
  {
    hide ValidFetch, Advance, Publish;
    if p.off < At(s.committed, p.tp) {
      assert LastCopy(src, s.out, p);
      forall i | 0 <= i < |Produced(r)| && Produced(r)[i].tp == p.tp ensures p.off < Produced(r)[i].off {
        FetchHas(src, s.position, r.fetch, r.fetch[i]);
      }
      PublishKeeps(src, s.out, Produced(r), p);
    } else {
      StageOffsetsAfter(src, s, r, p.tp);
      MarkedIsProducedPrefix(src, s, r, p);
    }
  }
}

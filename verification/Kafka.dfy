/**
 The broker contract both stages rely on: per-partition logs, and a consumer group that reads each
 partition in offset order from a position and commits offsets it has marked.
 */
module Kafka {
  datatype TP = TP(topic: string, partition: int)

  datatype Pos = Pos(tp: TP, off: nat)

  type Offsets = map<TP, nat>

  type Logs<R> = map<TP, seq<R>>

  function At(m: Offsets, tp: TP): nat {
    if tp in m then m[tp] else 0
  }

  function LogOf<R>(logs: Logs<R>, tp: TP): seq<R> {
    if tp in logs then logs[tp] else []
  }

  predicate InLog<R>(logs: Logs<R>, p: Pos) {
    p.off < |LogOf(logs, p.tp)|
  }

  function RecordAt<R>(logs: Logs<R>, p: Pos): R
    requires InLog(logs, p)
  {
    LogOf(logs, p.tp)[p.off]
  }

  /** `m` after reading (or marking) the records of `fetch` one after the other. */
  function Advance(m: Offsets, fetch: seq<Pos>): Offsets {
    if fetch == [] then m
    else
      var last := fetch[|fetch| - 1];
      Advance(m, fetch[..|fetch| - 1])[last.tp := last.off + 1]
  }

  /** One poll: any interleaving of partitions, each partition's records consecutive from its position. */
  predicate ValidFetch<R>(logs: Logs<R>, m: Offsets, fetch: seq<Pos>) {
    fetch == [] ||
    var n := |fetch| - 1;
    && ValidFetch(logs, m, fetch[..n])
    && InLog(logs, fetch[n])
    && fetch[n].off == At(Advance(m, fetch[..n]), fetch[n].tp)
  }

  lemma {:induction false} FetchHas<R>(logs: Logs<R>, m: Offsets, fetch: seq<Pos>, p: Pos)
    requires ValidFetch(logs, m, fetch)
    ensures p in fetch <==> At(m, p.tp) <= p.off < At(Advance(m, fetch), p.tp)
    ensures p in fetch ==> InLog(logs, p)
    ensures At(m, p.tp) <= At(Advance(m, fetch), p.tp)
  {
    if fetch != [] {
      var n := |fetch| - 1;
      FetchHas(logs, m, fetch[..n], p);
      assert fetch == fetch[..n] + [fetch[n]];
    }
  }

  /** A poll reads exactly the offsets it advances over, each once, and in order within a partition. */
  lemma FetchCovers<R>(logs: Logs<R>, m: Offsets, fetch: seq<Pos>)
    requires ValidFetch(logs, m, fetch)
    ensures forall p :: p in fetch <==> At(m, p.tp) <= p.off < At(Advance(m, fetch), p.tp)
    ensures forall tp :: At(m, tp) <= At(Advance(m, fetch), tp)
    ensures forall p :: p in fetch ==> InLog(logs, p)
    ensures forall i, j :: 0 <= i < j < |fetch| && fetch[i].tp == fetch[j].tp ==> fetch[i].off < fetch[j].off
  {
    forall p ensures p in fetch <==> At(m, p.tp) <= p.off < At(Advance(m, fetch), p.tp)
             ensures p in fetch ==> InLog(logs, p) {
      FetchHas(logs, m, fetch, p);
    }
    forall tp ensures At(m, tp) <= At(Advance(m, fetch), tp) {
      FetchHas(logs, m, fetch, Pos(tp, 0));
    }
    forall i, j | 0 <= i < j < |fetch| && fetch[i].tp == fetch[j].tp ensures fetch[i].off < fetch[j].off {
      FetchPrefix(logs, m, fetch, j + 1);
      var upTo := fetch[..j + 1];
      assert upTo[..j] == fetch[..j] && fetch[i] == fetch[..j][i];
      FetchHas(logs, m, fetch[..j], fetch[i]);
    }
  }

  lemma {:induction false} FetchPrefix<R>(logs: Logs<R>, m: Offsets, fetch: seq<Pos>, n: nat)
    requires ValidFetch(logs, m, fetch) && n <= |fetch|
    ensures ValidFetch(logs, m, fetch[..n])
    decreases |fetch|
  {
    if n < |fetch| {
      FetchPrefix(logs, m, fetch[..|fetch| - 1], n);
      assert fetch[..|fetch| - 1][..n] == fetch[..n];
    } else {
      assert fetch[..n] == fetch;
    }
  }

  predicate Touches(fetch: seq<Pos>, tp: TP) {
    exists p :: p in fetch && p.tp == tp
  }

  /** Marking records moves their partitions to where reading them would, and touches no other. */
  lemma {:induction false} AdvanceAt(m: Offsets, n: Offsets, fetch: seq<Pos>, tp: TP)
    ensures Touches(fetch, tp) ==> tp in Advance(m, fetch) && Advance(m, fetch)[tp] == At(Advance(n, fetch), tp)
    ensures !Touches(fetch, tp) ==> (tp in Advance(m, fetch) <==> tp in m) && At(Advance(m, fetch), tp) == At(m, tp)
  {
    if fetch != [] {
      var k := |fetch| - 1;
      AdvanceAt(m, n, fetch[..k], tp);
      assert fetch == fetch[..k] + [fetch[k]];
      assert fetch[k] in fetch;
    }
  }
}

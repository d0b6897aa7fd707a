/**
 The Kafka client both services drive (services/sink/internal/kafka/franz.go and kgo): polling,
 marking, committing, and what a restart does to a group member.
 */
module KafkaClient {
  import opened Wrappers
  import opened JsonValues
  import opened Kafka

  datatype Record = Record(pos: Pos, key: Wire, value: Wire)

  function RecordOf(log: Logs<Raw>, p: Pos): Record
    requires InLog(log, p)
  {
    Record(p, RecordAt(log, p).key, RecordAt(log, p).value)
  }

  function Positions(rs: seq<Record>): seq<Pos> {
    seq(|rs|, i requires 0 <= i < |rs| => rs[i].pos)
  }

  /** The group consumer's contract: reads move the position, commits move committed to the marks, logs only grow. */
  class GroupConsumer {
    var log: Logs<Raw>
    var position: Offsets
    var marked: Offsets
    var committed: Offsets

    constructor (log: Logs<Raw>)
      ensures this.log == log && position == map[] && marked == map[] && committed == map[]
    {
      this.log := log;
      position, marked, committed := map[], map[], map[];
    }

    /** `failed` when the poll reports a fetch error; the records that came with it are dropped, yet counted as read. */
    method Poll(fetch: seq<Pos>, failed: bool) returns (r: Result<seq<Record>>)
      requires ValidFetch(log, position, fetch)
      modifies this`position
      ensures position == Advance(old(position), fetch) && (r.Err? <==> failed)
      ensures r.Ok? ==> |r.value| == |fetch|
      ensures r.Ok? ==> forall i :: 0 <= i < |r.value| ==> InLog(log, fetch[i]) && r.value[i] == RecordOf(log, fetch[i])
    {
      FetchCovers(log, position, fetch);
      position := Advance(position, fetch);
      if failed {
        return Err;
      }
      var at := log;
      return Ok(seq(|fetch|, i requires 0 <= i < |fetch| => RecordOf(at, fetch[i])));
    }

    method MarkCommit(r: Record)
      modifies this`marked
      ensures marked == old(marked)[r.pos.tp := r.pos.off + 1]
    {
      marked := marked[r.pos.tp := r.pos.off + 1];
    }

    method MarkCommitRecords(rs: seq<Record>)
      modifies this`marked
      ensures marked == Advance(old(marked), Positions(rs))
    {
      marked := Advance(marked, Positions(rs));
    }

    /** A commit that is not acknowledged may have taken all the same. */
    method CommitMarked(took: bool, acked: bool) returns (ok: bool)
      requires acked ==> took
      modifies this`committed
      ensures ok == acked && committed == if took then old(committed) + marked else old(committed)
    {
      if took {
        committed := committed + marked;
      }
      return acked;
    }

    /** The broker takes in more records. */
    method Arrive(more: Logs<Raw>)
      requires forall tp :: LogOf(log, tp) <= LogOf(more, tp)
      modifies this`log
      ensures log == more
    {
      log := more;
    }

    /** What a restart or a rebalance does; Poll's contract asks for it after an error. */
    method Resume()
      modifies this`position, this`marked
      ensures position == committed && marked == map[]
    {
      position, marked := committed, map[];
    }
  }
}

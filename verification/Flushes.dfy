/**
 services/sink/internal/checkpoint/checkpoint.go: when flushes overlap. A flush reads its LSN and
 later its write lands; the order of these events over all flushes decides whether the persisted
 document can go back.
 */
module Flushes {
  import opened Wrappers
  import opened Checkpoint

  ghost predicate Before(t: seq<Event>, e: Event, f: Event) {
    exists a, b :: 0 <= a < b < |t| && t[a] == e && t[b] == f
  }

  /** Flush `i` reads before flush `j` does, and lands after it. */
  ghost predicate Overtakes(t: seq<Event>, i: nat, j: nat) {
    Before(t, Reads(i), Reads(j)) && Before(t, Lands(j), Lands(i))
  }

  /** Some write lands after the write of a flush that read its LSN later. */
  ghost predicate Overtaken(t: seq<Event>) {
    exists i, j :: Overtakes(t, i, j)
  }

  /** A schedule of `n` flushes: each reads at most once, and lands at most once and after it has read. */
  ghost predicate Feasible(t: seq<Event>, n: nat) {
    && (forall a :: 0 <= a < |t| ==> t[a].i < n)
    && (forall a, b :: 0 <= a < b < |t| ==> t[a] != t[b])
    && forall b :: 0 <= b < |t| && t[b].Lands? ==> Before(t, Reads(t[b].i), t[b])
  }

  /** The flush whose write landed last. */
  function LastLanded(t: seq<Event>): Option<nat> {
    if t == [] then None
    else if t[|t| - 1].Lands? then Some(t[|t| - 1].i)
    else LastLanded(t[..|t| - 1])
  }

  lemma {:induction false} LastLandedAt(t: seq<Event>) returns (w: nat)
    requires LastLanded(t).Some?
    ensures w < |t| && t[w] == Lands(LastLanded(t).value) && forall b :: w < b < |t| ==> t[b].Reads?
  {
    if t[|t| - 1].Lands? {
      w := |t| - 1;
    } else {
      w := LastLandedAt(t[..|t| - 1]);
    }
  }

  lemma {:induction false} SomethingLanded(t: seq<Event>, a: nat)
    requires a < |t| && t[a].Lands?
    ensures LastLanded(t).Some?
  {
    if a < |t| - 1 {
      SomethingLanded(t[..|t| - 1], a);
    }
  }

  /** Where each flush is, against what it has done. */
  ghost predicate Progressed(t: seq<Event>, f: Flusher, i: nat) {
    && (Reads(i) in t <==> !f.pc.ReadLsn?)
    && (Lands(i) in t ==> !f.inFlight && (f.pc.Stamp? || f.pc.Clean? || f.pc.Done?))
    && (f.inFlight ==> f.pc.Done?)
  }

  ghost predicate AllProgressed(t: seq<Event>, flushers: seq<Flusher>) {
    forall i: nat :: i < |flushers| ==> Progressed(t, flushers[i], i)
  }

  /** Later readers have read no less. */
  ghost predicate ReadsRise(t: seq<Event>, flushers: seq<Flusher>) {
    forall a, b :: 0 <= a < b < |t| && t[a].Reads? && t[b].Reads? && t[a].i < |flushers| && t[b].i < |flushers|
      ==> flushers[t[a].i].lsn <= flushers[t[b].i].lsn
  }

  /** The document is what the last landing stored, and the largest write is one of the landings. */
  ghost predicate Shows(s: State) {
    && (LastLanded(s.trace).None? ==> s.persisted.None? && s.written == 0)
    && (LastLanded(s.trace).Some? ==>
          var i := LastLanded(s.trace).value;
          && i < |s.flushers| && s.persisted == Some((s.flushers[i].lsn, s.flushers[i].events))
          && (s.written == 0 || exists w :: WroteAt(s, w)))
  }

  ghost predicate WroteAt(s: State, w: int) {
    0 <= w < |s.trace| && s.trace[w].Lands? && s.trace[w].i < |s.flushers| && s.flushers[s.trace[w].i].lsn == s.written
  }

  ghost predicate TraceAgrees(s: State) {
    && Feasible(s.trace, |s.flushers|)
    && AllProgressed(s.trace, s.flushers)
    && ReadsRise(s.trace, s.flushers)
    && Shows(s)
  }

  lemma FeasibleSnoc(t: seq<Event>, n: nat, e: Event)
    requires Feasible(t, n) && e.i < n && e !in t && (e.Lands? ==> Reads(e.i) in t)
    ensures Feasible(t + [e], n)
  {
    var u := t + [e];
    forall b | 0 <= b < |u| && u[b].Lands? ensures Before(u, Reads(u[b].i), u[b]) {
      if b < |t| {
        var a, c :| 0 <= a < c < |t| && t[a] == Reads(t[b].i) && t[c] == t[b];
        assert u[a] == t[a] && u[c] == t[c];
      } else {
        var a :| 0 <= a < |t| && t[a] == Reads(e.i);
        assert u[a] == Reads(u[b].i) && u[|t|] == u[b];
      }
    }
  }

  lemma OthersProgress(t: seq<Event>, e: Event, f: Flusher, j: nat)
    requires Progressed(t, f, j) && e.i != j
    ensures Progressed(t + [e], f, j)
  {
  }

  lemma AllProgress(t: seq<Event>, e: Event, flushers: seq<Flusher>, f: Flusher)
    requires AllProgressed(t, flushers) && e.i < |flushers| && Progressed(t + [e], f, e.i)
    ensures AllProgressed(t + [e], flushers[e.i := f])
  {
    var after := flushers[e.i := f];
    forall j: nat | j < |after| ensures Progressed(t + [e], after[j], j) {
      if j != e.i {
        OthersProgress(t, e, flushers[j], j);
      }
    }
  }

  lemma ReadRises(t: seq<Event>, flushers: seq<Flusher>, i: nat, f: Flusher)
    requires ReadsRise(t, flushers) && i < |flushers| && Reads(i) !in t && forall g :: g in flushers ==> g.lsn <= f.lsn
    ensures ReadsRise(t + [Reads(i)], flushers[i := f])
  {
    var u, after := t + [Reads(i)], flushers[i := f];
    forall a, b | 0 <= a < b < |u| && u[a].Reads? && u[b].Reads? && u[a].i < |after| && u[b].i < |after|
      ensures after[u[a].i].lsn <= after[u[b].i].lsn
    {
      assert u[a] == t[a] && t[a] in t && t[a] != Reads(i);
      assert flushers[t[a].i] in flushers;
      if b < |t| {
        assert u[b] == t[b] && t[b] in t;
      }
    }
  }

  /** A flush reads: nothing read before is larger. */
  lemma ReadKeeps(s: State, i: nat, f: Flusher)
    requires TraceAgrees(s) && SnapshotsAgree(s) && i < |s.flushers| && s.flushers[i].pc.ReadLsn?
    requires f == s.flushers[i].(pc := ReadEvents, lsn := s.marking.maxLsn)
    ensures TraceAgrees(s.(flushers := s.flushers[i := f], trace := s.trace + [Reads(i)]))
  {
    assert Progressed(s.trace, s.flushers[i], i);
    FeasibleSnoc(s.trace, |s.flushers|, Reads(i));
    AllProgress(s.trace, Reads(i), s.flushers, f);
    ReadRises(s.trace, s.flushers, i, f);
    hide Feasible, Progressed, ReadsRise;
    ReadShows(s, i, f);
  }

  lemma ReadShows(s: State, i: nat, f: Flusher)
    requires Shows(s) && i < |s.flushers| && Lands(i) !in s.trace
    ensures Shows(s.(flushers := s.flushers[i := f], trace := s.trace + [Reads(i)]))
  {
    var t := s.(flushers := s.flushers[i := f], trace := s.trace + [Reads(i)]);
    assert t.trace[..|s.trace|] == s.trace;
    if LastLanded(s.trace).Some? {
      var w := LastLandedAt(s.trace);
      assert s.trace[w] in s.trace;
      if w :| WroteAt(s, w) {
        assert s.trace[w] in s.trace && WroteAt(t, w);
      }
    }
  }

  lemma StoredShows(s: State, i: nat, f: Flusher, k: Ticking)
    requires Shows(s) && i < |s.flushers| && 0 <= s.written && Lands(i) !in s.trace
    ensures Shows(Stored(s, i, f, k))
  {
    var t := Stored(s, i, f, k);
    assert t.trace[..|s.trace|] == s.trace;
    if f.lsn > s.written {
      assert WroteAt(t, |s.trace|);
    } else if w :| WroteAt(s, w) {
      assert s.trace[w] in s.trace && WroteAt(t, w);
    }
  }

  lemma LandRises(t: seq<Event>, flushers: seq<Flusher>, i: nat, f: Flusher)
    requires ReadsRise(t, flushers) && i < |flushers| && f.lsn == flushers[i].lsn
    ensures ReadsRise(t + [Lands(i)], flushers[i := f])
  {
    var u := t + [Lands(i)];
    assert forall a :: 0 <= a < |u| && u[a].Reads? ==> a < |t| && u[a] == t[a];
  }

  /** The write of flush `i` lands. */
  lemma StoredKeeps(s: State, i: nat, f: Flusher, k: Ticking)
    requires TraceAgrees(s) && i < |s.flushers| && 0 <= s.written
    requires Lands(i) !in s.trace && !s.flushers[i].pc.ReadLsn? && !f.inFlight && (f.pc.Stamp? || f.pc.Done?)
    requires f.lsn == s.flushers[i].lsn
    ensures TraceAgrees(Stored(s, i, f, k))
  {
    assert Progressed(s.trace, s.flushers[i], i);
    FeasibleSnoc(s.trace, |s.flushers|, Lands(i));
    AllProgress(s.trace, Lands(i), s.flushers, f);
    LandRises(s.trace, s.flushers, i, f);
    StoredShows(s, i, f, k);
    hide Feasible, Progressed, ReadsRise, Shows;
  }

  /** A flush moves on without reading its LSN or landing. */
  lemma OtherKeeps(s: State, t: State, i: nat)
    requires TraceAgrees(s) && i < |s.flushers| == |t.flushers| && t.trace == s.trace && t.persisted == s.persisted
    requires t.written == s.written && t.flushers == s.flushers[i := t.flushers[i]]
    requires t.flushers[i].lsn == s.flushers[i].lsn && Progressed(s.trace, t.flushers[i], i)
    requires Lands(i) in s.trace ==> t.flushers[i].events == s.flushers[i].events
    ensures TraceAgrees(t)
  {
    assert Shows(t) by {
      if w :| WroteAt(s, w) {
        assert WroteAt(t, w);
      }
      if LastLanded(s.trace).Some? {
        var w := LastLandedAt(s.trace);
        assert s.trace[w] in s.trace;
      }
    }
    forall j: nat | j < |t.flushers| ensures Progressed(t.trace, t.flushers[j], j) {
      assert Progressed(s.trace, s.flushers[j], j);
    }
  }

  lemma NewFlusherKeeps(s: State, k: Ticking)
    requires TraceAgrees(s)
    ensures TraceAgrees(s.(flushers := s.flushers + [FRESH], ticking := k))
  {
    var t := s.(flushers := s.flushers + [FRESH], ticking := k);
    forall j: nat | j < |t.flushers| ensures Progressed(t.trace, t.flushers[j], j) {
      if j < |s.flushers| {
        assert Progressed(s.trace, s.flushers[j], j);
      } else {
        assert forall a :: 0 <= a < |s.trace| ==> s.trace[a].i < j;
      }
    }
    assert Shows(t) by {
      if w :| WroteAt(s, w) {
        assert WroteAt(t, w);
      }
    }
  }

  lemma UnflushedKeeps(s: State, c: Marking, dirty: bool, k: Ticking)
    requires TraceAgrees(s)
    ensures TraceAgrees(s.(marking := c, dirty := dirty, ticking := k))
  {
    var t := s.(marking := c, dirty := dirty, ticking := k);
    assert Shows(t) by {
      if w :| WroteAt(s, w) {
        assert WroteAt(t, w);
      }
    }
  }

  lemma FlushStepAgrees(s: State, i: nat, lands: bool, acked: bool)
    requires TraceAgrees(s) && SnapshotsAgree(s) && i < |s.flushers| && !s.flushers[i].pc.Done?
    ensures TraceAgrees(Flushed(s, i, lands, acked))
  {
    var f, t := s.flushers[i], Flushed(s, i, lands, acked);
    assert Progressed(s.trace, f, i);
    match f.pc
    case ReadLsn => ReadKeeps(s, i, f.(pc := ReadEvents, lsn := s.marking.maxLsn));
    case ReadEvents => OtherKeeps(s, t, i);
    case Write =>
      if acked {
        StoredKeeps(s, i, f.(pc := Stamp), s.ticking);
      } else if lands {
        StoredKeeps(s, i, f.(pc := Done), Failed(s.ticking, i));
      } else {
        OtherKeeps(s, t, i);
      }
    case Stamp => OtherKeeps(s, t, i);
    case Clean => OtherKeeps(s, t, i);
  }

  lemma StepAgrees(s: State, step: Step, heartbeat: nat)
    requires TraceAgrees(s) && SnapshotsAgree(s) && Enabled(s, step)
    ensures TraceAgrees(Do(s, step, heartbeat))
  {
    hide TraceAgrees, SnapshotsAgree, Marked, Flushed, Stored;
    match step
    case Start(_, _) => UnflushedKeeps(s, Do(s, step, heartbeat).marking, s.dirty, s.ticking);
    case Advance(_) => UnflushedKeeps(s, Do(s, step, heartbeat).marking, Do(s, step, heartbeat).dirty, s.ticking);
    case Tick =>
      UnflushedKeeps(s, s.marking, s.dirty, Do(s, step, heartbeat).ticking);
      NewFlusherKeeps(s, Do(s, step, heartbeat).ticking);
    case Begin => NewFlusherKeeps(s, s.ticking);
    case Flush(i, lands, acked) => FlushStepAgrees(s, i, lands, acked);
    case Land(i) => LandAgrees(s, i);
  }

  lemma LandAgrees(s: State, i: nat)
    requires TraceAgrees(s) && SnapshotsAgree(s) && Enabled(s, Land(i))
    ensures TraceAgrees(Stored(s, i, s.flushers[i].(inFlight := false), s.ticking))
  {
    assert Progressed(s.trace, s.flushers[i], i);
    StoredKeeps(s, i, s.flushers[i].(inFlight := false), s.ticking);
  }

  lemma ZeroAgrees()
    ensures TraceAgrees(ZERO)
  {
  }

  lemma ReachSnapshots(steps: seq<Step>, heartbeat: nat)
    requires heartbeat > 0
    ensures SnapshotsAgree(Reach(steps, heartbeat))
  {
    hide Reach, SnapshotsAgree, MarkersAgree, StepsAgree, ScheduleKept, Waits, MarksPersist;
    ReachKeeps(steps, heartbeat);
  }

  lemma {:induction false} ReachAgrees(steps: seq<Step>, heartbeat: nat)
    requires heartbeat > 0
    ensures TraceAgrees(Reach(steps, heartbeat))
  {
    hide Do, Enabled, SnapshotsAgree, TraceAgrees;
    if steps == [] {
      ZeroAgrees();
    } else {
      var prev := steps[..|steps| - 1];
      ReachAgrees(prev, heartbeat);
      ReachSnapshots(prev, heartbeat);
      if Enabled(Reach(prev, heartbeat), steps[|steps| - 1]) {
        StepAgrees(Reach(prev, heartbeat), steps[|steps| - 1], heartbeat);
      }
    }
  }

  /** Every execution's flushes form a feasible schedule. */
  lemma TracesAreFeasible(steps: seq<Step>, heartbeat: nat)
    requires heartbeat > 0
    ensures Feasible(Reach(steps, heartbeat).trace, |Reach(steps, heartbeat).flushers|)
  {
    ReachAgrees(steps, heartbeat);
  }

  lemma StepGrows(s: State, step: Step, heartbeat: nat)
    requires TraceAgrees(s) && Enabled(s, step)
    ensures var t := Do(s, step, heartbeat);
      && s.trace <= t.trace && |s.flushers| <= |t.flushers|
      && forall i: nat | i < |s.flushers| && Reads(i) in s.trace :: t.flushers[i].lsn == s.flushers[i].lsn
  {
    hide TraceAgrees, Marked, Flushed;
    if step.Flush? {
      FlushStepGrows(s, step.i, step.lands, step.acked);
    }
  }

  lemma FlushStepGrows(s: State, i: nat, lands: bool, acked: bool)
    requires TraceAgrees(s) && i < |s.flushers| && !s.flushers[i].pc.Done?
    ensures var t := Flushed(s, i, lands, acked);
      && s.trace <= t.trace && t.flushers == s.flushers[i := t.flushers[i]]
      && (Reads(i) in s.trace ==> t.flushers[i].lsn == s.flushers[i].lsn)
  {
    assert Progressed(s.trace, s.flushers[i], i);
    hide TraceAgrees;
  }

  /** What a flush has read, and the order of what has happened, stay as they are. */
  lemma {:induction false} HistoryGrows(steps: seq<Step>, a: nat, b: nat, heartbeat: nat)
    requires a <= b <= |steps| && heartbeat > 0
    ensures var s, t := Reach(steps[..a], heartbeat), Reach(steps[..b], heartbeat);
      && s.trace <= t.trace && |s.flushers| <= |t.flushers|
      && forall i: nat | i < |s.flushers| && Reads(i) in s.trace :: t.flushers[i].lsn == s.flushers[i].lsn
    decreases b
  {
    hide Do, Enabled, TraceAgrees;
    if a < b {
      HistoryGrows(steps, a, b - 1, heartbeat);
      assert steps[..b][..b - 1] == steps[..b - 1];
      ReachAgrees(steps[..b - 1], heartbeat);
      if Enabled(Reach(steps[..b - 1], heartbeat), steps[b - 1]) {
        StepGrows(Reach(steps[..b - 1], heartbeat), steps[b - 1], heartbeat);
      }
    }
  }

  /** The document of `t` is no older than that of `s`. */
  ghost predicate NotBehind(s: State, t: State) {
    s.persisted.Some? ==> t.persisted.Some? && s.persisted.value.0 <= t.persisted.value.0
  }

  /** At no point of the execution does the document go back. */
  ghost predicate NeverBack(steps: seq<Step>, heartbeat: nat) {
    forall a: nat, b: nat | a <= b <= |steps| :: NotBehind(Reach(steps[..a], heartbeat), Reach(steps[..b], heartbeat))
  }

  lemma ReadOf(t: seq<Event>, n: nat, w: nat) returns (r: nat)
    requires Feasible(t, n) && w < |t| && t[w].Lands?
    ensures r < w && t[r] == Reads(t[w].i)
  {
    assert Before(t, Reads(t[w].i), t[w]);
    var a, b :| 0 <= a < b < |t| && t[a] == Reads(t[w].i) && t[b] == t[w];
    r := a;
  }

  lemma InOrderReads(t: seq<Event>, n: nat, c: nat, w: nat) returns (rc: nat, rw: nat)
    requires Feasible(t, n) && !Overtaken(t) && c < w < |t| && t[c].Lands? && t[w].Lands?
    ensures rc < rw < |t| && t[rc] == Reads(t[c].i) && t[rw] == Reads(t[w].i)
  {
    hide Overtaken, Overtakes, Feasible, Before;
    rc := ReadOf(t, n, c);
    rw := ReadOf(t, n, w);
    if rw <= rc {
      SameFlush(t, n, c, w);
      Overtaking(t, rw, rc, c, w);
      assert false;
    }
  }

  lemma SameFlush(t: seq<Event>, n: nat, c: nat, w: nat)
    requires Feasible(t, n) && c < w < |t| && t[c].Lands? && t[w].Lands?
    ensures t[c].i != t[w].i
  {
  }

  lemma Overtaking(t: seq<Event>, ri: nat, rj: nat, wj: nat, wi: nat)
    requires ri < rj < |t| && wj < wi < |t|
    requires t[wi].Lands? && t[wj].Lands? && t[ri] == Reads(t[wi].i) && t[rj] == Reads(t[wj].i)
    ensures Overtaken(t)
  {
    assert Overtakes(t, t[wi].i, t[wj].i);
  }

  /** Without overtaking, what landed last is no older than anything that landed. */
  lemma LastIsLargest(s: State, j: nat)
    requires TraceAgrees(s) && !Overtaken(s.trace) && Lands(j) in s.trace
    ensures j < |s.flushers| && s.persisted.Some? && s.flushers[j].lsn <= s.persisted.value.0
  {
    hide Overtaken, AllProgressed;
    var t, n := s.trace, |s.flushers|;
    var c :| 0 <= c < |t| && t[c] == Lands(j);
    SomethingLanded(t, c);
    var w := LastLandedAt(t);
    if c < w {
      var rc, rw := InOrderReads(t, n, c, w);
    }
  }

  lemma OvertakenGrows(t: seq<Event>, u: seq<Event>)
    requires t <= u && Overtaken(t)
    ensures Overtaken(u)
  {
    var i, j :| Overtakes(t, i, j);
    BeforeGrows(t, u, Reads(i), Reads(j));
    BeforeGrows(t, u, Lands(j), Lands(i));
    assert Overtakes(u, i, j);
  }

  lemma BeforeGrows(t: seq<Event>, u: seq<Event>, e: Event, f: Event)
    requires t <= u && Before(t, e, f)
    ensures Before(u, e, f)
  {
    var a, b :| 0 <= a < b < |t| && t[a] == e && t[b] == f;
    assert u[a] == e && u[b] == f;
  }

  lemma InOrderNeverBack(steps: seq<Step>, heartbeat: nat)
    requires heartbeat > 0 && !Overtaken(Reach(steps, heartbeat).trace)
    ensures NeverBack(steps, heartbeat)
  {
    hide Reach;
    forall a: nat, b: nat | a <= b <= |steps|
      ensures NotBehind(Reach(steps[..a], heartbeat), Reach(steps[..b], heartbeat))
    {
      InOrderNotBehind(steps, a, b, heartbeat);
    }
  }

  lemma InOrderNotBehind(steps: seq<Step>, a: nat, b: nat, heartbeat: nat)
    requires heartbeat > 0 && a <= b <= |steps| && !Overtaken(Reach(steps, heartbeat).trace)
    ensures NotBehind(Reach(steps[..a], heartbeat), Reach(steps[..b], heartbeat))
  {
    hide Reach, Overtaken;
    var s, t := Reach(steps[..a], heartbeat), Reach(steps[..b], heartbeat);
    ReachAgrees(steps[..a], heartbeat);
    ReachAgrees(steps[..b], heartbeat);
    HistoryGrows(steps, a, b, heartbeat);
    HistoryGrows(steps, b, |steps|, heartbeat);
    assert steps[..|steps|] == steps;
    if s.persisted.Some? {
      var w := LastLandedAt(s.trace);
      var j := s.trace[w].i;
      assert Before(s.trace, Reads(j), s.trace[w]) && Reads(j) in s.trace;
      assert t.trace[w] == Lands(j);
      if Overtaken(t.trace) {
        OvertakenGrows(t.trace, Reach(steps, heartbeat).trace);
      }
      LastIsLargest(t, j);
    }
  }

  function ReadsIn(t: seq<Event>): nat {
    if t == [] then 0 else ReadsIn(t[..|t| - 1]) + if t[|t| - 1].Reads? then 1 else 0
  }

  /** Steps that bring one event about: before a flush reads, a fresh mark raises the maximum. */
  function StepsFor(e: Event, k: nat, calls: nat): seq<Step> {
    match e
    case Reads(i) => [Start(k + 1, 0), Advance(calls), Advance(calls), Flush(i, false, false), Flush(i, false, false)]
    case Lands(i) => [Flush(i, true, true)]
  }

  /** An execution of `n` flushes with the given schedule. */
  function Drive(t: seq<Event>, n: nat): seq<Step> {
    if t == [] then seq(n, _ => Begin)
    else
      var k := |t| - 1;
      Drive(t[..k], n) + StepsFor(t[k], k, ReadsIn(t[..k]))
  }

  ghost predicate Driven(s: State, t: seq<Event>, n: nat) {
    && |s.flushers| == n && s.trace == t && |s.marking.markers| == ReadsIn(t) && s.marking.maxLsn <= |t|
    && forall i: nat | i < n :: DrivenFlush(t, s.flushers[i], i)
  }

  ghost predicate DrivenFlush(t: seq<Event>, f: Flusher, i: nat) {
    && f.pc == (if Reads(i) !in t then ReadLsn else if Lands(i) !in t then Write else Stamp)
    && forall a :: 0 <= a < |t| && t[a] == Reads(i) ==> f.lsn == a + 1
  }

  lemma {:induction false} BeginsDriven(n: nat, heartbeat: nat)
    ensures Legal(seq(n, _ => Begin), heartbeat) && Driven(Reach(seq(n, _ => Begin), heartbeat), [], n)
    ensures Reach(seq(n, _ => Begin), heartbeat) == ZERO.(flushers := seq(n, _ => FRESH))
  {
    if n > 0 {
      BeginsDriven(n - 1, heartbeat);
      var prev := seq(n - 1, _ => Begin);
      assert prev + [Begin] == seq(n, _ => Begin);
      ReachSnoc(prev, Begin, heartbeat);
      assert seq(n - 1, _ => FRESH) + [FRESH] == seq(n, _ => FRESH);
    } else {
      assert seq(n, _ => Begin) == [] && seq(n, _ => FRESH) == [];
    }
  }

  /** A mark of `lsn` above the maximum, then flush `i` reads. */
  lemma MarkThenRead(steps: seq<Step>, i: nat, lsn: int, heartbeat: nat)
    requires Legal(steps, heartbeat)
    requires var s := Reach(steps, heartbeat);
      0 <= s.marking.maxLsn < lsn && i < |s.flushers| && s.flushers[i].pc.ReadLsn?
    ensures var s := Reach(steps, heartbeat);
      var r := |s.marking.markers|;
      var more := steps + [Start(lsn, 0), Advance(r), Advance(r), Flush(i, false, false), Flush(i, false, false)];
      var t := Reach(more, heartbeat);
      && Legal(more, heartbeat) && t.trace == s.trace + [Reads(i)]
      && t.marking.maxLsn == lsn && |t.marking.markers| == r + 1
      && t.flushers == s.flushers[i := Flusher(Write, lsn, s.marking.events, s.flushers[i].inFlight)]
  {
    hide Reach, Legal;
    var s := Reach(steps, heartbeat);
    var r := |s.marking.markers|;
    var s1 := steps + [Start(lsn, 0)];
    ReachSnoc(steps, Start(lsn, 0), heartbeat);
    assert Reach(s1, heartbeat).marking.markers[r] == Marker(lsn, 0, Load, 0);
    var s2 := s1 + [Advance(r)];
    ReachSnoc(s1, Advance(r), heartbeat);
    assert Reach(s2, heartbeat).marking.markers[r].pc.Cas?;
    var s3 := s2 + [Advance(r)];
    ReachSnoc(s2, Advance(r), heartbeat);
    assert Reach(s3, heartbeat).marking.maxLsn == lsn && Reach(s3, heartbeat).flushers == s.flushers;
    var s4 := s3 + [Flush(i, false, false)];
    ReachSnoc(s3, Flush(i, false, false), heartbeat);
    assert Reach(s4, heartbeat).flushers[i].pc.ReadEvents? && Reach(s4, heartbeat).flushers[i].lsn == lsn;
    ReachSnoc(s4, Flush(i, false, false), heartbeat);
    assert s4 + [Flush(i, false, false)]
        == steps + [Start(lsn, 0), Advance(r), Advance(r), Flush(i, false, false), Flush(i, false, false)];
  }

  lemma FeasiblePrefix(t: seq<Event>, k: nat, n: nat)
    requires Feasible(t, n) && k <= |t|
    ensures Feasible(t[..k], n)
  {
    var u := t[..k];
    forall b | 0 <= b < |u| && u[b].Lands? ensures Before(u, Reads(u[b].i), u[b]) {
      var a, c :| 0 <= a < c < |t| && t[a] == Reads(t[b].i) && t[c] == t[b];
      assert c == b && u[a] == t[a];
    }
  }

  lemma ReadDriven(t: seq<Event>, f: Flusher, g: Flusher, i: nat, j: nat)
    requires DrivenFlush(t, f, j) && Reads(i) !in t && Lands(i) !in t
    requires if j == i then g.pc == Write && g.lsn == |t| + 1 else g == f
    ensures DrivenFlush(t + [Reads(i)], g, j)
  {
  }

  lemma LandDriven(t: seq<Event>, f: Flusher, g: Flusher, i: nat, j: nat)
    requires DrivenFlush(t, f, j) && Reads(i) in t && Lands(i) !in t
    requires if j == i then g == f.(pc := Stamp) else g == f
    ensures DrivenFlush(t + [Lands(i)], g, j)
  {
  }

  /** The execution has the schedule it was made for, and each flush has read the position of its read. */
  lemma {:induction false} DriveWorks(t: seq<Event>, n: nat, heartbeat: nat)
    requires Feasible(t, n) && heartbeat > 0
    ensures Legal(Drive(t, n), heartbeat) && Driven(Reach(Drive(t, n), heartbeat), t, n)
  {
    hide Reach, Legal, DrivenFlush;
    if t == [] {
      BeginsDriven(n, heartbeat);
    } else {
      var k := |t| - 1;
      FeasiblePrefix(t, k, n);
      DriveWorks(t[..k], n, heartbeat);
      assert t == t[..k] + [t[k]];
      DriveOne(t[..k], t[k], n, heartbeat);
    }
  }

  lemma DriveSnoc(t: seq<Event>, e: Event, n: nat)
    ensures Drive(t + [e], n) == Drive(t, n) + StepsFor(e, |t|, ReadsIn(t))
    ensures ReadsIn(t + [e]) == ReadsIn(t) + if e.Reads? then 1 else 0
  {
    hide StepsFor;
    assert (t + [e])[..|t|] == t;
  }

  lemma DriveOne(t: seq<Event>, e: Event, n: nat, heartbeat: nat)
    requires Feasible(t, n) && Feasible(t + [e], n) && heartbeat > 0
    requires Legal(Drive(t, n), heartbeat) && Driven(Reach(Drive(t, n), heartbeat), t, n)
    ensures Legal(Drive(t + [e], n), heartbeat) && Driven(Reach(Drive(t + [e], n), heartbeat), t + [e], n)
  {
    hide Reach, Legal, Driven, Drive, Feasible;
    match e
    case Reads(i) => DriveRead(t, i, n, heartbeat);
    case Lands(i) => DriveLand(t, i, n, heartbeat);
  }

  lemma DriveRead(t: seq<Event>, i: nat, n: nat, heartbeat: nat)
    requires Feasible(t, n) && Feasible(t + [Reads(i)], n) && heartbeat > 0
    requires Legal(Drive(t, n), heartbeat) && Driven(Reach(Drive(t, n), heartbeat), t, n)
    ensures Legal(Drive(t + [Reads(i)], n), heartbeat)
    ensures Driven(Reach(Drive(t + [Reads(i)], n), heartbeat), t + [Reads(i)], n)
  {
    hide Reach, Legal, DrivenFlush, Drive;
    FreshEvent(t, Reads(i), n);
    hide Feasible;
    var s := Reach(Drive(t, n), heartbeat);
    NotLanded(t, n, i);
    FlushAt(s, t, n, i);
    DriveSnoc(t, Reads(i), n);
    ReachBounds(Drive(t, n), heartbeat);
    MarkThenRead(Drive(t, n), i, |t| + 1, heartbeat);
    var after := Reach(Drive(t + [Reads(i)], n), heartbeat);
    forall j: nat | j < n ensures DrivenFlush(t + [Reads(i)], after.flushers[j], j) {
      ReadDriven(t, s.flushers[j], after.flushers[j], i, j);
    }
  }

  lemma DriveLand(t: seq<Event>, i: nat, n: nat, heartbeat: nat)
    requires Feasible(t, n) && Feasible(t + [Lands(i)], n) && heartbeat > 0
    requires Legal(Drive(t, n), heartbeat) && Driven(Reach(Drive(t, n), heartbeat), t, n)
    ensures Legal(Drive(t + [Lands(i)], n), heartbeat)
    ensures Driven(Reach(Drive(t + [Lands(i)], n), heartbeat), t + [Lands(i)], n)
  {
    hide Reach, Legal, DrivenFlush, Do, Drive;
    FreshEvent(t, Lands(i), n);
    LandsAfterRead(t, n, i);
    hide Feasible;
    var s := Reach(Drive(t, n), heartbeat);
    FlushAt(s, t, n, i);
    DriveSnoc(t, Lands(i), n);
    ReachSnoc(Drive(t, n), Flush(i, true, true), heartbeat);
    AckedWrite(s, i, heartbeat);
    var after := Reach(Drive(t + [Lands(i)], n), heartbeat);
    forall j: nat | j < n ensures DrivenFlush(t + [Lands(i)], after.flushers[j], j) {
      LandDriven(t, s.flushers[j], after.flushers[j], i, j);
    }
  }

  lemma FreshEvent(t: seq<Event>, e: Event, n: nat)
    requires Feasible(t + [e], n)
    ensures e.i < n && e !in t
  {
    var u := t + [e];
    assert u[|t|] == e;
    assert forall a :: 0 <= a < |t| ==> u[a] == t[a] != u[|t|];
  }

  lemma AckedWrite(s: State, i: nat, heartbeat: nat)
    requires i < |s.flushers| && s.flushers[i].pc.Write?
    ensures var t := Do(s, Flush(i, true, true), heartbeat);
      && t.flushers == s.flushers[i := s.flushers[i].(pc := Stamp)] && t.trace == s.trace + [Lands(i)]
      && t.marking == s.marking
  {
  }

  lemma FlushAt(s: State, t: seq<Event>, n: nat, i: nat)
    requires Driven(s, t, n) && i < n
    ensures s.flushers[i].pc == (if Reads(i) !in t then ReadLsn else if Lands(i) !in t then Write else Stamp)
  {
    assert DrivenFlush(t, s.flushers[i], i);
  }

  lemma NotLanded(t: seq<Event>, n: nat, i: nat)
    requires Feasible(t, n) && Reads(i) !in t
    ensures Lands(i) !in t
  {
    forall b | 0 <= b < |t| ensures t[b] != Lands(i) {
      if t[b].Lands? {
        var r := ReadOf(t, n, b);
      }
    }
  }

  lemma LandsAfterRead(t: seq<Event>, n: nat, i: nat)
    requires Feasible(t + [Lands(i)], n)
    ensures Reads(i) in t
  {
    var u := t + [Lands(i)];
    assert Before(u, Reads(u[|t|].i), u[|t|]);
    var a, b :| 0 <= a < b < |u| && u[a] == Reads(i) && u[b] == u[|t|];
    assert a < |t| && u[a] == t[a];
  }

  lemma ReachBounds(steps: seq<Step>, heartbeat: nat)
    requires heartbeat > 0
    ensures 0 <= Reach(steps, heartbeat).marking.maxLsn
  {
    hide Reach;
    ReachKeeps(steps, heartbeat);
  }

  lemma {:induction false} DrivePrefix(t: seq<Event>, k: nat, n: nat)
    requires k <= |t|
    ensures Drive(t[..k], n) <= Drive(t, n)
    decreases |t|
  {
    hide StepsFor;
    if k < |t| {
      DrivePrefix(t[..|t| - 1], k, n);
      assert t[..|t| - 1][..k] == t[..k];
    } else {
      assert t[..k] == t;
    }
  }

  lemma DocumentOf(s: State, i: nat)
    requires TraceAgrees(s) && s.trace != [] && s.trace[|s.trace| - 1] == Lands(i)
    ensures i < |s.flushers| && s.persisted == Some((s.flushers[i].lsn, s.flushers[i].events))
  {
  }

  lemma DrivenRead(s: State, t: seq<Event>, n: nat, i: nat, r: nat)
    requires Driven(s, t, n) && i < n && r < |t| && t[r] == Reads(i)
    ensures s.flushers[i].lsn == r + 1
  {
    assert DrivenFlush(t, s.flushers[i], i);
  }

  /** After the driven events up to a landing, the document is what that flush read. */
  lemma DrivenDocument(t: seq<Event>, w: nat, r: nat, n: nat, heartbeat: nat)
    requires Feasible(t, n) && heartbeat > 0 && r < w < |t| && t[w].Lands? && t[r] == Reads(t[w].i)
    ensures var s := Reach(Drive(t[..w + 1], n), heartbeat);
      s.persisted.Some? && s.persisted.value.0 == r + 1
  {
    hide Reach, Drive, TraceAgrees, Legal;
    var u := t[..w + 1];
    assert u[r] == t[r] && u[w] == t[w] && t[w].i < n;
    FeasiblePrefix(t, w + 1, n);
    hide Feasible, DrivenFlush;
    DriveWorks(u, n, heartbeat);
    ReachAgrees(Drive(u, n), heartbeat);
    DocumentOf(Reach(Drive(u, n), heartbeat), t[w].i);
    DrivenRead(Reach(Drive(u, n), heartbeat), u, n, t[w].i, r);
  }

  lemma DriveGoesBack(t: seq<Event>, i: nat, j: nat, n: nat, heartbeat: nat)
    requires Feasible(t, n) && heartbeat > 0 && Overtakes(t, i, j)
    ensures !NeverBack(Drive(t, n), heartbeat)
  {
    hide Reach, Drive, Feasible;
    var ri, rj :| 0 <= ri < rj < |t| && t[ri] == Reads(i) && t[rj] == Reads(j);
    var wj, wi :| 0 <= wj < wi < |t| && t[wj] == Lands(j) && t[wi] == Lands(i);
    hide Overtakes, Before;
    ReadBeforeLanding(t, n, rj, wj);
    ReadBeforeLanding(t, n, ri, wi);
    DrivenDocument(t, wj, rj, n, heartbeat);
    DrivenDocument(t, wi, ri, n, heartbeat);
    DrivePrefixes(t, wj + 1, wi + 1, n);
    var a, b := |Drive(t[..wj + 1], n)|, |Drive(t[..wi + 1], n)|;
    assert !NotBehind(Reach(Drive(t, n)[..a], heartbeat), Reach(Drive(t, n)[..b], heartbeat));
  }

  lemma DrivePrefixes(t: seq<Event>, j: nat, k: nat, n: nat)
    requires j <= k <= |t|
    ensures |Drive(t[..j], n)| <= |Drive(t[..k], n)| <= |Drive(t, n)|
    ensures Drive(t, n)[..|Drive(t[..j], n)|] == Drive(t[..j], n)
    ensures Drive(t, n)[..|Drive(t[..k], n)|] == Drive(t[..k], n)
  {
    hide Drive;
    DrivePrefix(t, j, n);
    DrivePrefix(t, k, n);
    DrivePrefix(t[..k], j, n);
    assert t[..k][..j] == t[..j];
  }

  lemma ReadBeforeLanding(t: seq<Event>, n: nat, r: nat, w: nat)
    requires Feasible(t, n) && r < |t| && w < |t| && t[w].Lands? && t[r] == Reads(t[w].i)
    ensures r < w
  {
    assert Before(t, Reads(t[w].i), t[w]);
  }

  /**
   For every schedule of any number of flushes, periodic or not: no placement of marks and ticks can
   take the document back exactly when no write lands after the write of a flush that read later.
   */
  lemma OverlapIff(t: seq<Event>, n: nat, heartbeat: nat)
    requires Feasible(t, n) && heartbeat > 0
    ensures (forall steps | Legal(steps, heartbeat) && Reach(steps, heartbeat).trace == t ::
               NeverBack(steps, heartbeat))
       <==> !Overtaken(t)
  {
    hide Reach, Drive, Legal, NeverBack, Feasible;
    if Overtaken(t) {
      var i, j :| Overtakes(t, i, j);
      DriveWorks(t, n, heartbeat);
      DriveGoesBack(t, i, j, n, heartbeat);
    } else {
      forall steps | Legal(steps, heartbeat) && Reach(steps, heartbeat).trace == t ensures NeverBack(steps, heartbeat) {
        InOrderNeverBack(steps, heartbeat);
      }
    }
  }

  /**
   While the periodic flushes succeed and nothing is overtaken, every mark is in the document within
   `heartbeat` ticks, and the document holds no LSN that was not reported.
   */
  lemma MarksReachDocument(steps: seq<Step>, heartbeat: nat, m: Mark)
    requires heartbeat > 0 && m in Reach(steps, heartbeat).marking.marks && !Overtaken(Reach(steps, heartbeat).trace)
    requires var k := Reach(steps, heartbeat).ticking;
      k.waiting.None? && !k.failing && m.tick + heartbeat <= k.tick
    ensures var s := Reach(steps, heartbeat);
      s.persisted.Some? && m.lsn <= s.persisted.value.0 <= MaxOf(s.marking.markers)
  {
    hide Reach, Overtaken, MaxOf;
    var s := Reach(steps, heartbeat);
    MarksGetWritten(steps, heartbeat, m);
    ReachSnapshots(steps, heartbeat);
    ReachAgrees(steps, heartbeat);
    var w :| WroteAt(s, w);
    LastIsLargest(s, s.trace[w].i);
  }

  /** No flush reads between another flush's read and its landing. */
  ghost predicate Sequential(t: seq<Event>) {
    forall i, j | i != j && Before(t, Reads(i), Reads(j)) && Lands(i) in t :: Before(t, Lands(i), Reads(j))
  }

  /** So a shutdown flush that waits for the periodic one is harmless. */
  lemma SequentialInOrder(t: seq<Event>, n: nat)
    requires Feasible(t, n) && Sequential(t)
    ensures !Overtaken(t)
  {
    if i, j :| Overtakes(t, i, j) {
      var wj, wi :| 0 <= wj < wi < |t| && t[wj] == Lands(j) && t[wi] == Lands(i);
      assert i != j && Lands(i) in t && Before(t, Lands(i), Reads(j));
      var w, rj :| 0 <= w < rj < |t| && t[w] == Lands(i) && t[rj] == Reads(j);
      ReadBeforeLanding(t, n, rj, wj);
      assert false;
    }
  }

  /** At most one flush is under way: the one the loop waits for, whose read is then the last event. */
  ghost predicate Alone(s: State) {
    && (forall i: nat | i < |s.flushers| :: s.flushers[i].pc.Done? || s.ticking.waiting == Some(i))
    && (forall i: nat | i < |s.flushers| && (s.flushers[i].pc.ReadEvents? || s.flushers[i].pc.Write?) ::
          s.trace != [] && s.trace[|s.trace| - 1] == Reads(i))
  }

  lemma SequentialRead(t: seq<Event>, n: nat, i: nat)
    requires Feasible(t, n) && Sequential(t) && Reads(i) !in t && Lands(i) !in t
    ensures Sequential(t + [Reads(i)])
  {
    var u := t + [Reads(i)];
    assert forall a :: 0 <= a < |t| ==> u[a] == t[a];
    forall p, q | p != q && Before(u, Reads(p), Reads(q)) && Lands(p) in u ensures Before(u, Lands(p), Reads(q)) {
      var a, b :| 0 <= a < b < |u| && u[a] == Reads(p) && u[b] == Reads(q);
      var c :| 0 <= c < |u| && u[c] == Lands(p);
      assert t[c] == Lands(p);
      if b < |t| {
        assert Before(t, Reads(p), Reads(q)) && Lands(p) in t;
        BeforeGrows(t, u, Lands(p), Reads(q));
      }
    }
  }

  lemma SequentialLand(t: seq<Event>, n: nat, i: nat)
    requires Feasible(t, n) && Sequential(t) && t != [] && t[|t| - 1] == Reads(i)
    ensures Sequential(t + [Lands(i)])
  {
    var u := t + [Lands(i)];
    assert forall a :: 0 <= a < |t| ==> u[a] == t[a];
    forall p, q | p != q && Before(u, Reads(p), Reads(q)) && Lands(p) in u ensures Before(u, Lands(p), Reads(q)) {
      var a, b :| 0 <= a < b < |u| && u[a] == Reads(p) && u[b] == Reads(q);
      assert Before(t, Reads(p), Reads(q));
      assert a < |t| - 1 && t[a] != t[|t| - 1];
      if p == i {
        assert false;
      } else {
        var c :| 0 <= c < |u| && u[c] == Lands(p);
        assert t[c] == Lands(p) && Lands(p) in t;
        BeforeGrows(t, u, Lands(p), Reads(q));
      }
    }
  }

  lemma AloneStays(s: State, i: nat, lands: bool, acked: bool)
    requires Waits(s.ticking, s.flushers) && Alone(s) && i < |s.flushers| && !s.flushers[i].pc.Done?
    ensures Alone(Flushed(s, i, lands, acked))
  {
    assert s.ticking.waiting == Some(i);
    var t := Flushed(s, i, lands, acked);
    assert t.flushers == s.flushers[i := t.flushers[i]] && (t.flushers[i].pc.Done? || t.ticking.waiting == Some(i));
    assert t.flushers[i].pc.ReadEvents? || t.flushers[i].pc.Write? ==>
      t.trace != [] && t.trace[|t.trace| - 1] == Reads(i);
    hide Flushed, Waits;
  }

  lemma SequentialStays(s: State, i: nat, lands: bool, acked: bool)
    requires TraceAgrees(s) && Alone(s) && Sequential(s.trace) && i < |s.flushers| && !s.flushers[i].pc.Done?
    ensures Sequential(Flushed(s, i, lands, acked).trace)
  {
    hide Sequential, ReadsRise, Shows;
    assert Progressed(s.trace, s.flushers[i], i);
    hide AllProgressed;
    match s.flushers[i].pc
    case ReadLsn => SequentialRead(s.trace, |s.flushers|, i);
    case Write => SequentialLand(s.trace, |s.flushers|, i);
    case _ =>
  }

  /** Only the periodic loop flushes, and a write it gives up on has landed by then or never does. */
  predicate PeriodicOnly(steps: seq<Step>) {
    forall k :: 0 <= k < |steps| ==> !steps[k].Begin? && !steps[k].Land?
  }

  lemma {:induction false} PeriodicIsSequential(steps: seq<Step>, heartbeat: nat)
    requires heartbeat > 0 && PeriodicOnly(steps)
    ensures Alone(Reach(steps, heartbeat)) && Sequential(Reach(steps, heartbeat).trace)
  {
    hide Do, TraceAgrees, Sequential, Alone;
    if steps == [] {
      ZeroIsAlone();
    } else {
      var prev, step := steps[..|steps| - 1], steps[|steps| - 1];
      PeriodicIsSequential(prev, heartbeat);
      var s := Reach(prev, heartbeat);
      ReachAgrees(prev, heartbeat);
      ReachKeeps(prev, heartbeat);
      if Enabled(s, step) {
        AloneStep(s, step, heartbeat);
      }
    }
  }

  lemma ZeroIsAlone()
    ensures Alone(ZERO) && Sequential(ZERO.trace)
  {
  }

  lemma AloneStep(s: State, step: Step, heartbeat: nat)
    requires TraceAgrees(s) && Waits(s.ticking, s.flushers) && Alone(s) && Sequential(s.trace)
    requires Enabled(s, step) && !step.Begin? && !step.Land?
    ensures Alone(Do(s, step, heartbeat)) && Sequential(Do(s, step, heartbeat).trace)
  {
    hide Marked, Flushed, Sequential, TraceAgrees;
    if step.Flush? {
      AloneStays(s, step.i, step.lands, step.acked);
      SequentialStays(s, step.i, step.lands, step.acked);
    }
  }

  /** The periodic flushes alone never take the document back, nor past the largest LSN reported. */
  lemma DocumentNeverRegresses(steps: seq<Step>, heartbeat: nat)
    requires heartbeat > 0 && PeriodicOnly(steps)
    ensures NeverBack(steps, heartbeat)
    ensures var s := Reach(steps, heartbeat);
      s.persisted.Some? ==> s.persisted.value.0 <= MaxOf(s.marking.markers)
  {
    hide Reach, NeverBack, Alone, Sequential, MaxOf, Overtaken, PeriodicOnly;
    PeriodicIsSequential(steps, heartbeat);
    TracesAreFeasible(steps, heartbeat);
    SequentialInOrder(Reach(steps, heartbeat).trace, |Reach(steps, heartbeat).flushers|);
    InOrderNeverBack(steps, heartbeat);
    ReachSnapshots(steps, heartbeat);
    ReachKeeps(steps, heartbeat);
    MaxLsnIsSomeones(Reach(steps, heartbeat).marking);
  }

  /** One mark of LSN 1, a tick, and the periodic flush reads it. */
  const PERIODIC: seq<Step> :=
    [Start(1, 0), Advance(0), Advance(0), Advance(0), Advance(0), Tick, Flush(0, false, false)]

  /** Another mark of LSN 2, and a whole flush beside the periodic one, as at shutdown. */
  const BESIDE: seq<Step> :=
    PERIODIC + [Start(2, 0), Advance(1), Advance(1), Begin]
      + [Flush(1, false, false), Flush(1, false, false), Flush(1, true, true)]

  /** Then the periodic flush goes on to write. */
  const REGRESSING: seq<Step> := BESIDE + [Flush(0, false, false), Flush(0, true, true)]

  lemma MarkedOnce(heartbeat: nat)
    ensures var steps := [Start(1, 0), Advance(0), Advance(0), Advance(0), Advance(0)];
      var s := Reach(steps, heartbeat);
      && Legal(steps, heartbeat) && s.dirty && s.marking.maxLsn == 1 && |s.marking.markers| == 1
      && s.flushers == [] && s.trace == [] && s.ticking == ZERO.ticking
  {
    var s1: seq<Step> := [Start(1, 0)];
    assert ([] + [Start(1, 0)]) == s1 && Legal([], heartbeat) && Reach([], heartbeat) == ZERO;
    ReachSnoc([], Start(1, 0), heartbeat);
    hide Reach, Legal;
    assert Reach(s1, heartbeat).marking.markers == [Marker(1, 0, Load, 0)];
    var s2 := s1 + [Advance(0)];
    ReachSnoc(s1, Advance(0), heartbeat);
    assert Reach(s2, heartbeat).marking.markers[0].pc.Cas?;
    var s3 := s2 + [Advance(0)];
    ReachSnoc(s2, Advance(0), heartbeat);
    assert Reach(s3, heartbeat).marking.markers[0].pc.AddEvents? && Reach(s3, heartbeat).marking.maxLsn == 1;
    var s4 := s3 + [Advance(0)];
    ReachSnoc(s3, Advance(0), heartbeat);
    assert Reach(s4, heartbeat).marking.markers[0].pc.SetDirty?;
    ReachSnoc(s4, Advance(0), heartbeat);
    assert s4 + [Advance(0)] == [Start(1, 0), Advance(0), Advance(0), Advance(0), Advance(0)];
  }

  lemma PeriodicReads(heartbeat: nat)
    ensures Legal(PERIODIC, heartbeat)
    ensures var s := Reach(PERIODIC, heartbeat);
      && s.marking.maxLsn == 1 && |s.marking.markers| == 1 && s.trace == [Reads(0)]
      && s.flushers == [Flusher(ReadEvents, 1, 0, false)]
  {
    hide Reach, Legal;
    MarkedOnce(heartbeat);
    var s5: seq<Step> := [Start(1, 0), Advance(0), Advance(0), Advance(0), Advance(0)];
    var s6 := s5 + [Tick];
    ReachSnoc(s5, Tick, heartbeat);
    assert Reach(s6, heartbeat).flushers == [FRESH] && Reach(s6, heartbeat).trace == [];
    ReachSnoc(s6, Flush(0, false, false), heartbeat);
    assert s6 + [Flush(0, false, false)] == PERIODIC;
  }

  lemma BesideWrites(heartbeat: nat)
    ensures Legal(BESIDE, heartbeat)
    ensures var s := Reach(BESIDE, heartbeat);
      && s.persisted.Some? && s.persisted.value.0 == 2
      && |s.flushers| == 2 && s.flushers[0].pc.ReadEvents? && s.flushers[0].lsn == 1
  {
    PeriodicReads(heartbeat);
    hide Reach, Legal, PERIODIC;
    var s1 := PERIODIC + [Start(2, 0)];
    ReachSnoc(PERIODIC, Start(2, 0), heartbeat);
    var s2 := s1 + [Advance(1)];
    ReachSnoc(s1, Advance(1), heartbeat);
    assert Reach(s2, heartbeat).marking.markers[1].pc.Cas?;
    var s3 := s2 + [Advance(1)];
    ReachSnoc(s2, Advance(1), heartbeat);
    assert Reach(s3, heartbeat).marking.maxLsn == 2;
    var s4 := s3 + [Begin];
    ReachSnoc(s3, Begin, heartbeat);
    assert Reach(s4, heartbeat).flushers == [Flusher(ReadEvents, 1, 0, false), FRESH];
    var s5 := s4 + [Flush(1, false, false)];
    ReachSnoc(s4, Flush(1, false, false), heartbeat);
    var s6 := s5 + [Flush(1, false, false)];
    ReachSnoc(s5, Flush(1, false, false), heartbeat);
    assert Reach(s6, heartbeat).flushers[1].pc.Write? && Reach(s6, heartbeat).flushers[1].lsn == 2;
    ReachSnoc(s6, Flush(1, true, true), heartbeat);
    assert s6 + [Flush(1, true, true)] == BESIDE;
  }

  /**
   A shutdown flush beside the periodic one takes the document back: from nothing, in sixteen legal
   steps, it goes to 2 and then to 1.
   */
  lemma OverlappingFlushRegresses(heartbeat: nat)
    ensures Legal(REGRESSING, heartbeat) && !NeverBack(REGRESSING, heartbeat)
    ensures Reach(BESIDE, heartbeat).persisted.Some? && Reach(BESIDE, heartbeat).persisted.value.0 == 2
    ensures Reach(REGRESSING, heartbeat).persisted.Some? && Reach(REGRESSING, heartbeat).persisted.value.0 == 1
  {
    BesideWrites(heartbeat);
    hide Reach, Legal, BESIDE;
    var s1 := BESIDE + [Flush(0, false, false)];
    ReachSnoc(BESIDE, Flush(0, false, false), heartbeat);
    ReachSnoc(s1, Flush(0, true, true), heartbeat);
    assert s1 + [Flush(0, true, true)] == REGRESSING;
    assert REGRESSING[..|BESIDE|] == BESIDE && REGRESSING[..|REGRESSING|] == REGRESSING;
    assert !NotBehind(Reach(REGRESSING[..|BESIDE|], heartbeat), Reach(REGRESSING[..|REGRESSING|], heartbeat));
  }
}

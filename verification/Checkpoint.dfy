/**
 services/sink/internal/checkpoint/checkpoint.go: lock-free progress marks, the flush, and the tick
 schedule, as interleaved atomic steps of any number of markers and any number of flushes.
 */
module Checkpoint {
  import opened Wrappers

  /** Where one MarkProgress call stands: before its load, before its CAS, its add, its store. */
  datatype MarkPc = Load | Cas(cur: int, seen: nat) | AddEvents | SetDirty | Finished

  /** `taken` counts the call's steps so far. */
  datatype Marker = Marker(lsn: int, n: int, pc: MarkPc, taken: nat)

  /** Where a flush stands; the snapshot is read field by field before it is written. */
  datatype FlushPc = ReadLsn | ReadEvents | Write | Stamp | Clean | Done

  /** A flush that gave up waiting may leave its write in flight. */
  datatype Flusher = Flusher(pc: FlushPc, lsn: int, events: int, inFlight: bool)

  /** A mark that has made its LSN count, with the tick at which it did. */
  datatype Mark = Mark(tick: nat, lsn: int)

  /** What flushes do to the document: flush `i` reads its LSN, and its write lands. */
  datatype Event = Reads(i: nat) | Lands(i: nat)

  /** The counters and the calls that move them, with the marks and the calls whose CAS succeeded. */
  datatype Marking = Marking(maxLsn: int, events: int, markers: seq<Marker>, raisers: set<nat>, marks: seq<Mark>)

  /**
   The periodic loop: the flush it waits for and its idle counter; then history: ticks so far, the
   tick of its last successful flush, whether an attempt has failed since, and whether another flush
   has cleared the dirty flag since its latest attempt began.
   */
  datatype Ticking = Ticking(
    waiting: Option<nat>, idle: nat, tick: nat, lastFlush: nat, failing: bool, eased: bool)

  /** `written` is the largest LSN ever stored; `trace` what the flushes have read and stored. */
  datatype State = State(
    marking: Marking, dirty: bool, persisted: Option<(int, int)>, written: int,
    flushers: seq<Flusher>, ticking: Ticking, trace: seq<Event>)

  const ZERO := State(Marking(0, 0, [], {}, []), false, None, 0, [], Ticking(None, 0, 0, 0, false, false), [])

  /** `Begin` is a call of Flush, at any time; `Land` a write that arrives after its flush gave up. */
  datatype Step =
    | Start(lsn: int, n: int)
    | Advance(i: nat)
    | Tick
    | Begin
    | Flush(i: nat, lands: bool, acked: bool)
    | Land(i: nat)

  function Started(lsn: int, n: int): Marker {
    Marker(lsn, n, if lsn > 0 then Load else AddEvents, 0)
  }

  /** One atomic step of a MarkProgress call, except that the last one also sets the dirty flag. */
  function Marked(c: Marking, i: nat, tick: nat): Marking
    requires i < |c.markers| && !c.markers[i].pc.Finished?
  {
    var m := c.markers[i].(taken := c.markers[i].taken + 1);
    match m.pc
    case Load =>
      if m.lsn <= c.maxLsn then
        c.(markers := c.markers[i := m.(pc := AddEvents)], marks := c.marks + [Mark(tick, m.lsn)])
      else c.(markers := c.markers[i := m.(pc := Cas(c.maxLsn, |c.raisers|))])
    case Cas(cur, _) =>
      if c.maxLsn == cur then
        Marking(m.lsn, c.events, c.markers[i := m.(pc := AddEvents)], c.raisers + {i}, c.marks + [Mark(tick, m.lsn)])
      else c.(markers := c.markers[i := m.(pc := Load)])
    case AddEvents =>
      c.(markers := c.markers[i := m.(pc := SetDirty)], events := c.events + if m.n > 0 then m.n else 0)
    case SetDirty => c.(markers := c.markers[i := m.(pc := Finished)])
  }

  /** A tick flushes when something is dirty, and otherwise every `heartbeat` ticks. */
  predicate ShouldFlush(dirty: bool, idle: nat, heartbeat: nat) {
    dirty || idle + 1 >= heartbeat
  }

  const FRESH := Flusher(ReadLsn, 0, 0, false)

  function Ticked(s: State, heartbeat: nat): State {
    var k := s.ticking.(tick := s.ticking.tick + 1, idle := if s.dirty then s.ticking.idle else s.ticking.idle + 1);
    if ShouldFlush(s.dirty, s.ticking.idle, heartbeat) then
      s.(flushers := s.flushers + [FRESH], ticking := k.(waiting := Some(|s.flushers|), eased := false))
    else s.(ticking := k)
  }

  /** Flush `i` returns an error to its caller. */
  function Failed(k: Ticking, i: nat): Ticking {
    if k.waiting == Some(i) then k.(failing := true, waiting := None) else k
  }

  /** Flush `i` has cleared the dirty flag and returns to its caller. */
  function Cleaned(k: Ticking, i: nat): Ticking {
    if k.waiting == Some(i) then Ticking(None, 0, k.tick, k.tick, false, k.eased) else k.(eased := true)
  }

  /** The write of flush `i` reaches the document; `f` is what becomes of the flush. */
  function Stored(s: State, i: nat, f: Flusher, k: Ticking): State
    requires i < |s.flushers|
  {
    State(s.marking, s.dirty, Some((f.lsn, f.events)), if f.lsn > s.written then f.lsn else s.written,
          s.flushers[i := f], k, s.trace + [Lands(i)])
  }

  /**
   One step of flush `i`. A write that is not acknowledged may have landed all the same, or stay in
   flight.
   */
  function Flushed(s: State, i: nat, lands: bool, acked: bool): State
    requires i < |s.flushers| && !s.flushers[i].pc.Done?
  {
    var f := s.flushers[i];
    match f.pc
    case ReadLsn =>
      s.(flushers := s.flushers[i := f.(pc := ReadEvents, lsn := s.marking.maxLsn)], trace := s.trace + [Reads(i)])
    case ReadEvents => s.(flushers := s.flushers[i := f.(pc := Write, events := s.marking.events)])
    case Write =>
      if acked then Stored(s, i, f.(pc := Stamp), s.ticking)
      else if lands then Stored(s, i, f.(pc := Done), Failed(s.ticking, i))
      else s.(flushers := s.flushers[i := f.(pc := Done, inFlight := true)], ticking := Failed(s.ticking, i))
    case Stamp => s.(flushers := s.flushers[i := f.(pc := Clean)])
    case Clean => s.(flushers := s.flushers[i := f.(pc := Done)], dirty := false, ticking := Cleaned(s.ticking, i))
  }

  predicate Enabled(s: State, step: Step) {
    match step
    case Start(_, _) => true
    case Advance(i) => i < |s.marking.markers| && !s.marking.markers[i].pc.Finished?
    case Tick => s.ticking.waiting.None?
    case Begin => true
    case Flush(i, _, _) => i < |s.flushers| && !s.flushers[i].pc.Done?
    case Land(i) => i < |s.flushers| && s.flushers[i].inFlight
  }

  function Do(s: State, step: Step, heartbeat: nat): State
    requires Enabled(s, step)
  {
    match step
    case Start(lsn, n) => s.(marking := s.marking.(markers := s.marking.markers + [Started(lsn, n)]))
    case Advance(i) =>
      s.(marking := Marked(s.marking, i, s.ticking.tick), dirty := s.dirty || s.marking.markers[i].pc.SetDirty?)
    case Tick => Ticked(s, heartbeat)
    case Begin => s.(flushers := s.flushers + [FRESH])
    case Flush(i, lands, acked) => Flushed(s, i, lands, acked)
    case Land(i) => Stored(s, i, s.flushers[i].(inFlight := false), s.ticking)
  }

  /** The state after the steps that were enabled. */
  function Reach(steps: seq<Step>, heartbeat: nat): State {
    if steps == [] then ZERO
    else
      var s := Reach(steps[..|steps| - 1], heartbeat);
      if Enabled(s, steps[|steps| - 1]) then Do(s, steps[|steps| - 1], heartbeat) else s
  }

  /** Every step was enabled when it was taken. */
  predicate Legal(steps: seq<Step>, heartbeat: nat) {
    steps == []
    || (Legal(steps[..|steps| - 1], heartbeat) && Enabled(Reach(steps[..|steps| - 1], heartbeat), steps[|steps| - 1]))
  }

  lemma ReachSnoc(steps: seq<Step>, step: Step, heartbeat: nat)
    requires Enabled(Reach(steps, heartbeat), step)
    ensures Reach(steps + [step], heartbeat) == Do(Reach(steps, heartbeat), step, heartbeat)
    ensures Legal(steps, heartbeat) ==> Legal(steps + [step], heartbeat)
  {
    hide Do, Enabled;
    assert (steps + [step])[..|steps|] == steps;
  }

  predicate Counted(m: Marker) {
    m.pc.SetDirty? || m.pc.Finished?
  }

  /** What the call has added to the event count so far. */
  function Adds(m: Marker): int {
    if Counted(m) && m.n > 0 then m.n else 0
  }

  function EventsOf(markers: seq<Marker>): int {
    if markers == [] then 0 else EventsOf(markers[..|markers| - 1]) + Adds(markers[|markers| - 1])
  }

  lemma {:induction false} EventsUpdate(markers: seq<Marker>, i: nat, m: Marker)
    requires i < |markers|
    ensures EventsOf(markers[i := m]) == EventsOf(markers) - Adds(markers[i]) + Adds(m)
    decreases |markers|
  {
    var n := |markers| - 1;
    if i < n {
      EventsUpdate(markers[..n], i, m);
      assert markers[i := m][..n] == markers[..n][i := m];
    } else {
      assert markers[i := m][..n] == markers[..n];
    }
  }

  ghost predicate Passed(m: Marker) {
    m.pc.AddEvents? || m.pc.SetDirty? || m.pc.Finished?
  }

  ghost predicate Carried(markers: seq<Marker>, lsn: int) {
    exists i :: 0 <= i < |markers| && Passed(markers[i]) && markers[i].lsn == lsn
  }

  /** A marker that passed is covered by the maximum; one before its CAS has seen no more than the maximum. */
  ghost predicate Bounded(m: Marker, maxLsn: int) {
    && (Passed(m) ==> m.lsn <= maxLsn)
    && (m.pc.Cas? ==> m.pc.cur <= maxLsn && m.pc.cur < m.lsn)
    && (m.pc.Load? || m.pc.Cas? ==> 0 < m.lsn)
  }

  /** The maximum is carried by a marker, or 0, and bounds them all; the count is that of the markers past their add. */
  ghost predicate MarkersAgree(c: Marking) {
    && c.maxLsn >= 0
    && (c.maxLsn == 0 || Carried(c.markers, c.maxLsn))
    && (forall m :: m in c.markers ==> Bounded(m, c.maxLsn))
    && c.events == EventsOf(c.markers)
  }

  /** A marker has taken two steps for each success it has seen, and at most three more. */
  ghost predicate Paced(m: Marker, maxLsn: int, raised: nat) {
    match m.pc
    case Load => m.taken <= 2 * raised
    case Cas(cur, seen) => m.taken <= 2 * seen + 1 && seen <= raised && (maxLsn != cur ==> seen < raised)
    case AddEvents => m.taken <= 2 * raised + 1
    case SetDirty => m.taken <= 2 * raised + 2
    case Finished => m.taken <= 2 * raised + 3
  }

  ghost predicate StepsAgree(c: Marking) {
    && (forall m :: m in c.markers ==> Paced(m, c.maxLsn, |c.raisers|))
    && forall i :: i in c.raisers ==> i < |c.markers| && Passed(c.markers[i])
  }

  /** Snapshots, writes and marks lie below the maximum, and the document below the largest write. */
  ghost predicate SnapshotsAgree(s: State) {
    && 0 <= s.written <= s.marking.maxLsn
    && (s.persisted.Some? ==> s.persisted.value.0 <= s.written)
    && (forall f :: f in s.flushers ==> f.lsn <= s.marking.maxLsn)
    && forall m :: m in s.marking.marks ==> 0 < m.lsn <= s.marking.maxLsn && m.tick <= s.ticking.tick
  }

  ghost predicate ScheduleKept(k: Ticking, dirty: bool, heartbeat: nat) {
    && ((k.failing || k.waiting.Some?) && !k.eased ==> dirty || k.idle >= heartbeat)
    && k.lastFlush <= k.tick
    && (!k.failing && k.waiting.None? ==> k.tick - k.lastFlush == k.idle < heartbeat)
    && (!k.failing ==> k.tick - k.lastFlush <= heartbeat)
  }

  /** The flush the loop waits for has not returned. */
  ghost predicate Waits(k: Ticking, flushers: seq<Flusher>) {
    k.waiting.Some? ==> k.waiting.value < |flushers| && !flushers[k.waiting.value].pc.Done?
  }

  /** Marks made before tick `t` are covered by `lsn`. */
  ghost predicate Covered(marks: seq<Mark>, t: nat, lsn: int) {
    forall m :: m in marks && m.tick < t ==> m.lsn <= lsn
  }

  /** What a flush has read covers the marks of earlier ticks, and once stored so does the largest write. */
  ghost predicate Covers(f: Flusher, marks: seq<Mark>, t: nat, written: int) {
    && (!f.pc.ReadLsn? ==> Covered(marks, t, f.lsn))
    && (f.pc.Stamp? || f.pc.Clean? ==> f.lsn <= written)
  }

  /** Marks made before the tick of the loop's last successful flush have been written; so for a flush under way. */
  ghost predicate MarksPersist(s: State) {
    && Covered(s.marking.marks, s.ticking.lastFlush, s.written)
    && (s.ticking.waiting.Some? && s.ticking.waiting.value < |s.flushers| ==>
          Covers(s.flushers[s.ticking.waiting.value], s.marking.marks, s.ticking.tick, s.written))
  }

  ghost predicate Inv(s: State, heartbeat: nat) {
    && MarkersAgree(s.marking) && StepsAgree(s.marking)
    && SnapshotsAgree(s) && MarksPersist(s)
    && ScheduleKept(s.ticking, s.dirty, heartbeat) && Waits(s.ticking, s.flushers)
  }

  lemma CarriedUpdate(markers: seq<Marker>, i: nat, m: Marker, lsn: int)
    requires i < |markers| && Carried(markers, lsn) && (Passed(markers[i]) ==> Passed(m)) && m.lsn == markers[i].lsn
    ensures Carried(markers[i := m], lsn)
  {
    var k :| 0 <= k < |markers| && Passed(markers[k]) && markers[k].lsn == lsn;
    assert Passed(markers[i := m][k]) && markers[i := m][k].lsn == lsn;
  }

  lemma MarkKeepsMarkers(c: Marking, i: nat, tick: nat)
    requires MarkersAgree(c) && i < |c.markers| && !c.markers[i].pc.Finished?
    ensures MarkersAgree(Marked(c, i, tick)) && Marked(c, i, tick).maxLsn >= c.maxLsn
  {
    var d := Marked(c, i, tick);
    assert c.markers[i] in c.markers && d.markers == c.markers[i := d.markers[i]];
    EventsUpdate(c.markers, i, d.markers[i]);
    assert d.maxLsn >= c.maxLsn && Bounded(d.markers[i], d.maxLsn) && d.events == EventsOf(d.markers);
    if d.maxLsn != c.maxLsn {
      assert Passed(d.markers[i]) && d.markers[i].lsn == d.maxLsn;
    } else if c.maxLsn != 0 {
      CarriedUpdate(c.markers, i, d.markers[i], c.maxLsn);
    }
    hide Marked, EventsOf;
    forall m | m in d.markers ensures Bounded(m, d.maxLsn) {
      assert m == d.markers[i] || m in c.markers;
    }
  }

  lemma MarkPaces(c: Marking, i: nat, tick: nat)
    requires MarkersAgree(c) && StepsAgree(c) && i < |c.markers| && !c.markers[i].pc.Finished?
    ensures var d := Marked(c, i, tick);
      && d.markers == c.markers[i := d.markers[i]] && Paced(d.markers[i], d.maxLsn, |d.raisers|)
      && (d.raisers == c.raisers || (d.raisers == c.raisers + {i} && i !in c.raisers && Passed(d.markers[i])))
      && (Passed(c.markers[i]) ==> Passed(d.markers[i]))
      && |c.raisers| <= |d.raisers| && (d.maxLsn != c.maxLsn ==> |c.raisers| < |d.raisers|)
  {
    assert c.markers[i] in c.markers;
    assert Bounded(c.markers[i], c.maxLsn) && Paced(c.markers[i], c.maxLsn, |c.raisers|);
    hide MarkersAgree;
  }

  lemma MarkKeepsSteps(c: Marking, i: nat, tick: nat)
    requires MarkersAgree(c) && StepsAgree(c) && i < |c.markers| && !c.markers[i].pc.Finished?
    ensures StepsAgree(Marked(c, i, tick))
  {
    hide Marked, MarkersAgree, Passed;
    MarkPaces(c, i, tick);
    var d := Marked(c, i, tick);
    forall m | m in d.markers ensures Paced(m, d.maxLsn, |d.raisers|) {
      assert m == d.markers[i] || m in c.markers;
    }
  }

  /** A mark takes the LSN it counts below the maximum, in the current tick. */
  lemma MarkEffect(c: Marking, i: nat, tick: nat)
    requires MarkersAgree(c) && i < |c.markers| && !c.markers[i].pc.Finished?
    ensures c.maxLsn <= Marked(c, i, tick).maxLsn
    ensures forall m :: m in Marked(c, i, tick).marks ==>
      m in c.marks || (m.tick == tick && 0 < m.lsn <= Marked(c, i, tick).maxLsn)
  {
    assert Bounded(c.markers[i], c.maxLsn);
  }

  lemma AdvanceKeeps(s: State, i: nat, heartbeat: nat)
    requires Inv(s, heartbeat) && Enabled(s, Advance(i))
    ensures Inv(Do(s, Advance(i), heartbeat), heartbeat)
    ensures s.marking.maxLsn <= Do(s, Advance(i), heartbeat).marking.maxLsn
  {
    MarkKeepsMarkers(s.marking, i, s.ticking.tick);
    MarkKeepsSteps(s.marking, i, s.ticking.tick);
    MarkEffect(s.marking, i, s.ticking.tick);
    hide Marked, MarkersAgree, StepsAgree;
  }

  lemma StartKeeps(c: Marking, lsn: int, n: int)
    requires MarkersAgree(c) && StepsAgree(c)
    ensures MarkersAgree(c.(markers := c.markers + [Started(lsn, n)]))
    ensures StepsAgree(c.(markers := c.markers + [Started(lsn, n)]))
  {
    var d := c.(markers := c.markers + [Started(lsn, n)]);
    assert d.markers[..|c.markers|] == c.markers;
    if c.maxLsn != 0 {
      var k :| 0 <= k < |c.markers| && Passed(c.markers[k]) && c.markers[k].lsn == c.maxLsn;
      assert Passed(d.markers[k]) && d.markers[k].lsn == c.maxLsn;
    }
  }

  lemma TickKeeps(s: State, heartbeat: nat)
    requires Inv(s, heartbeat) && s.ticking.waiting.None? && heartbeat > 0
    ensures Inv(Ticked(s, heartbeat), heartbeat)
  {
    hide MarkersAgree, StepsAgree;
  }

  lemma FlushKeepsSnapshots(s: State, i: nat, lands: bool, acked: bool)
    requires SnapshotsAgree(s) && i < |s.flushers| && !s.flushers[i].pc.Done?
    ensures SnapshotsAgree(Flushed(s, i, lands, acked)) && Flushed(s, i, lands, acked).written >= s.written
  {
    assert s.flushers[i] in s.flushers;
    var t := Flushed(s, i, lands, acked);
    assert t.flushers == s.flushers[i := t.flushers[i]] && t.flushers[i].lsn <= s.marking.maxLsn;
    assert t.marking == s.marking && t.ticking.tick == s.ticking.tick;
    assert s.written <= t.written <= s.marking.maxLsn && (t.persisted.Some? ==> t.persisted.value.0 <= t.written);
    hide Flushed;
    forall f | f in t.flushers ensures f.lsn <= t.marking.maxLsn {
      assert f == t.flushers[i] || f in s.flushers;
    }
  }

  lemma FlushKeepsSchedule(s: State, i: nat, lands: bool, acked: bool, heartbeat: nat)
    requires ScheduleKept(s.ticking, s.dirty, heartbeat) && Waits(s.ticking, s.flushers) && heartbeat > 0
    requires i < |s.flushers| && !s.flushers[i].pc.Done?
    ensures var t := Flushed(s, i, lands, acked);
      ScheduleKept(t.ticking, t.dirty, heartbeat) && Waits(t.ticking, t.flushers)
  {
  }

  lemma FlushKeepsMarks(s: State, i: nat, lands: bool, acked: bool)
    requires SnapshotsAgree(s) && MarksPersist(s) && Waits(s.ticking, s.flushers)
    requires i < |s.flushers| && !s.flushers[i].pc.Done?
    ensures MarksPersist(Flushed(s, i, lands, acked))
  {
  }

  lemma FlushKeeps(s: State, i: nat, lands: bool, acked: bool, heartbeat: nat)
    requires Inv(s, heartbeat) && i < |s.flushers| && !s.flushers[i].pc.Done? && heartbeat > 0
    ensures Inv(Flushed(s, i, lands, acked), heartbeat) && Flushed(s, i, lands, acked).marking == s.marking
    ensures Flushed(s, i, lands, acked).written >= s.written
  {
    FlushKeepsSnapshots(s, i, lands, acked);
    FlushKeepsSchedule(s, i, lands, acked, heartbeat);
    FlushKeepsMarks(s, i, lands, acked);
    hide MarkersAgree, StepsAgree, SnapshotsAgree, ScheduleKept, Waits, MarksPersist;
  }

  lemma LandKeeps(s: State, i: nat, heartbeat: nat)
    requires Inv(s, heartbeat) && Enabled(s, Land(i))
    ensures Inv(Do(s, Land(i), heartbeat), heartbeat)
  {
    hide MarkersAgree, StepsAgree, ScheduleKept;
    assert s.flushers[i] in s.flushers;
  }

  lemma BeginKeeps(s: State, heartbeat: nat)
    requires Inv(s, heartbeat)
    ensures Inv(Do(s, Begin, heartbeat), heartbeat)
  {
    hide MarkersAgree, StepsAgree, ScheduleKept;
  }

  /**
   Every atomic step of every interleaving keeps the invariant; neither the maximum nor the largest
   write goes back.
   */
  lemma StepKeeps(s: State, step: Step, heartbeat: nat)
    requires Inv(s, heartbeat) && Enabled(s, step) && heartbeat > 0
    ensures var t := Do(s, step, heartbeat);
      Inv(t, heartbeat) && s.marking.maxLsn <= t.marking.maxLsn && s.written <= t.written
  {
    hide Inv;
    match step
    case Start(lsn, n) => StartStepKeeps(s, lsn, n, heartbeat);
    case Advance(i) => AdvanceKeeps(s, i, heartbeat);
    case Tick => TickKeeps(s, heartbeat);
    case Begin => BeginKeeps(s, heartbeat);
    case Flush(i, lands, acked) => FlushKeeps(s, i, lands, acked, heartbeat); hide Flushed;
    case Land(i) => LandKeeps(s, i, heartbeat);
  }

  lemma StartStepKeeps(s: State, lsn: int, n: int, heartbeat: nat)
    requires Inv(s, heartbeat)
    ensures Inv(Do(s, Start(lsn, n), heartbeat), heartbeat)
  {
    StartKeeps(s.marking, lsn, n);
    hide MarkersAgree, StepsAgree, ScheduleKept;
  }

  lemma {:induction false} ReachKeeps(steps: seq<Step>, heartbeat: nat)
    requires heartbeat > 0
    ensures Inv(Reach(steps, heartbeat), heartbeat)
  {
    hide Do, Enabled;
    if steps != [] {
      var n := |steps| - 1;
      ReachKeeps(steps[..n], heartbeat);
      if Enabled(Reach(steps[..n], heartbeat), steps[n]) {
        StepKeeps(Reach(steps[..n], heartbeat), steps[n], heartbeat);
      }
    }
  }

  function MaxOf(markers: seq<Marker>): int {
    if markers == [] then 0
    else
      var rest := MaxOf(markers[..|markers| - 1]);
      if markers[|markers| - 1].lsn > rest then markers[|markers| - 1].lsn else rest
  }

  function PositiveSum(markers: seq<Marker>): int {
    if markers == [] then 0
    else PositiveSum(markers[..|markers| - 1]) + if markers[|markers| - 1].n > 0 then markers[|markers| - 1].n else 0
  }

  lemma {:induction false} MaxOfIsMax(markers: seq<Marker>)
    ensures MaxOf(markers) >= 0 && forall i :: 0 <= i < |markers| ==> markers[i].lsn <= MaxOf(markers)
    ensures MaxOf(markers) == 0 || exists i :: 0 <= i < |markers| && markers[i].lsn == MaxOf(markers)
  {
    if markers != [] {
      var prev := markers[..|markers| - 1];
      MaxOfIsMax(prev);
      if MaxOf(markers) != 0 && MaxOf(markers) == MaxOf(prev) {
        var i :| 0 <= i < |prev| && prev[i].lsn == MaxOf(prev);
        assert markers[i].lsn == MaxOf(markers);
      }
    }
  }

  lemma {:induction false} AllCounted(markers: seq<Marker>)
    requires forall m :: m in markers ==> m.pc.Finished?
    ensures EventsOf(markers) == PositiveSum(markers)
  {
    if markers != [] {
      AllCounted(markers[..|markers| - 1]);
    }
  }

  /**
   Any number of concurrent MarkProgress calls, interleaved in any way with each other and with
   flushes: when all have returned, the maximum is that of 0 and all their LSNs, and the count is
   the sum of their positive batch sizes.
   */
  lemma ConcurrentMarks(steps: seq<Step>, heartbeat: nat)
    requires heartbeat > 0
    requires forall m :: m in Reach(steps, heartbeat).marking.markers ==> m.pc.Finished?
    ensures Reach(steps, heartbeat).marking.maxLsn == MaxOf(Reach(steps, heartbeat).marking.markers)
    ensures Reach(steps, heartbeat).marking.events == PositiveSum(Reach(steps, heartbeat).marking.markers)
  {
    ReachKeeps(steps, heartbeat);
    var c := Reach(steps, heartbeat).marking;
    hide Reach, StepsAgree;
    MaxOfIsMax(c.markers);
    if MaxOf(c.markers) != 0 {
      var i :| 0 <= i < |c.markers| && c.markers[i].lsn == MaxOf(c.markers);
      assert Bounded(c.markers[i], c.maxLsn);
    }
    AllCounted(c.markers);
  }

  /** A CAS fails only because the maximum has grown, so each retry is strictly closer to its goal. */
  lemma RetryShrinks(c: Marking, i: nat)
    requires MarkersAgree(c) && i < |c.markers| && c.markers[i].pc.Cas? && c.maxLsn != c.markers[i].pc.cur
    ensures c.markers[i].lsn - c.maxLsn < c.markers[i].lsn - c.markers[i].pc.cur
  {
    assert c.markers[i] in c.markers;
  }

  lemma {:induction false} BelowSize(s: set<nat>, n: nat)
    requires forall i :: i in s ==> i < n
    ensures |s| <= n
    decreases n
  {
    if n == 0 {
      assert s == {};
    } else {
      BelowSize(s - {n - 1}, n - 1);
      assert s <= (s - {n - 1}) + {n - 1};
      assert |s| <= |s - {n - 1}| + 1;
    }
  }

  /** The steps that call `i` took. */
  function TakenBy(steps: seq<Step>, i: nat): nat {
    if steps == [] then 0
    else TakenBy(steps[..|steps| - 1], i) + if steps[|steps| - 1] == Advance(i) then 1 else 0
  }

  lemma {:induction false} TakenIsCounted(steps: seq<Step>, i: nat, heartbeat: nat)
    requires Legal(steps, heartbeat)
    ensures var markers := Reach(steps, heartbeat).marking.markers;
      TakenBy(steps, i) == if i < |markers| then markers[i].taken else 0
  {
    hide Do, Enabled;
    if steps != [] {
      var n := |steps| - 1;
      TakenIsCounted(steps[..n], i, heartbeat);
      StepTakes(Reach(steps[..n], heartbeat), steps[n], i, heartbeat);
    }
  }

  lemma StepTakes(s: State, step: Step, i: nat, heartbeat: nat)
    requires Enabled(s, step)
    ensures var before, after := s.marking.markers, Do(s, step, heartbeat).marking.markers;
      (if i < |after| then after[i].taken else 0)
        == (if i < |before| then before[i].taken else 0) + if step == Advance(i) then 1 else 0
  {
  }

  /**
   Every MarkProgress call ends: in any interleaving it takes at most two steps for each call there
   is, and three more.
   */
  lemma MarkerStepsBounded(steps: seq<Step>, i: nat, heartbeat: nat)
    requires heartbeat > 0 && Legal(steps, heartbeat)
    ensures TakenBy(steps, i) <= 2 * |Reach(steps, heartbeat).marking.markers| + 3
  {
    ReachKeeps(steps, heartbeat);
    TakenIsCounted(steps, i, heartbeat);
    var c := Reach(steps, heartbeat).marking;
    hide Reach, MarkersAgree;
    if i < |c.markers| {
      assert Paced(c.markers[i], c.maxLsn, |c.raisers|);
      BelowSize(c.raisers, |c.markers|);
    }
  }

  /**
   Progress is written within `heartbeat` ticks while the periodic flushes succeed, even when another
   flush has erased its dirty flag; and nothing is written that was not marked.
   */
  lemma MarksGetWritten(steps: seq<Step>, heartbeat: nat, m: Mark)
    requires heartbeat > 0 && m in Reach(steps, heartbeat).marking.marks
    requires var k := Reach(steps, heartbeat).ticking;
      k.waiting.None? && !k.failing && m.tick + heartbeat <= k.tick
    ensures 0 < m.lsn <= Reach(steps, heartbeat).written <= MaxOf(Reach(steps, heartbeat).marking.markers)
  {
    ReachKeeps(steps, heartbeat);
    MaxLsnIsSomeones(Reach(steps, heartbeat).marking);
  }

  lemma MaxLsnIsSomeones(c: Marking)
    requires MarkersAgree(c)
    ensures c.maxLsn <= MaxOf(c.markers)
  {
    MaxOfIsMax(c.markers);
  }

  /**
   The flush schedule: after a success a tick attempts exactly if something is dirty or it is the
   `heartbeat`-th since, so successes are at most that far apart unless an attempt fails; after a
   failure every tick attempts until some flush clears the dirty flag.
   */
  lemma FlushSchedule(steps: seq<Step>, heartbeat: nat)
    requires heartbeat > 0
    ensures var s := Reach(steps, heartbeat);
      var k, next := s.ticking, Ticked(s, heartbeat).ticking;
      && (!k.failing ==> k.tick - k.lastFlush <= heartbeat)
      && (k.waiting.None? && k.failing && !k.eased ==> next.waiting.Some?)
      && (k.waiting.None? && !k.failing ==> (next.waiting.Some? <==> s.dirty || k.tick + 1 - k.lastFlush >= heartbeat))
      && (k.waiting.None? ==> next.tick == k.tick + 1 && next.lastFlush == k.lastFlush && next.failing == k.failing)
  {
    ReachKeeps(steps, heartbeat);
  }

  /** The checkpointer between interleavings: one call at a time. */
  class Checkpointer {
    const heartbeatEvery: nat
    var maxLSN: int
    var eventCount: int
    var dirty: bool
    var lastWriteAt: int
    var document: Option<(int, int)>
    var idleTicks: nat

    constructor (heartbeatEvery: nat, createdAt: int)
      ensures this.heartbeatEvery == (if heartbeatEvery == 0 then 6 else heartbeatEvery)
      ensures maxLSN == 0 && eventCount == 0 && !dirty && lastWriteAt == createdAt && document == None && idleTicks == 0
    {
      this.heartbeatEvery := if heartbeatEvery == 0 then 6 else heartbeatEvery;
      maxLSN, eventCount, dirty, lastWriteAt, document, idleTicks := 0, 0, false, createdAt, None, 0;
    }

    method CompareAndSwap(expected: int, next: int) returns (swapped: bool)
      modifies this`maxLSN
      ensures swapped == (old(maxLSN) == expected) && maxLSN == if swapped then next else old(maxLSN)
    {
      swapped := maxLSN == expected;
      if swapped {
        maxLSN := next;
      }
    }

    method MarkProgress(lsn: int, batchSize: int)
      requires maxLSN >= 0
      modifies this`maxLSN, this`eventCount, this`dirty
      ensures maxLSN == if lsn > old(maxLSN) then lsn else old(maxLSN)
      ensures eventCount == old(eventCount) + if batchSize > 0 then batchSize else 0
      ensures dirty
    {
      if lsn > 0 {
        var done := false;
        while !done
          invariant eventCount == old(eventCount)
          invariant maxLSN == if done && lsn > old(maxLSN) then lsn else old(maxLSN)
          decreases !done
        {
          var cur := maxLSN;
          if lsn <= cur {
            break;
          }
          done := CompareAndSwap(cur, lsn);
        }
      }
      if batchSize > 0 {
        eventCount := eventCount + batchSize;
      }
      dirty := true;
    }

    method FlushNow(now: int, stored: bool) returns (ok: bool)
      modifies this`document, this`lastWriteAt, this`dirty
      ensures ok == stored
      ensures if ok then document == Some((maxLSN, eventCount)) && lastWriteAt == now && !dirty
              else document == old(document) && lastWriteAt == old(lastWriteAt) && dirty == old(dirty)
    {
      if !stored {
        return false;
      }
      document := Some((maxLSN, eventCount));
      lastWriteAt := now;
      dirty := false;
      return true;
    }

    /** One turn of Run's loop; a failed flush leaves the idle count alone. */
    method OnTick(now: int, stored: bool) returns (attempted: bool)
      modifies this`document, this`lastWriteAt, this`dirty, this`idleTicks
      ensures attempted <==> old(dirty) || old(idleTicks) + 1 >= heartbeatEvery
      ensures attempted && stored ==> idleTicks == 0 && !dirty && lastWriteAt == now
      ensures attempted && stored ==> document == Some((maxLSN, eventCount))
      ensures !(attempted && stored) ==> idleTicks == old(idleTicks) + if old(dirty) then 0 else 1
      ensures !(attempted && stored) ==> dirty == old(dirty) && document == old(document)
      ensures !(attempted && stored) ==> lastWriteAt == old(lastWriteAt)
    {
      if !dirty {
        idleTicks := idleTicks + 1;
        if idleTicks < heartbeatEvery {
          return false;
        }
      }
      var ok := FlushNow(now, stored);
      if !ok {
        return true;
      }
      idleTicks := 0;
      return true;
    }

    /** Seconds since the last successful write, and never negative. */
    function Staleness(now: int): (d: int)
      reads this`lastWriteAt
      ensures d >= 0 && (now >= lastWriteAt ==> now == lastWriteAt + d)
    {
      if now < lastWriteAt then 0 else now - lastWriteAt
    }
  }
}

/**
 services/sink/cmd/dlqtool/main.go: the scan of a dead-letter topic and the replay of its records.
 Keys and values are of any type `B`, which the tool can only pass on.
 */
module DlqTool {
  const SOURCE_TOPIC := "__dlq_source_topic"
  const ERROR_REASON := "__dlq_error_reason"

  datatype Header = Header(key: string, value: string)
  datatype Record<B> = Record(key: B, value: B, headers: seq<Header>)
  datatype Replay<B> = Replay(topic: string, key: B, value: B)

  /** The value of the first header with that name, or "" if there is none. */
  ghost predicate FirstHeader(headers: seq<Header>, name: string, v: string) {
    || (v == "" && forall h | h in headers :: h.key != name)
    || exists i | 0 <= i < |headers| && headers[i] == Header(name, v) :: forall j | 0 <= j < i :: headers[j].key != name
  }

  lemma {:induction false} HeaderValueIs(headers: seq<Header>, name: string)
    ensures FirstHeader(headers, name, HeaderValue(headers, name))
  {
    if i :| 0 <= i < |headers| && headers[i].key == name {
      var first := FirstNamed(headers, name, i);
      FirstHeaderWins(headers, name, first);
      assert headers[first] == Header(name, HeaderValue(headers, name));
    } else {
      NoHeader(headers, name);
    }
  }

  lemma {:induction false} FirstNamed(headers: seq<Header>, name: string, i: nat) returns (first: nat)
    requires i < |headers| && headers[i].key == name
    ensures first <= i && headers[first].key == name && forall j | 0 <= j < first :: headers[j].key != name
    decreases i
  {
    if j :| 0 <= j < i && headers[j].key == name {
      first := FirstNamed(headers, name, j);
    } else {
      first := i;
    }
  }

  method HeaderString(headers: seq<Header>, name: string) returns (v: string)
    ensures FirstHeader(headers, name, v)
    ensures v == HeaderValue(headers, name)
  {
    for i := 0 to |headers|
      invariant forall j :: 0 <= j < i ==> headers[j].key != name
    {
      if headers[i].key == name {
        FirstHeaderWins(headers, name, i);
        assert headers[i] == Header(name, headers[i].value);
        return headers[i].value;
      }
    }
    NoHeader(headers, name);
    return "";
  }

  function HeaderValue(headers: seq<Header>, name: string): string {
    if headers == [] then ""
    else if headers[0].key == name then headers[0].value
    else HeaderValue(headers[1..], name)
  }

  lemma {:induction false} FirstHeaderWins(headers: seq<Header>, name: string, i: nat)
    requires i < |headers| && headers[i].key == name && forall j :: 0 <= j < i ==> headers[j].key != name
    ensures HeaderValue(headers, name) == headers[i].value
    decreases i
  {
    if i > 0 {
      FirstHeaderWins(headers[1..], name, i - 1);
    }
  }

  lemma {:induction false} NoHeader(headers: seq<Header>, name: string)
    requires forall h :: h in headers ==> h.key != name
    ensures HeaderValue(headers, name) == ""
  {
    if headers != [] {
      assert headers[0] in headers;
      NoHeader(headers[1..], name);
    }
  }

  lemma OneFirstHeader(headers: seq<Header>, name: string)
    ensures forall v | FirstHeader(headers, name, v) :: v == HeaderValue(headers, name)
  {
    forall v | FirstHeader(headers, name, v) ensures v == HeaderValue(headers, name) {
      if i :| 0 <= i < |headers| && headers[i] == Header(name, v) && forall j | 0 <= j < i :: headers[j].key != name {
        FirstHeaderWins(headers, name, i);
      } else {
        NoHeader(headers, name);
      }
    }
  }

  function Truncate(s: string, n: nat): (t: string)
    ensures |s| <= n ==> t == s
    ensures |s| > n ==> |t| == n + 3 && s[..n] <= t
  {
    if |s| <= n then s else s[..n] + "..."
  }

  function Reason<B>(r: Record<B>): string {
    Truncate(HeaderValue(r.headers, ERROR_REASON), 80)
  }

  function SourceTopic<B>(r: Record<B>): string {
    HeaderValue(r.headers, SOURCE_TOPIC)
  }

  /** At most 80 characters as they are, more cut off there and marked. */
  ghost predicate Shortened(full: string, reason: string) {
    if |full| <= 80 then reason == full else reason == full[..80] + "..."
  }

  method Provenance<B>(r: Record<B>) returns (reason: string, srcTopic: string)
    ensures FirstHeader(r.headers, "__dlq_source_topic", srcTopic)
    ensures exists full :: FirstHeader(r.headers, "__dlq_error_reason", full) && Shortened(full, reason)
    ensures reason == Reason(r) && srcTopic == SourceTopic(r)
  {
    reason := HeaderString(r.headers, ERROR_REASON);
    srcTopic := HeaderString(r.headers, SOURCE_TOPIC);
    reason := Truncate(reason, 80);
  }

  function First(start: map<int, int>, p: int): int {
    if p in start then start[p] else 0
  }

  /** Offsets from the start to the end offset; a partition without a start offset counts from 0. */
  ghost function Window(start: map<int, int>, end: map<int, int>, ps: seq<int>): set<(int, int)>
    requires forall p :: p in ps ==> p in end
  {
    set p, o | p in ps && First(start, p) <= o < end[p] :: (p, o)
  }

  /** Offsets a start offset is ahead of its end offset. */
  ghost function Deficit(start: map<int, int>, end: map<int, int>, ps: seq<int>): set<(int, int)>
    requires forall p :: p in ps ==> p in end
  {
    set p, o | p in ps && end[p] <= o < First(start, p) :: (p, o)
  }

  lemma {:induction false} RangeSize(p: int, lo: int, hi: int)
    ensures |set o | lo <= o < hi :: (p, o)| == if lo < hi then hi - lo else 0
    decreases hi - lo
  {
    if lo < hi {
      RangeSize(p, lo, hi - 1);
      assert (set o | lo <= o < hi :: (p, o)) == (set o | lo <= o < hi - 1 :: (p, o)) + {(p, hi - 1)};
    } else {
      assert (set o | lo <= o < hi :: (p, o)) == {};
    }
  }

  lemma WindowSnoc(start: map<int, int>, end: map<int, int>, ps: seq<int>, p: int)
    requires (forall q :: q in ps ==> q in end) && p in end && p !in ps
    ensures |Window(start, end, ps + [p])|
         == |Window(start, end, ps)| + if First(start, p) < end[p] then end[p] - First(start, p) else 0
  {
    var here := set o | First(start, p) <= o < end[p] :: (p, o);
    RangeSize(p, First(start, p), end[p]);
    assert Window(start, end, ps + [p]) == Window(start, end, ps) + here;
    assert Window(start, end, ps) !! here;
  }

  lemma DeficitSnoc(start: map<int, int>, end: map<int, int>, ps: seq<int>, p: int)
    requires (forall q :: q in ps ==> q in end) && p in end && p !in ps
    ensures |Deficit(start, end, ps + [p])|
         == |Deficit(start, end, ps)| + if end[p] < First(start, p) then First(start, p) - end[p] else 0
  {
    var here := set o | end[p] <= o < First(start, p) :: (p, o);
    RangeSize(p, end[p], First(start, p));
    assert Deficit(start, end, ps + [p]) == Deficit(start, end, ps) + here;
    assert Deficit(start, end, ps) !! here;
  }

  /** Go's map iteration visits the partitions in an order it does not promise; `ps` is that order. */
  method TotalLag(start: map<int, int>, end: map<int, int>, ps: seq<int>) returns (n: int)
    requires forall p :: p in ps <==> p in end
    requires forall i, j :: 0 <= i < j < |ps| ==> ps[i] != ps[j]
    ensures n == |Window(start, end, ps)| - |Deficit(start, end, ps)|
  {
    n := 0;
    assert Window(start, end, ps[..0]) == {} && Deficit(start, end, ps[..0]) == {};
    hide Window, Deficit;
    for i := 0 to |ps|
      invariant n == |Window(start, end, ps[..i])| - |Deficit(start, end, ps[..i])|
    {
      assert ps[..i + 1] == ps[..i] + [ps[i]];
      WindowSnoc(start, end, ps[..i], ps[i]);
      DeficitSnoc(start, end, ps[..i], ps[i]);
      n := n + (end[ps[i]] - First(start, ps[i]));
    }
    assert ps[..|ps|] == ps;
  }

  /** A record is replayed when it says where it came from and the broker acknowledges it. */
  predicate Goes<B>(r: Record<B>, acked: bool) {
    SourceTopic(r) != "" && acked
  }

  function ReplayOf<B>(r: Record<B>): Replay<B> {
    Replay(SourceTopic(r), r.key, r.value)
  }

  /** The replays of `taken`, in order, with key and value as they were. */
  function Replays<B>(taken: seq<Record<B>>, acks: seq<bool>): seq<Replay<B>>
    requires |taken| == |acks|
  {
    if taken == [] then []
    else
      var n := |taken| - 1;
      Replays(taken[..n], acks[..n]) + if Goes(taken[n], acks[n]) then [ReplayOf(taken[n])] else []
  }

  /** Where in `taken` the records that go are. */
  function Going<B>(taken: seq<Record<B>>, acks: seq<bool>): seq<nat>
    requires |taken| == |acks|
  {
    if taken == [] then []
    else
      var n := |taken| - 1;
      Going(taken[..n], acks[..n]) + if Goes(taken[n], acks[n]) then [n] else []
  }

  lemma {:induction false} GoingAre<B>(taken: seq<Record<B>>, acks: seq<bool>)
    requires |taken| == |acks|
    ensures var idx := Going(taken, acks);
      && (forall i, j :: 0 <= i < j < |idx| ==> idx[i] < idx[j])
      && forall k: nat :: k in idx <==> k < |taken| && Goes(taken[k], acks[k])
  {
    hide Goes;
    if taken != [] {
      var n := |taken| - 1;
      GoingAre(taken[..n], acks[..n]);
      var prev, idx := Going(taken[..n], acks[..n]), Going(taken, acks);
      hide Going;
      forall i, j | 0 <= i < j < |idx| ensures idx[i] < idx[j] {
        assert prev[i] in prev;
      }
      forall k: nat ensures k in idx <==> k < |taken| && Goes(taken[k], acks[k]) {
        assert k in idx <==> k in prev || (k == n && Goes(taken[n], acks[n]));
      }
    }
  }

  /** A record goes back to the topic it came from, key and value as they were, and nothing else of it does. */
  lemma ReplayIs<B>(r: Record<B>, acked: bool)
    ensures ReplayOf(r).key == r.key && ReplayOf(r).value == r.value
    ensures FirstHeader(r.headers, "__dlq_source_topic", ReplayOf(r).topic)
    ensures Goes(r, acked) <==> acked && ReplayOf(r).topic != ""
  {
    hide HeaderValue, FirstHeader;
    HeaderValueIs(r.headers, "__dlq_source_topic");
  }

  /** Exactly the records that go, each once and in the order read. */
  lemma {:induction false} ReplaysAreExact<B>(taken: seq<Record<B>>, acks: seq<bool>)
    requires |taken| == |acks|
    ensures var idx, out := Going(taken, acks), Replays(taken, acks);
      && |out| == |idx| && (forall i, j :: 0 <= i < j < |idx| ==> idx[i] < idx[j])
      && (forall k: nat :: k in idx <==> k < |taken| && Goes(taken[k], acks[k]))
      && forall i :: 0 <= i < |idx| ==> idx[i] < |taken| && out[i] == ReplayOf(taken[idx[i]])
  {
    hide Goes, ReplayOf;
    GoingAre(taken, acks);
    if taken != [] {
      var n := |taken| - 1;
      ReplaysAreExact(taken[..n], acks[..n]);
    }
  }

  function Reasons<B>(taken: seq<Record<B>>): (rs: seq<string>)
    ensures |rs| == |taken|
  {
    seq(|taken|, i requires 0 <= i < |taken| => Reason(taken[i]))
  }

  lemma TakenSnoc<B>(taken: seq<Record<B>>, acks: seq<bool>, r: Record<B>, acked: bool)
    requires |taken| == |acks|
    ensures Replays(taken + [r], acks + [acked])
         == Replays(taken, acks) + if Goes(r, acked) then [ReplayOf(r)] else []
  {
    hide Goes, ReplayOf;
    assert (taken + [r])[..|taken|] == taken && (acks + [acked])[..|acks|] == acks;
  }

  lemma TalliedSnoc<B>(taken: seq<Record<B>>, r: Record<B>)
    ensures Reasons(taken + [r]) == Reasons(taken) + [Reason(r)]
    ensures Named(taken + [r]) == if SourceTopic(r) != "" then Named(taken) + [SourceTopic(r)] else Named(taken)
  {
    hide Reason, SourceTopic;
    assert (taken + [r])[..|taken|] == taken;
  }

  function Tallied(m: map<string, nat>, k: string): nat {
    if k in m then m[k] else 0
  }

  /** One more of `k`. */
  function Counted(m: map<string, nat>, k: string): map<string, nat> {
    m[k := Tallied(m, k) + 1]
  }

  /** `m` counts the elements of `s`. */
  ghost predicate Counts(m: map<string, nat>, s: seq<string>) {
    forall k :: Tallied(m, k) == multiset(s)[k]
  }

  method Bump(m: map<string, nat>, k: string, ghost s: seq<string>) returns (bumped: map<string, nat>)
    requires Counts(m, s)
    ensures Counts(bumped, s + [k]) && bumped == Counted(m, k)
  {
    bumped := m[k := Tallied(m, k) + 1];
  }

  function Named<B>(taken: seq<Record<B>>): seq<string> {
    if taken == [] then []
    else
      var t := SourceTopic(taken[|taken| - 1]);
      Named(taken[..|taken| - 1]) + if t != "" then [t] else []
  }

  /** The records of the first `n` polls. */
  function Read<B>(polls: nat -> seq<Record<B>>, n: nat): seq<Record<B>> {
    if n == 0 then [] else Read(polls, n - 1) + polls(n - 1)
  }

  /** The scan's stopping rule, after `n` polls. */
  predicate Enough<B>(polls: nat -> seq<Record<B>>, n: nat, max: int, target: int) {
    || (max > 0 && |Read(polls, n)| >= max)
    || |Read(polls, n)| >= target
    || (n >= 2 && polls(n - 1) == [] && polls(n - 2) == [])
  }

  class Scan<B> {
    const replay: bool
    var processed: nat
    var replayed: nat
    var replayFailed: nat
    var reasons: map<string, nat>
    var bySourceTopic: map<string, nat>
    var published: seq<Replay<B>>
    ghost var taken: seq<Record<B>>
    ghost var acks: seq<bool>

    /** The tallies are those of the records taken so far. */
    ghost predicate Tallies()
      reads this`taken, this`processed, this`reasons, this`bySourceTopic
    {
      && processed == |taken|
      && Counts(reasons, Reasons(taken))
      && Counts(bySourceTopic, Named(taken))
    }

    /** The records published are those replayed, and each record taken was replayed or failed. */
    ghost predicate Accounts()
      reads this`taken, this`acks, this`published, this`replayed, this`replayFailed
    {
      && |taken| == |acks|
      && replayed == |published|
      && published == (if replay then Replays(taken, acks) else [])
      && replayed + replayFailed == if replay then |taken| else 0
    }

    constructor (replay: bool)
      ensures Tallies() && Accounts() && this.replay == replay && taken == []
    {
      this.replay := replay;
      processed, replayed, replayFailed := 0, 0, 0;
      reasons, bySourceTopic, published := map[], map[], [];
      taken, acks := [], [];
    }

    /** One record of a poll; `acked` is what the producer would answer. */
    method Take(r: Record<B>, acked: bool)
      requires Tallies() && Accounts()
      modifies this
      ensures Tallies() && Accounts() && taken == old(taken) + [r] && acks == old(acks) + [acked]
      ensures processed == old(processed) + 1
      ensures !replay ==> published == old(published) && replayed == old(replayed) && replayFailed == old(replayFailed)
      ensures replay ==> forall topic | FirstHeader(r.headers, "__dlq_source_topic", topic) ::
        if topic != "" && acked then
          published == old(published) + [Replay(topic, r.key, r.value)] && replayed == old(replayed) + 1
        else published == old(published) && replayed == old(replayed) && replayFailed == old(replayFailed) + 1
    {
      OneFirstHeader(r.headers, "__dlq_source_topic");
      hide Tallies, Replays, FirstHeader, HeaderValue;
      TakenSnoc(taken, acks, r, acked);
      var srcTopic := Tally(r);
      acks := acks + [acked];
      if replay {
        if srcTopic == "" {
          replayFailed := replayFailed + 1;
          return;
        }
        if !acked {
          replayFailed := replayFailed + 1;
          return;
        }
        published := published + [Replay(srcTopic, r.key, r.value)];
        replayed := replayed + 1;
      }
    }

    method Tally(r: Record<B>) returns (srcTopic: string)
      requires Tallies()
      modifies this`processed, this`reasons, this`bySourceTopic, this`taken
      ensures Tallies() && taken == old(taken) + [r] && srcTopic == SourceTopic(r)
      ensures processed == old(processed) + 1 && FirstHeader(r.headers, "__dlq_source_topic", srcTopic)
      ensures bySourceTopic == if srcTopic == "" then old(bySourceTopic) else Counted(old(bySourceTopic), srcTopic)
      ensures exists full, reason :: FirstHeader(r.headers, "__dlq_error_reason", full) && Shortened(full, reason)
                                     && reasons == Counted(old(reasons), reason)
    {
      hide Counts, Reasons, Reason, SourceTopic, Truncate, HeaderValue, Named, FirstHeader, Shortened, Counted;
      processed := processed + 1;
      var reason;
      reason, srcTopic := Provenance(r);
      TalliedSnoc(taken, r);
      reasons := Bump(reasons, reason, Reasons(taken));
      if srcTopic != "" {
        bySourceTopic := Bump(bySourceTopic, srcTopic, Named(taken));
      }
      taken := taken + [r];
    }

    /** The callback over the records of one poll. */
    method EachRecord(fetches: seq<Record<B>>, acked: nat -> bool)
      requires Tallies() && Accounts() && forall i :: 0 <= i < |acks| ==> acks[i] == acked(i)
      modifies this
      ensures Tallies() && Accounts() && processed == |taken| && taken == old(taken) + fetches
      ensures forall i :: 0 <= i < |acks| ==> acks[i] == acked(i)
    {
      hide Counts, Reasons, Replays, Named;
      assert processed == |taken|;
      for i := 0 to |fetches|
        invariant Tallies() && Accounts() && taken == old(taken) + fetches[..i]
        invariant forall j :: 0 <= j < |acks| ==> acks[j] == acked(j)
      {
        assert fetches[..i + 1] == fetches[..i] + [fetches[i]];
        Take(fetches[i], acked(processed));
      }
    }

    /**
     The scan. `polls` are the records of each poll, `expired` says after which polls the context is
     over, `acked` is the producer's answer for each record in turn. It stops at the first poll after
     which enough has been read, or before handling the first poll that ends past the deadline.
     */
    method Run(polls: nat -> seq<Record<B>>, expired: nat -> bool, acked: nat -> bool, max: int, target: int)
      returns (rounds: nat)
      requires Tallies() && Accounts() && taken == []
      modifies this
      ensures Tallies() && Accounts() && taken == Read(polls, rounds)
      ensures forall i :: 0 <= i < |acks| ==> acks[i] == acked(i)
      ensures target == 0 ==> rounds == 0
      ensures target != 0 ==> expired(rounds) || (rounds > 0 && Enough(polls, rounds, max, target))
      ensures forall k: nat :: k < rounds ==> !expired(k) && (k > 0 ==> !Enough(polls, k, max, target))
    {
      hide Counts, Reasons, Replays, Named;
      rounds := 0;
      if target == 0 {
        return;
      }
      var emptyPolls := 0;
      while true
        invariant Tallies() && Accounts() && taken == Read(polls, rounds)
        invariant forall i :: 0 <= i < |acks| ==> acks[i] == acked(i)
        invariant forall k: nat :: k < rounds ==> !expired(k)
        invariant forall k: nat :: 0 < k <= rounds ==> !Enough(polls, k, max, target)
        invariant emptyPolls == if rounds > 0 && polls(rounds - 1) == [] then 1 else 0
        decreases target - processed, 2 - emptyPolls
      {
        var fetches := polls(rounds);
        if expired(rounds) {
          break;
        }
        EachRecord(fetches, acked);
        rounds := rounds + 1;
        if max > 0 && processed >= max {
          break;
        } else if processed >= target {
          break;
        } else if |fetches| == 0 {
          emptyPolls := emptyPolls + 1;
          if emptyPolls >= 2 {
            break;
          }
        } else {
          emptyPolls := 0;
        }
      }
    }
  }

  /** A scan of `rounds` polls of at most `b` records each, none of which it could have stopped before. */
  ghost predicate Scanned<B>(polls: nat -> seq<Record<B>>, rounds: nat, max: int, target: int, b: nat) {
    && rounds > 0
    && (forall k: nat :: k < rounds ==> |polls(k)| <= b)
    && forall k: nat :: 0 < k < rounds ==> !Enough(polls, k, max, target)
  }

  function Least(a: int, b: int): int {
    if a < b then a else b
  }

  /** The scan passes the point where it wants to stop by less than one poll. */
  lemma OvershootBound<B>(polls: nat -> seq<Record<B>>, rounds: nat, max: int, target: int, b: nat)
    requires 0 < max && 0 < target && Scanned(polls, rounds, max, target, b)
    ensures |Read(polls, rounds)| < Least(max, target) + b
  {
    assert |polls(rounds - 1)| <= b;
    if rounds > 1 {
      assert !Enough(polls, rounds - 1, max, target);
    } else {
      assert Read(polls, 0) == [];
    }
  }

  /** One record a poll, until a last poll of `b`. */
  function Trickle<B>(r: Record<B>, last: nat, b: nat): nat -> seq<Record<B>> {
    n => if n < last then [r] else seq(b, i => r)
  }

  lemma {:induction false} TrickleRead<B>(r: Record<B>, last: nat, b: nat, n: nat)
    requires n <= last
    ensures |Read(Trickle(r, last, b), n)| == n
  {
    if n > 0 {
      TrickleRead(r, last, b, n - 1);
    }
  }

  lemma TrickleIsScanned<B>(r: Record<B>, max: int, target: int, b: nat)
    requires 0 < max && 0 < target && b > 0
    ensures var n := Least(max, target);
      Scanned(Trickle(r, n - 1, b), n, max, target, b) && |Read(Trickle(r, n - 1, b), n)| == n - 1 + b
  {
    var n := Least(max, target);
    var polls := Trickle(r, n - 1, b);
    TrickleRead(r, n - 1, b, n - 1);
    forall k: nat | 0 < k < n ensures !Enough(polls, k, max, target) {
      TrickleRead(r, n - 1, b, k);
      assert polls(k - 1) == [r];
    }
  }

  /**
   `max` is looked at between polls only. With polls of up to `b` records every scan stays within it
   exactly when one poll fits between the point where the scan stops and `max`; when at least `max`
   records are waiting, that is when a poll holds at most one record.
   */
  lemma MaxKeptIff<B(!new)>(r: Record<B>, b: nat, max: int, target: int)
    requires 0 < max && 0 < target
    ensures (forall polls: nat -> seq<Record<B>>, rounds: nat ::
               Scanned(polls, rounds, max, target, b) ==> |Read(polls, rounds)| <= max)
       <==> b <= max - Least(max, target) + 1
  {
    hide Scanned, Enough, Read, Trickle;
    if b <= max - Least(max, target) + 1 {
      forall polls: nat -> seq<Record<B>>, rounds: nat | Scanned(polls, rounds, max, target, b)
        ensures |Read(polls, rounds)| <= max
      {
        OvershootBound(polls, rounds, max, target, b);
      }
    } else {
      TrickleIsScanned(r, max, target, b);
    }
  }
}

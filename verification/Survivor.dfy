/**
 What any sequence of gated writes leaves behind, whatever its order and repetitions.

 An executed upsert is covered when a delete of its row with a higher LSN executes after it.
 A row is absent exactly when all its executed upserts are covered; otherwise its document carries
 the highest LSN among the uncovered ones, and the image of the event with that LSN.
 */
module Survivor {
  import opened Wrappers
  import opened Writer
  import opened Mongo

  /** Delete `d` removes whatever upsert `u` wrote, when it runs after it. */
  predicate Covers(d: CDCEvent, u: CDCEvent) {
    IsDelete(d) && !IsDelete(u) && KeyOf(d) == KeyOf(u) && u.lsn < d.lsn
  }

  /** The upsert at `i` is not followed by a delete that covers it. */
  ghost predicate Uncovered(evs: seq<CDCEvent>, i: int) {
    && 0 <= i < |evs|
    && !IsDelete(evs[i])
    && forall j :: i < j < |evs| ==> !Covers(evs[j], evs[i])
  }

  ghost predicate UncoveredOf(evs: seq<CDCEvent>, k: DocKey, i: int) {
    Uncovered(evs, i) && KeyOf(evs[i]) == k
  }

  /** `d` carries the LSN and every field of the image of `ev`. */
  ghost predicate Carries(d: Doc, ev: CDCEvent, schemaVersion: int) {
    forall f :: f in Image(ev, schemaVersion) ==> f in d && d[f] == Image(ev, schemaVersion)[f]
  }

  /** The event at `i` is the newest uncovered upsert of row `k`, and `d` is its document. */
  ghost predicate Holder(evs: seq<CDCEvent>, k: DocKey, i: int, d: Doc, schemaVersion: int) {
    && UncoveredOf(evs, k, i)
    && (forall j :: UncoveredOf(evs, k, j) ==> evs[j].lsn <= evs[i].lsn)
    && Carries(d, evs[i], schemaVersion)
  }

  /** Every upsert of row `k` names the same fields. */
  ghost predicate SameFields(evs: seq<CDCEvent>, k: DocKey) {
    forall a, b :: a in evs && b in evs && KeyOf(a) == KeyOf(b) == k && !IsDelete(a) && !IsDelete(b)
      ==> Image(a, 0).Keys == Image(b, 0).Keys
  }

  /** Different events of one row have different LSNs. */
  ghost predicate LsnIdentifies(evs: seq<CDCEvent>) {
    forall a, b :: a in evs && b in evs && KeyOf(a) == KeyOf(b) && a.lsn == b.lsn ==> a == b
  }

  /** No delete runs ahead of an upsert it would cover. */
  ghost predicate DeletesBehind(evs: seq<CDCEvent>) {
    forall i, j :: 0 <= i < j < |evs| ==> !Covers(evs[i], evs[j])
  }

  /** How one more write changes the uncovered upserts. */
  lemma UncoveredSnoc(prev: seq<CDCEvent>, e: CDCEvent, k: DocKey)
    ensures forall i :: (UncoveredOf(prev + [e], k, i) <==>
        (if i == |prev| then !IsDelete(e) && KeyOf(e) == k else UncoveredOf(prev, k, i) && !Covers(e, prev[i])))
  {
    var evs := prev + [e];
    forall i ensures UncoveredOf(evs, k, i) <==>
        (if i == |prev| then !IsDelete(e) && KeyOf(e) == k else UncoveredOf(prev, k, i) && !Covers(e, prev[i]))
    {
      if 0 <= i < |prev| {
        assert evs[i] == prev[i] && evs[|prev|] == e;
        if UncoveredOf(evs, k, i) {
          forall j | i < j < |prev| ensures !Covers(prev[j], prev[i]) {
            assert evs[j] == prev[j];
          }
        }
      }
    }
  }

  lemma {:induction false} SurvivorTheorem(evs: seq<CDCEvent>, k: DocKey, schemaVersion: int)
    ensures k in Run(map[], evs, schemaVersion) <==> exists i :: UncoveredOf(evs, k, i)
    ensures k in Run(map[], evs, schemaVersion)
      ==> exists i :: Holder(evs, k, i, Run(map[], evs, schemaVersion)[k], schemaVersion)
    decreases |evs|
  {
    if evs != [] {
      var n := |evs| - 1;
      var e := evs[n];
      var prev := evs[..n];
      assert evs == prev + [e];
      SurvivorTheorem(prev, k, schemaVersion);
      var before := Run(map[], prev, schemaVersion);
      if KeyOf(e) == k {
        SurvivorStep(prev, e, Lookup(before, k), schemaVersion);
      } else {
        UncoveredSnoc(prev, e, k);
        if k in before {
          var i :| Holder(prev, k, i, before[k], schemaVersion);
          assert Holder(evs, k, i, before[k], schemaVersion);
        }
      }
    }
  }

  /** One more write of a row, given the document the row had. */
  lemma SurvivorStep(prev: seq<CDCEvent>, e: CDCEvent, cur: Option<Doc>, schemaVersion: int)
    requires cur.Some? <==> exists i :: UncoveredOf(prev, KeyOf(e), i)
    requires cur.Some? ==> exists i :: Holder(prev, KeyOf(e), i, cur.value, schemaVersion)
    ensures Gated(cur, e, schemaVersion).0.Some? <==> exists i :: UncoveredOf(prev + [e], KeyOf(e), i)
    ensures Gated(cur, e, schemaVersion).0.Some?
      ==> exists i :: Holder(prev + [e], KeyOf(e), i, Gated(cur, e, schemaVersion).0.value, schemaVersion)
  {
    var k, evs, n := KeyOf(e), prev + [e], |prev|;
    var next := Gated(cur, e, schemaVersion).0;
    UncoveredSnoc(prev, e, k);
    assert evs[n] == e;
    if cur.None? {
      if !IsDelete(e) {
        assert UncoveredOf(evs, k, n);
        assert Holder(evs, k, n, next.value, schemaVersion);
      }
    } else {
      var h :| Holder(prev, k, h, cur.value, schemaVersion);
      assert SOURCE_LSN in Image(prev[h], schemaVersion);
      assert cur.value[SOURCE_LSN] == Int(prev[h].lsn);
      FilterMeaning(e, schemaVersion, cur.value);
      if prev[h].lsn >= e.lsn {
        assert Holder(evs, k, h, cur.value, schemaVersion);
      } else if !IsDelete(e) {
        assert UncoveredOf(evs, k, n);
        assert Holder(evs, k, n, next.value, schemaVersion);
      }
    }
  }

  /** With one field set per row nothing of an older image is left over. */
  lemma {:induction false} KeysOfDocument(evs: seq<CDCEvent>, k: DocKey, schemaVersion: int, i: int)
    requires SameFields(evs, k)
    requires 0 <= i < |evs| && !IsDelete(evs[i]) && KeyOf(evs[i]) == k
    ensures k in Run(map[], evs, schemaVersion)
      ==> Run(map[], evs, schemaVersion)[k].Keys == Image(evs[i], schemaVersion).Keys
    decreases |evs|
  {
    var n := |evs| - 1;
    var e := evs[n];
    var prev := evs[..n];
    assert Image(evs[i], schemaVersion).Keys == Image(evs[i], 0).Keys;
    assert Image(e, schemaVersion).Keys == Image(e, 0).Keys;
    if j :| 0 <= j < n && !IsDelete(prev[j]) && KeyOf(prev[j]) == k {
      assert evs[j] == prev[j] && Image(evs[j], schemaVersion).Keys == Image(evs[j], 0).Keys;
      KeysOfDocument(prev, k, schemaVersion, j);
    } else {
      SurvivorTheorem(prev, k, schemaVersion);
      assert k !in Run(map[], prev, schemaVersion);
    }
  }

  /** The whole document, when the row's events agree on their fields. */
  lemma SurvivorDocument(evs: seq<CDCEvent>, k: DocKey, schemaVersion: int)
    requires SameFields(evs, k)
    ensures k in Run(map[], evs, schemaVersion)
      ==> exists i :: Holder(evs, k, i, Run(map[], evs, schemaVersion)[k], schemaVersion)
                      && Run(map[], evs, schemaVersion)[k] == Image(evs[i], schemaVersion)
                      && (evs[i].after.Some? ==> ShowsAfter(Run(map[], evs, schemaVersion)[k], evs[i], schemaVersion))
  {
    SurvivorTheorem(evs, k, schemaVersion);
    if k in Run(map[], evs, schemaVersion) {
      var d := Run(map[], evs, schemaVersion)[k];
      var i :| Holder(evs, k, i, d, schemaVersion);
      KeysOfDocument(evs, k, schemaVersion, i);
      assert d == Image(evs[i], schemaVersion);
      if evs[i].after.Some? {
        ImageIffAfter(d, evs[i], schemaVersion);
      }
    }
  }

  /**
   A row whose newest event is an upsert ends at that event, in any order, with any repetitions and
   whatever deletes ran; so upserts alone form a join, with the highest LSN on top.
   */
  lemma NewestUpsertWins(evs: seq<CDCEvent>, k: DocKey, schemaVersion: int, i: int)
    requires 0 <= i < |evs| && KeyOf(evs[i]) == k && !IsDelete(evs[i])
    requires forall e :: e in evs && KeyOf(e) == k ==> e.lsn < evs[i].lsn || e == evs[i]
    ensures k in Run(map[], evs, schemaVersion)
    ensures Carries(Run(map[], evs, schemaVersion)[k], evs[i], schemaVersion)
    ensures SameFields(evs, k) ==> Run(map[], evs, schemaVersion)[k] == Image(evs[i], schemaVersion)
    ensures SameFields(evs, k) && evs[i].after.Some? ==>
      ShowsAfter(Run(map[], evs, schemaVersion)[k], evs[i], schemaVersion)
  {
    assert UncoveredOf(evs, k, i);
    SurvivorTheorem(evs, k, schemaVersion);
    var h :| Holder(evs, k, h, Run(map[], evs, schemaVersion)[k], schemaVersion);
    assert evs[h] == evs[i];
    if SameFields(evs, k) {
      SurvivorDocument(evs, k, schemaVersion);
    }
  }

  /** An uncovered upsert of `h + a` is uncovered in `h + b` too. */
  lemma UncoveredMoves(h: seq<CDCEvent>, a: seq<CDCEvent>, b: seq<CDCEvent>, k: DocKey, i: int) returns (m: int)
    requires forall e :: e in a <==> e in b
    requires DeletesBehind(a)
    requires UncoveredOf(h + a, k, i)
    ensures UncoveredOf(h + b, k, m) && (h + b)[m] == (h + a)[i]
  {
    var u := (h + a)[i];
    if i < |h| {
      m := i;
    } else {
      assert u == a[i - |h|] && u in b;
      var p :| 0 <= p < |b| && b[p] == u;
      m := |h| + p;
    }
    forall j | m < j < |h + b| ensures !Covers((h + b)[j], u) {
      if j < |h| {
        assert (h + a)[j] == (h + b)[j];
      } else {
        var d := b[j - |h|];
        assert d in a;
        var q :| 0 <= q < |a| && a[q] == d;
        if |h| + q > i {
          assert (h + a)[|h| + q] == d;
        } else if |h| + q < i {
          assert !Covers(a[q], a[i - |h|]);
        }
      }
    }
  }

  /**
   After any history, two executions of the same writes end alike, whatever their order and
   repetitions, provided neither runs a delete ahead of an upsert of its row with a lower LSN.
   */
  lemma OrderImmaterial(h: seq<CDCEvent>, a: seq<CDCEvent>, b: seq<CDCEvent>, schemaVersion: int)
    requires forall e :: e in a <==> e in b
    requires DeletesBehind(a) && DeletesBehind(b)
    requires LsnIdentifies(h + a) && forall k :: SameFields(h + a, k)
    ensures Run(map[], h + a, schemaVersion) == Run(map[], h + b, schemaVersion)
  {
    var left, right := Run(map[], h + a, schemaVersion), Run(map[], h + b, schemaVersion);
    assert forall e :: e in h + a <==> e in h + b;
    forall k ensures Lookup(left, k) == Lookup(right, k) {
      assert SameFields(h + a, k) && SameFields(h + b, k);
      SurvivorDocument(h + a, k, schemaVersion);
      SurvivorDocument(h + b, k, schemaVersion);
      SurvivorTheorem(h + a, k, schemaVersion);
      SurvivorTheorem(h + b, k, schemaVersion);
      if i :| UncoveredOf(h + a, k, i) {
        var _ := UncoveredMoves(h, a, b, k, i);
        SameHolder(h, a, b, k, schemaVersion);
      } else if i :| UncoveredOf(h + b, k, i) {
        var _ := UncoveredMoves(h, b, a, k, i);
        assert false;
      }
    }
    assert forall k :: k in left <==> Lookup(left, k).Some?;
    assert forall k :: k in right <==> Lookup(right, k).Some?;
    assert left.Keys == right.Keys;
    assert forall k :: k in left ==> Lookup(left, k) == Lookup(right, k);
  }

  lemma SameHolder(h: seq<CDCEvent>, a: seq<CDCEvent>, b: seq<CDCEvent>, k: DocKey, schemaVersion: int)
    requires forall e :: e in a <==> e in b
    requires DeletesBehind(a) && DeletesBehind(b)
    requires LsnIdentifies(h + a) && SameFields(h + a, k)
    requires k in Run(map[], h + a, schemaVersion) && k in Run(map[], h + b, schemaVersion)
    ensures Run(map[], h + a, schemaVersion)[k] == Run(map[], h + b, schemaVersion)[k]
  {
    hide ShowsAfter, Image, Run;
    assert forall e :: e in h + a <==> e in h + b;
    SurvivorDocument(h + a, k, schemaVersion);
    SurvivorDocument(h + b, k, schemaVersion);
    var left, right := Run(map[], h + a, schemaVersion)[k], Run(map[], h + b, schemaVersion)[k];
    var i :| Holder(h + a, k, i, left, schemaVersion) && left == Image((h + a)[i], schemaVersion);
    var j :| Holder(h + b, k, j, right, schemaVersion) && right == Image((h + b)[j], schemaVersion);
    var m := UncoveredMoves(h, a, b, k, i);
    var n := UncoveredMoves(h, b, a, k, j);
    assert (h + a)[i].lsn == (h + b)[j].lsn;
    assert (h + a)[i] in h + a && (h + b)[j] in h + a;
  }

  /** The order matters otherwise: a delete run ahead of its row's insert leaves the row behind. */
  lemma DeleteFirstResurrects(u: CDCEvent, d: CDCEvent, schemaVersion: int)
    requires Covers(d, u)
    ensures KeyOf(u) !in Run(map[], [u, d], schemaVersion)
    ensures KeyOf(u) in Run(map[], [d, u], schemaVersion)
  {
    SurvivorTheorem([u, d], KeyOf(u), schemaVersion);
    SurvivorTheorem([d, u], KeyOf(u), schemaVersion);
    assert UncoveredOf([d, u], KeyOf(u), 1);
    assert [u, d][1] == d;
  }
}

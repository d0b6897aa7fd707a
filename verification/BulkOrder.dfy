/**
 services/sink/internal/writer/mongo_writer.go issues its bulks unordered. When that is harmless:
 an exact condition on the batch and the documents it meets.
 */
module BulkOrder {
  import opened Wrappers
  import opened Writer
  import opened Mongo
  import opened Survivor
  import opened MongoWriter

  predicate UpsertsRow(e: CDCEvent, k: DocKey) {
    !IsDelete(e) && KeyOf(e) == k
  }

  /** Delete `d` of the batch is newer than every upsert of its row in the batch, and than the row's document. */
  ghost predicate Contests(cur: Option<Doc>, batch: seq<CDCEvent>, k: DocKey, d: CDCEvent) {
    && d in batch && IsDelete(d) && KeyOf(d) == k
    && !AlreadyAt(cur, d.lsn)
    && forall u :: u in batch && UpsertsRow(u, k) ==> u.lsn < d.lsn
  }

  /** The batch both writes the row and, last of all, deletes it. */
  ghost predicate Contested(cur: Option<Doc>, batch: seq<CDCEvent>, k: DocKey) {
    (exists u :: u in batch && UpsertsRow(u, k)) && exists d :: Contests(cur, batch, k, d)
  }

  ghost predicate Permutes(a: seq<CDCEvent>, b: seq<CDCEvent>) {
    multiset(a) == multiset(b)
  }

  lemma PermutesKeepsMembers(a: seq<CDCEvent>, b: seq<CDCEvent>)
    requires Permutes(a, b)
    ensures forall e :: e in a <==> e in b
  {
    assert forall e :: e in a <==> e in multiset(a);
    assert forall e :: e in b <==> e in multiset(b);
  }

  /** `batch` with the event at `i` executed last. */
  function Last(batch: seq<CDCEvent>, i: nat): seq<CDCEvent>
    requires i < |batch|
  {
    batch[..i] + batch[i + 1..] + [batch[i]]
  }

  lemma LastPermutes(batch: seq<CDCEvent>, i: nat)
    requires i < |batch|
    ensures Permutes(batch, Last(batch, i))
  {
    assert batch == batch[..i] + [batch[i]] + batch[i + 1..];
  }

  /** The row's newest upsert among the batch's, no older than `some`. */
  lemma {:induction false} NewestUpsert(batch: seq<CDCEvent>, k: DocKey, some: CDCEvent) returns (m: CDCEvent)
    requires UpsertsRow(some, k)
    ensures m == some || m in batch
    ensures UpsertsRow(m, k) && some.lsn <= m.lsn
    ensures forall u :: u in batch && UpsertsRow(u, k) ==> u.lsn <= m.lsn
  {
    m := some;
    if batch != [] {
      var n := |batch| - 1;
      m := NewestUpsert(batch[..n], k, some);
      assert batch == batch[..n] + [batch[n]];
      if UpsertsRow(batch[n], k) && m.lsn < batch[n].lsn {
        m := batch[n];
      }
    }
  }

  /** Upsert `m` is in the batch or behind the row's document, and nothing of the row in either is newer. */
  ghost predicate Wins(h: seq<CDCEvent>, batch: seq<CDCEvent>, k: DocKey, m: CDCEvent) {
    && UpsertsRow(m, k)
    && (m in batch || exists i :: UncoveredOf(h, k, i) && h[i] == m)
    && (forall e :: e in batch && KeyOf(e) == k ==> e.lsn <= m.lsn)
    && forall i :: UncoveredOf(h, k, i) ==> h[i].lsn <= m.lsn
  }

  /** The event whose image the row's document is. */
  lemma ShownDocument(evs: seq<CDCEvent>, k: DocKey, v: int) returns (x: int)
    requires SameFields(evs, k) && k in Run(map[], evs, v)
    ensures UncoveredOf(evs, k, x) && 0 <= x < |evs| && Run(map[], evs, v)[k] == Image(evs[x], v)
    ensures forall j :: UncoveredOf(evs, k, j) ==> evs[j].lsn <= evs[x].lsn
  {
    hide Run, Image, SameFields;
    SurvivorDocument(evs, k, v);
    x :| Holder(evs, k, x, Run(map[], evs, v)[k], v) && Run(map[], evs, v)[k] == Image(evs[x], v);
  }

  lemma OneLsnOneEvent(evs: seq<CDCEvent>, k: DocKey, x: int, y: int)
    requires LsnIdentifies(evs) && UncoveredOf(evs, k, x) && UncoveredOf(evs, k, y) && evs[x].lsn == evs[y].lsn
    ensures evs[x] == evs[y]
  {
    assert evs[x] in evs && evs[y] in evs;
  }

  lemma WinnerStays(h: seq<CDCEvent>, batch: seq<CDCEvent>, k: DocKey, m: CDCEvent) returns (i: int)
    requires Wins(h, batch, k, m)
    ensures UncoveredOf(h + batch, k, i) && (h + batch)[i] == m
  {
    var all := h + batch;
    if m in batch {
      var j :| 0 <= j < |batch| && batch[j] == m;
      i := |h| + j;
    } else {
      i :| UncoveredOf(h, k, i) && h[i] == m;
    }
    assert all[i] == m;
    forall j | i < j < |all| ensures !Covers(all[j], m) {
      if j < |h| {
        assert all[j] == h[j];
      } else {
        assert all[j] == batch[j - |h|];
      }
    }
  }

  lemma WinnerIsNewest(h: seq<CDCEvent>, batch: seq<CDCEvent>, k: DocKey, m: CDCEvent, x: int)
    requires Wins(h, batch, k, m) && UncoveredOf(h + batch, k, x)
    ensures (h + batch)[x].lsn <= m.lsn
  {
    var all := h + batch;
    if x < |h| {
      assert UncoveredOf(h, k, x) by {
        assert forall j :: 0 <= j < |h| ==> all[j] == h[j];
      }
    } else {
      assert all[x] == batch[x - |h|];
    }
  }

  /** A winner's image is what the row shows, in whatever order the batch executes. */
  lemma WinnerShows(h: seq<CDCEvent>, batch: seq<CDCEvent>, k: DocKey, m: CDCEvent, v: int)
    requires Wins(h, batch, k, m) && LsnIdentifies(h + batch) && SameFields(h + batch, k)
    ensures Lookup(Run(map[], h + batch, v), k) == Some(Image(m, v))
  {
    hide SameFields, Run, Image, Wins, UncoveredOf, LsnIdentifies;
    var all := h + batch;
    var i := WinnerStays(h, batch, k, m);
    SurvivorTheorem(all, k, v);
    var x := ShownDocument(all, k, v);
    WinnerIsNewest(h, batch, k, m, x);
    OneLsnOneEvent(all, k, x, i);
  }

  lemma WinnerExists(h: seq<CDCEvent>, batch: seq<CDCEvent>, k: DocKey, v: int) returns (m: CDCEvent)
    requires LsnIdentifies(h + batch) && !Contested(Lookup(Run(map[], h, v), k), batch, k)
    requires exists u :: u in batch && UpsertsRow(u, k)
    ensures Wins(h, batch, k, m)
  {
    hide Run, Image;
    var cur := Lookup(Run(map[], h, v), k);
    var u :| u in batch && UpsertsRow(u, k);
    m := NewestUpsert(batch, k, u);
    SurvivorTheorem(h, k, v);
    if x :| UncoveredOf(h, k, x) {
      var i :| Holder(h, k, i, cur.value, v);
      HolderLsn(h, k, i, cur.value, v);
      if m.lsn < h[i].lsn {
        m := h[i];
      }
    }
    forall e | e in batch && KeyOf(e) == k ensures e.lsn <= m.lsn {
      if IsDelete(e) {
        assert !Contests(cur, batch, k, e);
      }
    }
  }

  lemma HolderLsn(h: seq<CDCEvent>, k: DocKey, i: int, d: Doc, v: int)
    requires Holder(h, k, i, d, v)
    ensures forall lsn :: AlreadyAt(Some(d), lsn) <==> h[i].lsn >= lsn
  {
    assert SOURCE_LSN in Image(h[i], v);
  }

  /** Without upserts in the batch, its deletes remove the row in any order or in none. */
  lemma DeletesOnly(h: seq<CDCEvent>, a: seq<CDCEvent>, b: seq<CDCEvent>, k: DocKey, i: int)
    requires (forall e :: e in a <==> e in b) && (forall u :: u in a ==> !UpsertsRow(u, k))
    requires UncoveredOf(h + a, k, i)
    ensures i < |h| && UncoveredOf(h + b, k, i) && (h + a)[i] == (h + b)[i]
  {
    assert forall j :: 0 <= j < |a| ==> (h + a)[|h| + j] == a[j] && a[j] in a;
    forall j | i < j < |h + b| ensures !Covers((h + b)[j], (h + b)[i]) {
      if j < |h| {
        assert (h + a)[j] == h[j];
      } else {
        var d := b[j - |h|];
        assert d in a;
        var q :| 0 <= q < |a| && a[q] == d;
        assert (h + a)[|h| + q] == d;
      }
    }
  }

  lemma DeletesOnlyAgree(h: seq<CDCEvent>, a: seq<CDCEvent>, b: seq<CDCEvent>, k: DocKey, v: int)
    requires (forall e :: e in a <==> e in b) && (forall u :: u in a ==> !UpsertsRow(u, k))
    requires LsnIdentifies(h + a) && SameFields(h + a, k) && SameFields(h + b, k)
    requires k in Run(map[], h + a, v)
    ensures Lookup(Run(map[], h + b, v), k) == Lookup(Run(map[], h + a, v), k)
  {
    hide Run, Image, UncoveredOf, SameFields, LsnIdentifies;
    var x := ShownDocument(h + a, k, v);
    DeletesOnly(h, a, b, k, x);
    SurvivorTheorem(h + b, k, v);
    var y := ShownDocument(h + b, k, v);
    DeletesOnly(h, b, a, k, y);
    OneLsnOneEvent(h + a, k, x, y);
  }

  lemma UncontestedRowAgrees(h: seq<CDCEvent>, a: seq<CDCEvent>, b: seq<CDCEvent>, k: DocKey, v: int)
    requires (forall e :: e in a <==> e in b) && !Contested(Lookup(Run(map[], h, v), k), a, k)
    requires LsnIdentifies(h + a) && SameFields(h + a, k)
    ensures Lookup(Run(map[], h + a, v), k) == Lookup(Run(map[], h + b, v), k)
  {
    hide Run, Image;
    assert forall e :: e in h + a <==> e in h + b;
    assert LsnIdentifies(h + b) && SameFields(h + b, k);
    if u :| u in a && UpsertsRow(u, k) {
      var m := WinnerExists(h, a, k, v);
      assert Wins(h, b, k, m);
      WinnerShows(h, a, k, m, v);
      WinnerShows(h, b, k, m, v);
    } else if k in Run(map[], h + a, v) {
      DeletesOnlyAgree(h, a, b, k, v);
    } else if k in Run(map[], h + b, v) {
      DeletesOnlyAgree(h, b, a, k, v);
    }
  }

  /** A contested row is gone when its newest delete runs last, and there when any of its upserts does. */
  lemma ContestedRowDiffers(h: seq<CDCEvent>, batch: seq<CDCEvent>, k: DocKey, v: int) returns (i: nat, j: nat)
    requires Contested(Lookup(Run(map[], h, v), k), batch, k)
    ensures i < |batch| && j < |batch|
    ensures k !in Run(map[], h + Last(batch, i), v) && k in Run(map[], h + Last(batch, j), v)
  {
    hide Run, Image;
    var u :| u in batch && UpsertsRow(u, k);
    var d :| Contests(Lookup(Run(map[], h, v), k), batch, k, d);
    i :| 0 <= i < |batch| && batch[i] == d;
    j :| 0 <= j < |batch| && batch[j] == u;
    var gone, there := h + Last(batch, i), h + Last(batch, j);
    SurvivorTheorem(gone, k, v);
    SurvivorTheorem(there, k, v);
    assert there[|there| - 1] == u && UncoveredOf(there, k, |there| - 1);
    assert gone[|gone| - 1] == d;
    forall x ensures !UncoveredOf(gone, k, x) {
      if UncoveredOf(gone, k, x) {
        assert x < |h| ==> UncoveredOf(h, k, x) by {
          assert forall j :: 0 <= j < |h| ==> gone[j] == h[j];
        }
        DeleteLastCovers(h, batch, k, i, x, v);
      }
    }
  }

  lemma DeleteLastCovers(h: seq<CDCEvent>, batch: seq<CDCEvent>, k: DocKey, i: nat, x: nat, v: int)
    requires i < |batch| && Contests(Lookup(Run(map[], h, v), k), batch, k, batch[i])
    requires x < |h + Last(batch, i)| && UpsertsRow((h + Last(batch, i))[x], k)
    requires x < |h| ==> UncoveredOf(h, k, x)
    ensures Covers(batch[i], (h + Last(batch, i))[x]) && x < |h + Last(batch, i)| - 1
  {
    hide Run, Image;
    var gone, d := h + Last(batch, i), batch[i];
    assert gone[|gone| - 1] == d;
    LastPermutes(batch, i);
    PermutesKeepsMembers(batch, Last(batch, i));
    if x < |h| {
      SurvivorTheorem(h, k, v);
      var y :| Holder(h, k, y, Run(map[], h, v)[k], v);
      HolderLsn(h, k, y, Run(map[], h, v)[k], v);
    } else {
      assert gone[x] == Last(batch, i)[x - |h|];
    }
  }

  /**
   After any history, a bulk ends in the state its list order gives, whatever order the server picks,
   exactly when no row is contested: the batch does not both write a row and delete it with an LSN
   above those writes and above the row's document.
   */
  lemma BulkOrderImmaterialIff(h: seq<CDCEvent>, batch: seq<CDCEvent>, v: int)
    requires LsnIdentifies(h + batch) && forall k :: SameFields(h + batch, k)
    ensures (forall b :: Permutes(batch, b) ==> Run(map[], h + b, v) == Run(map[], h + batch, v))
       <==> forall k :: !Contested(Lookup(Run(map[], h, v), k), batch, k)
  {
    hide Run, Contested, LsnIdentifies, SameFields, Permutes;
    if forall k :: !Contested(Lookup(Run(map[], h, v), k), batch, k) {
      forall b | Permutes(batch, b) ensures Run(map[], h + b, v) == Run(map[], h + batch, v) {
        PermutesKeepsMembers(batch, b);
        forall k ensures Lookup(Run(map[], h + batch, v), k) == Lookup(Run(map[], h + b, v), k) {
          UncontestedRowAgrees(h, batch, b, k, v);
        }
        SameLookups(Run(map[], h + batch, v), Run(map[], h + b, v));
      }
    } else {
      var k :| Contested(Lookup(Run(map[], h, v), k), batch, k);
      var i, j := ContestedRowDiffers(h, batch, k, v);
      LastPermutes(batch, i);
      LastPermutes(batch, j);
    }
  }

  lemma SameLookups(s: Store, t: Store)
    requires forall k :: Lookup(s, k) == Lookup(t, k)
    ensures s == t
  {
    assert forall k :: k in s <==> Lookup(s, k).Some?;
    assert forall k :: k in t <==> Lookup(t, k).Some?;
    assert s.Keys == t.Keys;
    assert forall k :: k in s ==> Lookup(s, k) == Lookup(t, k);
  }
}

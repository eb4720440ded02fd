/**
  What a rollup changes on the display: from then on rolled rows may take over from the
  fallback. For every rollup that finds nothing on display but raw rows, the exact
  condition under which nobody can tell.
 */
module Handover {
  import opened Traffic
  import opened Aggregation
  import opened Listing
  import opened Calendar
  import opened Ledger
  import opened Hierarchy
  import opened Views
  import opened Fallback
  import opened Show

  // ---------- on rows ----------

  predicate NoneOf(rows: seq<Row>, p: Where) {
    Keep(rows, p) == []
  }

  lemma KeptShows(samples: seq<Row>, p: Where, g: Projection, rows: seq<Row>, i: nat)
    requires i < |samples| && p.Holds(samples[i].Id()) && Lists(rows, Aggregate(Keep(samples, p), g))
    ensures rows != []
  {
    var j := KeepFinds(samples, |samples|, p, i);
    KeysMembers(Keep(samples, p), |Keep(samples, p)|, g);
    ListsKeys(rows, Aggregate(Keep(samples, p), g));
    assert g.Of(samples[i].Id()) in Ids(rows);
  }

  lemma NoneKeptShowsNone(rows: seq<Row>, kept: seq<Row>, g: Projection, name: string)
    requires kept == [] && ListsInOrder(rows, Aggregate(kept, g), name)
    ensures rows == []
  {
    assert Aggregate(kept, g) == map[];
  }

  /** A display of selected rows is empty exactly if none is selected. */
  lemma ShowsIff(shown: seq<Row>, rows: seq<Row>, p: Where, g: Projection, name: string)
    requires ListsInOrder(shown, Aggregate(Keep(rows, p), g), name)
    ensures shown == [] <==> NoneOf(rows, p)
  {
    if NoneOf(rows, p) {
      NoneKeptShowsNone(shown, Keep(rows, p), g, name);
    } else {
      KeepNone(rows, p);
      var i :| 0 <= i < |rows| && p.Holds(rows[i].Id());
      InOrderLists(shown, Aggregate(Keep(rows, p), g), name);
      KeptShows(rows, p, g, shown, i);
    }
  }

  /** What a view displays of a table that aggregates `rows`. */
  ghost predicate Serves(
    shown: seq<Row>, rows: seq<Row>, floor: int -> int, from: int, to: int, iface: Option<string>, v: View,
    week: int -> int)
  {
    shown == Grouped(Query(ListingOf(Aggregate(rows, By(floor))), from, to, iface), v, week)
  }

  /** A table serves what it aggregates in range. */
  lemma ServesInRange(
    shown: seq<Row>, table: seq<Row>, t: map<Key, Bytes>, rows: seq<Row>, floor: int -> int, from: int, to: int,
    iface: Option<string>, v: View, week: int -> int)
    requires shown == Grouped(Query(table, from, to, iface), v, week) && Lists(table, t)
    requires Restrict(t, Wanted(from, to, iface)) == Restrict(Aggregate(rows, By(floor)), Wanted(from, to, iface))
    ensures Serves(shown, rows, floor, from, to, iface, v, week)
  {
    var u := Aggregate(rows, By(floor));
    QueriesAgree(table, t, ListingOf(u), u, from, to, iface);
  }

  /** A display of selected samples, in terms of all of them. */
  lemma ServesSelected(
    shown: seq<Row>, samples: seq<Row>, newer: Where, floor: int -> int, from: int, to: int,
    iface: Option<string>, v: View, week: int -> int)
    requires Serves(shown, Keep(samples, newer), floor, from, to, iface, v, week)
    ensures ListsInOrder(shown, Aggregate(Keep(samples, Both(newer, Via(By(floor), Wanted(from, to, iface)))),
                                          Regrouped(Compose(Shown(iface), By(floor)), v, week)), ShownAs(iface))
  {
    var some := Keep(samples, newer);
    GroupedQueryLists(ListingOf(Aggregate(some, By(floor))), some, floor, from, to, iface, v, week);
    KeepBoth(samples, newer, Via(By(floor), Wanted(from, to, iface)));
  }

  /**
    Rolled rows of the pending samples take over from the raw rows of all. None take over,
    or the same rows, exactly if no pending sample has its bucket in range, or the samples
    in range are the pending ones with their bucket in range.
   */
  lemma TakeoverIff(
    after: seq<Row>, raw: seq<Row>, samples: seq<Row>, newer: Where,
    floor: int -> int, from: int, to: int, iface: Option<string>, v: View, week: int -> int)
    requires Serves(after, Keep(samples, newer), floor, from, to, iface, v, week)
    requires raw == Grouped(Buckets(Query(samples, from, to, iface), floor), v, week)
    requires Positive(samples)
    requires Apart(samples, Wanted(from, to, iface), Both(newer, Via(By(floor), Wanted(from, to, iface))),
                   Regrouped(Compose(Shown(iface), By(floor)), v, week))
    ensures after == [] || after == raw
       <==> (NoneOf(samples, Both(newer, Via(By(floor), Wanted(from, to, iface))))
             || SameSelection(samples, Wanted(from, to, iface), Both(newer, Via(By(floor), Wanted(from, to, iface)))))
  {
    var p, q := Wanted(from, to, iface), Both(newer, Via(By(floor), Wanted(from, to, iface)));
    var g := Regrouped(Compose(Shown(iface), By(floor)), v, week);
    ServesSelected(after, samples, newer, floor, from, to, iface, v, week);
    ShowsIff(after, samples, q, g, ShownAs(iface));
    GroupedRawLists(samples, floor, from, to, iface, v, week);
    SameDisplayIff(raw, after, samples, p, q, g, ShownAs(iface));
  }

  // ---------- tables with nothing in range ----------

  lemma ListedNothingIff(rows: seq<Row>, t: map<Key, Bytes>)
    requires Lists(rows, t)
    ensures rows == [] <==> t == map[]
  {
    assert |rows| == |t|;
    assert |t| == 0 <==> t == map[];
  }

  /** A view displays nothing of a table exactly if the table has nothing in range. */
  lemma ShownIffThere(
    shown: seq<Row>, table: seq<Row>, t: map<Key, Bytes>, from: int, to: int, iface: Option<string>, v: View,
    week: int -> int)
    requires shown == Grouped(Query(table, from, to, iface), v, week) && Lists(table, t)
    ensures shown == [] <==> Restrict(t, Wanted(from, to, iface)) == map[]
  {
    var p := Wanted(from, to, iface);
    QueryAnswers(table, from, to, iface);
    GroupedLists(Query(table, from, to, iface), Keep(table, p), Shown(iface), v, week, ShownAs(iface));
    ShowsIff(shown, table, p, Regrouped(Shown(iface), v, week), ShownAs(iface));
    KeepRestricts(table, t, p);
    ListedNothingIff(Keep(table, p), Restrict(t, p));
  }

  lemma RolledIffThere(s: Store, v: View, end: int, iface: Option<string>, week: int -> int)
    ensures RolledRows(s, v, end, iface, week) == []
       <==> Restrict(TableOf(s, v), Wanted(end - Reach(v), end + 1, iface)) == map[]
  {
    ShownIffThere(RolledRows(s, v, end, iface, week), ListingOf(TableOf(s, v)), TableOf(s, v), end - Reach(v), end + 1,
                  iface, v, week);
  }

  lemma NotThere(t: map<Key, Bytes>, p: Where, k: Key)
    requires Restrict(t, p) == map[] && p.Holds(k)
    ensures k !in t
  {
    assert k in t ==> k in Restrict(t, p);
  }

  lemma MergedAgrees(t: map<Key, Bytes>, u: map<Key, Bytes>, k: Key)
    requires k !in t
    ensures AgreeAt(Merge(t, u), u, k)
  {
  }

  /** A merge into a table with nothing in range brings what is merged. */
  lemma MergedInRange(t: map<Key, Bytes>, u: map<Key, Bytes>, p: Where)
    requires Restrict(t, p) == map[]
    ensures Restrict(Merge(t, u), p) == Restrict(u, p)
  {
    forall k | p.Holds(k) ensures AgreeAt(Merge(t, u), u, k) {
      NotThere(t, p, k);
      MergedAgrees(t, u, k);
    }
    AgreeWhere(Merge(t, u), u, p);
  }

  // ---------- on stores ----------

  /** No sample's bucket is in the view's range. */
  ghost predicate NoneInRange(s: Store, v: View, end: int, iface: Option<string>, f: Floors) {
    NoneOf(s.samples, Via(By(FloorFor(v, f)), Wanted(end - Reach(v), end + 1, iface)))
  }

  /** No sample that the next rollup reads has its bucket in the view's range. */
  ghost predicate NonePending(s: Store, v: View, end: int, iface: Option<string>, f: Floors) {
    NoneOf(s.samples, Both(NewerThan(s.marker), Via(By(FloorFor(v, f)), Wanted(end - Reach(v), end + 1, iface))))
  }

  /** The samples in range are those that the next rollup reads and puts into range. */
  ghost predicate AllPending(s: Store, v: View, end: int, iface: Option<string>, f: Floors) {
    SameSelection(s.samples, Wanted(end - Reach(v), end + 1, iface),
                  Both(NewerThan(s.marker), Via(By(FloorFor(v, f)), Wanted(end - Reach(v), end + 1, iface))))
  }

  /** Samples of the one selection only and of the other only are never displayed in one bucket. */
  ghost predicate PendingApart(s: Store, v: View, end: int, iface: Option<string>, f: Floors, week: int -> int) {
    Apart(s.samples, Wanted(end - Reach(v), end + 1, iface),
          Both(NewerThan(s.marker), Via(By(FloorFor(v, f)), Wanted(end - Reach(v), end + 1, iface))),
          Regrouped(Compose(Shown(iface), By(FloorFor(v, f))), v, week))
  }

  /** The view displays of `s` what it displays of a table that aggregates `rows`. */
  ghost predicate Displays(
    s: Store, rows: seq<Row>, v: View, end: int, iface: Option<string>, f: Floors, week: int -> int)
  {
    Serves(RolledRows(s, v, end, iface, week), rows, FloorFor(v, f), end - Reach(v), end + 1, iface, v, week)
  }

  ghost predicate SameDisplay(
    s: Store, n: Store, v: View, end: int, iface: Option<string>, f: Floors, week: int -> int)
  {
    Displayed(s, v, end, iface, f, week) == Displayed(n, v, end, iface, f, week)
  }

  lemma SameDisplayIfTakenOver(
    s: Store, n: Store, v: View, end: int, iface: Option<string>, f: Floors, week: int -> int)
    requires n.samples == s.samples && RolledRows(s, v, end, iface, week) == []
    ensures SameDisplay(s, n, v, end, iface, f, week)
       <==> (RolledRows(n, v, end, iface, week) == []
             || RolledRows(n, v, end, iface, week) == RawRows(s, v, end, iface, f, week))
  {
    assert RawRows(n, v, end, iface, f, week) == RawRows(s, v, end, iface, f, week);
  }

  lemma RolledTakesOver(
    s: Store, n: Store, v: View, end: int, iface: Option<string>, f: Floors, week: int -> int)
    requires Displays(n, Pending(s), v, end, iface, f, week)
    requires Positive(s.samples) && PendingApart(s, v, end, iface, f, week)
    ensures RolledRows(n, v, end, iface, week) == []
         || RolledRows(n, v, end, iface, week) == RawRows(s, v, end, iface, f, week)
       <==> (NoneOf(s.samples, Both(NewerThan(s.marker),
                                    Via(By(FloorFor(v, f)), Wanted(end - Reach(v), end + 1, iface))))
             || SameSelection(s.samples, Wanted(end - Reach(v), end + 1, iface),
                              Both(NewerThan(s.marker),
                                   Via(By(FloorFor(v, f)), Wanted(end - Reach(v), end + 1, iface)))))
  {
    TakeoverIff(RolledRows(n, v, end, iface, week), RawRows(s, v, end, iface, f, week), s.samples,
                NewerThan(s.marker), FloorFor(v, f), end - Reach(v), end + 1, iface, v, week);
  }

  lemma PendingSelections(s: Store, v: View, end: int, iface: Option<string>, f: Floors)
    ensures NonePending(s, v, end, iface, f)
         == NoneOf(s.samples, Both(NewerThan(s.marker),
                                   Via(By(FloorFor(v, f)), Wanted(end - Reach(v), end + 1, iface))))
    ensures AllPending(s, v, end, iface, f)
         == SameSelection(s.samples, Wanted(end - Reach(v), end + 1, iface),
                          Both(NewerThan(s.marker), Via(By(FloorFor(v, f)), Wanted(end - Reach(v), end + 1, iface))))
  {
  }

  lemma RolledTakesOverIff(
    s: Store, n: Store, v: View, end: int, iface: Option<string>, f: Floors, week: int -> int)
    requires Displays(n, Pending(s), v, end, iface, f, week)
    requires Positive(s.samples) && PendingApart(s, v, end, iface, f, week)
    ensures RolledRows(n, v, end, iface, week) == []
         || RolledRows(n, v, end, iface, week) == RawRows(s, v, end, iface, f, week)
       <==> NonePending(s, v, end, iface, f) || AllPending(s, v, end, iface, f)
  {
    PendingSelections(s, v, end, iface, f);
    RolledTakesOver(s, n, v, end, iface, f, week);
  }

  lemma TablesRolledUp(s: Store, f: Floors)
    requires Pending(s) != []
    ensures var (n, first, rows) := (RolledUp(s, f), s.marker.None?, Pending(s));
            && n.hourly == Merge(if first then map[] else s.hourly, Aggregate(rows, By(f.hour)))
            && n.daily == Merge(if first then map[] else s.daily, Aggregate(rows, By(f.day)))
            && n.monthly == Merge(if first then map[] else s.monthly, Aggregate(rows, By(f.month)))
  {
  }

  lemma TableRolledUp(s: Store, v: View, f: Floors)
    requires Pending(s) != []
    ensures TableOf(RolledUp(s, f), v)
         == Merge(if s.marker.None? then map[] else TableOf(s, v), Aggregate(Pending(s), By(FloorFor(v, f))))
  {
    TablesRolledUp(s, f);
  }

  lemma RolledUpInRange(s: Store, v: View, f: Floors, p: Where)
    requires Restrict(TableOf(s, v), p) == map[]
    ensures Restrict(TableOf(RolledUp(s, f), v), p) == Restrict(Aggregate(Pending(s), By(FloorFor(v, f))), p)
  {
    if Pending(s) == [] {
      assert Aggregate(Pending(s), By(FloorFor(v, f))) == map[];
    } else {
      TableRolledUp(s, v, f);
      MergedInRange(if s.marker.None? then map[] else TableOf(s, v), Aggregate(Pending(s), By(FloorFor(v, f))), p);
    }
  }

  lemma DisplaysInRange(
    n: Store, rows: seq<Row>, v: View, end: int, iface: Option<string>, f: Floors, week: int -> int)
    requires Restrict(TableOf(n, v), Wanted(end - Reach(v), end + 1, iface))
          == Restrict(Aggregate(rows, By(FloorFor(v, f))), Wanted(end - Reach(v), end + 1, iface))
    ensures Displays(n, rows, v, end, iface, f, week)
  {
    ServesInRange(RolledRows(n, v, end, iface, week), ListingOf(TableOf(n, v)), TableOf(n, v), rows, FloorFor(v, f),
                  end - Reach(v), end + 1, iface, v, week);
  }

  /** When nothing rolled is on display, the rollup displays the samples that it reads. */
  lemma RollUpDisplaysPending(s: Store, v: View, end: int, iface: Option<string>, f: Floors, week: int -> int)
    requires RolledRows(s, v, end, iface, week) == []
    ensures Displays(RolledUp(s, f), Pending(s), v, end, iface, f, week)
  {
    RolledIffThere(s, v, end, iface, week);
    RolledUpInRange(s, v, f, Wanted(end - Reach(v), end + 1, iface));
    DisplaysInRange(RolledUp(s, f), Pending(s), v, end, iface, f, week);
  }

  lemma PendingShowsIff(s: Store, n: Store, v: View, end: int, iface: Option<string>, f: Floors, week: int -> int)
    requires n.samples == s.samples && Displays(n, Pending(s), v, end, iface, f, week)
    requires RolledRows(s, v, end, iface, week) == []
    requires Positive(s.samples) && PendingApart(s, v, end, iface, f, week)
    ensures SameDisplay(s, n, v, end, iface, f, week)
       <==> NonePending(s, v, end, iface, f) || AllPending(s, v, end, iface, f)
  {
    SameDisplayIfTakenOver(s, n, v, end, iface, f, week);
    RolledTakesOverIff(s, n, v, end, iface, f, week);
  }

  /**
    For any store, and so for any history with losses or without: a rollup that finds no
    rolled row on display leaves the display as it was exactly if no pending sample has its
    bucket in range, or the samples in range are the pending ones with their bucket in range.
   */
  lemma RollUpShowsIff(s: Store, v: View, end: int, iface: Option<string>, f: Floors, week: int -> int)
    requires RolledRows(s, v, end, iface, week) == []
    requires Positive(s.samples) && PendingApart(s, v, end, iface, f, week)
    ensures SameDisplay(s, RolledUp(s, f), v, end, iface, f, week)
       <==> NonePending(s, v, end, iface, f) || AllPending(s, v, end, iface, f)
  {
    RollUpDisplaysPending(s, v, end, iface, f, week);
    PendingShowsIff(s, RolledUp(s, f), v, end, iface, f, week);
  }

  // ---------- without losses ----------

  lemma AgreeOnRange(
    t: map<Key, Bytes>, u: map<Key, Bytes>, cut: Option<int>, from: int, to: int, iface: Option<string>)
    requires AgreeFrom(t, u, cut) && (cut.None? || cut.value <= from)
    ensures Restrict(t, Wanted(from, to, iface)) == Restrict(u, Wanted(from, to, iface))
  {
    forall k: Key | Wanted(from, to, iface).Holds(k) ensures AgreeAt(t, u, k) {
      WantedHolds(k, from, to, iface);
    }
    AgreeWhere(t, u, Wanted(from, to, iface));
  }

  /** Retention has not cut into the range of the hourly view. */
  predicate HoursKept(l: Ledger, v: View, end: int) {
    v.Hours? ==> l.hourCut.None? || l.hourCut.value <= end - Reach(v)
  }

  lemma TableAgrees(l: Ledger, v: View, end: int, iface: Option<string>, f: Floors)
    requires TablesFold(l, f) && HoursKept(l, v, end)
    ensures Restrict(TableOf(l.store, v), Wanted(end - Reach(v), end + 1, iface))
         == Restrict(Aggregate(l.folded, By(FloorFor(v, f))), Wanted(end - Reach(v), end + 1, iface))
  {
    if v.Hours? {
      AgreeOnRange(l.store.hourly, Aggregate(l.folded, By(f.hour)), l.hourCut, end - Reach(v), end + 1, iface);
    }
  }

  /** A settled sample has been folded, so it has no bucket in range either. */
  lemma SettledNotInRange(l: Ledger, q: Where, i: nat)
    requires NoRowMissing(l) && l.lost == [] && NoneOf(l.folded, q)
    requires i < |l.store.samples| && !NewerThan(l.store.marker).Holds(l.store.samples[i].Id())
    ensures !q.Holds(l.store.samples[i].Id())
  {
    var r, settled := l.store.samples[i], Not(NewerThan(l.store.marker));
    var j := KeepFinds(l.store.samples, |l.store.samples|, settled, i);
    assert r in multiset(Settled(l.store));
    assert r in multiset(l.folded);
    assert r in l.folded;
    KeepNone(l.folded, q);
  }

  /** So the two selections of samples by bucket are one. */
  lemma PendingIsInRange(l: Ledger, q: Where)
    requires NoRowMissing(l) && l.lost == [] && NoneOf(l.folded, q)
    ensures SameSelection(l.store.samples, q, Both(NewerThan(l.store.marker), q))
  {
    forall i | 0 <= i < |l.store.samples|
      ensures q.Holds(l.store.samples[i].Id()) <==> Both(NewerThan(l.store.marker), q).Holds(l.store.samples[i].Id())
    {
      if !NewerThan(l.store.marker).Holds(l.store.samples[i].Id()) {
        SettledNotInRange(l, q, i);
      }
    }
    SameSelectionIs(l.store.samples, q, Both(NewerThan(l.store.marker), q));
  }

  lemma NoneOfReplaced(rows: seq<Row>, q: Where, r: Where)
    requires SameSelection(rows, q, r)
    ensures NoneOf(rows, q) <==> NoneOf(rows, r)
  {
    SameKept(rows, q, r);
  }

  lemma SelectionReplaced(rows: seq<Row>, p: Where, q: Where, r: Where)
    requires SameSelection(rows, q, r)
    ensures SameSelection(rows, p, q) <==> SameSelection(rows, p, r)
  {
    SameSelectionIs(rows, q, r);
    SameSelectionIs(rows, p, q);
    SameSelectionIs(rows, p, r);
  }

  lemma ApartReplaced(rows: seq<Row>, p: Where, q: Where, r: Where, g: Projection)
    requires SameSelection(rows, q, r) && Apart(rows, p, q, g)
    ensures Apart(rows, p, r, g)
  {
    SameSelectionIs(rows, q, r);
    forall i, j | 0 <= i < |rows| && 0 <= j < |rows| && Only(p, r, rows[i].Id()) && Only(r, p, rows[j].Id())
      ensures g.Of(rows[i].Id()) != g.Of(rows[j].Id())
    {
      ApartAt(rows, p, q, g, i, j);
    }
    ApartIf(rows, p, r, g);
  }

  lemma NoneGrouped(rows: seq<Row>, g: Projection, p: Where)
    requires Restrict(Aggregate(rows, g), p) == map[]
    ensures NoneOf(rows, Via(g, p))
  {
    KeysMembers(rows, |rows|, g);
    forall i | 0 <= i < |rows| ensures !Via(g, p).Holds(rows[i].Id()) {
      if p.Holds(g.Of(rows[i].Id())) {
        NotThere(Aggregate(rows, g), p, g.Of(rows[i].Id()));
      }
    }
    KeepNone(rows, Via(g, p));
  }

  /** Nothing rolled on display: no folded row has its bucket in range. */
  lemma NoneFoldedInRange(l: Ledger, v: View, end: int, iface: Option<string>, f: Floors, week: int -> int)
    requires TablesFold(l, f) && HoursKept(l, v, end) && RolledRows(l.store, v, end, iface, week) == []
    ensures NoneOf(l.folded, Via(By(FloorFor(v, f)), Wanted(end - Reach(v), end + 1, iface)))
  {
    RolledIffThere(l.store, v, end, iface, week);
    TableAgrees(l, v, end, iface, f);
    NoneGrouped(l.folded, By(FloorFor(v, f)), Wanted(end - Reach(v), end + 1, iface));
  }

  lemma LosslessSelection(l: Ledger, v: View, end: int, iface: Option<string>, f: Floors, week: int -> int)
    requires Inv(l, f) && l.lost == [] && HoursKept(l, v, end) && RolledRows(l.store, v, end, iface, week) == []
    ensures SameSelection(l.store.samples, Via(By(FloorFor(v, f)), Wanted(end - Reach(v), end + 1, iface)),
                          Both(NewerThan(l.store.marker),
                               Via(By(FloorFor(v, f)), Wanted(end - Reach(v), end + 1, iface))))
  {
    NoneFoldedInRange(l, v, end, iface, f, week);
    PendingIsInRange(l, Via(By(FloorFor(v, f)), Wanted(end - Reach(v), end + 1, iface)));
  }

  lemma PendingReplaced(s: Store, v: View, end: int, iface: Option<string>, f: Floors)
    requires SameSelection(s.samples, Via(By(FloorFor(v, f)), Wanted(end - Reach(v), end + 1, iface)),
                           Both(NewerThan(s.marker),
                                Via(By(FloorFor(v, f)), Wanted(end - Reach(v), end + 1, iface))))
    ensures NonePending(s, v, end, iface, f) <==> NoneInRange(s, v, end, iface, f)
    ensures AllPending(s, v, end, iface, f) <==> NoneStraddles(s, v, end, iface, f)
  {
    var p, q := Wanted(end - Reach(v), end + 1, iface), Via(By(FloorFor(v, f)), Wanted(end - Reach(v), end + 1, iface));
    NoneOfReplaced(s.samples, q, Both(NewerThan(s.marker), q));
    SelectionReplaced(s.samples, p, q, Both(NewerThan(s.marker), q));
  }

  lemma StraddlersReplaced(s: Store, v: View, end: int, iface: Option<string>, f: Floors, week: int -> int)
    requires SameSelection(s.samples, Via(By(FloorFor(v, f)), Wanted(end - Reach(v), end + 1, iface)),
                           Both(NewerThan(s.marker),
                                Via(By(FloorFor(v, f)), Wanted(end - Reach(v), end + 1, iface))))
    requires StraddlersApart(s, v, end, iface, f, week)
    ensures PendingApart(s, v, end, iface, f, week)
  {
    var p, q := Wanted(end - Reach(v), end + 1, iface), Via(By(FloorFor(v, f)), Wanted(end - Reach(v), end + 1, iface));
    ApartReplaced(s.samples, p, q, Both(NewerThan(s.marker), q),
                  Regrouped(Compose(Shown(iface), By(FloorFor(v, f))), v, week));
  }

  /**
    In every lossless run: a rollup that finds no rolled row on display leaves the display
    as it was exactly if no sample's bucket is in range, or no sample straddles the range.
   */
  lemma RollUpKeepsDisplayIff(l: Ledger, v: View, end: int, iface: Option<string>, f: Floors, week: int -> int)
    requires Inv(l, f) && l.lost == [] && HoursKept(l, v, end) && RolledRows(l.store, v, end, iface, week) == []
    requires Positive(l.store.samples) && StraddlersApart(l.store, v, end, iface, f, week)
    ensures SameDisplay(l.store, RolledUp(l.store, f), v, end, iface, f, week)
       <==> NoneInRange(l.store, v, end, iface, f) || NoneStraddles(l.store, v, end, iface, f)
  {
    LosslessSelection(l, v, end, iface, f, week);
    PendingReplaced(l.store, v, end, iface, f);
    StraddlersReplaced(l.store, v, end, iface, f, week);
    RollUpShowsIff(l.store, v, end, iface, f, week);
  }

  // ---------- without an end before the last sample ----------

  lemma SampleInRange(x: Key, floor: int -> int, from: int, end: int, iface: Option<string>)
    requires floor(x.ts) <= x.ts <= end && Via(By(floor), Wanted(from, end + 1, iface)).Holds(x)
    ensures Wanted(from, end + 1, iface).Holds(x)
  {
    WantedHolds(x, from, end + 1, iface);
    WantedHolds(By(floor).Of(x), from, end + 1, iface);
  }

  /** If no sample is later than the range, whatever bucket is in range, its samples are. */
  lemma UntilApart(
    samples: seq<Row>, newer: Where, floor: int -> int, from: int, end: int, iface: Option<string>, g: Projection)
    requires IsFloor(floor) && Until(samples, end)
    ensures Apart(samples, Wanted(from, end + 1, iface), Both(newer, Via(By(floor), Wanted(from, end + 1, iface))), g)
  {
    var p, q := Wanted(from, end + 1, iface), Both(newer, Via(By(floor), Wanted(from, end + 1, iface)));
    forall j | 0 <= j < |samples| ensures !Only(q, p, samples[j].Id()) {
      assert floor(samples[j].ts) <= samples[j].ts;
      if q.Holds(samples[j].Id()) {
        SampleInRange(samples[j].Id(), floor, from, end, iface);
      }
    }
    ApartIf(samples, p, q, g);
  }

  lemma UntilPendingApart(s: Store, v: View, end: int, iface: Option<string>, f: Floors, week: int -> int)
    requires IsFloor(FloorFor(v, f)) && Until(s.samples, end)
    ensures PendingApart(s, v, end, iface, f, week)
  {
    UntilApart(s.samples, NewerThan(s.marker), FloorFor(v, f), end - Reach(v), end, iface,
               Regrouped(Compose(Shown(iface), By(FloorFor(v, f))), v, week));
  }

  // ---------- in UTC ----------

  /** In UTC, for lossless runs, every view, range end and choice of interface. */
  lemma RollUpInUtc(steps: seq<Step>, v: View, end: int, iface: Option<string>)
    requires var l := Run(steps, Utc());
             && l.lost == [] && HoursKept(l, v, end) && RolledRows(l.store, v, end, iface, UtcWeek()) == []
             && Positive(l.store.samples)
    ensures var s := Run(steps, Utc()).store;
            SameDisplay(s, RolledUp(s, Utc()), v, end, iface, Utc(), UtcWeek())
            <==> NoneInRange(s, v, end, iface, Utc()) || NoneStraddles(s, v, end, iface, Utc())
  {
    RunKeepsInv(steps, |steps|, Utc());
    UtcStraddlersApart(Run(steps, Utc()).store, v, end, iface);
    RollUpKeepsDisplayIff(Run(steps, Utc()), v, end, iface, Utc(), UtcWeek());
  }

  /** For any store, after losses too, when the range ends no earlier than the last sample. */
  lemma AnyRollUpInUtc(s: Store, v: View, end: int, iface: Option<string>)
    requires RolledRows(s, v, end, iface, UtcWeek()) == [] && Positive(s.samples) && Until(s.samples, end)
    ensures SameDisplay(s, RolledUp(s, Utc()), v, end, iface, Utc(), UtcWeek())
       <==> NonePending(s, v, end, iface, Utc()) || AllPending(s, v, end, iface, Utc())
  {
    UtcFloors(v);
    UntilPendingApart(s, v, end, iface, Utc(), UtcWeek());
    RollUpShowsIff(s, v, end, iface, Utc(), UtcWeek());
  }

  /** When the range starts with a bucket, the fallback shows what the next rollup will show. */
  lemma AlignedRollUpInUtc(steps: seq<Step>, v: View, end: int, iface: Option<string>)
    requires var l := Run(steps, Utc());
             && l.lost == [] && HoursKept(l, v, end) && RolledRows(l.store, v, end, iface, UtcWeek()) == []
             && Positive(l.store.samples) && Until(l.store.samples, end)
    requires FloorFor(v, Utc())(end - Reach(v)) == end - Reach(v)
    ensures var s := Run(steps, Utc()).store; SameDisplay(s, RolledUp(s, Utc()), v, end, iface, Utc(), UtcWeek())
  {
    UtcFloors(v);
    StartsWholeNoneStraddles(Run(steps, Utc()).store, v, end, iface, Utc());
    RollUpInUtc(steps, v, end, iface);
  }

  // ---------- the first rollup ----------

  lemma NoTableShowsNone(s: Store, v: View, end: int, iface: Option<string>, week: int -> int)
    requires TableOf(s, v) == map[]
    ensures RolledRows(s, v, end, iface, week) == []
  {
    RolledIffThere(s, v, end, iface, week);
  }

  /** Before the first rollup all samples are pending. */
  lemma FirstPending(s: Store, q: Where)
    requires s.marker.None?
    ensures SameSelection(s.samples, q, Both(NewerThan(s.marker), q))
  {
    SameSelectionIs(s.samples, q, Both(NewerThan(s.marker), q));
  }

  /**
    The first rollup leaves the display as it was exactly when no sample's bucket is in the
    range, or no sample straddles the range: both can be told from the samples beforehand.
   */
  lemma FirstRollUpKeepsDisplayIff(
    s: Store, v: View, end: int, iface: Option<string>, f: Floors, week: int -> int)
    requires s.marker.None? && TableOf(s, v) == map[] && Positive(s.samples)
    requires StraddlersApart(s, v, end, iface, f, week)
    ensures SameDisplay(s, RolledUp(s, f), v, end, iface, f, week)
       <==> NoneInRange(s, v, end, iface, f) || NoneStraddles(s, v, end, iface, f)
  {
    NoTableShowsNone(s, v, end, iface, week);
    FirstPending(s, Via(By(FloorFor(v, f)), Wanted(end - Reach(v), end + 1, iface)));
    PendingReplaced(s, v, end, iface, f);
    StraddlersReplaced(s, v, end, iface, f, week);
    RollUpShowsIff(s, v, end, iface, f, week);
  }

  /** In UTC, for every view, range end and choice of interface. */
  lemma FirstRollUpInUtc(s: Store, v: View, end: int, iface: Option<string>)
    requires s.marker.None? && TableOf(s, v) == map[] && Positive(s.samples)
    ensures SameDisplay(s, RolledUp(s, Utc()), v, end, iface, Utc(), UtcWeek())
       <==> NoneInRange(s, v, end, iface, Utc()) || NoneStraddles(s, v, end, iface, Utc())
  {
    UtcStraddlersApart(s, v, end, iface);
    FirstRollUpKeepsDisplayIff(s, v, end, iface, Utc(), UtcWeek());
  }

  // ---------- the partial first bucket ----------

  /** A daemon's first hour: its first rollup finds nothing, then two ticks write a row each. */
  function FirstHour(r: Row, q: Row): seq<Step> {
    [RollUp, Insert([r]), Insert([q])]
  }

  lemma FreshInsert(l: Ledger, r: Row, f: Floors)
    requires l.store.marker.None? && r.Id() !in Ids(l.store.samples)
    ensures Next(l, Insert([r]), f).store == l.store.(samples := l.store.samples + [r])
  {
    var samples := l.store.samples;
    assert InsertTo(l, [r], 1) == InsertOne(InsertTo(l, [r], 0), r);
    forall i | 0 <= i < |samples| ensures Not(WithId(r.Id())).Holds(samples[i].Id()) {
      IdsHold(samples, |samples|, i);
    }
    KeepAll(samples, Not(WithId(r.Id())));
  }

  lemma EmptyRollUp(f: Floors)
    ensures Next(EMPTY, RollUp, f).store == EMPTY.store
  {
    assert Pending(EMPTY.store) == [];
  }

  lemma OnlyId(rows: seq<Row>, r: Row)
    requires rows == [r]
    ensures Ids(rows) == {r.Id()}
  {
    assert IdsTo(rows, 1) == IdsTo(rows, 0) + {r.Id()};
  }

  lemma FirstRowStored(steps: seq<Step>, r: Row, f: Floors)
    requires |steps| >= 2 && steps[0] == RollUp && steps[1] == Insert([r])
    ensures RunTo(steps, 2, f).store == Store([r], map[], map[], map[], None)
  {
    assert RunTo(steps, 0, f) == EMPTY;
    EmptyRollUp(f);
    FreshInsert(RunTo(steps, 1, f), r, f);
    assert [] + [r] == [r];
  }

  /** Nothing is rolled up in it. */
  lemma FirstHourStore(r: Row, q: Row, f: Floors)
    requires r.Id() != q.Id()
    ensures Run(FirstHour(r, q), f).store == Store([r, q], map[], map[], map[], None)
  {
    var steps := FirstHour(r, q);
    FirstRowStored(steps, r, f);
    OnlyId(RunTo(steps, 2, f).store.samples, r);
    FreshInsert(RunTo(steps, 2, f), q, f);
    assert [r] + [q] == [r, q];
  }

  lemma HourFloor(t: int, hour: int)
    requires HOUR * hour <= t < HOUR * hour + HOUR
    ensures Utc().hour(t) == HOUR * hour
  {
    HourByDivision(t);
    HourQuotient(t, hour);
  }

  lemma FirstRowStraddles(x: Key, y: Key, f: Floors, h: int, from: int, to: int)
    requires x.ts == h + 100 && f.hour(x.ts) == h && y.ts == h + 3610 && f.hour(y.ts) == h + HOUR
    requires from == h + 50 && to > h + 2 * HOUR
    ensures Wanted(from, to, None).Holds(x) && !Via(By(f.hour), Wanted(from, to, None)).Holds(x)
    ensures Via(By(f.hour), Wanted(from, to, None)).Holds(y)
  {
    WantedHolds(x, from, to, None);
    WantedHolds(By(f.hour).Of(x), from, to, None);
    WantedHolds(By(f.hour).Of(y), from, to, None);
  }

  lemma StraddlesAt(s: Store, v: View, end: int, iface: Option<string>, f: Floors, i: nat, j: nat)
    requires i < |s.samples| && Wanted(end - Reach(v), end + 1, iface).Holds(s.samples[i].Id())
    requires !Via(By(FloorFor(v, f)), Wanted(end - Reach(v), end + 1, iface)).Holds(s.samples[i].Id())
    requires j < |s.samples| && Via(By(FloorFor(v, f)), Wanted(end - Reach(v), end + 1, iface)).Holds(s.samples[j].Id())
    ensures !NoneStraddles(s, v, end, iface, f) && !NoneInRange(s, v, end, iface, f)
  {
    var p, q := Wanted(end - Reach(v), end + 1, iface), Via(By(FloorFor(v, f)), Wanted(end - Reach(v), end + 1, iface));
    SameSelectionIs(s.samples, p, q);
    KeepNone(s.samples, q);
  }

  lemma PartialHourStraddles(s: Store, h: int, end: int, f: Floors)
    requires |s.samples| == 2 && s.samples[0].ts == h + 100 && s.samples[1].ts == h + 3610 && end == h + DAY + 50
    requires f.hour(s.samples[0].ts) == h && f.hour(s.samples[1].ts) == h + HOUR
    ensures !NoneStraddles(s, Hours, end, None, f) && !NoneInRange(s, Hours, end, None, f)
  {
    FirstRowStraddles(s.samples[0].Id(), s.samples[1].Id(), f, h, end - Reach(Hours), end + 1);
    StraddlesAt(s, Hours, end, None, f, 0, 1);
  }

  lemma PartialHourLeaves(s: Store, hour: int, h: int, end: int)
    requires |s.samples| == 2 && s.samples[0].ts == h + 100 && s.samples[1].ts == h + 3610 && end == h + DAY + 50
    requires h == HOUR * hour && s.marker.None? && s.hourly == map[] && Positive(s.samples)
    ensures !SameDisplay(s, RolledUp(s, Utc()), Hours, end, None, Utc(), UtcWeek())
  {
    HourFloor(s.samples[0].ts, hour);
    HourFloor(s.samples[1].ts, hour + 1);
    PartialHourStraddles(s, h, end, Utc());
    FirstRollUpInUtc(s, Hours, end, None);
  }

  /**
    The range of `show` starts at a moment, not at a bucket. In a daemon's first hour, at any
    time, two ticks bring a row into one clock hour and one into the next. Should the daemon
    crash then (a stop signal would roll up first), the hourly view of a day later has both
    hours until the daemon runs again and rolls up, and only one of them afterwards.
   */
  lemma PartialHourLeavesDisplay(r: Row, q: Row, hour: int, h: int, end: int)
    requires h == HOUR * hour && r.ts == h + 100 && q.ts == h + 3610 && end == h + DAY + 50 && Positive([r, q])
    ensures var s := Run(FirstHour(r, q), Utc()).store;
            !SameDisplay(s, RolledUp(s, Utc()), Hours, end, None, Utc(), UtcWeek())
  {
    FirstHourStore(r, q, Utc());
    PartialHourLeaves(Run(FirstHour(r, q), Utc()).store, hour, h, end);
  }
}

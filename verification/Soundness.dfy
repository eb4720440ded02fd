/**
  TOTAL = LAN + WAN at every level: if the daemon writes sound rows only, every row of
  every table, query and week view is sound, so the clamp in the WAN columns never acts.
 */
module Soundness {
  import opened Traffic
  import opened Aggregation
  import opened Ledger
  import opened Views
  import opened Fallback
  import opened Show

  ghost predicate TableSound(t: map<Key, Bytes>) {
    forall k :: k in t ==> t[k].Sound()
  }

  ghost predicate StoreSound(s: Store) {
    AllSound(s.samples) && TableSound(s.hourly) && TableSound(s.daily) && TableSound(s.monthly)
  }

  lemma KeepSound(rows: seq<Row>, p: Where)
    requires AllSound(rows)
    ensures AllSound(Keep(rows, p))
  {
    forall j | 0 <= j < |Keep(rows, p)| ensures Keep(rows, p)[j].bytes.Sound() {
      var i := KeepOrigin(rows, |rows|, p, j);
    }
  }

  lemma {:induction false} InsertSound(l: Ledger, rows: seq<Row>, n: nat)
    requires n <= |rows| && AllSound(rows) && AllSound(l.store.samples)
    ensures AllSound(InsertTo(l, rows, n).store.samples)
  {
    if n > 0 {
      InsertSound(l, rows, n - 1);
      KeepSound(InsertTo(l, rows, n - 1).store.samples, Not(WithId(rows[n - 1].Id())));
    }
  }

  lemma MergeSound(t: map<Key, Bytes>, u: map<Key, Bytes>)
    requires TableSound(t) && TableSound(u)
    ensures TableSound(Merge(t, u))
  {
  }

  lemma RollUpSound(s: Store, f: Floors)
    requires StoreSound(s)
    ensures StoreSound(RolledUp(s, f))
  {
    var rows, first := Pending(s), s.marker.None?;
    KeepSound(s.samples, NewerThan(s.marker));
    AggregateSound(rows, By(f.hour));
    AggregateSound(rows, By(f.day));
    AggregateSound(rows, By(f.month));
    MergeSound(if first then map[] else s.hourly, Aggregate(rows, By(f.hour)));
    MergeSound(if first then map[] else s.daily, Aggregate(rows, By(f.day)));
    MergeSound(if first then map[] else s.monthly, Aggregate(rows, By(f.month)));
  }

  lemma StepSound(l: Ledger, step: Step, f: Floors)
    requires StoreSound(l.store) && (step.Insert? ==> AllSound(step.rows))
    ensures StoreSound(Next(l, step, f).store)
  {
    match step
    case Insert(rows) =>
      InsertSound(l, rows, |rows|);
      InsertLeavesRollups(l, rows, |rows|);
    case RollUp => RollUpSound(l.store, f);
    case AbortedRollUp =>
    case Prune(cutRaw, cutHour) => KeepSound(l.store.samples, Not(Before(cutRaw)));
  }

  /** In every reachable state every stored row is sound, below the hourly cut as well. */
  lemma {:induction false} RunSound(steps: seq<Step>, n: nat, f: Floors)
    requires n <= |steps|
    requires forall i :: 0 <= i < n && steps[i].Insert? ==> AllSound(steps[i].rows)
    ensures StoreSound(RunTo(steps, n, f).store)
  {
    if n > 0 {
      RunSound(steps, n - 1, f);
      StepSound(RunTo(steps, n - 1, f), steps[n - 1], f);
    }
  }

  lemma ListingSound(rows: seq<Row>, t: map<Key, Bytes>)
    requires Lists(rows, t) && TableSound(t)
    ensures AllSound(rows)
  {
    EntriesAre(rows, |rows|, t);
  }

  lemma InOrderSound(rows: seq<Row>, t: map<Key, Bytes>, iface: string)
    requires ListsInOrder(rows, t, iface) && TableSound(t)
    ensures AllSound(rows) && AllOn(rows, iface)
  {
    InOrderLists(rows, t, iface);
    ListingSound(rows, t);
  }

  lemma QuerySound(table: seq<Row>, from: int, to: int, iface: Option<string>)
    requires AllSound(table)
    ensures AllSound(Query(table, from, to, iface)) && AllOn(Query(table, from, to, iface), ShownAs(iface))
  {
    var kept := Keep(table, Wanted(from, to, iface));
    KeepSound(table, Wanted(from, to, iface));
    AggregateSound(kept, Shown(iface));
    QueryAnswers(table, from, to, iface);
    InOrderSound(Query(table, from, to, iface), Aggregate(kept, Shown(iface)), ShownAs(iface));
  }

  lemma BucketsSound(rows: seq<Row>, floor: int -> int, iface: string)
    requires AllSound(rows) && AllOn(rows, iface)
    ensures AllSound(Buckets(rows, floor)) && AllOn(Buckets(rows, floor), iface)
  {
    AggregateSound(rows, By(floor));
    BucketsListGroups(rows, floor, iface);
    InOrderSound(Buckets(rows, floor), Aggregate(rows, By(floor)), iface);
  }

  lemma RolledSound(s: Store, v: View, end: int, iface: Option<string>, week: int -> int)
    requires StoreSound(s)
    ensures AllSound(RolledRows(s, v, end, iface, week))
  {
    var table, from := ListingOf(TableOf(s, v)), end - Reach(v);
    ListingSound(table, TableOf(s, v));
    QuerySound(table, from, end + 1, iface);
    if v.Weeks? {
      BucketsSound(Query(table, from, end + 1, iface), week, ShownAs(iface));
    }
  }

  lemma RawSound(s: Store, v: View, end: int, iface: Option<string>, f: Floors, week: int -> int)
    requires StoreSound(s)
    ensures AllSound(RawRows(s, v, end, iface, f, week))
  {
    var raw := Query(s.samples, end - Reach(v), end + 1, iface);
    QuerySound(s.samples, end - Reach(v), end + 1, iface);
    BucketsSound(raw, FloorFor(v, f), ShownAs(iface));
    if v.Weeks? {
      BucketsSound(Buckets(raw, FloorFor(v, f)), week, ShownAs(iface));
    }
  }

  /** Whatever `show` displays is sound. */
  lemma DisplaySound(s: Store, v: View, end: int, iface: Option<string>, f: Floors, week: int -> int)
    requires StoreSound(s)
    ensures AllSound(Displayed(s, v, end, iface, f, week))
  {
    RolledSound(s, v, end, iface, week);
    RawSound(s, v, end, iface, f, week);
  }
}

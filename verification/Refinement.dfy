/**
  What the ledger's invariant means: the incremental rollup refines one full rebuild
  from every row ever inserted, whatever the schedule, and loses exactly the rows it
  can be shown to lose.
 */
module Refinement {
  import opened Traffic
  import opened Aggregation
  import opened Listing
  import opened Ledger

  // ---------- conservation ----------

  lemma SharedSums(l: Ledger, p: Where, c: Column)
    requires NoRowMissing(l)
    ensures ColumnSum(l.inserted, p, c)
         == ColumnSum(l.folded, p, c) + ColumnSum(Pending(l.store), p, c) + ColumnSum(l.lost, p, c)
  {
    var pending := Pending(l.store);
    ColumnPermutation(l.inserted, (l.folded + pending) + l.lost, p, c);
    ColumnAppend(l.folded + pending, l.lost, p, c);
    ColumnAppend(l.folded, pending, p, c);
  }

  /**
    In every reachable state each bucket holds what was inserted for it, less what is
    still pending and what is lost. No assumption about clocks, cuts or schedules.
   */
  lemma BucketsConserveBytes(steps: seq<Step>, f: Floors, k: Key, c: Column)
    ensures var l := Run(steps, f);
            var (day, month) := (InGroup(By(f.day), k), InGroup(By(f.month), k));
            && ColumnSum(l.inserted, day, c)
               == Get(l.store.daily, k, c) + ColumnSum(Pending(l.store), day, c) + ColumnSum(l.lost, day, c)
            && ColumnSum(l.inserted, month, c)
               == Get(l.store.monthly, k, c) + ColumnSum(Pending(l.store), month, c) + ColumnSum(l.lost, month, c)
  {
    var l := Run(steps, f);
    RunKeepsInv(steps, |steps|, f);
    SharedSums(l, InGroup(By(f.day), k), c);
    SharedSums(l, InGroup(By(f.month), k), c);
    GetAggregate(l.folded, By(f.day), k, c);
    GetAggregate(l.folded, By(f.month), k, c);
  }

  /** The same for the hourly buckets that no hourly cut has reached. */
  lemma HoursConserveBytes(steps: seq<Step>, f: Floors, k: Key, c: Column)
    requires var cut := Run(steps, f).hourCut; cut.None? || k.ts >= cut.value
    ensures var l := Run(steps, f);
            var hour := InGroup(By(f.hour), k);
            ColumnSum(l.inserted, hour, c)
            == Get(l.store.hourly, k, c) + ColumnSum(Pending(l.store), hour, c) + ColumnSum(l.lost, hour, c)
  {
    var l := Run(steps, f);
    RunKeepsInv(steps, |steps|, f);
    SharedSums(l, InGroup(By(f.hour), k), c);
    GetAggregate(l.folded, By(f.hour), k, c);
    assert AgreeAt(l.store.hourly, Aggregate(l.folded, By(f.hour)), k);
  }

  // ---------- refinement of the full rebuild ----------

  /** Without losses, the folded rows are the inserted ones up to the marker. */
  lemma FoldedUpToMarker(l: Ledger)
    requires NoRowMissing(l) && MarkerOf(l.folded, l.store.marker) && l.lost == []
    ensures multiset(l.folded) == multiset(Keep(l.inserted, Not(NewerThan(l.store.marker))))
  {
    var newer := NewerThan(l.store.marker);
    var done := Keep(l.inserted, Not(newer));
    forall r ensures multiset(l.folded)[r] == multiset(done)[r] {
      KeepCounts(l.inserted, Not(newer), r);
      KeepCounts(l.store.samples, newer, r);
      assert r in multiset(l.folded) <==> r in l.folded;
      assert r in l.folded ==> !newer.Holds(r.Id());
    }
  }

  /** The tables are what one aggregation of all rows up to the marker gives, retention or not. */
  lemma TablesAreRebuilds(steps: seq<Step>, f: Floors)
    requires Run(steps, f).lost == []
    ensures var l := Run(steps, f);
            var done := Keep(l.inserted, Not(NewerThan(l.store.marker)));
            && l.store.daily == Aggregate(done, By(f.day))
            && l.store.monthly == Aggregate(done, By(f.month))
            && AgreeFrom(l.store.hourly, Aggregate(done, By(f.hour)), l.hourCut)
  {
    var l := Run(steps, f);
    var done := Keep(l.inserted, Not(NewerThan(l.store.marker)));
    RunKeepsInv(steps, |steps|, f);
    FoldedUpToMarker(l);
    AggregatePermutation(l.folded, done, By(f.day));
    AggregatePermutation(l.folded, done, By(f.month));
    AggregatePermutation(l.folded, done, By(f.hour));
  }

  // ---------- schedules ----------

  lemma RollUpLeavesNothingPending(s: Store, f: Floors)
    ensures Pending(RolledUp(s, f)) == []
  {
    if Pending(s) != [] {
      NothingPending(s, f);
    }
  }

  lemma RollUpTwice(s: Store, f: Floors)
    ensures RolledUp(RolledUp(s, f), f) == RolledUp(s, f)
  {
    RollUpLeavesNothingPending(s, f);
  }

  lemma SameMarker(a: seq<Row>, b: seq<Row>, m: Option<int>, n: Option<int>)
    requires MarkerOf(a, m) && MarkerOf(b, n) && multiset(a) == multiset(b)
    ensures m == n
  {
    if a == [] || b == [] {
      assert |a| == |multiset(a)| && |b| == |multiset(b)|;
    } else {
      var i :| 0 <= i < |a| && a[i].ts == m.value;
      var j :| 0 <= j < |b| && b[j].ts == n.value;
      assert a[i] in multiset(b) && b[j] in multiset(a);
      assert a[i] in b && b[j] in a;
    }
  }

  /** No hourly cut has reached bucket `k`. */
  predicate Uncut(l: Ledger, k: Key) {
    l.hourCut.None? || k.ts >= l.hourCut.value
  }

  /**
    Two lossless runs over the same rows that end fully rolled up have the same tables
    and marker, wherever their rollups, aborted or repeated ones, and prunes came; hourly
    buckets that a run has cut aside.
   */
  lemma ScheduleDoesNotMatter(a: seq<Step>, b: seq<Step>, f: Floors)
    requires multiset(Run(a, f).inserted) == multiset(Run(b, f).inserted)
    requires Run(a, f).lost == [] && Run(b, f).lost == []
    requires Pending(Run(a, f).store) == [] && Pending(Run(b, f).store) == []
    ensures Run(a, f).store.daily == Run(b, f).store.daily
    ensures Run(a, f).store.monthly == Run(b, f).store.monthly
    ensures Run(a, f).store.marker == Run(b, f).store.marker
    ensures forall k: Key :: Uncut(Run(a, f), k) && Uncut(Run(b, f), k) ==>
              AgreeAt(Run(a, f).store.hourly, Run(b, f).store.hourly, k)
  {
    var l, m := Run(a, f), Run(b, f);
    RunKeepsInv(a, |a|, f);
    RunKeepsInv(b, |b|, f);
    AllFolded(l);
    AllFolded(m);
    AggregatePermutation(l.folded, m.folded, By(f.day));
    AggregatePermutation(l.folded, m.folded, By(f.month));
    AggregatePermutation(l.folded, m.folded, By(f.hour));
    SameMarker(l.folded, m.folded, l.store.marker, m.store.marker);
    forall k: Key | Uncut(l, k) && Uncut(m, k) ensures AgreeAt(l.store.hourly, m.store.hourly, k) {
      assert AgreeAt(l.store.hourly, Aggregate(l.folded, By(f.hour)), k);
      assert AgreeAt(m.store.hourly, Aggregate(l.folded, By(f.hour)), k);
    }
  }

  lemma AllFolded(l: Ledger)
    requires NoRowMissing(l) && l.lost == [] && Pending(l.store) == []
    ensures multiset(l.folded) == multiset(l.inserted)
  {
    var pending := Pending(l.store);
    assert multiset(pending) == multiset{} && multiset(l.lost) == multiset{};
  }

  lemma UncutHourly(l: Ledger, f: Floors)
    requires TablesFold(l, f) && l.hourCut == None
    ensures l.store.hourly == Aggregate(l.folded, By(f.hour))
  {
    var t, u := l.store.hourly, Aggregate(l.folded, By(f.hour));
    forall k: Key ensures k in t <==> k in u {
      assert AgreeAt(t, u, k);
    }
    forall k | k in t ensures t[k] == u[k] {
      assert AgreeAt(t, u, k);
    }
    SameMap(t, u);
  }

  // ---------- exactly when a row is lost ----------

  /** What a step must respect for no row to be lost: the clock past the marker, no repeated key, no early cut. */
  ghost predicate Harmless(l: Ledger, step: Step) {
    match step
    case Insert(rows) => TimelyTo(l, rows, |rows|)
    case Prune(cutRaw, _) => Keep(Pending(l.store), Before(cutRaw)) == []
    case _ => true
  }

  predicate TimelyTo(l: Ledger, rows: seq<Row>, n: nat)
    requires n <= |rows|
  {
    n == 0 || (TimelyTo(l, rows, n - 1) && Timely(l, rows, n - 1))
  }

  /** Row `i` is newer than the marker and repeats no key of a pending or an earlier row. */
  predicate Timely(l: Ledger, rows: seq<Row>, i: nat)
    requires i < |rows|
  {
    && NewerThan(l.store.marker).Holds(rows[i].Id())
    && rows[i].Id() !in Ids(Pending(l.store)) + IdsTo(rows, i)
  }

  lemma {:induction false} NoneWithId(rows: seq<Row>, n: nat, i: Key)
    requires n <= |rows|
    ensures KeepTo(rows, n, WithId(i)) == [] <==> i !in IdsTo(rows, n)
  {
    if n > 0 {
      NoneWithId(rows, n - 1, i);
    }
  }

  lemma {:induction false} IdsWithout(rows: seq<Row>, n: nat, i: Key)
    requires n <= |rows| && i !in IdsTo(rows, n)
    ensures KeepTo(rows, n, Not(WithId(i))) == rows[..n]
  {
    if n > 0 {
      IdsWithout(rows, n - 1, i);
      assert Not(WithId(i)).Holds(rows[n - 1].Id());
    }
  }

  lemma TimelyPending(s: Store, r: Row)
    requires NewerThan(s.marker).Holds(r.Id()) && r.Id() !in Ids(Pending(s))
    ensures Ids(Pending(Inserted(s, r))) == Ids(Pending(s)) + {r.Id()}
  {
    var pending := Pending(s);
    TimelyInsert(s, r);
    IdsWithout(pending, |pending|, r.Id());
    assert pending[..|pending|] == pending;
    DistinctOneMore(pending, r);
  }

  lemma InsertOneLosesNothingIff(l: Ledger, r: Row)
    ensures l.lost <= InsertOne(l, r).lost
    ensures InsertOne(l, r).lost == l.lost
       <==> NewerThan(l.store.marker).Holds(r.Id()) && r.Id() !in Ids(Pending(l.store))
  {
    var pending := Pending(l.store);
    NoneWithId(pending, |pending|, r.Id());
  }

  lemma {:induction false} InsertLosesNothingIff(l: Ledger, rows: seq<Row>, n: nat)
    requires n <= |rows|
    ensures l.lost <= InsertTo(l, rows, n).lost
    ensures InsertTo(l, rows, n).lost == l.lost <==> TimelyTo(l, rows, n)
    ensures TimelyTo(l, rows, n) ==>
              Ids(Pending(InsertTo(l, rows, n).store)) == Ids(Pending(l.store)) + IdsTo(rows, n)
  {
    if n > 0 {
      var before := InsertTo(l, rows, n - 1);
      InsertLosesNothingIff(l, rows, n - 1);
      InsertOneLosesNothingIff(before, rows[n - 1]);
      InsertLeavesRollups(l, rows, n - 1);
      assert before.store.marker == l.store.marker;
      if TimelyTo(l, rows, n) {
        TimelyPending(before.store, rows[n - 1]);
        assert IdsTo(rows, n) == IdsTo(rows, n - 1) + {rows[n - 1].Id()};
      }
    }
  }

  /** A step loses no row exactly when it is harmless. */
  lemma LosesNothingIff(l: Ledger, step: Step, f: Floors)
    ensures l.lost <= Next(l, step, f).lost
    ensures Next(l, step, f).lost == l.lost <==> Harmless(l, step)
  {
    match step
    case Insert(rows) => InsertLosesNothingIff(l, rows, |rows|);
    case _ =>
  }

  ghost predicate HarmlessTo(steps: seq<Step>, n: nat, f: Floors)
    requires n <= |steps|
  {
    n == 0 || (HarmlessTo(steps, n - 1, f) && Harmless(RunTo(steps, n - 1, f), steps[n - 1]))
  }

  /** A run loses no row exactly when each of its steps was harmless where it was taken. */
  lemma {:induction false} LosslessIff(steps: seq<Step>, n: nat, f: Floors)
    requires n <= |steps|
    ensures RunTo(steps, n, f).lost == [] <==> HarmlessTo(steps, n, f)
  {
    if n > 0 {
      LosslessIff(steps, n - 1, f);
      LosesNothingIff(RunTo(steps, n - 1, f), steps[n - 1], f);
    }
  }

  // ---------- the daemon's discipline ----------

  /** A tick is later than every row inserted before it, and has one row per interface. */
  ghost predicate Later(l: Ledger, rows: seq<Row>) {
    && DistinctIds(rows)
    && forall i, j :: 0 <= i < |rows| && 0 <= j < |l.inserted| ==> l.inserted[j].ts < rows[i].ts
  }

  ghost predicate AllFrom(rows: seq<Row>, cut: int) {
    forall i :: 0 <= i < |rows| ==> rows[i].ts >= cut
  }

  /** Since the rollup at step `j`, nothing older than `cut` was inserted before step `i`. */
  ghost predicate RolledSince(steps: seq<Step>, j: nat, i: nat, cut: int)
    requires i <= |steps|
  {
    j < i && steps[j].RollUp? && forall k :: j < k < i && steps[k].Insert? ==> AllFrom(steps[k].rows, cut)
  }

  /** Ticks follow the clock, and retention deletes nothing that came after the last committed rollup. */
  ghost predicate Orderly(steps: seq<Step>, i: nat, f: Floors)
    requires i < |steps|
  {
    match steps[i]
    case Insert(rows) => Later(RunTo(steps, i, f), rows)
    case Prune(cutRaw, _) => exists j: nat :: RolledSince(steps, j, i, cutRaw)
    case _ => true
  }

  /** Nothing pending is older than the cut. */
  predicate PendingFrom(s: Store, cut: int) {
    Keep(Pending(s), Before(cut)) == []
  }

  lemma InsertOneFrom(l: Ledger, r: Row, cut: int)
    requires PendingFrom(l.store, cut) && r.ts >= cut
    ensures PendingFrom(InsertOne(l, r).store, cut)
  {
    var pending, other := Pending(l.store), Not(WithId(r.Id()));
    if NewerThan(l.store.marker).Holds(r.Id()) {
      TimelyInsert(l.store, r);
      KeepOneMore(Keep(pending, other), r, Before(cut));
      KeepSwap(pending, other, Before(cut));
    } else {
      LateInsert(l.store, r);
    }
  }

  lemma {:induction false} InsertFrom(l: Ledger, rows: seq<Row>, n: nat, cut: int)
    requires n <= |rows| && PendingFrom(l.store, cut) && AllFrom(rows, cut)
    ensures PendingFrom(InsertTo(l, rows, n).store, cut)
  {
    if n > 0 {
      InsertFrom(l, rows, n - 1, cut);
      InsertOneFrom(InsertTo(l, rows, n - 1), rows[n - 1], cut);
    }
  }

  lemma NextFrom(l: Ledger, step: Step, cut: int, f: Floors)
    requires PendingFrom(l.store, cut) && (step.Insert? ==> AllFrom(step.rows, cut))
    ensures PendingFrom(Next(l, step, f).store, cut)
  {
    match step
    case Insert(rows) => InsertFrom(l, rows, |rows|, cut);
    case RollUp => RollUpLeavesNothingPending(l.store, f);
    case AbortedRollUp =>
    case Prune(other, _) =>
      KeepSwap(l.store.samples, Not(Before(other)), NewerThan(l.store.marker));
      KeepSwap(Pending(l.store), Not(Before(other)), Before(cut));
  }

  lemma {:induction false} RolledSinceFrom(steps: seq<Step>, j: nat, i: nat, cut: int, f: Floors)
    requires i <= |steps| && RolledSince(steps, j, i, cut)
    ensures PendingFrom(RunTo(steps, i, f).store, cut)
  {
    if i == j + 1 {
      RollUpLeavesNothingPending(RunTo(steps, j, f).store, f);
    } else {
      RolledSinceFrom(steps, j, i - 1, cut, f);
      NextFrom(RunTo(steps, i - 1, f), steps[i - 1], cut, f);
    }
  }

  /** A key that is later than every inserted row is newer than the marker and not pending. */
  lemma LaterKeyIsFresh(l: Ledger, k: Key, f: Floors)
    requires Inv(l, f) && forall j :: 0 <= j < |l.inserted| ==> l.inserted[j].ts < k.ts
    ensures NewerThan(l.store.marker).Holds(k) && k !in Ids(Pending(l.store))
  {
    var pending := Pending(l.store);
    if l.store.marker.Some? {
      MarkerInserted(l, f);
    }
    forall i | 0 <= i < |pending| ensures pending[i].Id() != k {
      assert pending[i] in multiset(pending);
      assert pending[i] in multiset(l.inserted);
      assert pending[i] in l.inserted;
    }
    IdsAreIds(pending, |pending|);
  }

  lemma {:induction false} LaterIsTimely(l: Ledger, rows: seq<Row>, n: nat, f: Floors)
    requires n <= |rows| && Inv(l, f) && Later(l, rows) && DistinctTo(rows, n)
    ensures TimelyTo(l, rows, n)
  {
    if n > 0 {
      LaterIsTimely(l, rows, n - 1, f);
      LaterKeyIsFresh(l, rows[n - 1].Id(), f);
    }
  }

  lemma {:induction false} IdsAreIds(rows: seq<Row>, n: nat)
    requires n <= |rows|
    ensures forall k :: k in IdsTo(rows, n) ==> exists i :: 0 <= i < n && rows[i].Id() == k
  {
    if n > 0 {
      IdsAreIds(rows, n - 1);
    }
  }

  lemma MarkerInserted(l: Ledger, f: Floors)
    requires Inv(l, f) && l.store.marker.Some?
    ensures exists j :: 0 <= j < |l.inserted| && l.inserted[j].ts == l.store.marker.value
  {
    var i :| 0 <= i < |l.folded| && l.folded[i].ts == l.store.marker.value;
    assert l.folded[i] in multiset(l.inserted);
    assert l.folded[i] in l.inserted;
  }

  lemma OrderlyIsHarmless(steps: seq<Step>, i: nat, f: Floors)
    requires i < |steps| && Orderly(steps, i, f)
    ensures Harmless(RunTo(steps, i, f), steps[i])
  {
    RunKeepsInv(steps, i, f);
    match steps[i]
    case Insert(rows) => LaterIsTimely(RunTo(steps, i, f), rows, |rows|, f);
    case Prune(cutRaw, _) =>
      var j: nat :| RolledSince(steps, j, i, cutRaw);
      RolledSinceFrom(steps, j, i, cutRaw, f);
    case _ =>
  }

  lemma {:induction false} OrderlyRunsAreHarmless(steps: seq<Step>, n: nat, f: Floors)
    requires n <= |steps|
    requires forall i :: 0 <= i < n ==> Orderly(steps, i, f)
    ensures HarmlessTo(steps, n, f)
  {
    if n > 0 {
      OrderlyRunsAreHarmless(steps, n - 1, f);
      OrderlyIsHarmless(steps, n - 1, f);
    }
  }

  /** Orderly runs lose nothing, so their tables are full rebuilds. */
  lemma OrderlyRunsLoseNothing(steps: seq<Step>, f: Floors)
    requires forall i :: 0 <= i < |steps| ==> Orderly(steps, i, f)
    ensures Run(steps, f).lost == []
  {
    OrderlyRunsAreHarmless(steps, |steps|, f);
    LosslessIff(steps, |steps|, f);
  }
}

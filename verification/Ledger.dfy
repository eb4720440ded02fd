/**
  The database as the daemon uses it, on values: samples, the three rollup tables and
  the rollup marker, with a history of every row ever inserted. What the incremental
  rollup computes is compared with one full aggregation of that history.
 */
module Ledger {
  import opened Traffic
  import opened Aggregation
  import opened Listing

  /** Bucket starts in some time zone. Nothing here depends on which one. */
  datatype Floors = Floors(hour: int -> int, day: int -> int, month: int -> int)

  datatype Store = Store(
    samples: seq<Row>,
    hourly: map<Key, Bytes>, daily: map<Key, Bytes>, monthly: map<Key, Bytes>,
    marker: Option<int>)

  // ---------- what the statements do ----------

  /** The samples the next rollup will read. */
  function Pending(s: Store): seq<Row> {
    Keep(s.samples, NewerThan(s.marker))
  }

  function Settled(s: Store): seq<Row> {
    Keep(s.samples, Not(NewerThan(s.marker)))
  }

  /** Upsert: a row with the same primary key is replaced. */
  function Inserted(s: Store, r: Row): Store {
    s.(samples := Keep(s.samples, Not(WithId(r.Id()))) + [r])
  }

  function LatestTo(rows: seq<Row>, n: nat): int
    requires 0 < n <= |rows|
  {
    if n == 1 || rows[n - 1].ts > LatestTo(rows, n - 1) then rows[n - 1].ts else LatestTo(rows, n - 1)
  }

  /** The newest timestamp. */
  function Latest(rows: seq<Row>): int
    requires rows != []
  {
    LatestTo(rows, |rows|)
  }

  function RolledUp(s: Store, f: Floors): Store {
    var rows := Pending(s);
    if rows == [] then s
    else
      var first := s.marker.None?;
      Store(s.samples,
            Merge(if first then map[] else s.hourly, Aggregate(rows, By(f.hour))),
            Merge(if first then map[] else s.daily, Aggregate(rows, By(f.day))),
            Merge(if first then map[] else s.monthly, Aggregate(rows, By(f.month))),
            Some(Latest(rows)))
  }

  function From(t: map<Key, Bytes>, cut: int): map<Key, Bytes> {
    map k | k in t && k.ts >= cut :: t[k]
  }

  function Pruned(s: Store, cutRaw: int, cutHour: int): Store {
    s.(samples := Keep(s.samples, Not(Before(cutRaw))), hourly := From(s.hourly, cutHour))
  }

  // ---------- the same with history ----------

  /**
    `inserted` holds every row ever written. Each is `folded` into the rollups, still
    pending, or `lost`; `expired` are the folded rows that retention has deleted.
   */
  datatype Ledger = Ledger(
    store: Store,
    inserted: seq<Row>, folded: seq<Row>, expired: seq<Row>, lost: seq<Row>,
    hourCut: Option<int>)

  const EMPTY := Ledger(Store([], map[], map[], map[], None), [], [], [], [], None)

  datatype Step =
    | Insert(rows: seq<Row>)
    | RollUp
    | AbortedRollUp
    | Prune(cutRaw: int, cutHour: int)

  function InsertOne(l: Ledger, r: Row): Ledger {
    var gone := if NewerThan(l.store.marker).Holds(r.Id()) then Keep(Pending(l.store), WithId(r.Id())) else [r];
    l.(store := Inserted(l.store, r), inserted := l.inserted + [r], lost := l.lost + gone)
  }

  function InsertTo(l: Ledger, rows: seq<Row>, n: nat): Ledger
    requires n <= |rows|
  {
    if n == 0 then l else InsertOne(InsertTo(l, rows, n - 1), rows[n - 1])
  }

  function Highest(cut: Option<int>, other: int): Option<int> {
    Some(if cut.Some? && cut.value > other then cut.value else other)
  }

  function Next(l: Ledger, step: Step, f: Floors): Ledger {
    match step
    case Insert(rows) => InsertTo(l, rows, |rows|)
    case RollUp => l.(store := RolledUp(l.store, f), folded := l.folded + Pending(l.store))
    case AbortedRollUp => l
    case Prune(cutRaw, cutHour) =>
      l.(store := Pruned(l.store, cutRaw, cutHour),
         expired := l.expired + Keep(Settled(l.store), Before(cutRaw)),
         lost := l.lost + Keep(Pending(l.store), Before(cutRaw)),
         hourCut := Highest(l.hourCut, cutHour))
  }

  function RunTo(steps: seq<Step>, n: nat, f: Floors): Ledger
    requires n <= |steps|
  {
    if n == 0 then EMPTY else Next(RunTo(steps, n - 1, f), steps[n - 1], f)
  }

  /** The state after all of `steps`, from an empty database. */
  function Run(steps: seq<Step>, f: Floors): Ledger {
    RunTo(steps, |steps|, f)
  }

  // ---------- the invariant ----------

  /** The marker is the newest folded timestamp. */
  ghost predicate MarkerOf(folded: seq<Row>, marker: Option<int>) {
    && (marker.None? <==> folded == [])
    && (marker.Some? ==>
      && (forall i :: 0 <= i < |folded| ==> folded[i].ts <= marker.value)
      && (exists i :: 0 <= i < |folded| && folded[i].ts == marker.value))
  }

  predicate AgreeAt(t: map<Key, Bytes>, u: map<Key, Bytes>, k: Key) {
    if k in t then k in u && t[k] == u[k] else k !in u
  }

  /** The tables agree on the buckets that no hourly cut has reached. */
  ghost predicate AgreeFrom(t: map<Key, Bytes>, u: map<Key, Bytes>, cut: Option<int>) {
    forall k: Key :: cut.None? || k.ts >= cut.value ==> AgreeAt(t, u, k)
  }

  ghost predicate TablesFold(l: Ledger, f: Floors) {
    && l.store.daily == Aggregate(l.folded, By(f.day))
    && l.store.monthly == Aggregate(l.folded, By(f.month))
    && AgreeFrom(l.store.hourly, Aggregate(l.folded, By(f.hour)), l.hourCut)
  }

  /** Every inserted row is folded, pending or lost: once, and in one of the three. */
  ghost predicate SharedOut(inserted: seq<Row>, folded: seq<Row>, pending: seq<Row>, lost: seq<Row>) {
    multiset(inserted) == multiset(folded) + multiset(pending) + multiset(lost)
  }

  /** Without losses, the folded rows are those still in the table and those retention deleted. */
  ghost predicate KeptOrExpired(folded: seq<Row>, settled: seq<Row>, expired: seq<Row>, lost: seq<Row>) {
    lost == [] ==> multiset(folded) == multiset(settled) + multiset(expired)
  }

  ghost predicate NoRowMissing(l: Ledger) {
    && SharedOut(l.inserted, l.folded, Pending(l.store), l.lost)
    && KeptOrExpired(l.folded, Settled(l.store), l.expired, l.lost)
  }

  ghost predicate Inv(l: Ledger, f: Floors) {
    && TablesFold(l, f)
    && MarkerOf(l.folded, l.store.marker)
    && NoRowMissing(l)
    && DistinctIds(l.store.samples)
  }

  // ---------- inserting ----------

  lemma UpsertDistinct(s: Store, r: Row)
    requires DistinctIds(s.samples)
    ensures DistinctIds(Inserted(s, r).samples)
  {
    var other := Not(WithId(r.Id()));
    assert !other.Holds(r.Id());
    KeepDistinct(s.samples, |s.samples|, other);
    DistinctOneMore(Keep(s.samples, other), r);
  }

  /** Rows that all satisfy `p` do not include one with a key that does not. */
  lemma {:induction false} KeepApart(rows: seq<Row>, p: Where, i: Key)
    requires !p.Holds(i)
    ensures Keep(Keep(rows, p), Not(WithId(i))) == Keep(rows, p)
  {
    KeepSelects(rows, p);
    KeepAll(Keep(rows, p), Not(WithId(i)));
  }

  /** A timely row becomes pending, and takes the place of a pending row with its key. */
  lemma TimelyInsert(s: Store, r: Row)
    requires NewerThan(s.marker).Holds(r.Id())
    ensures Pending(Inserted(s, r)) == Keep(Pending(s), Not(WithId(r.Id()))) + [r]
    ensures Settled(Inserted(s, r)) == Settled(s)
  {
    var m, other := NewerThan(s.marker), Not(WithId(r.Id()));
    KeepOneMore(Keep(s.samples, other), r, m);
    KeepOneMore(Keep(s.samples, other), r, Not(m));
    KeepSwap(s.samples, other, m);
    KeepSwap(s.samples, other, Not(m));
    KeepApart(s.samples, Not(m), r.Id());
  }

  /** A row not newer than the marker never becomes pending. */
  lemma LateInsert(s: Store, r: Row)
    requires !NewerThan(s.marker).Holds(r.Id())
    ensures Pending(Inserted(s, r)) == Pending(s)
  {
    var m, other := NewerThan(s.marker), Not(WithId(r.Id()));
    KeepOneMore(Keep(s.samples, other), r, m);
    KeepSwap(s.samples, other, m);
    KeepApart(s.samples, m, r.Id());
  }

  lemma InsertOneMissesNone(l: Ledger, r: Row)
    requires NoRowMissing(l)
    ensures NoRowMissing(InsertOne(l, r))
  {
    var n := InsertOne(l, r);
    if NewerThan(l.store.marker).Holds(r.Id()) {
      TimelyInsert(l.store, r);
      KeepPartitions(Pending(l.store), WithId(r.Id()));
    } else {
      LateInsert(l.store, r);
    }
  }

  /** Inserting touches neither the rollups nor the marker. */
  lemma {:induction false} InsertLeavesRollups(l: Ledger, rows: seq<Row>, n: nat)
    requires n <= |rows|
    ensures var l' := InsertTo(l, rows, n);
            l' == l.(store := l.store.(samples := l'.store.samples), inserted := l'.inserted, lost := l'.lost)
  {
    if n > 0 {
      InsertLeavesRollups(l, rows, n - 1);
    }
  }

  lemma InsertMissesNone(l: Ledger, rows: seq<Row>, n: nat)
    requires n <= |rows| && NoRowMissing(l)
    ensures NoRowMissing(InsertTo(l, rows, n))
  {
    var m := l;
    for i := 0 to n
      invariant NoRowMissing(m) && m == InsertTo(l, rows, i)
    {
      InsertOneMissesNone(m, rows[i]);
      m := InsertOne(m, rows[i]);
    }
  }

  lemma {:induction false} InsertDistinct(l: Ledger, rows: seq<Row>, n: nat)
    requires n <= |rows| && DistinctIds(l.store.samples)
    ensures DistinctIds(InsertTo(l, rows, n).store.samples)
  {
    if n > 0 {
      InsertDistinct(l, rows, n - 1);
      UpsertDistinct(InsertTo(l, rows, n - 1).store, rows[n - 1]);
    }
  }

  lemma InsertKeepsInv(l: Ledger, rows: seq<Row>, f: Floors)
    requires Inv(l, f)
    ensures Inv(InsertTo(l, rows, |rows|), f)
  {
    InsertLeavesRollups(l, rows, |rows|);
    InsertMissesNone(l, rows, |rows|);
    InsertDistinct(l, rows, |rows|);
  }

  // ---------- rolling up ----------

  lemma {:induction false} LatestBounds(rows: seq<Row>, n: nat)
    requires 0 < n <= |rows|
    ensures forall i :: 0 <= i < n ==> rows[i].ts <= LatestTo(rows, n)
    ensures exists i :: 0 <= i < n && rows[i].ts == LatestTo(rows, n)
  {
    if n > 1 {
      LatestBounds(rows, n - 1);
    } else {
      assert rows[0].ts == LatestTo(rows, 1);
    }
  }

  lemma MergeIntoNone(u: map<Key, Bytes>)
    ensures Merge(map[], u) == u
  {
    var t := Merge(map[], u);
    forall k, c | k in t ensures Get(t, k, c) == Get(u, k, c) {
      GetMerge(map[], u, k, c);
    }
    SameTable(t, u);
  }

  /** Adding the aggregate of the new rows gives the aggregate of all of them. */
  lemma MergeExtends(base: map<Key, Bytes>, folded: seq<Row>, rows: seq<Row>, g: Projection, first: bool)
    requires first ==> folded == []
    requires !first ==> base == Aggregate(folded, g)
    ensures Merge(if first then map[] else base, Aggregate(rows, g)) == Aggregate(folded + rows, g)
  {
    if first {
      assert folded + rows == rows;
      MergeIntoNone(Aggregate(rows, g));
    } else {
      AggregateAppend(folded, rows, g);
    }
  }

  /** Tables that agree on a key still agree after the same merge. */
  lemma MergeAgreeAt(t: map<Key, Bytes>, u: map<Key, Bytes>, v: map<Key, Bytes>, k: Key)
    requires AgreeAt(t, u, k)
    ensures AgreeAt(Merge(t, v), Merge(u, v), k)
  {
  }

  lemma MergeAgreeFrom(t: map<Key, Bytes>, u: map<Key, Bytes>, v: map<Key, Bytes>, cut: Option<int>)
    requires AgreeFrom(t, u, cut)
    ensures AgreeFrom(Merge(t, v), Merge(u, v), cut)
  {
    forall k: Key | cut.None? || k.ts >= cut.value ensures AgreeAt(Merge(t, v), Merge(u, v), k) {
      MergeAgreeAt(t, u, v, k);
    }
  }

  lemma AgreeSame(t: map<Key, Bytes>, cut: Option<int>)
    ensures AgreeFrom(t, t, cut)
  {
  }

  lemma MergeExtendsFrom(
    base: map<Key, Bytes>, folded: seq<Row>, rows: seq<Row>, g: Projection, first: bool, cut: Option<int>)
    requires first ==> folded == []
    requires !first ==> AgreeFrom(base, Aggregate(folded, g), cut)
    ensures AgreeFrom(Merge(if first then map[] else base, Aggregate(rows, g)), Aggregate(folded + rows, g), cut)
  {
    MergeExtends(Aggregate(folded, g), folded, rows, g, first);
    if first {
      AgreeSame(Aggregate(folded + rows, g), cut);
    } else {
      MergeAgreeFrom(base, Aggregate(folded, g), Aggregate(rows, g), cut);
    }
  }

  /** A rollup leaves nothing pending and moves the marker forward. */
  lemma NothingPending(s: Store, f: Floors)
    requires Pending(s) != []
    ensures Pending(RolledUp(s, f)) == [] && Settled(RolledUp(s, f)) == s.samples
    ensures s.marker.Some? ==> RolledUp(s, f).marker.value > s.marker.value
  {
    var latest := Latest(Pending(s));
    LatestBounds(Pending(s), |Pending(s)|);
    KeepSelects(s.samples, NewerThan(s.marker));
    assert Pending(s)[0].ts <= latest;
    forall i | 0 <= i < |s.samples| ensures s.samples[i].ts <= latest {
      if NewerThan(s.marker).Holds(s.samples[i].Id()) {
        var j := KeepFinds(s.samples, |s.samples|, NewerThan(s.marker), i);
        assert Pending(s)[j].ts <= latest;
      }
    }
    KeepNone(s.samples, NewerThan(Some(latest)));
    KeepAll(s.samples, Not(NewerThan(Some(latest))));
  }

  lemma MarkerExtends(folded: seq<Row>, rows: seq<Row>, marker: Option<int>, latest: int)
    requires MarkerOf(folded, marker) && rows != []
    requires forall i :: 0 <= i < |rows| ==> rows[i].ts <= latest
    requires exists i :: 0 <= i < |rows| && rows[i].ts == latest
    requires marker.Some? ==> latest > marker.value
    ensures MarkerOf(folded + rows, Some(latest))
  {
    var i :| 0 <= i < |rows| && rows[i].ts == latest;
    assert (folded + rows)[|folded| + i].ts == latest;
  }

  lemma RollUpFolds(l: Ledger, f: Floors)
    requires TablesFold(l, f) && (l.store.marker.None? ==> l.folded == [])
    requires Pending(l.store) != []
    ensures TablesFold(Next(l, RollUp, f), f)
  {
    var rows, first, n := Pending(l.store), l.store.marker.None?, RolledUp(l.store, f);
    assert n.daily == Aggregate(l.folded + rows, By(f.day)) by {
      MergeExtends(l.store.daily, l.folded, rows, By(f.day), first);
    }
    assert n.monthly == Aggregate(l.folded + rows, By(f.month)) by {
      MergeExtends(l.store.monthly, l.folded, rows, By(f.month), first);
    }
    assert AgreeFrom(n.hourly, Aggregate(l.folded + rows, By(f.hour)), l.hourCut) by {
      MergeExtendsFrom(l.store.hourly, l.folded, rows, By(f.hour), first, l.hourCut);
    }
  }

  lemma RollUpMissesNone(l: Ledger, f: Floors)
    requires NoRowMissing(l) && Pending(l.store) != []
    ensures NoRowMissing(Next(l, RollUp, f))
  {
    NothingPending(l.store, f);
    KeepPartitions(l.store.samples, NewerThan(l.store.marker));
  }

  lemma RollUpMarks(l: Ledger, f: Floors)
    requires MarkerOf(l.folded, l.store.marker) && Pending(l.store) != []
    ensures MarkerOf(Next(l, RollUp, f).folded, Next(l, RollUp, f).store.marker)
  {
    NothingPending(l.store, f);
    LatestBounds(Pending(l.store), |Pending(l.store)|);
    MarkerExtends(l.folded, Pending(l.store), l.store.marker, Latest(Pending(l.store)));
  }

  lemma RollUpKeepsInv(l: Ledger, f: Floors)
    requires Inv(l, f)
    ensures Inv(Next(l, RollUp, f), f)
  {
    if Pending(l.store) == [] {
      assert l.folded + [] == l.folded;
    } else {
      RollUpFolds(l, f);
      RollUpMissesNone(l, f);
      RollUpMarks(l, f);
    }
  }

  // ---------- pruning ----------

  lemma PruneMissesNone(l: Ledger, cutRaw: int, cutHour: int, f: Floors)
    requires NoRowMissing(l)
    ensures NoRowMissing(Next(l, Prune(cutRaw, cutHour), f))
  {
    var m, expiring := NewerThan(l.store.marker), Before(cutRaw);
    KeepSwap(l.store.samples, Not(expiring), m);
    KeepSwap(l.store.samples, Not(expiring), Not(m));
    KeepPartitions(Pending(l.store), expiring);
    KeepPartitions(Settled(l.store), expiring);
  }

  lemma PruneKeepsInv(l: Ledger, cutRaw: int, cutHour: int, f: Floors)
    requires Inv(l, f)
    ensures Inv(Next(l, Prune(cutRaw, cutHour), f), f)
  {
    PruneMissesNone(l, cutRaw, cutHour, f);
    KeepDistinct(l.store.samples, |l.store.samples|, Not(Before(cutRaw)));
  }

  // ---------- whole runs ----------

  lemma StepKeepsInv(l: Ledger, step: Step, f: Floors)
    requires Inv(l, f)
    ensures Inv(Next(l, step, f), f)
  {
    match step
    case Insert(rows) => InsertKeepsInv(l, rows, f);
    case RollUp => RollUpKeepsInv(l, f);
    case AbortedRollUp =>
    case Prune(cutRaw, cutHour) => PruneKeepsInv(l, cutRaw, cutHour, f);
  }

  lemma {:induction false} RunKeepsInv(steps: seq<Step>, n: nat, f: Floors)
    requires n <= |steps|
    ensures Inv(RunTo(steps, n, f), f)
  {
    if n > 0 {
      RunKeepsInv(steps, n - 1, f);
      StepKeepsInv(RunTo(steps, n - 1, f), steps[n - 1], f);
    }
  }
}

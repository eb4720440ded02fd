/** In UTC the rollup tables nest: hours add up to days, and days to months. */
module Hierarchy {
  import opened Traffic
  import opened Aggregation
  import opened Listing
  import opened Calendar
  import opened Ledger
  import opened Refinement

  function Utc(): Floors {
    Floors(t => FloorHour(t), t => FloorDay(t), t => FloorMonth(t))
  }

  function UtcWeek(): int -> int {
    t => FloorWeek(t)
  }

  lemma DayOfHours(rows: seq<Row>)
    ensures Aggregate(rows, Compose(By(Utc().day), By(Utc().hour))) == Aggregate(rows, By(Utc().day))
  {
    var g, h := Compose(By(Utc().day), By(Utc().hour)), By(Utc().day);
    forall i | 0 <= i < |rows| ensures g.Of(rows[i].Id()) == h.Of(rows[i].Id()) {
      FloorsNest(rows[i].ts);
    }
    AggregateCongruent(rows, g, h);
  }

  lemma MonthOfDays(rows: seq<Row>)
    ensures Aggregate(rows, Compose(By(Utc().month), By(Utc().day))) == Aggregate(rows, By(Utc().month))
  {
    var g, h := Compose(By(Utc().month), By(Utc().day)), By(Utc().month);
    forall i | 0 <= i < |rows| ensures g.Of(rows[i].Id()) == h.Of(rows[i].Id()) {
      FloorsNest(rows[i].ts);
    }
    AggregateCongruent(rows, g, h);
  }

  /** In every reachable state the monthly table is the daily table regrouped by month. */
  lemma MonthsAreSumsOfDays(steps: seq<Step>, days: seq<Row>)
    requires Lists(days, Run(steps, Utc()).store.daily)
    ensures Aggregate(days, By(Utc().month)) == Run(steps, Utc()).store.monthly
  {
    var l := Run(steps, Utc());
    RunKeepsInv(steps, |steps|, Utc());
    GroupTheGroups(days, l.folded, By(Utc().month), By(Utc().day));
    MonthOfDays(l.folded);
  }

  /** The part of a table that a condition selects. */
  function Restrict(t: map<Key, Bytes>, p: Where): map<Key, Bytes> {
    map k | k in t && p.Holds(k) :: t[k]
  }

  lemma KeepRestricts(rows: seq<Row>, t: map<Key, Bytes>, p: Where)
    requires Lists(rows, t)
    ensures Lists(Keep(rows, p), Restrict(t, p))
  {
    KeepDistinct(rows, |rows|, p);
    EntriesAre(rows, |rows|, t);
    EntriesAre(Keep(rows, p), |Keep(rows, p)|, Restrict(t, p));
    ListsKeys(rows, t);
    forall i | 0 <= i < |Keep(rows, p)| ensures IsEntry(Keep(rows, p)[i], Restrict(t, p)) {
      var j := KeepOrigin(rows, |rows|, p, i);
    }
    assert Ids(Keep(rows, p)) == Restrict(t, p).Keys;
    ListsKeys(Keep(rows, p), Restrict(t, p));
  }

  /** Tables that agree where `p` holds have the same sums there. */
  lemma SumWhereAgreed(a: seq<Row>, t: map<Key, Bytes>, b: seq<Row>, u: map<Key, Bytes>, p: Where, q: Where, c: Column)
    requires Lists(a, t) && Lists(b, u) && Restrict(t, p) == Restrict(u, p)
    requires forall i :: 0 <= i < |a| && q.Holds(a[i].Id()) ==> p.Holds(a[i].Id())
    requires forall i :: 0 <= i < |b| && q.Holds(b[i].Id()) ==> p.Holds(b[i].Id())
    ensures ColumnSum(a, q, c) == ColumnSum(b, q, c)
  {
    KeepRestricts(a, t, p);
    KeepRestricts(b, u, p);
    ListingsPermute(Keep(a, p), Keep(b, p), Restrict(t, p));
    ColumnPermutation(Keep(a, p), Keep(b, p), q, c);
    ColumnKeep(a, p, q, c);
    ColumnKeep(b, p, q, c);
    ColumnCongruent(a, |a|, Both(p, q), q, c);
    ColumnCongruent(b, |b|, Both(p, q), q, c);
  }

  /** Tables that agree wherever `p` holds have the same part there. */
  lemma AgreeWhere(t: map<Key, Bytes>, u: map<Key, Bytes>, p: Where)
    requires forall k: Key :: p.Holds(k) ==> AgreeAt(t, u, k)
    ensures Restrict(t, p) == Restrict(u, p)
  {
    forall k: Key ensures k in Restrict(t, p) <==> k in Restrict(u, p) {
      assert p.Holds(k) ==> AgreeAt(t, u, k);
    }
    SameMap(Restrict(t, p), Restrict(u, p));
  }

  lemma AgreeRestricts(t: map<Key, Bytes>, u: map<Key, Bytes>, cut: int)
    requires AgreeFrom(t, u, Some(cut))
    ensures Restrict(t, Not(Before(cut))) == Restrict(u, Not(Before(cut)))
  {
    forall k: Key | Not(Before(cut)).Holds(k) ensures AgreeAt(t, u, k) {
      assert !Before(cut).Holds(k);
    }
    AgreeWhere(t, u, Not(Before(cut)));
  }

  lemma InLaterDay(x: Key, k: Key, cut: int)
    requires k.ts >= cut && InGroup(By(Utc().day), k).Holds(x)
    ensures Not(Before(cut)).Holds(x)
  {
    DayIsFloor(x.ts, x.ts);
    assert x.ts >= FloorDay(x.ts) == k.ts;
    assert !Before(cut).Holds(x);
  }

  /** The hours of a day that starts no earlier than the cut are not before it either. */
  lemma HoursOfLaterDays(rows: seq<Row>, k: Key, cut: int)
    requires k.ts >= cut
    ensures forall i :: 0 <= i < |rows| && InGroup(By(Utc().day), k).Holds(rows[i].Id()) ==>
              Not(Before(cut)).Holds(rows[i].Id())
  {
    forall i | 0 <= i < |rows| && InGroup(By(Utc().day), k).Holds(rows[i].Id())
      ensures Not(Before(cut)).Holds(rows[i].Id())
    {
      InLaterDay(rows[i].Id(), k, cut);
    }
  }

  /**
    In every reachable state each day that the hourly cut has not reached is the sum of
    its hours, although the cut is a moving time of day and deletes hours, not days.
   */
  lemma DaysAreSumsOfHours(steps: seq<Step>, hours: seq<Row>, k: Key, c: Column)
    requires Lists(hours, Run(steps, Utc()).store.hourly)
    requires var cut := Run(steps, Utc()).hourCut; cut.None? || k.ts >= cut.value
    ensures ColumnSum(hours, InGroup(By(Utc().day), k), c) == Get(Run(steps, Utc()).store.daily, k, c)
  {
    var l := Run(steps, Utc());
    var day, hour := By(Utc().day), By(Utc().hour);
    RunKeepsInv(steps, |steps|, Utc());
    var all := ListingExists(Aggregate(l.folded, hour));
    GroupTheGroups(all, l.folded, day, hour);
    DayOfHours(l.folded);
    GetAggregate(all, day, k, c);
    if l.hourCut.None? {
      UncutHourly(l, Utc());
      ListingsPermute(hours, all, l.store.hourly);
      ColumnPermutation(hours, all, InGroup(day, k), c);
    } else {
      AgreeRestricts(l.store.hourly, Aggregate(l.folded, hour), l.hourCut.value);
      HoursOfLaterDays(hours, k, l.hourCut.value);
      HoursOfLaterDays(all, k, l.hourCut.value);
      SumWhereAgreed(hours, l.store.hourly, all, Aggregate(l.folded, hour), Not(Before(l.hourCut.value)),
                     InGroup(day, k), c);
    }
  }
}

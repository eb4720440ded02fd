/** `netmeter show`: which rows are displayed for a period, and when rolled and raw rows are the same. */
module Show {
  import opened Traffic
  import opened Aggregation
  import opened Listing
  import opened Ledger
  import opened Calendar
  import opened Hierarchy
  import opened Views
  import opened Fallback

  datatype View = Hours | Days | Weeks | Months

  /** Weeks are bucketed again from days. */
  function TableOf(s: Store, v: View): map<Key, Bytes> {
    match v
    case Hours => s.hourly
    case Days => s.daily
    case Weeks => s.daily
    case Months => s.monthly
  }

  function FloorFor(v: View, f: Floors): int -> int {
    match v
    case Hours => f.hour
    case Days => f.day
    case Weeks => f.day
    case Months => f.month
  }

  /** How far back a view reaches, in seconds. */
  function Reach(v: View): int {
    match v
    case Hours => 24 * 3600
    case Days => 30 * 86400
    case Weeks => 12 * 7 * 86400
    case Months => 365 * 86400
  }

  // ---------- tables as row sequences ----------

  lemma SomeListing(t: map<Key, Bytes>)
    ensures exists rows :: Lists(rows, t)
  {
    var rows := ListingExists(t);
  }

  ghost function ListingOf(t: map<Key, Bytes>): (rows: seq<Row>)
    ensures Lists(rows, t)
  {
    SomeListing(t);
    var rows :| Lists(rows, t);
    rows
  }

  method ListTable(t: map<Key, Bytes>) returns (rows: seq<Row>)
    ensures Lists(rows, t)
  {
    rows := [];
    var left := t.Keys;
    while left != {}
      invariant left <= t.Keys && DistinctIds(rows) && Ids(rows) == t.Keys - left
      invariant EntriesTo(rows, |rows|, t)
    {
      var k :| k in left;
      var r := Row(k.ts, k.iface, t[k]);
      DistinctOneMore(rows, r);
      EntriesAre(rows, |rows|, t);
      EntriesAre(rows + [r], |rows| + 1, t);
      rows := rows + [r];
      left := left - {k};
    }
    ListsKeys(rows, t);
  }

  /** Tables that agree on a range give the same answer, in whatever order they are read. */
  lemma QueriesAgree(
    a: seq<Row>, t: map<Key, Bytes>, b: seq<Row>, u: map<Key, Bytes>, from: int, to: int, iface: Option<string>)
    requires Lists(a, t) && Lists(b, u)
    requires Restrict(t, Wanted(from, to, iface)) == Restrict(u, Wanted(from, to, iface))
    ensures Query(a, from, to, iface) == Query(b, from, to, iface)
  {
    var p := Wanted(from, to, iface);
    KeepRestricts(a, t, p);
    KeepRestricts(b, u, p);
    ListingsPermute(Keep(a, p), Keep(b, p), Restrict(t, p));
    AggregatePermutation(Keep(a, p), Keep(b, p), Shown(iface));
    QueryAnswers(a, from, to, iface);
    QueryAnswers(b, from, to, iface);
    AnswersAgree(Query(a, from, to, iface), Query(b, from, to, iface), a, from, to, iface);
  }

  // ---------- what is displayed ----------

  /** Week rows are daily rows bucketed by week, the others are as queried. */
  function Grouped(q: seq<Row>, v: View, week: int -> int): seq<Row> {
    if v.Weeks? then Buckets(q, week) else q
  }

  ghost function RolledRows(s: Store, v: View, end: int, iface: Option<string>, week: int -> int): seq<Row> {
    Grouped(Query(ListingOf(TableOf(s, v)), end - Reach(v), end + 1, iface), v, week)
  }

  /** Raw rows are bucketed by the table's floor, and weeks once more. */
  function RawRows(s: Store, v: View, end: int, iface: Option<string>, f: Floors, week: int -> int): seq<Row> {
    Grouped(Buckets(Query(s.samples, end - Reach(v), end + 1, iface), FloorFor(v, f)), v, week)
  }

  /** The rolled rows, or the raw ones if there are none. */
  ghost function Displayed(s: Store, v: View, end: int, iface: Option<string>, f: Floors, week: int -> int): seq<Row> {
    var rolled := RolledRows(s, v, end, iface, week);
    if rolled == [] then RawRows(s, v, end, iface, f, week) else rolled
  }

  /** `bucket_samples`. */
  method BucketSamples(raw: seq<Row>, v: View, f: Floors, week: int -> int) returns (rows: seq<Row>)
    ensures rows == Grouped(Buckets(raw, FloorFor(v, f)), v, week)
  {
    rows := Accumulate(raw, FloorFor(v, f));
    if v.Weeks? {
      rows := Accumulate(rows, week);
    }
  }

  method ShowRolled(s: Store, v: View, end: int, iface: Option<string>, week: int -> int) returns (rows: seq<Row>)
    ensures rows == RolledRows(s, v, end, iface, week)
  {
    var table := ListTable(TableOf(s, v));
    rows := QueryRange(table, end - Reach(v), end + 1, iface);
    QueriesAgree(table, TableOf(s, v), ListingOf(TableOf(s, v)), TableOf(s, v), end - Reach(v), end + 1, iface);
    if v.Weeks? {
      rows := Accumulate(rows, week);
    }
  }

  /** The rows of `cmd_show`. They depend on the store only, not on how tables are laid out. */
  method Show(s: Store, v: View, end: int, iface: Option<string>, f: Floors, week: int -> int) returns (rows: seq<Row>)
    ensures rows == Displayed(s, v, end, iface, f, week)
  {
    rows := ShowRolled(s, v, end, iface, week);
    if |rows| == 0 {
      var raw := QueryRange(s.samples, end - Reach(v), end + 1, iface);
      rows := BucketSamples(raw, v, f, week);
    }
  }

  // ---------- rolled rows and raw rows ----------

  function InRange(v: View, end: int, iface: Option<string>): Where {
    Wanted(end - Reach(v), end + 1, iface)
  }

  function BucketInRange(v: View, end: int, iface: Option<string>, f: Floors): Where {
    Via(By(FloorFor(v, f)), InRange(v, end, iface))
  }

  /** No sample is in the view's range with its bucket out of it, or the other way round. */
  ghost predicate NoneStraddles(s: Store, v: View, end: int, iface: Option<string>, f: Floors) {
    var range := Wanted(end - Reach(v), end + 1, iface);
    SameSelection(s.samples, range, Via(By(FloorFor(v, f)), range))
  }

  /** The displayed group of a sample. */
  function ShownBy(v: View, iface: Option<string>, f: Floors, week: int -> int): Projection {
    Regrouped(Compose(Shown(iface), By(FloorFor(v, f))), v, week)
  }

  function Regrouped(g: Projection, v: View, week: int -> int): Projection {
    if v.Weeks? then Compose(By(week), g) else g
  }

  /** Displayed rows list the regrouped table of whatever rows the query's answer listed. */
  lemma GroupedLists(q: seq<Row>, rows: seq<Row>, g: Projection, v: View, week: int -> int, name: string)
    requires ListsInOrder(q, Aggregate(rows, g), name)
    ensures ListsInOrder(Grouped(q, v, week), Aggregate(rows, Regrouped(g, v, week)), name)
  {
    if v.Weeks? {
      InOrderLists(q, Aggregate(rows, g), name);
      BucketsListGroups(q, week, name);
      GroupTheGroups(q, rows, By(week), g);
    }
  }

  lemma GroupedQueryLists(
      table: seq<Row>, samples: seq<Row>, floor: int -> int, from: int, to: int, iface: Option<string>, v: View,
      week: int -> int)
    requires Lists(table, Aggregate(samples, By(floor)))
    ensures ListsInOrder(Grouped(Query(table, from, to, iface), v, week),
                         Aggregate(Keep(samples, Via(By(floor), Wanted(from, to, iface))),
                                   Regrouped(Compose(Shown(iface), By(floor)), v, week)),
                         ShownAs(iface))
  {
    RolledAnswer(table, samples, floor, from, to, iface);
    GroupedLists(Query(table, from, to, iface), Keep(samples, Via(By(floor), Wanted(from, to, iface))),
                 Compose(Shown(iface), By(floor)),
                 v, week, ShownAs(iface));
  }

  lemma GroupedRawLists(
      samples: seq<Row>, floor: int -> int, from: int, to: int, iface: Option<string>, v: View, week: int -> int)
    ensures ListsInOrder(Grouped(Buckets(Query(samples, from, to, iface), floor), v, week),
                         Aggregate(Keep(samples, Wanted(from, to, iface)),
                                   Regrouped(Compose(Shown(iface), By(floor)), v, week)),
                         ShownAs(iface))
  {
    RawAnswer(samples, floor, from, to, iface);
    GroupedLists(Buckets(Query(samples, from, to, iface), floor), Keep(samples, Wanted(from, to, iface)),
                 Compose(Shown(iface), By(floor)),
                 v, week, ShownAs(iface));
  }

  lemma SameListIffSameTable(a: seq<Row>, t: map<Key, Bytes>, b: seq<Row>, u: map<Key, Bytes>, iface: string)
    requires ListsInOrder(a, t, iface) && ListsInOrder(b, u, iface)
    ensures a == b <==> t == u
  {
    if t == u {
      InOrderUnique(a, b, t, iface);
    } else if a == b {
      InOrderLists(a, t, iface);
      InOrderLists(a, u, iface);
      ListsOneTable(a, t, u);
    }
  }

  /** Samples that straddle one way and the other are never displayed in one bucket. */
  ghost predicate StraddlersApart(s: Store, v: View, end: int, iface: Option<string>, f: Floors, week: int -> int) {
    var range := Wanted(end - Reach(v), end + 1, iface);
    Apart(s.samples, range, Via(By(FloorFor(v, f)), range),
          Regrouped(Compose(Shown(iface), By(FloorFor(v, f))), v, week))
  }

  /** Two displays of the same rows, selected in two ways that stay apart, are one exactly if the selections are. */
  lemma SameDisplayIff(a: seq<Row>, b: seq<Row>, rows: seq<Row>, p: Where, q: Where, g: Projection, name: string)
    requires ListsInOrder(a, Aggregate(Keep(rows, p), g), name) && ListsInOrder(b, Aggregate(Keep(rows, q), g), name)
    requires Positive(rows) && Apart(rows, p, q, g)
    ensures a == b <==> SameSelection(rows, p, q)
  {
    SameListIffSameTable(a, Aggregate(Keep(rows, p), g), b, Aggregate(Keep(rows, q), g), name);
    SameGroupsIff(rows, p, q, g);
  }

  /** `rolled` is what a query of `table` displays, `raw` what bucketing a query of `samples` displays. */
  lemma QueryIsRawIff(
    rolled: seq<Row>, raw: seq<Row>, table: seq<Row>, samples: seq<Row>, floor: int -> int, from: int, to: int,
    iface: Option<string>, v: View, week: int -> int)
    requires rolled == Grouped(Query(table, from, to, iface), v, week)
    requires raw == Grouped(Buckets(Query(samples, from, to, iface), floor), v, week)
    requires Lists(table, Aggregate(samples, By(floor))) && Positive(samples)
    requires Apart(samples, Wanted(from, to, iface), Via(By(floor), Wanted(from, to, iface)),
                   Regrouped(Compose(Shown(iface), By(floor)), v, week))
    ensures raw == rolled <==> SameSelection(samples, Wanted(from, to, iface), Via(By(floor), Wanted(from, to, iface)))
  {
    GroupedQueryLists(table, samples, floor, from, to, iface, v, week);
    GroupedRawLists(samples, floor, from, to, iface, v, week);
    SameDisplayIff(raw, rolled, samples,
                   Wanted(from, to, iface), Via(By(floor), Wanted(from, to, iface)),
                   Regrouped(Compose(Shown(iface), By(floor)), v, week), ShownAs(iface));
  }

  /** Rolled and raw rows of the same samples are the same sequence exactly if no sample straddles the range. */
  lemma RolledIsRawIff(s: Store, v: View, end: int, iface: Option<string>, f: Floors, week: int -> int)
    requires Lists(ListingOf(TableOf(s, v)), Aggregate(s.samples, By(FloorFor(v, f)))) && Positive(s.samples)
    requires StraddlersApart(s, v, end, iface, f, week)
    ensures RawRows(s, v, end, iface, f, week) == RolledRows(s, v, end, iface, week)
       <==> NoneStraddles(s, v, end, iface, f)
  {
    QueryIsRawIff(RolledRows(s, v, end, iface, week), RawRows(s, v, end, iface, f, week), ListingOf(TableOf(s, v)),
                  s.samples, FloorFor(v, f), end - Reach(v), end + 1, iface, v, week);
  }

  /** In UTC straddlers are apart in every view: the two ends of a range are more than a week from each other. */
  lemma UtcStraddlersApart(s: Store, v: View, end: int, iface: Option<string>)
    ensures StraddlersApart(s, v, end, iface, Utc(), UtcWeek())
  {
    var p, q, g := InRange(v, end, iface), BucketInRange(v, end, iface, Utc()), ShownBy(v, iface, Utc(), UtcWeek());
    forall i, j | 0 <= i < |s.samples| && 0 <= j < |s.samples|
      && Only(p, q, s.samples[i].Id()) && Only(q, p, s.samples[j].Id())
      ensures g.Of(s.samples[i].Id()) != g.Of(s.samples[j].Id())
    {
      StraddlersShownApart(s.samples[i].Id(), s.samples[j].Id(), v, end, iface);
    }
    ApartIf(s.samples, p, q, g);
  }

  /** Straddlers of the two kinds are at the two ends of the range. */
  lemma StraddlersEachSide(x: Key, y: Key, v: View, end: int, iface: Option<string>, f: Floors)
    requires Only(InRange(v, end, iface), BucketInRange(v, end, iface, f), x)
    requires Only(BucketInRange(v, end, iface, f), InRange(v, end, iface), y)
    requires FloorFor(v, f)(x.ts) <= x.ts && FloorFor(v, f)(y.ts) <= y.ts
    ensures FloorFor(v, f)(x.ts) < end - Reach(v) <= FloorFor(v, f)(y.ts) <= end < y.ts
  {
    var from, floor := end - Reach(v), By(FloorFor(v, f));
    WantedHolds(x, from, end + 1, iface);
    WantedHolds(y, from, end + 1, iface);
    WantedHolds(floor.Of(x), from, end + 1, iface);
    WantedHolds(floor.Of(y), from, end + 1, iface);
  }

  lemma StraddlersShownApart(x: Key, y: Key, v: View, end: int, iface: Option<string>)
    requires Only(InRange(v, end, iface), BucketInRange(v, end, iface, Utc()), x)
    requires Only(BucketInRange(v, end, iface, Utc()), InRange(v, end, iface), y)
    ensures ShownBy(v, iface, Utc(), UtcWeek()).Of(x) != ShownBy(v, iface, Utc(), UtcWeek()).Of(y)
  {
    FloorBelow(v, x.ts);
    FloorBelow(v, y.ts);
    StraddlersEachSide(x, y, v, end, iface, Utc());
    if v.Weeks? {
      WeekAround(x.ts);
      WeekAround(y.ts);
    }
  }

  lemma FloorBelow(v: View, t: int)
    ensures FloorFor(v, Utc())(t) <= t
  {
    FloorsAreFloors(t, t);
  }

  lemma WeekAround(t: int)
    ensures UtcWeek()(Utc().day(t)) <= Utc().day(t) && t < UtcWeek()(Utc().day(t)) + WEEK
  {
    FloorsNest(t);
    WeekContains(t);
    WeekIsFloor(FloorDay(t), FloorDay(t));
  }

  // ---------- ranges of whole buckets ----------

  /** On a range of whole buckets rolled and raw rows are the same, regrouped by week or not. */
  lemma AlignedRange(
    table: seq<Row>, samples: seq<Row>, floor: int -> int, from: int, to: int, iface: Option<string>, v: View,
    week: int -> int)
    requires Lists(table, Aggregate(samples, By(floor)))
    requires IsFloor(floor) && WholeBuckets(samples, floor, from, to)
    ensures Grouped(Query(table, from, to, iface), v, week)
         == Grouped(Buckets(Query(samples, from, to, iface), floor), v, week)
  {
    AlignedFallbackIsRolled(table, samples, floor, from, to, iface);
  }

  /** If no sample straddles the range, rolled and raw rows are the same. */
  lemma SameSelectionSameRows(
    rolled: seq<Row>, raw: seq<Row>, table: seq<Row>, samples: seq<Row>, floor: int -> int, from: int, to: int,
    iface: Option<string>, v: View, week: int -> int)
    requires rolled == Grouped(Query(table, from, to, iface), v, week)
    requires raw == Grouped(Buckets(Query(samples, from, to, iface), floor), v, week)
    requires Lists(table, Aggregate(samples, By(floor)))
    requires SameSelection(samples, Wanted(from, to, iface), Via(By(floor), Wanted(from, to, iface)))
    ensures rolled == raw
  {
    SelectedFallbackIsRolled(table, samples, floor, from, to, iface);
  }

  lemma NoneStraddlesSameRows(s: Store, v: View, end: int, iface: Option<string>, f: Floors, week: int -> int)
    requires Lists(ListingOf(TableOf(s, v)), Aggregate(s.samples, By(FloorFor(v, f))))
    requires NoneStraddles(s, v, end, iface, f)
    ensures RolledRows(s, v, end, iface, week) == RawRows(s, v, end, iface, f, week)
  {
    SameSelectionSameRows(RolledRows(s, v, end, iface, week), RawRows(s, v, end, iface, f, week),
                          ListingOf(TableOf(s, v)), s.samples, FloorFor(v, f), end - Reach(v), end + 1, iface, v,
                          week);
  }

  lemma StartsWhole(samples: seq<Row>, floor: int -> int, from: int, end: int)
    requires floor(from) == from && Until(samples, end)
    ensures WholeBuckets(samples, floor, from, end + 1)
  {
    assert end == end + 1 - 1;
  }

  lemma StartsWholeNoneStraddles(s: Store, v: View, end: int, iface: Option<string>, f: Floors)
    requires IsFloor(FloorFor(v, f)) && FloorFor(v, f)(end - Reach(v)) == end - Reach(v) && Until(s.samples, end)
    ensures NoneStraddles(s, v, end, iface, f)
  {
    StartsWhole(s.samples, FloorFor(v, f), end - Reach(v), end);
    AlignedSelection(s.samples, FloorFor(v, f), end - Reach(v), end + 1, iface);
  }

  /**
    The ranges of `show` end with the moment `end`, so they are never a number of whole
    buckets. But if they start with a bucket and no sample is later than `end`, rolled and
    raw rows are the same in every view.
   */
  lemma AlignedDisplay(s: Store, v: View, end: int, iface: Option<string>, f: Floors, week: int -> int)
    requires Lists(ListingOf(TableOf(s, v)), Aggregate(s.samples, By(FloorFor(v, f)))) && Until(s.samples, end)
    requires IsFloor(FloorFor(v, f)) && FloorFor(v, f)(end - Reach(v)) == end - Reach(v)
    ensures RolledRows(s, v, end, iface, week) == RawRows(s, v, end, iface, f, week)
  {
    StartsWholeNoneStraddles(s, v, end, iface, f);
    NoneStraddlesSameRows(s, v, end, iface, f, week);
  }

  lemma UtcFloorsAt(v: View, s: int, t: int)
    requires s <= t
    ensures FloorFor(v, Utc())(s) <= FloorFor(v, Utc())(t) <= t
  {
    match v
    case Hours => HourIsFloor(s, t);
    case Days => DayIsFloor(s, t);
    case Weeks => DayIsFloor(s, t);
    case Months => MonthIsFloor(s, t);
  }

  /** The floors of every view in UTC. */
  lemma UtcFloors(v: View)
    ensures IsFloor(FloorFor(v, Utc()))
  {
    forall s, t | s <= t ensures FloorFor(v, Utc())(s) <= FloorFor(v, Utc())(t) <= t {
      UtcFloorsAt(v, s, t);
    }
  }
}

/**
  Bytes used in a budget window: the daemon sums raw samples, `show` sums the rows it
  displays. An exact law relates the two in every state, and tells when they agree.
 */
module Budget {
  import opened Traffic
  import opened Aggregation
  import opened Listing
  import opened Calendar
  import opened WindowKey
  import opened Ledger
  import opened Refinement
  import opened Hierarchy
  import opened Views
  import opened Fallback
  import opened Show
  import opened Soundness

  // ---------- the two computations ----------

  function Used(b: Bytes, wan: bool): int {
    if wan then b.WanRx() + b.WanTx() else b.Total()
  }

  function Clamp(x: int): int {
    if x > 0 then x else 0
  }

  /** `check_budget`: four sums over the samples of the window, clamped once. */
  function CheckUsed(samples: seq<Row>, wan: bool, start: int): int {
    var w := Not(Before(start));
    if wan then
      Clamp(ColumnSum(samples, w, Rx) - ColumnSum(samples, w, LanRx))
      + Clamp(ColumnSum(samples, w, Tx) - ColumnSum(samples, w, LanTx))
    else
      ColumnSum(samples, w, Rx) + ColumnSum(samples, w, Tx)
  }

  /** `budget_used`: displayed rows of the window, each clamped. */
  function ShowUsedTo(rows: seq<Row>, n: nat, wan: bool, start: int): int
    requires n <= |rows|
  {
    if n == 0 then 0
    else ShowUsedTo(rows, n - 1, wan, start) + (if rows[n - 1].ts >= start then Used(rows[n - 1].bytes, wan) else 0)
  }

  function ShowUsed(rows: seq<Row>, wan: bool, start: int): int {
    ShowUsedTo(rows, |rows|, wan, start)
  }

  /** The basis without clamps: it adds up over rows. */
  function BasisTo(rows: seq<Row>, n: nat, p: Where, wan: bool): int
    requires n <= |rows|
  {
    ColumnTo(rows, n, p, Rx) + ColumnTo(rows, n, p, Tx)
    - (if wan then ColumnTo(rows, n, p, LanRx) + ColumnTo(rows, n, p, LanTx) else 0)
  }

  function Basis(rows: seq<Row>, p: Where, wan: bool): int {
    BasisTo(rows, |rows|, p, wan)
  }

  lemma {:induction false} ShowUsedIsBasis(rows: seq<Row>, n: nat, wan: bool, start: int)
    requires n <= |rows| && (wan ==> AllSound(rows))
    ensures ShowUsedTo(rows, n, wan, start) == BasisTo(rows, n, Not(Before(start)), wan)
  {
    if n > 0 {
      ShowUsedIsBasis(rows, n - 1, wan, start);
      assert Not(Before(start)).Holds(rows[n - 1].Id()) <==> rows[n - 1].ts >= start;
    }
  }

  lemma CheckUsedIsBasis(samples: seq<Row>, wan: bool, start: int)
    requires wan ==> AllSound(samples)
    ensures CheckUsed(samples, wan, start) == Basis(samples, Not(Before(start)), wan)
  {
    if wan {
      ColumnsSound(samples, |samples|, Not(Before(start)));
    }
  }

  /** On the WAN basis a direction with more LAN than total bytes counts as nothing, and does not eat into the other. */
  lemma CheckUsedClamps(samples: seq<Row>, start: int)
    ensures var w := Window(start);
            var (rx, tx) := (ColumnSum(samples, w, Rx), ColumnSum(samples, w, Tx));
            var (lanRx, lanTx) := (ColumnSum(samples, w, LanRx), ColumnSum(samples, w, LanTx));
            && CheckUsed(samples, true, start) >= 0
            && (lanRx >= rx && lanTx >= tx ==> CheckUsed(samples, true, start) == 0)
            && (lanRx >= rx && lanTx <= tx ==> CheckUsed(samples, true, start) + lanTx == tx)
            && (lanRx <= rx && lanTx >= tx ==> CheckUsed(samples, true, start) + lanRx == rx)
            && (lanRx <= rx && lanTx <= tx ==> CheckUsed(samples, true, start) + lanRx + lanTx == rx + tx)
            && CheckUsed(samples, false, start) == rx + tx
  {
  }

  // ---------- sums over the displayed window ----------

  /** The bucket under which a view displays bucket `b` of its table. */
  function ShownBucket(v: View, week: int -> int, b: int): int {
    if v.Weeks? then week(b) else b
  }

  /** A window that starts at `start` fits a view at `t`: the displayed bucket of `t` is in the window if `t` is. */
  predicate Fits(t: int, v: View, f: Floors, week: int -> int, start: int) {
    ShownBucket(v, week, FloorFor(v, f)(t)) >= start <==> t >= start
  }

  ghost predicate AllFit(rows: seq<Row>, v: View, f: Floors, week: int -> int, start: int) {
    forall i :: 0 <= i < |rows| ==> Fits(rows[i].ts, v, f, week, start)
  }

  function Window(start: int): Where {
    Not(Before(start))
  }

  /** Table rows whose displayed row is in the window. */
  function ShownInWindow(v: View, week: int -> int, start: int): Where {
    if v.Weeks? then Via(By(week), Window(start)) else Window(start)
  }

  /** How a sample's key appears among the queried rows: floored, and under `_all` unless one interface is asked for. */
  function Appears(v: View, f: Floors, iface: Option<string>): Projection {
    Compose(Shown(iface), By(FloorFor(v, f)))
  }

  lemma WindowHolds(x: Key, start: int)
    ensures Window(start).Holds(x) <==> x.ts >= start
  {
    assert Before(start).Holds(x) <==> x.ts < start;
  }

  lemma AppearsInWindow(x: Key, v: View, f: Floors, iface: Option<string>, week: int -> int, start: int)
    ensures Via(Appears(v, f, iface), ShownInWindow(v, week, start)).Holds(x)
       <==> ShownBucket(v, week, FloorFor(v, f)(x.ts)) >= start
  {
    var y := Appears(v, f, iface).Of(x);
    assert y.ts == FloorFor(v, f)(x.ts);
    WindowHolds(y, start);
    WindowHolds(By(week).Of(y), start);
  }

  lemma WindowSelection(
    rows: seq<Row>, w: Where, v: View, f: Floors, iface: Option<string>, week: int -> int, start: int, c: Column)
    requires AllFit(rows, v, f, week, start)
    ensures ColumnSum(rows, Both(w, Via(Appears(v, f, iface), ShownInWindow(v, week, start))), c)
         == ColumnSum(rows, Both(w, Window(start)), c)
  {
    var shown := Via(Appears(v, f, iface), ShownInWindow(v, week, start));
    forall i | 0 <= i < |rows|
      ensures Both(w, shown).Holds(rows[i].Id()) <==> Both(w, Window(start)).Holds(rows[i].Id())
    {
      AppearsInWindow(rows[i].Id(), v, f, iface, week, start);
      WindowHolds(rows[i].Id(), start);
    }
    ColumnCongruent(rows, |rows|, Both(w, shown), Both(w, Window(start)), c);
  }

  /** Week rows sum their day rows. */
  lemma GroupedColumn(q: seq<Row>, name: string, v: View, week: int -> int, start: int, c: Column)
    requires AllOn(q, name)
    ensures ColumnSum(Grouped(q, v, week), Window(start), c) == ColumnSum(q, ShownInWindow(v, week, start), c)
  {
    if v.Weeks? {
      BucketsListGroups(q, week, name);
      InOrderLists(Buckets(q, week), Aggregate(q, By(week)), name);
      SumListed(Buckets(q, week), q, By(week), Window(start), c);
    }
  }

  /** Summing the window of what is displayed of selected rows is summing their window. */
  lemma ListedColumn(
    q: seq<Row>, rows: seq<Row>, w: Where, v: View, f: Floors, iface: Option<string>, week: int -> int, start: int,
    c: Column)
    requires ListsInOrder(q, Aggregate(Keep(rows, w), Appears(v, f, iface)), ShownAs(iface))
    requires AllFit(rows, v, f, week, start)
    ensures ColumnSum(Grouped(q, v, week), Window(start), c) == ColumnSum(rows, Both(w, Window(start)), c)
  {
    InOrderLists(q, Aggregate(Keep(rows, w), Appears(v, f, iface)), ShownAs(iface));
    GroupedColumn(q, ShownAs(iface), v, week, start, c);
    SumListed(q, Keep(rows, w), Appears(v, f, iface), ShownInWindow(v, week, start), c);
    ColumnKeep(rows, w, Via(Appears(v, f, iface), ShownInWindow(v, week, start)), c);
    WindowSelection(rows, w, v, f, iface, week, start, c);
  }

  lemma QueriedColumn(
      table: seq<Row>, folded: seq<Row>, v: View, f: Floors, week: int -> int, from: int, to: int,
      iface: Option<string>, start: int, c: Column)
    requires Lists(table, Aggregate(folded, By(FloorFor(v, f)))) && AllFit(folded, v, f, week, start)
    ensures ColumnSum(Grouped(Query(table, from, to, iface), v, week), Window(start), c)
         == ColumnSum(folded, Both(Via(By(FloorFor(v, f)), Wanted(from, to, iface)), Window(start)), c)
  {
    RolledAnswer(table, folded, FloorFor(v, f), from, to, iface);
    ListedColumn(Query(table, from, to, iface), folded, Via(By(FloorFor(v, f)), Wanted(from, to, iface)), v, f, iface,
                 week, start, c);
  }

  lemma BucketedColumn(
      samples: seq<Row>, v: View, f: Floors, week: int -> int, from: int, to: int, iface: Option<string>, start: int,
      c: Column)
    requires AllFit(samples, v, f, week, start)
    ensures ColumnSum(Grouped(Buckets(Query(samples, from, to, iface), FloorFor(v, f)), v, week), Window(start), c)
         == ColumnSum(samples, Both(Wanted(from, to, iface), Window(start)), c)
  {
    RawAnswer(samples, FloorFor(v, f), from, to, iface);
    ListedColumn(Buckets(Query(samples, from, to, iface), FloorFor(v, f)), samples, Wanted(from, to, iface), v, f,
                 iface, week, start, c);
  }

  // ---------- what is on the bar ----------

  /** Samples of the window that the view displays if it selects them by their bucket. */
  function ByBucket(v: View, f: Floors, end: int, iface: Option<string>, start: int): Where {
    Both(Via(By(FloorFor(v, f)), Wanted(end - Reach(v), end + 1, iface)), Window(start))
  }

  /** The same if it selects them by their time. */
  function ByTime(v: View, end: int, iface: Option<string>, start: int): Where {
    Both(Wanted(end - Reach(v), end + 1, iface), Window(start))
  }

  /** The rolled rows of the window sum the folded samples that are on display by their bucket. */
  lemma RolledColumn(
    s: Store, folded: seq<Row>, v: View, f: Floors, week: int -> int, end: int, iface: Option<string>, start: int,
    c: Column)
    requires TableOf(s, v) == Aggregate(folded, By(FloorFor(v, f))) && AllFit(folded, v, f, week, start)
    ensures ColumnSum(RolledRows(s, v, end, iface, week), Window(start), c)
         == ColumnSum(folded, ByBucket(v, f, end, iface, start), c)
  {
    QueriedColumn(ListingOf(TableOf(s, v)), folded, v, f, week, end - Reach(v), end + 1, iface, start, c);
  }

  /** The fallback rows of the window sum the samples that are on display by their time. */
  lemma RawColumn(
    s: Store, v: View, f: Floors, week: int -> int, end: int, iface: Option<string>, start: int, c: Column)
    requires AllFit(s.samples, v, f, week, start)
    ensures ColumnSum(RawRows(s, v, end, iface, f, week), Window(start), c)
         == ColumnSum(s.samples, ByTime(v, end, iface, start), c)
  {
    BucketedColumn(s.samples, v, f, week, end - Reach(v), end + 1, iface, start, c);
  }

  lemma RolledUsed(
    s: Store, folded: seq<Row>, v: View, f: Floors, week: int -> int, end: int, iface: Option<string>, start: int,
    wan: bool)
    requires TableOf(s, v) == Aggregate(folded, By(FloorFor(v, f))) && AllFit(folded, v, f, week, start)
    requires wan ==> StoreSound(s)
    ensures ShowUsed(RolledRows(s, v, end, iface, week), wan, start)
         == Basis(folded, ByBucket(v, f, end, iface, start), wan)
  {
    var rows := RolledRows(s, v, end, iface, week);
    if wan {
      RolledSound(s, v, end, iface, week);
    }
    ShowUsedIsBasis(rows, |rows|, wan, start);
    RolledColumn(s, folded, v, f, week, end, iface, start, Rx);
    RolledColumn(s, folded, v, f, week, end, iface, start, Tx);
    RolledColumn(s, folded, v, f, week, end, iface, start, LanRx);
    RolledColumn(s, folded, v, f, week, end, iface, start, LanTx);
  }

  lemma RawUsed(
    s: Store, v: View, f: Floors, week: int -> int, end: int, iface: Option<string>, start: int, wan: bool)
    requires AllFit(s.samples, v, f, week, start) && (wan ==> StoreSound(s))
    ensures ShowUsed(RawRows(s, v, end, iface, f, week), wan, start)
         == Basis(s.samples, ByTime(v, end, iface, start), wan)
  {
    var rows := RawRows(s, v, end, iface, f, week);
    if wan {
      RawSound(s, v, end, iface, f, week);
    }
    ShowUsedIsBasis(rows, |rows|, wan, start);
    RawColumn(s, v, f, week, end, iface, start, Rx);
    RawColumn(s, v, f, week, end, iface, start, Tx);
    RawColumn(s, v, f, week, end, iface, start, LanRx);
    RawColumn(s, v, f, week, end, iface, start, LanTx);
  }

  // ---------- the law ----------

  /** In a lossless state, by column and for any selection: folded + pending == sampled + expired. */
  lemma FoldedColumns(l: Ledger, w: Where, c: Column)
    requires NoRowMissing(l) && l.lost == []
    ensures ColumnSum(l.folded, w, c) + ColumnSum(Pending(l.store), w, c)
         == ColumnSum(l.store.samples, w, c) + ColumnSum(l.expired, w, c)
  {
    var pending, settled := Pending(l.store), Settled(l.store);
    ColumnPermutation(l.folded, settled + l.expired, w, c);
    ColumnAppend(settled, l.expired, w, c);
    KeepPartitions(l.store.samples, NewerThan(l.store.marker));
    ColumnPermutation(l.store.samples, pending + settled, w, c);
    ColumnAppend(pending, settled, w, c);
  }

  lemma FoldedBasis(l: Ledger, w: Where, wan: bool)
    requires NoRowMissing(l) && l.lost == []
    ensures Basis(l.folded, w, wan) + Basis(Pending(l.store), w, wan)
         == Basis(l.store.samples, w, wan) + Basis(l.expired, w, wan)
  {
    FoldedColumns(l, w, Rx);
    FoldedColumns(l, w, Tx);
    FoldedColumns(l, w, LanRx);
    FoldedColumns(l, w, LanTx);
  }

  /** The rows that make the two computations differ: `show` misses the pending, `check_budget` the expired. */
  function Drift(l: Ledger, rolled: seq<Row>, w: Where, wan: bool): int {
    if rolled == [] then 0 else Basis(l.expired, w, wan) - Basis(Pending(l.store), w, wan)
  }

  /** The selection behind what is on display. */
  function OnBar(rolled: seq<Row>, byBucket: Where, byTime: Where): Where {
    if rolled == [] then byTime else byBucket
  }

  /** In every state the bar is the folded samples on display by their bucket, or the raw ones on display by time. */
  lemma BarIs(
    l: Ledger, v: View, f: Floors, week: int -> int, end: int, iface: Option<string>, start: int, wan: bool)
    requires Inv(l, f) && !v.Hours? && (wan ==> StoreSound(l.store))
    requires AllFit(l.folded, v, f, week, start) && AllFit(l.store.samples, v, f, week, start)
    ensures ShowUsed(Displayed(l.store, v, end, iface, f, week), wan, start)
         == if RolledRows(l.store, v, end, iface, week) == []
            then Basis(l.store.samples, ByTime(v, end, iface, start), wan)
            else Basis(l.folded, ByBucket(v, f, end, iface, start), wan)
  {
    if RolledRows(l.store, v, end, iface, week) == [] {
      RawUsed(l.store, v, f, week, end, iface, start, wan);
    } else {
      RolledUsed(l.store, l.folded, v, f, week, end, iface, start, wan);
    }
  }

  /** In every lossless state it is the samples that are on display, by their bucket or time, plus the drift. */
  lemma UsedLaw(
    l: Ledger, v: View, f: Floors, week: int -> int, end: int, iface: Option<string>, start: int, wan: bool)
    requires Inv(l, f) && l.lost == [] && !v.Hours? && (wan ==> StoreSound(l.store))
    requires AllFit(l.folded, v, f, week, start) && AllFit(l.store.samples, v, f, week, start)
    ensures var rolled := RolledRows(l.store, v, end, iface, week);
            var w := OnBar(rolled, ByBucket(v, f, end, iface, start), ByTime(v, end, iface, start));
            ShowUsed(Displayed(l.store, v, end, iface, f, week), wan, start)
            == Basis(l.store.samples, w, wan) + Drift(l, rolled, w, wan)
  {
    BarIs(l, v, f, week, end, iface, start, wan);
    FoldedBasis(l, ByBucket(v, f, end, iface, start), wan);
  }

  // ---------- budget windows in UTC ----------

  function ViewOf(p: Period): View {
    match p
    case Day => Days
    case Week => Weeks
    case Month => Months
  }

  /** The floor of the table that the period's view reads. */
  function TableFloor(p: Period, t: int): int {
    if p.Month? then FloorMonth(t) else FloorDay(t)
  }

  function LongestDays(p: Period): int {
    match p
    case Day => 1
    case Week => 7
    case Month => 31
  }

  lemma StartIsFloor(p: Period, s: int, t: int)
    requires s <= t
    ensures Start(p, s) <= Start(p, t) <= t && Start(p, Start(p, t)) == Start(p, t)
  {
    match p
    case Day => DayIsFloor(s, t);
    case Week => WeekIsFloor(s, t);
    case Month => MonthIsFloor(s, t);
  }

  lemma StartReaches(p: Period, now: int)
    ensures Start(p, now) > now - LongestDays(p) * DAY
  {
    match p
    case Day => DayByDivision(now);
    case Week => WeekContains(now);
    case Month => MonthContains(now);
  }

  lemma TableFloorIsFloor(p: Period, s: int, t: int)
    requires s <= t
    ensures TableFloor(p, s) <= TableFloor(p, t) <= t
  {
    if p.Month? {
      MonthIsFloor(s, t);
    } else {
      DayIsFloor(s, t);
    }
  }

  /** Table buckets lie within windows. */
  lemma StartOfBucket(p: Period, t: int)
    ensures Start(p, TableFloor(p, t)) == Start(p, t)
  {
    match p
    case Day => DayIsFloor(t, t);
    case Week => FloorsNest(t);
    case Month => MonthIsFloor(t, t);
  }

  /** A bucket is in the current window exactly when its samples are. */
  lemma InWindow(p: Period, t: int, now: int)
    ensures Start(p, t) >= Start(p, now) <==> t >= Start(p, now)
    ensures TableFloor(p, t) >= Start(p, now) <==> t >= Start(p, now)
  {
    var start := Start(p, now);
    StartIsFloor(p, now, now);
    StartIsFloor(p, t, t);
    TableFloorIsFloor(p, t, t);
    if t >= start {
      StartIsFloor(p, start, t);
      StartOfBucket(p, t);
      StartIsFloor(p, TableFloor(p, t), TableFloor(p, t));
    }
  }

  lemma UtcBuckets(p: Period, t: int)
    ensures FloorFor(ViewOf(p), Utc())(t) == TableFloor(p, t)
    ensures var b := TableFloor(p, t); ShownBucket(ViewOf(p), UtcWeek(), b) == if p.Week? then Start(p, b) else b
  {
  }

  lemma UtcFits(p: Period, t: int, now: int)
    ensures Fits(t, ViewOf(p), Utc(), UtcWeek(), Start(p, now))
  {
    UtcBuckets(p, t);
    InWindow(p, t, now);
    StartOfBucket(p, t);
  }

  lemma UtcAllFit(rows: seq<Row>, p: Period, now: int)
    ensures AllFit(rows, ViewOf(p), Utc(), UtcWeek(), Start(p, now))
  {
    forall i | 0 <= i < |rows| ensures Fits(rows[i].ts, ViewOf(p), Utc(), UtcWeek(), Start(p, now)) {
      UtcFits(p, rows[i].ts, now);
    }
  }

  lemma UntilOf(rows: seq<Row>, all: seq<Row>, now: int)
    requires multiset(rows) <= multiset(all) && Until(all, now)
    ensures Until(rows, now)
  {
    forall i | 0 <= i < |rows| ensures rows[i].ts <= now {
      assert rows[i] in multiset(rows);
      assert rows[i] in multiset(all);
      assert rows[i] in all;
    }
  }

  /** What holds of every inserted row holds of the stored, pending and expired ones. */
  lemma StoredUntil(l: Ledger, now: int)
    requires NoRowMissing(l) && l.lost == [] && Until(l.inserted, now)
    ensures Until(l.store.samples, now) && Until(Pending(l.store), now) && Until(l.expired, now)
  {
    KeepPartitions(l.store.samples, NewerThan(l.store.marker));
    UntilOf(l.store.samples, l.inserted, now);
    UntilOf(Pending(l.store), l.inserted, now);
    UntilOf(l.expired, l.inserted, now);
  }

  /** What the budget bar of `show` says in state `l` at time `now`, for a range that ends at `end`. */
  ghost function ShowSays(l: Ledger, p: Period, now: int, end: int, iface: Option<string>, wan: bool): int {
    ShowUsed(Displayed(l.store, ViewOf(p), end, iface, Utc(), UtcWeek()), wan, Start(p, now))
  }

  function DaemonSays(l: Ledger, p: Period, now: int, wan: bool): int {
    CheckUsed(l.store.samples, wan, Start(p, now))
  }

  ghost predicate InsertsSound(steps: seq<Step>) {
    forall i :: 0 <= i < |steps| && steps[i].Insert? ==> AllSound(steps[i].rows)
  }

  ghost function RolledAt(l: Ledger, p: Period, end: int, iface: Option<string>): seq<Row> {
    RolledRows(l.store, ViewOf(p), end, iface, UtcWeek())
  }

  ghost function BarAt(l: Ledger, p: Period, now: int, end: int, iface: Option<string>): Where {
    OnBar(RolledAt(l, p, end, iface), ByBucket(ViewOf(p), Utc(), end, iface, Start(p, now)),
          ByTime(ViewOf(p), end, iface, Start(p, now)))
  }

  /**
    The budget bar in general, for one interface or all, a range that ends at any time, day,
    week and month budgets and both bases: it is what is sampled of the selection on
    display, plus expired and less pending bytes of it.
   */
  lemma BarLaw(steps: seq<Step>, p: Period, now: int, end: int, iface: Option<string>, wan: bool)
    requires Run(steps, Utc()).lost == [] && (wan ==> InsertsSound(steps))
    ensures var l := Run(steps, Utc());
            var w := BarAt(l, p, now, end, iface);
            ShowSays(l, p, now, end, iface, wan)
            == Basis(l.store.samples, w, wan) + Drift(l, RolledAt(l, p, end, iface), w, wan)
  {
    var l := Run(steps, Utc());
    RunKeepsInv(steps, |steps|, Utc());
    if wan {
      RunSound(steps, |steps|, Utc());
    }
    UtcAllFit(l.folded, p, now);
    UtcAllFit(l.store.samples, p, now);
    UsedLaw(l, ViewOf(p), Utc(), UtcWeek(), end, iface, Start(p, now), wan);
  }

  // ---------- the bar of the present moment ----------

  /** Bytes of the window, of one interface or of all. */
  function WindowOf(iface: Option<string>, start: int): Where {
    if iface.Some? then Both(OnIface(iface.value), Window(start)) else Window(start)
  }

  lemma WindowOfHolds(x: Key, iface: Option<string>, start: int)
    ensures WindowOf(iface, start).Holds(x) <==> x.ts >= start && (iface.Some? ==> x.iface == iface.value)
  {
    WindowHolds(x, start);
    if iface.Some? {
      assert OnIface(iface.value).Holds(x) <==> x.iface == iface.value;
    }
  }

  lemma OnBarHolds(x: Key, v: View, f: Floors, end: int, iface: Option<string>, start: int)
    requires x.ts >= start ==> end - Reach(v) <= FloorFor(v, f)(x.ts) <= x.ts <= end
    ensures ByBucket(v, f, end, iface, start).Holds(x) <==> WindowOf(iface, start).Holds(x)
    ensures ByTime(v, end, iface, start).Holds(x) <==> WindowOf(iface, start).Holds(x)
  {
    WindowHolds(x, start);
    WindowOfHolds(x, iface, start);
    WantedHolds(x, end - Reach(v), end + 1, iface);
    WantedHolds(By(FloorFor(v, f)).Of(x), end - Reach(v), end + 1, iface);
  }

  lemma UtcInReach(p: Period, t: int, now: int)
    requires Start(p, now) <= t <= now
    ensures now - Reach(ViewOf(p)) <= FloorFor(ViewOf(p), Utc())(t) <= t
  {
    UtcBuckets(p, t);
    InWindow(p, t, now);
    StartReaches(p, now);
    TableFloorIsFloor(p, t, t);
  }

  /** Up to the present the bar has the whole window. */
  lemma NowOnBar(l: Ledger, rows: seq<Row>, p: Period, now: int, iface: Option<string>)
    requires Until(rows, now)
    ensures SameSelection(rows, BarAt(l, p, now, now, iface), WindowOf(iface, Start(p, now)))
  {
    forall i | 0 <= i < |rows|
      ensures BarAt(l, p, now, now, iface).Holds(rows[i].Id()) <==> WindowOf(iface, Start(p, now)).Holds(rows[i].Id())
    {
      if rows[i].ts >= Start(p, now) {
        UtcInReach(p, rows[i].ts, now);
      }
      OnBarHolds(rows[i].Id(), ViewOf(p), Utc(), now, iface, Start(p, now));
    }
    SameSelectionIs(rows, BarAt(l, p, now, now, iface), WindowOf(iface, Start(p, now)));
  }

  lemma BasisCongruent(rows: seq<Row>, p: Where, q: Where, wan: bool)
    requires SameSelection(rows, p, q)
    ensures Basis(rows, p, wan) == Basis(rows, q, wan)
  {
    SameColumn(rows, p, q, Rx);
    SameColumn(rows, p, q, Tx);
    SameColumn(rows, p, q, LanRx);
    SameColumn(rows, p, q, LanTx);
  }

  lemma NowBasis(l: Ledger, rows: seq<Row>, p: Period, now: int, iface: Option<string>, wan: bool)
    requires Until(rows, now)
    ensures Basis(rows, BarAt(l, p, now, now, iface), wan) == Basis(rows, WindowOf(iface, Start(p, now)), wan)
  {
    NowOnBar(l, rows, p, now, iface);
    BasisCongruent(rows, BarAt(l, p, now, now, iface), WindowOf(iface, Start(p, now)), wan);
  }

  ghost function DriftAt(l: Ledger, p: Period, now: int, iface: Option<string>, wan: bool): int {
    Drift(l, RolledAt(l, p, now, iface), WindowOf(iface, Start(p, now)), wan)
  }

  /**
    At the present moment, in every lossless run: the bar of an interface has the bytes of
    the window that this interface alone carried, plus the drift of those.
   */
  lemma InterfaceBar(steps: seq<Step>, p: Period, now: int, iface: Option<string>, wan: bool)
    requires Run(steps, Utc()).lost == [] && Until(Run(steps, Utc()).inserted, now)
    requires wan ==> InsertsSound(steps)
    ensures var l := Run(steps, Utc());
            ShowSays(l, p, now, now, iface, wan)
            == Basis(l.store.samples, WindowOf(iface, Start(p, now)), wan) + DriftAt(l, p, now, iface, wan)
  {
    var l := Run(steps, Utc());
    RunKeepsInv(steps, |steps|, Utc());
    StoredUntil(l, now);
    BarLaw(steps, p, now, now, iface, wan);
    NowBasis(l, l.store.samples, p, now, iface, wan);
    NowBasis(l, Pending(l.store), p, now, iface, wan);
    NowBasis(l, l.expired, p, now, iface, wan);
  }

  /**
    So for all interfaces `show` displays what the daemon counts, plus expired and less
    pending bytes of the window.
   */
  lemma BudgetsAgreeUpToDrift(steps: seq<Step>, p: Period, now: int, wan: bool)
    requires Run(steps, Utc()).lost == [] && Until(Run(steps, Utc()).inserted, now)
    requires wan ==> InsertsSound(steps)
    ensures var l := Run(steps, Utc());
            ShowSays(l, p, now, now, None, wan) == DaemonSays(l, p, now, wan) + DriftAt(l, p, now, None, wan)
  {
    if wan {
      RunSound(steps, |steps|, Utc());
    }
    InterfaceBar(steps, p, now, None, wan);
    CheckUsedIsBasis(Run(steps, Utc()).store.samples, wan, Start(p, now));
  }

  // ---------- the bar of an earlier range ----------

  lemma OffBar(x: Key, v: View, f: Floors, end: int, iface: Option<string>, start: int)
    requires end < start && (FloorFor(v, f)(x.ts) >= start <==> x.ts >= start)
    ensures !ByBucket(v, f, end, iface, start).Holds(x) && !ByTime(v, end, iface, start).Holds(x)
  {
    WindowHolds(x, start);
    WantedHolds(x, end - Reach(v), end + 1, iface);
    WantedHolds(By(FloorFor(v, f)).Of(x), end - Reach(v), end + 1, iface);
  }

  lemma EarlierHolds(x: Key, p: Period, now: int, end: int, iface: Option<string>)
    requires end < Start(p, now)
    ensures !ByBucket(ViewOf(p), Utc(), end, iface, Start(p, now)).Holds(x)
    ensures !ByTime(ViewOf(p), end, iface, Start(p, now)).Holds(x)
  {
    UtcBuckets(p, x.ts);
    InWindow(p, x.ts, now);
    OffBar(x, ViewOf(p), Utc(), end, iface, Start(p, now));
  }

  lemma NoBasis(rows: seq<Row>, w: Where, wan: bool)
    requires forall i :: 0 <= i < |rows| ==> !w.Holds(rows[i].Id())
    ensures Basis(rows, w, wan) == 0
  {
    ColumnOfNone(rows, |rows|, w, Rx);
    ColumnOfNone(rows, |rows|, w, Tx);
    ColumnOfNone(rows, |rows|, w, LanRx);
    ColumnOfNone(rows, |rows|, w, LanTx);
  }

  lemma EarlierBasis(rows: seq<Row>, p: Period, now: int, end: int, iface: Option<string>, wan: bool)
    requires end < Start(p, now)
    ensures Basis(rows, ByBucket(ViewOf(p), Utc(), end, iface, Start(p, now)), wan) == 0
    ensures Basis(rows, ByTime(ViewOf(p), end, iface, Start(p, now)), wan) == 0
  {
    forall i | 0 <= i < |rows|
      ensures !ByBucket(ViewOf(p), Utc(), end, iface, Start(p, now)).Holds(rows[i].Id())
      ensures !ByTime(ViewOf(p), end, iface, Start(p, now)).Holds(rows[i].Id())
    {
      EarlierHolds(rows[i].Id(), p, now, end, iface);
    }
    NoBasis(rows, ByBucket(ViewOf(p), Utc(), end, iface, Start(p, now)), wan);
    NoBasis(rows, ByTime(ViewOf(p), end, iface, Start(p, now)), wan);
  }

  /**
    The window is always the current one: in every run, a range that ends before it has an
    empty bar, whatever is on display.
   */
  lemma EarlierBarIsEmpty(steps: seq<Step>, p: Period, now: int, end: int, iface: Option<string>, wan: bool)
    requires (wan ==> InsertsSound(steps)) && end < Start(p, now)
    ensures ShowSays(Run(steps, Utc()), p, now, end, iface, wan) == 0
  {
    var l := Run(steps, Utc());
    RunKeepsInv(steps, |steps|, Utc());
    if wan {
      RunSound(steps, |steps|, Utc());
    }
    UtcAllFit(l.folded, p, now);
    UtcAllFit(l.store.samples, p, now);
    BarIs(l, ViewOf(p), Utc(), UtcWeek(), end, iface, Start(p, now), wan);
    EarlierBasis(l.store.samples, p, now, end, iface, wan);
    EarlierBasis(l.folded, p, now, end, iface, wan);
  }

  // ---------- the daemon never overcounts ----------

  /** The samples are among the inserted rows, and `rest` are the others. */
  ghost predicate Remain(l: Ledger, rest: seq<Row>) {
    AllSound(l.store.samples) && AllSound(rest) && multiset(l.inserted) == multiset(l.store.samples) + multiset(rest)
  }

  lemma InsertOneRemains(l: Ledger, r: Row, rest: seq<Row>) returns (more: seq<Row>)
    requires Remain(l, rest) && r.bytes.Sound()
    ensures Remain(InsertOne(l, r), more)
  {
    var same := WithId(r.Id());
    more := rest + Keep(l.store.samples, same);
    KeepPartitions(l.store.samples, same);
    KeepSound(l.store.samples, same);
    KeepSound(l.store.samples, Not(same));
  }

  lemma {:induction false} InsertRemains(l: Ledger, rows: seq<Row>, n: nat, rest: seq<Row>) returns (more: seq<Row>)
    requires n <= |rows| && Remain(l, rest) && AllSound(rows)
    ensures Remain(InsertTo(l, rows, n), more)
  {
    if n == 0 {
      more := rest;
    } else {
      more := InsertRemains(l, rows, n - 1, rest);
      more := InsertOneRemains(InsertTo(l, rows, n - 1), rows[n - 1], more);
    }
  }

  lemma PruneRemains(l: Ledger, cutRaw: int, cutHour: int, f: Floors, rest: seq<Row>) returns (more: seq<Row>)
    requires Remain(l, rest)
    ensures Remain(Next(l, Prune(cutRaw, cutHour), f), more)
  {
    more := rest + Keep(l.store.samples, Before(cutRaw));
    KeepPartitions(l.store.samples, Before(cutRaw));
    KeepSound(l.store.samples, Before(cutRaw));
    KeepSound(l.store.samples, Not(Before(cutRaw)));
  }

  /** In every run, with losses or without, the samples are some of the inserted rows. */
  lemma {:induction false} RunRemains(steps: seq<Step>, n: nat, f: Floors) returns (rest: seq<Row>)
    requires n <= |steps| && InsertsSound(steps)
    ensures Remain(RunTo(steps, n, f), rest)
  {
    if n == 0 {
      rest := [];
    } else {
      rest := RunRemains(steps, n - 1, f);
      match steps[n - 1]
      case Insert(rows) => rest := InsertRemains(RunTo(steps, n - 1, f), rows, |rows|, rest);
      case Prune(cutRaw, cutHour) => rest := PruneRemains(RunTo(steps, n - 1, f), cutRaw, cutHour, f, rest);
      case _ =>
    }
  }

  lemma RemainColumns(l: Ledger, rest: seq<Row>, p: Where, c: Column)
    requires Remain(l, rest)
    ensures ColumnSum(l.inserted, p, c) == ColumnSum(l.store.samples, p, c) + ColumnSum(rest, p, c)
  {
    ColumnPermutation(l.inserted, l.store.samples + rest, p, c);
    ColumnAppend(l.store.samples, rest, p, c);
  }

  lemma RemainBasis(l: Ledger, rest: seq<Row>, p: Where, wan: bool)
    requires Remain(l, rest)
    ensures Basis(l.inserted, p, wan) == Basis(l.store.samples, p, wan) + Basis(rest, p, wan)
    ensures Basis(rest, p, wan) >= 0
  {
    RemainColumns(l, rest, p, Rx);
    RemainColumns(l, rest, p, Tx);
    RemainColumns(l, rest, p, LanRx);
    RemainColumns(l, rest, p, LanTx);
    ColumnsSound(rest, |rest|, p);
  }

  /**
    Whatever rollups, losses and retention did, `check_budget` never counts more than the
    bytes recorded in the window.
   */
  lemma DaemonNeverOvercounts(steps: seq<Step>, p: Period, now: int, wan: bool)
    requires InsertsSound(steps)
    ensures DaemonSays(Run(steps, Utc()), p, now, wan) <= Basis(Run(steps, Utc()).inserted, Window(Start(p, now)), wan)
  {
    var rest := RunRemains(steps, |steps|, Utc());
    CheckUsedIsBasis(Run(steps, Utc()).store.samples, wan, Start(p, now));
    RemainBasis(Run(steps, Utc()), rest, Window(Start(p, now)), wan);
  }

  // ---------- retention and windows ----------

  /** Every cut that retention has made is at least `days` before `now`. */
  ghost predicate CutsBefore(steps: seq<Step>, n: nat, now: int, days: int)
    requires n <= |steps|
  {
    forall i :: 0 <= i < n && steps[i].Prune? ==> steps[i].cutRaw <= now - days * DAY
  }

  lemma {:induction false} ExpiredAreOld(steps: seq<Step>, n: nat, f: Floors, now: int, days: int)
    requires n <= |steps| && CutsBefore(steps, n, now, days)
    ensures forall i :: 0 <= i < |RunTo(steps, n, f).expired| ==> RunTo(steps, n, f).expired[i].ts < now - days * DAY
  {
    if n > 0 {
      var l := RunTo(steps, n - 1, f);
      ExpiredAreOld(steps, n - 1, f, now, days);
      match steps[n - 1]
      case Insert(rows) => InsertLeavesRollups(l, rows, |rows|);
      case Prune(cutRaw, _) => KeepSelects(Settled(l.store), Before(cutRaw));
      case _ =>
    }
  }

  lemma NoneInWindow(rows: seq<Row>, start: int, wan: bool)
    requires forall i :: 0 <= i < |rows| ==> rows[i].ts < start
    ensures Basis(rows, Window(start), wan) == 0
  {
    forall i | 0 <= i < |rows| ensures !Window(start).Holds(rows[i].Id()) {
      WindowHolds(rows[i].Id(), start);
    }
    NoBasis(rows, Window(start), wan);
  }

  lemma ExpiredOutOfWindow(steps: seq<Step>, p: Period, now: int, days: int, wan: bool)
    requires days >= LongestDays(p) && CutsBefore(steps, |steps|, now, days)
    ensures Basis(Run(steps, Utc()).expired, Window(Start(p, now)), wan) == 0
  {
    ExpiredAreOld(steps, |steps|, Utc(), now, days);
    StartReaches(p, now);
    NoneInWindow(Run(steps, Utc()).expired, Start(p, now), wan);
  }

  lemma NoDrift(l: Ledger, p: Period, now: int, wan: bool)
    requires Pending(l.store) == [] && Basis(l.expired, Window(Start(p, now)), wan) == 0
    ensures DriftAt(l, p, now, None, wan) == 0
  {
    NoneInWindow([], Start(p, now), wan);
  }

  /** With current rollups and retention no shorter than the longest window, the two agree. */
  lemma BudgetsAgree(steps: seq<Step>, p: Period, now: int, days: int, wan: bool)
    requires Run(steps, Utc()).lost == [] && Until(Run(steps, Utc()).inserted, now)
    requires wan ==> InsertsSound(steps)
    requires Pending(Run(steps, Utc()).store) == []
    requires days >= LongestDays(p) && CutsBefore(steps, |steps|, now, days)
    ensures ShowSays(Run(steps, Utc()), p, now, now, None, wan) == DaemonSays(Run(steps, Utc()), p, now, wan)
  {
    BudgetsAgreeUpToDrift(steps, p, now, wan);
    ExpiredOutOfWindow(steps, p, now, days, wan);
    NoDrift(Run(steps, Utc()), p, now, wan);
  }

  lemma InsertedWindow(l: Ledger, start: int, c: Column)
    requires NoRowMissing(l) && l.lost == []
    ensures ColumnSum(l.inserted, Window(start), c)
         == ColumnSum(l.store.samples, Window(start), c) + ColumnSum(l.expired, Window(start), c)
  {
    SharedSums(l, Window(start), c);
    FoldedColumns(l, Window(start), c);
  }

  lemma InsertedBasis(l: Ledger, start: int, wan: bool)
    requires NoRowMissing(l) && l.lost == []
    ensures Basis(l.inserted, Window(start), wan)
         == Basis(l.store.samples, Window(start), wan) + Basis(l.expired, Window(start), wan)
  {
    InsertedWindow(l, start, Rx);
    InsertedWindow(l, start, Tx);
    InsertedWindow(l, start, LanRx);
    InsertedWindow(l, start, LanTx);
  }

  /** With that retention the daemon compares the budget with every byte ever recorded in the window. */
  lemma DaemonCountsWindow(steps: seq<Step>, p: Period, now: int, days: int, wan: bool)
    requires Run(steps, Utc()).lost == [] && (wan ==> InsertsSound(steps))
    requires days >= LongestDays(p) && CutsBefore(steps, |steps|, now, days)
    ensures DaemonSays(Run(steps, Utc()), p, now, wan) == Basis(Run(steps, Utc()).inserted, Window(Start(p, now)), wan)
  {
    RunKeepsInv(steps, |steps|, Utc());
    if wan {
      RunSound(steps, |steps|, Utc());
    }
    CheckUsedIsBasis(Run(steps, Utc()).store.samples, wan, Start(p, now));
    InsertedBasis(Run(steps, Utc()), Start(p, now), wan);
    ExpiredOutOfWindow(steps, p, now, days, wan);
  }

  /** A moment in the last second of a longest window. */
  function LastSecond(p: Period): int {
    match p
    case Day => DAY - 1
    case Week => 11 * DAY - 1
    case Month => 31 * DAY - 1
  }

  lemma EndOfJanuary(t: int)
    requires t == 31 * DAY - 1
    ensures FloorMonth(t) == 0
  {
    DayNumberOfDate(Date(1970, 1, 31));
    assert DayAt(t) == DayNumber(Date(1970, 1, 31));
  }

  lemma EndOfWeek(t: int)
    requires t == 11 * DAY - 1
    ensures FloorWeek(t) == 4 * DAY
  {
    WeekByDivision(t);
    WeekQuotient(t, 1);
  }

  lemma EndOfDay(t: int)
    requires t == DAY - 1
    ensures FloorDay(t) == 0
  {
    DayByDivision(t);
    DayQuotient(t, 0);
  }

  lemma LastSecondStart(p: Period, t: int)
    requires t == LastSecond(p)
    ensures Start(p, t) == t + 1 - LongestDays(p) * DAY
  {
    match p
    case Day => EndOfDay(t);
    case Week => EndOfWeek(t);
    case Month => EndOfJanuary(t);
  }

  /** Raw retention covers the current window at all times exactly if it covers the longest one: 31 days for months. */
  lemma RetentionCoversWindowIff(p: Period, days: int)
    ensures (forall now :: now - days * DAY <= Start(p, now)) <==> days >= LongestDays(p)
  {
    forall now | days >= LongestDays(p) ensures now - days * DAY <= Start(p, now) {
      StartReaches(p, now);
    }
    LastSecondStart(p, LastSecond(p));
    if forall now :: now - days * DAY <= Start(p, now) {
      assert LastSecond(p) - days * DAY <= Start(p, LastSecond(p));
    }
  }

  // ---------- what a short retention does to the daemon's sum ----------

  function OneByte(ts: int): Row {
    Row(ts, "eth0", Bytes(Flow(1, 0), NO_FLOW))
  }

  /** A byte recorded at `ts`, rolled up, and pruned by a cut at `cut`. */
  function PrunedByte(ts: int, cut: int): seq<Step> {
    [Insert([OneByte(ts)]), RollUp, Prune(cut, 0)]
  }

  lemma OneInserted(r: Row, f: Floors)
    ensures var l := Next(EMPTY, Insert([r]), f);
            && l.store.samples == [r] && l.store.marker == None && l.inserted == [r] && l.lost == [] && l.expired == []
  {
    var none := EMPTY.store;
    assert Pending(none) == [] && Keep(Pending(none), WithId(r.Id())) == [];
    assert NewerThan(None).Holds(r.Id());
    assert InsertTo(EMPTY, [r], 1) == InsertOne(InsertTo(EMPTY, [r], 0), r);
  }

  lemma OneRolledUp(l: Ledger, r: Row, f: Floors)
    requires l.store.samples == [r] && l.store.marker == None && l.lost == [] && l.expired == []
    ensures var n := Next(l, RollUp, f);
            && n.store.samples == [r] && n.store.marker == Some(r.ts)
            && n.inserted == l.inserted && n.lost == [] && n.expired == []
  {
    KeepAll([r], NewerThan(None));
  }

  lemma OnePruned(l: Ledger, r: Row, cut: int, f: Floors)
    requires l.store.samples == [r] && l.store.marker == Some(r.ts) && l.lost == [] && r.ts < cut
    ensures var n := Next(l, Prune(cut, 0), f); n.store.samples == [] && n.inserted == l.inserted && n.lost == []
  {
    assert Before(cut).Holds(r.Id()) && !NewerThan(Some(r.ts)).Holds(r.Id());
    KeepNone([r], Not(Before(cut)));
    KeepNone([r], NewerThan(Some(r.ts)));
  }

  lemma PrunedByteState(ts: int, cut: int, f: Floors)
    requires ts < cut
    ensures var l := Run(PrunedByte(ts, cut), f); l.store.samples == [] && l.inserted == [OneByte(ts)] && l.lost == []
  {
    var steps, r := PrunedByte(ts, cut), OneByte(ts);
    assert RunTo(steps, 0, f) == EMPTY;
    assert RunTo(steps, 1, f) == Next(RunTo(steps, 0, f), steps[0], f);
    OneInserted(r, f);
    assert RunTo(steps, 2, f) == Next(RunTo(steps, 1, f), steps[1], f);
    OneRolledUp(RunTo(steps, 1, f), r, f);
    OnePruned(RunTo(steps, 2, f), r, cut, f);
  }

  lemma OneByteCounts(ts: int, start: int, wan: bool)
    requires ts >= start
    ensures Basis([OneByte(ts)], Window(start), wan) == 1 && CheckUsed([], wan, start) == 0
  {
    var rows := [OneByte(ts)];
    WindowHolds(rows[0].Id(), start);
    assert ColumnTo(rows, 1, Window(start), Rx) == 1 && ColumnTo(rows, 1, Window(start), Tx) == 0;
    assert ColumnTo(rows, 1, Window(start), LanRx) == 0 && ColumnTo(rows, 1, Window(start), LanTx) == 0;
  }

  /** A lossless run up to `now` whose retention always kept `days` days. */
  ghost predicate Retained(steps: seq<Step>, now: int, days: int, wan: bool) {
    Run(steps, Utc()).lost == [] && (wan ==> InsertsSound(steps)) && CutsBefore(steps, |steps|, now, days)
  }

  /** What `check_budget` sums is every byte recorded in the window. */
  ghost predicate CountsWindow(steps: seq<Step>, p: Period, now: int, wan: bool) {
    DaemonSays(Run(steps, Utc()), p, now, wan) == Basis(Run(steps, Utc()).inserted, Window(Start(p, now)), wan)
  }

  /** A retention shorter than the longest window cuts into that window in its last second. */
  lemma CutInWindow(p: Period, days: int, now: int)
    requires days < LongestDays(p) && now == LastSecond(p)
    ensures Start(p, now) < now - days * DAY && Start(p, now) <= now
  {
    LastSecondStart(p, now);
  }

  /** The run that misses it, whatever the window. */
  lemma PrunedByteMissed(start: int, now: int, days: int, wan: bool)
    requires start < now - days * DAY && start <= now
    ensures var steps := PrunedByte(start, now - days * DAY);
            && Retained(steps, now, days, wan) && Until(Run(steps, Utc()).inserted, now)
            && CheckUsed(Run(steps, Utc()).store.samples, wan, start) == 0
            && Basis(Run(steps, Utc()).inserted, Window(start), wan) == 1
  {
    PrunedByteState(start, now - days * DAY, Utc());
    OneByteCounts(start, start, wan);
  }

  /** Whenever the cut lies in the window, a byte recorded when the window starts is not counted any more. */
  lemma ShortRetentionMissesByte(p: Period, now: int, days: int, wan: bool)
    requires Start(p, now) < now - days * DAY && Start(p, now) <= now
    ensures var steps := PrunedByte(Start(p, now), now - days * DAY);
            && Retained(steps, now, days, wan) && Until(Run(steps, Utc()).inserted, now)
            && DaemonSays(Run(steps, Utc()), p, now, wan) == 0
            && Basis(Run(steps, Utc()).inserted, Window(Start(p, now)), wan) == 1
  {
    PrunedByteMissed(Start(p, now), now, days, wan);
  }

  /**
    `check_budget` counts every byte recorded in the window, in every such run and at every
    moment, exactly if retention keeps the longest window: 31 days for months, not the
    default 30.
   */
  lemma DaemonCountsWindowIff(p: Period, days: int, wan: bool)
    ensures (forall steps, now :: Retained(steps, now, days, wan) ==> CountsWindow(steps, p, now, wan))
       <==> days >= LongestDays(p)
  {
    if days >= LongestDays(p) {
      forall steps, now | Retained(steps, now, days, wan) ensures CountsWindow(steps, p, now, wan) {
        DaemonCountsWindow(steps, p, now, days, wan);
      }
    } else {
      var now := LastSecond(p);
      var steps := PrunedByte(Start(p, now), now - days * DAY);
      CutInWindow(p, days, now);
      ShortRetentionMissesByte(p, now, days, wan);
      assert Retained(steps, now, days, wan) && !CountsWindow(steps, p, now, wan);
    }
  }
}

/** What is on display, bucket by bucket: which table a view reads, how far back, and what the fallback covers. */
module DisplayBuckets {
  import opened Traffic
  import opened Aggregation
  import opened Listing
  import opened Ledger
  import opened Views
  import opened Fallback
  import opened Show

  ghost predicate HasBucket(rows: seq<Row>, b: int) {
    exists i :: 0 <= i < |rows| && rows[i].ts == b
  }

  /** Some row that `p` selects goes into bucket `b`. */
  ghost predicate GoesInto(rows: seq<Row>, p: Where, g: Projection, b: int) {
    exists i :: 0 <= i < |rows| && p.Holds(rows[i].Id()) && g.floor(rows[i].ts) == b
  }

  lemma ShownComesFrom(shown: seq<Row>, rows: seq<Row>, p: Where, g: Projection, i: nat)
    requires i < |shown| && Ids(shown) == Keys(Keep(rows, p), g)
    ensures GoesInto(rows, p, g, shown[i].ts)
  {
    var kept := Keep(rows, p);
    KeysMembers(kept, |kept|, g);
    IdsHold(shown, |shown|, i);
    var j :| 0 <= j < |kept| && g.Of(kept[j].Id()) == shown[i].Id();
    var k := KeepOrigin(rows, |rows|, p, j);
    assert g.Of(rows[k].Id()).ts == shown[i].ts;
  }

  lemma KeptIsShown(shown: seq<Row>, rows: seq<Row>, p: Where, g: Projection, k: nat)
    requires k < |rows| && p.Holds(rows[k].Id()) && Ids(shown) == Keys(Keep(rows, p), g)
    ensures HasBucket(shown, g.floor(rows[k].ts))
  {
    var kept := Keep(rows, p);
    KeysMembers(kept, |kept|, g);
    var j := KeepFinds(rows, |rows|, p, k);
    var i := ListedAt(shown, |shown|, g.Of(rows[k].Id()));
    assert shown[i].ts == g.floor(rows[k].ts);
  }

  lemma ListedIds(shown: seq<Row>, kept: seq<Row>, g: Projection, name: string)
    requires ListsInOrder(shown, Aggregate(kept, g), name)
    ensures Ids(shown) == Keys(kept, g)
  {
    InOrderLists(shown, Aggregate(kept, g), name);
    ListsKeys(shown, Aggregate(kept, g));
  }

  /** A display of selected rows has exactly the buckets that they go into. */
  lemma ListedBuckets(shown: seq<Row>, rows: seq<Row>, p: Where, g: Projection, name: string, b: int)
    requires ListsInOrder(shown, Aggregate(Keep(rows, p), g), name)
    ensures HasBucket(shown, b) <==> GoesInto(rows, p, g, b)
  {
    ListedIds(shown, Keep(rows, p), g, name);
    if HasBucket(shown, b) {
      var i :| 0 <= i < |shown| && shown[i].ts == b;
      ShownComesFrom(shown, rows, p, g, i);
    }
    if GoesInto(rows, p, g, b) {
      var k :| 0 <= k < |rows| && p.Holds(rows[k].Id()) && g.floor(rows[k].ts) == b;
      KeptIsShown(shown, rows, p, g, k);
    }
  }

  lemma QueriedBuckets(
    shown: seq<Row>, table: seq<Row>, from: int, to: int, iface: Option<string>, v: View, week: int -> int, b: int)
    requires shown == Grouped(Query(table, from, to, iface), v, week)
    ensures HasBucket(shown, b) <==> GoesInto(table, Wanted(from, to, iface), Regrouped(Shown(iface), v, week), b)
  {
    QueryAnswers(table, from, to, iface);
    GroupedLists(Query(table, from, to, iface), Keep(table, Wanted(from, to, iface)), Shown(iface), v, week,
                 ShownAs(iface));
    ListedBuckets(shown, table, Wanted(from, to, iface), Regrouped(Shown(iface), v, week), ShownAs(iface), b);
  }

  lemma BucketedBuckets(
    shown: seq<Row>, samples: seq<Row>, floor: int -> int, from: int, to: int, iface: Option<string>, v: View,
    week: int -> int, b: int)
    requires shown == Grouped(Buckets(Query(samples, from, to, iface), floor), v, week)
    ensures HasBucket(shown, b)
       <==> GoesInto(samples, Wanted(from, to, iface), Regrouped(Compose(Shown(iface), By(floor)), v, week), b)
  {
    GroupedRawLists(samples, floor, from, to, iface, v, week);
    ListedBuckets(shown, samples, Wanted(from, to, iface), Regrouped(Compose(Shown(iface), By(floor)), v, week),
                  ShownAs(iface), b);
  }

  /** The moments that a view ending at `end` displays: 24 hours, 30 days, 12 weeks or 365 days back. */
  predicate InView(v: View, end: int, t: int) {
    match v
    case Hours => end - 86400 <= t <= end
    case Days => end - 2592000 <= t <= end
    case Weeks => end - 7257600 <= t <= end
    case Months => end - 31536000 <= t <= end
  }

  lemma WantedInView(x: Key, v: View, end: int, iface: Option<string>)
    ensures Wanted(end - Reach(v), end + 1, iface).Holds(x)
       <==> InView(v, end, x.ts) && (iface.Some? ==> x.iface == iface.value)
  {
    WantedHolds(x, end - Reach(v), end + 1, iface);
  }

  /** Under which bucket a view displays row `t` of the table it reads. */
  function DisplayedAt(v: View, week: int -> int, t: int): int {
    if v.Weeks? then week(t) else t
  }

  /** The hourly view reads the hourly table, the daily and the weekly view the daily one. */
  ghost predicate TableHas(
    s: Store, v: View, end: int, iface: Option<string>, week: int -> int, b: int)
  {
    match v
    case Hours => exists k :: k in s.hourly && Displayable(k, v, end, iface) && k.ts == b
    case Days => exists k :: k in s.daily && Displayable(k, v, end, iface) && k.ts == b
    case Weeks => exists k :: k in s.daily && Displayable(k, v, end, iface) && week(k.ts) == b
    case Months => exists k :: k in s.monthly && Displayable(k, v, end, iface) && k.ts == b
  }

  predicate Displayable(k: Key, v: View, end: int, iface: Option<string>) {
    InView(v, end, k.ts) && (iface.Some? ==> k.iface == iface.value)
  }

  lemma TableGoesInto(t: map<Key, Bytes>, p: Where, g: Projection, b: int)
    ensures GoesInto(ListingOf(t), p, g, b) <==> exists k :: k in t && p.Holds(k) && g.floor(k.ts) == b
  {
    var rows := ListingOf(t);
    ListsKeys(rows, t);
    EntriesAre(rows, |rows|, t);
    if k :| k in t && p.Holds(k) && g.floor(k.ts) == b {
      var i := ListedAt(rows, |rows|, k);
    }
  }

  lemma TableHasIs(s: Store, v: View, end: int, iface: Option<string>, week: int -> int, b: int)
    ensures TableHas(s, v, end, iface, week, b)
       <==> exists k :: k in TableOf(s, v) && Displayable(k, v, end, iface) && DisplayedAt(v, week, k.ts) == b
  {
  }

  lemma RolledGoesInto(s: Store, v: View, end: int, iface: Option<string>, week: int -> int, b: int)
    ensures GoesInto(ListingOf(TableOf(s, v)), Wanted(end - Reach(v), end + 1, iface),
                     Regrouped(Shown(iface), v, week), b)
       <==> TableHas(s, v, end, iface, week, b)
  {
    var p, g := Wanted(end - Reach(v), end + 1, iface), Regrouped(Shown(iface), v, week);
    TableGoesInto(TableOf(s, v), p, g, b);
    TableHasIs(s, v, end, iface, week, b);
    forall k: Key
      ensures (p.Holds(k) <==> Displayable(k, v, end, iface)) && g.floor(k.ts) == DisplayedAt(v, week, k.ts)
    {
      WantedInView(k, v, end, iface);
    }
  }

  /** Rolled rows on display are the buckets of the view's table that start within its range, weeks regrouped. */
  lemma RolledBuckets(s: Store, v: View, end: int, iface: Option<string>, week: int -> int, b: int)
    ensures HasBucket(RolledRows(s, v, end, iface, week), b) <==> TableHas(s, v, end, iface, week, b)
  {
    QueriedBuckets(RolledRows(s, v, end, iface, week), ListingOf(TableOf(s, v)), end - Reach(v), end + 1, iface, v,
                   week, b);
    RolledGoesInto(s, v, end, iface, week, b);
  }

  /** The bucket of a sample in each view. */
  function BucketOf(v: View, f: Floors, week: int -> int, t: int): int {
    match v
    case Hours => f.hour(t)
    case Days => f.day(t)
    case Weeks => week(f.day(t))
    case Months => f.month(t)
  }

  lemma RawGoesInto(s: Store, v: View, end: int, iface: Option<string>, f: Floors, week: int -> int, b: int)
    ensures GoesInto(s.samples, Wanted(end - Reach(v), end + 1, iface),
                     Regrouped(Compose(Shown(iface), By(FloorFor(v, f))), v, week), b)
       <==> exists i :: && 0 <= i < |s.samples| && Displayable(s.samples[i].Id(), v, end, iface)
                        && BucketOf(v, f, week, s.samples[i].ts) == b
  {
    var p, g := Wanted(end - Reach(v), end + 1, iface), Regrouped(Compose(Shown(iface), By(FloorFor(v, f))), v, week);
    forall k: Key
      ensures (p.Holds(k) <==> Displayable(k, v, end, iface)) && g.floor(k.ts) == BucketOf(v, f, week, k.ts)
    {
      WantedInView(k, v, end, iface);
    }
  }

  /** Raw rows on display are the buckets of the samples within the range. */
  lemma RawBuckets(s: Store, v: View, end: int, iface: Option<string>, f: Floors, week: int -> int, b: int)
    ensures HasBucket(RawRows(s, v, end, iface, f, week), b)
       <==> exists i :: && 0 <= i < |s.samples| && Displayable(s.samples[i].Id(), v, end, iface)
                        && BucketOf(v, f, week, s.samples[i].ts) == b
  {
    BucketedBuckets(RawRows(s, v, end, iface, f, week), s.samples, FloorFor(v, f), end - Reach(v), end + 1, iface, v,
                    week, b);
    RawGoesInto(s, v, end, iface, f, week, b);
  }
}

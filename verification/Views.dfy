/**
  What `show` displays is built from two things: range queries over the tables, and
  rows accumulated into the buckets of an ordered map.
 */
module Views {
  import opened Traffic
  import opened Aggregation
  import opened Listing

  // ---------- buckets in an ordered map ----------

  /** Where bucket `b` is, or goes, among the first `n` of ascending buckets. */
  function PlaceTo(out: seq<Row>, n: nat, b: int): (i: nat)
    requires n <= |out|
    ensures i <= n
  {
    if n == 0 || out[n - 1].ts < b then n else PlaceTo(out, n - 1, b)
  }

  /** `m.entry(b).or_insert(..)` followed by the four `+=`: a new bucket takes the interface of its first row. */
  function Added(out: seq<Row>, b: int, r: Row): seq<Row> {
    var i := PlaceTo(out, |out|, b);
    if i < |out| && out[i].ts == b then
      var e := out[i].bytes;
      out[i := Row(b, out[i].iface, Bytes(Flow(e.all.rx + r.bytes.all.rx, e.all.tx + r.bytes.all.tx),
                                          Flow(e.lan.rx + r.bytes.lan.rx, e.lan.tx + r.bytes.lan.tx)))]
    else
      out[..i] + [Row(b, r.iface, r.bytes)] + out[i..]
  }

  function BucketsTo(rows: seq<Row>, n: nat, floor: int -> int): seq<Row>
    requires n <= |rows|
  {
    if n == 0 then [] else Added(BucketsTo(rows, n - 1, floor), floor(rows[n - 1].ts), rows[n - 1])
  }

  function Buckets(rows: seq<Row>, floor: int -> int): seq<Row> {
    BucketsTo(rows, |rows|, floor)
  }

  /** The loop of `bucket_samples` and of `rebucket_week`. */
  method Accumulate(rows: seq<Row>, floor: int -> int) returns (out: seq<Row>)
    ensures out == Buckets(rows, floor)
  {
    out := [];
    for i := 0 to |rows|
      invariant out == BucketsTo(rows, i, floor)
    {
      out := Added(out, floor(rows[i].ts), rows[i]);
    }
  }

  // ---------- buckets are groups ----------

  /** Range queries give every row the same interface: the one asked for, or `_all`. */
  ghost predicate AllOn(rows: seq<Row>, iface: string) {
    forall i :: 0 <= i < |rows| ==> rows[i].iface == iface
  }

  lemma {:induction false} AscendingDistinct(rows: seq<Row>, n: nat)
    requires n <= |rows| && Ascending(rows)
    ensures DistinctTo(rows, n)
    ensures forall k: Key :: k in IdsTo(rows, n) <==> exists i :: 0 <= i < n && rows[i].Id() == k
  {
    if n > 0 {
      AscendingDistinct(rows, n - 1);
      Ascends(rows, |rows|);
    }
  }

  lemma {:induction false} PlaceSplits(out: seq<Row>, n: nat, b: int)
    requires n <= |out| && Ascending(out)
    ensures forall i :: 0 <= i < PlaceTo(out, n, b) ==> out[i].ts < b
    ensures forall i :: PlaceTo(out, n, b) <= i < n ==> out[i].ts >= b
  {
    Ascends(out, |out|);
    if n > 0 && out[n - 1].ts >= b {
      PlaceSplits(out, n - 1, b);
    }
  }

  /** The place of `b`: smaller buckets before it, larger ones after it. */
  lemma PlaceFits(out: seq<Row>, b: int)
    requires Ascending(out)
    ensures var i := PlaceTo(out, |out|, b);
            && (forall j :: 0 <= j < i ==> out[j].ts < b)
            && (forall j :: i <= j < |out| ==> if out[i].ts == b then j == i || out[j].ts > b else out[j].ts > b)
  {
    PlaceSplits(out, |out|, b);
    Ascends(out, |out|);
  }

  lemma AddedAscends(out: seq<Row>, b: int, r: Row)
    requires Ascending(out)
    ensures Ascending(Added(out, b, r))
  {
    PlaceFits(out, b);
    Ascends(out, |out|);
    Ascends(Added(out, b, r), |Added(out, b, r)|);
  }

  /** `u` has the rows of `out` and, at index `n`, its only row for bucket `b`. */
  ghost predicate AddsAt(u: seq<Row>, n: nat, out: seq<Row>, b: int) {
    && n < |u| && u[n].ts == b
    && (forall j :: 0 <= j < |u| && j != n ==> u[j] in out && u[j].ts != b)
    && (forall r :: r in out && r.ts != b ==> r in u)
  }

  lemma AddedAddsAt(out: seq<Row>, b: int, r: Row)
    requires Ascending(out)
    ensures AddsAt(Added(out, b, r), PlaceTo(out, |out|, b), out, b)
  {
    var u, n := Added(out, b, r), PlaceTo(out, |out|, b);
    PlaceFits(out, b);
    forall q | q in out && q.ts != b ensures q in u {
      var j :| 0 <= j < |out| && out[j] == q;
      assert u[if j < n || |u| == |out| then j else j + 1] == q;
    }
  }

  lemma AddsId(u: seq<Row>, n: nat, out: seq<Row>, b: int, iface: string)
    requires AddsAt(u, n, out, b) && Ascending(u) && Ascending(out) && AllOn(out, iface) && AllOn(u, iface)
    ensures Ids(u) == Ids(out) + {Key(b, iface)}
  {
    AscendingDistinct(out, |out|);
    AscendingDistinct(u, |u|);
    assert u[n].Id() == Key(b, iface);
  }

  lemma AddsEntries(u: seq<Row>, n: nat, out: seq<Row>, b: int, t: map<Key, Bytes>, v: map<Key, Bytes>)
    requires AddsAt(u, n, out, b) && EntriesTo(out, |out|, t) && IsEntry(u[n], v)
    requires forall k :: k in t && k.ts != b ==> k in v && v[k] == t[k]
    ensures EntriesTo(u, |u|, v)
  {
    EntriesAre(out, |out|, t);
    EntriesAre(u, |u|, v);
  }

  lemma AddedOn(out: seq<Row>, b: int, r: Row, iface: string)
    requires Ascending(out) && AllOn(out, iface) && r.iface == iface
    ensures AllOn(Added(out, b, r), iface)
  {
  }

  lemma AddedEntry(out: seq<Row>, b: int, r: Row, iface: string, t: map<Key, Bytes>)
    requires Ascending(out) && AllOn(out, iface) && r.iface == iface && Lists(out, t)
    ensures var i := PlaceTo(out, |out|, b);
            i < |Added(out, b, r)| && IsEntry(Added(out, b, r)[i], AddAt(t, Key(b, iface), r.bytes))
  {
    var i := PlaceTo(out, |out|, b);
    PlaceFits(out, b);
    if i < |out| && out[i].ts == b {
      EntriesAre(out, |out|, t);
      assert IsEntry(out[i], t);
    } else {
      AscendingDistinct(out, |out|);
      ListsKeys(out, t);
      assert Key(b, iface) !in Ids(out);
    }
  }

  predicate InOrderTo(out: seq<Row>, n: nat, t: map<Key, Bytes>, iface: string)
    requires n <= |out|
  {
    n == 0 || (InOrderTo(out, n - 1, t, iface)
      && IsEntry(out[n - 1], t) && out[n - 1].iface == iface && (n > 1 ==> out[n - 2].ts < out[n - 1].ts))
  }

  /** `out` has one row per entry of `t`, all on one interface, by ascending time. */
  predicate ListsInOrder(out: seq<Row>, t: map<Key, Bytes>, iface: string) {
    InOrderTo(out, |out|, t, iface) && |out| == |t|
  }

  lemma {:induction false} InOrderIs(out: seq<Row>, n: nat, t: map<Key, Bytes>, iface: string)
    requires n <= |out|
    ensures InOrderTo(out, n, t, iface)
       <==> AscendingTo(out, n) && EntriesTo(out, n, t) && forall i :: 0 <= i < n ==> out[i].iface == iface
  {
    if n > 0 {
      InOrderIs(out, n - 1, t, iface);
    }
  }

  lemma InOrderLists(out: seq<Row>, t: map<Key, Bytes>, iface: string)
    requires ListsInOrder(out, t, iface)
    ensures Ascending(out) && AllOn(out, iface) && Lists(out, t)
  {
    InOrderIs(out, |out|, t, iface);
    AscendingDistinct(out, |out|);
  }

  lemma ListsAreInOrder(out: seq<Row>, t: map<Key, Bytes>, iface: string)
    requires Ascending(out) && AllOn(out, iface) && Lists(out, t)
    ensures ListsInOrder(out, t, iface)
  {
    InOrderIs(out, |out|, t, iface);
  }

  /** There is one such sequence. */
  lemma InOrderUnique(a: seq<Row>, b: seq<Row>, t: map<Key, Bytes>, iface: string)
    requires ListsInOrder(a, t, iface) && ListsInOrder(b, t, iface)
    ensures a == b
  {
    InOrderLists(a, t, iface);
    InOrderLists(b, t, iface);
    SortedListingUnique(a, b, t);
  }

  lemma AddedLists(out: seq<Row>, b: int, r: Row, iface: string, t: map<Key, Bytes>)
    requires ListsInOrder(out, t, iface) && r.iface == iface
    ensures ListsInOrder(Added(out, b, r), AddAt(t, Key(b, iface), r.bytes), iface)
  {
    var u, n := Added(out, b, r), PlaceTo(out, |out|, b);
    InOrderLists(out, t, iface);
    AddedAscends(out, b, r);
    AddedOn(out, b, r, iface);
    AddedAddsAt(out, b, r);
    AddedEntry(out, b, r, iface, t);
    AddsId(u, n, out, b, iface);
    AddsEntries(u, n, out, b, t, AddAt(t, Key(b, iface), r.bytes));
    AscendingDistinct(u, |u|);
    ListsKeys(out, t);
    ListsKeys(u, AddAt(t, Key(b, iface), r.bytes));
    ListsAreInOrder(u, AddAt(t, Key(b, iface), r.bytes), iface);
  }

  /** So far the buckets list the groups. */
  predicate GroupsListed(rows: seq<Row>, n: nat, floor: int -> int, iface: string)
    requires n <= |rows|
  {
    ListsInOrder(BucketsTo(rows, n, floor), AggregateTo(rows, n, By(floor)), iface)
  }

  lemma GroupsListedNext(rows: seq<Row>, n: nat, floor: int -> int, iface: string)
    requires 0 < n <= |rows| && rows[n - 1].iface == iface && GroupsListed(rows, n - 1, floor, iface)
    ensures GroupsListed(rows, n, floor, iface)
  {
    AddedLists(BucketsTo(rows, n - 1, floor), floor(rows[n - 1].ts), rows[n - 1], iface,
               AggregateTo(rows, n - 1, By(floor)));
  }

  lemma NoGroupsListed(rows: seq<Row>, floor: int -> int, iface: string)
    ensures GroupsListed(rows, 0, floor, iface)
  {
    assert |AggregateTo(rows, 0, By(floor))| == 0;
  }

  lemma {:induction false} BucketsListTo(rows: seq<Row>, n: nat, floor: int -> int, iface: string)
    requires n <= |rows| && AllOn(rows, iface)
    ensures GroupsListed(rows, n, floor, iface)
  {
    if n == 0 {
      NoGroupsListed(rows, floor, iface);
    } else {
      BucketsListTo(rows, n - 1, floor, iface);
      GroupsListedNext(rows, n, floor, iface);
    }
  }

  /** On rows of one interface the buckets list the groups, in order. */
  lemma BucketsListGroups(rows: seq<Row>, floor: int -> int, iface: string)
    requires AllOn(rows, iface)
    ensures ListsInOrder(Buckets(rows, floor), Aggregate(rows, By(floor)), iface)
  {
    BucketsListTo(rows, |rows|, floor, iface);
  }

  // ---------- range queries ----------

  function Wanted(from: int, to: int, iface: Option<string>): Where {
    if iface.Some? then Both(Between(from, to), OnIface(iface.value)) else Between(from, to)
  }

  /** One interface as it is, or all of them summed under `_all`. */
  function Shown(iface: Option<string>): Projection {
    Projection(t => t, iface.None?)
  }

  function ShownAs(iface: Option<string>): string {
    if iface.Some? then iface.value else "_all"
  }

  lemma WantedHolds(x: Key, from: int, to: int, iface: Option<string>)
    ensures Wanted(from, to, iface).Holds(x) <==> from <= x.ts < to && (iface.Some? ==> x.iface == iface.value)
  {
    assert Between(from, to).Holds(x) <==> from <= x.ts < to;
    assert iface.Some? ==> (OnIface(iface.value).Holds(x) <==> x.iface == iface.value);
  }

  /** What a query over `table` must deliver. Its answer is unique: `AnswersAgree`. */
  predicate Answers(rows: seq<Row>, table: seq<Row>, from: int, to: int, iface: Option<string>) {
    ListsInOrder(rows, Aggregate(Keep(table, Wanted(from, to, iface)), Shown(iface)), ShownAs(iface))
  }

  lemma AnswersAgree(a: seq<Row>, b: seq<Row>, table: seq<Row>, from: int, to: int, iface: Option<string>)
    requires Answers(a, table, from, to, iface) && Answers(b, table, from, to, iface)
    ensures a == b
  {
    InOrderUnique(a, b, Aggregate(Keep(table, Wanted(from, to, iface)), Shown(iface)), ShownAs(iface));
  }
}

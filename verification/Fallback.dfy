/**
  `show` reads the rolled tables, or buckets raw samples when those have nothing yet.
  The two give the same rows exactly when no sample's bucket straddles the range.
 */
module Fallback {
  import opened Traffic
  import opened Aggregation
  import opened Listing
  import opened Database
  import opened Views

  // ---------- queries, carried out ----------

  function Relabelled(rows: seq<Row>, n: nat): (out: seq<Row>)
    requires n <= |rows|
    ensures |out| == n && forall i :: 0 <= i < n ==> out[i] == Row(rows[i].ts, "_all", rows[i].bytes)
  {
    if n == 0 then [] else Relabelled(rows, n - 1) + [Row(rows[n - 1].ts, "_all", rows[n - 1].bytes)]
  }

  lemma {:induction false} RelabelledColumn(rows: seq<Row>, n: nat, floor: int -> int, k: Key, c: Column)
    requires n <= |rows|
    ensures ColumnTo(Relabelled(rows, |rows|), n, InGroup(Projection(floor, false), k), c)
         == ColumnTo(rows, n, InGroup(Projection(floor, true), k), c)
  {
    if n > 0 {
      RelabelledColumn(rows, n - 1, floor, k, c);
    }
  }

  lemma {:induction false} RelabelledKeys(rows: seq<Row>, n: nat, floor: int -> int)
    requires n <= |rows|
    ensures KeysTo(Relabelled(rows, |rows|), n, Projection(floor, false)) == KeysTo(rows, n, Projection(floor, true))
  {
    if n > 0 {
      RelabelledKeys(rows, n - 1, floor);
    }
  }

  lemma RelabelledGroups(rows: seq<Row>, floor: int -> int)
    ensures Aggregate(Relabelled(rows, |rows|), Projection(floor, false)) == Aggregate(rows, Projection(floor, true))
  {
    var merged := Relabelled(rows, |rows|);
    var t, u := Aggregate(merged, Projection(floor, false)), Aggregate(rows, Projection(floor, true));
    RelabelledKeys(rows, |rows|, floor);
    forall k, c | k in t ensures Get(t, k, c) == Get(u, k, c) {
      GetAggregate(merged, Projection(floor, false), k, c);
      GetAggregate(rows, Projection(floor, true), k, c);
      RelabelledColumn(rows, |rows|, floor, k, c);
    }
    SameTable(t, u);
  }

  lemma KeptOnIface(table: seq<Row>, from: int, to: int, iface: string)
    ensures AllOn(Keep(table, Wanted(from, to, Some(iface))), iface)
  {
    var kept := Keep(table, Wanted(from, to, Some(iface)));
    KeepSelects(table, Wanted(from, to, Some(iface)));
    forall i | 0 <= i < |kept| ensures kept[i].iface == iface {
      WantedHolds(kept[i].Id(), from, to, Some(iface));
    }
  }

  /** `query_range`: WHERE, GROUP BY when all interfaces are asked for, ORDER BY. */
  function Query(table: seq<Row>, from: int, to: int, iface: Option<string>): seq<Row> {
    var kept := Keep(table, Wanted(from, to, iface));
    Buckets(if iface.None? then Relabelled(kept, |kept|) else kept, Shown(iface).floor)
  }

  lemma QueryAnswers(table: seq<Row>, from: int, to: int, iface: Option<string>)
    ensures Answers(Query(table, from, to, iface), table, from, to, iface)
  {
    var kept := Keep(table, Wanted(from, to, iface));
    if iface.None? {
      RelabelledGroups(kept, Shown(iface).floor);
      BucketsListGroups(Relabelled(kept, |kept|), Shown(iface).floor, "_all");
    } else {
      KeptOnIface(table, from, to, iface.value);
      BucketsListGroups(kept, Shown(iface).floor, iface.value);
    }
  }

  method QueryRange(table: seq<Row>, from: int, to: int, iface: Option<string>) returns (rows: seq<Row>)
    ensures rows == Query(table, from, to, iface)
  {
    var kept := Select(table, Wanted(from, to, iface));
    if iface.None? {
      kept := MergeLabels(kept);
    }
    rows := Accumulate(kept, Shown(iface).floor);
  }

  method MergeLabels(rows: seq<Row>) returns (out: seq<Row>)
    ensures out == Relabelled(rows, |rows|)
  {
    out := [];
    for i := 0 to |rows|
      invariant out == Relabelled(rows, i)
    {
      out := out + [Row(rows[i].ts, "_all", rows[i].bytes)];
    }
  }

  // ---------- one range, seen rolled and seen raw ----------

  predicate SameTo(rows: seq<Row>, n: nat, p: Where, q: Where)
    requires n <= |rows|
  {
    n == 0 || (SameTo(rows, n - 1, p, q) && (p.Holds(rows[n - 1].Id()) <==> q.Holds(rows[n - 1].Id())))
  }

  /** Two conditions select the same rows. */
  predicate SameSelection(rows: seq<Row>, p: Where, q: Where) {
    SameTo(rows, |rows|, p, q)
  }

  lemma {:induction false} SameToIs(rows: seq<Row>, n: nat, p: Where, q: Where)
    requires n <= |rows|
    ensures SameTo(rows, n, p, q) <==> forall i :: 0 <= i < n ==> (p.Holds(rows[i].Id()) <==> q.Holds(rows[i].Id()))
  {
    if n > 0 {
      SameToIs(rows, n - 1, p, q);
      assert SameTo(rows, n, p, q)
        <==> SameTo(rows, n - 1, p, q) && (p.Holds(rows[n - 1].Id()) <==> q.Holds(rows[n - 1].Id()));
    }
  }

  lemma SameSelectionIs(rows: seq<Row>, p: Where, q: Where)
    ensures SameSelection(rows, p, q)
       <==> forall i :: 0 <= i < |rows| ==> (p.Holds(rows[i].Id()) <==> q.Holds(rows[i].Id()))
  {
    SameToIs(rows, |rows|, p, q);
  }

  lemma SameKept(rows: seq<Row>, p: Where, q: Where)
    requires SameSelection(rows, p, q)
    ensures Keep(rows, p) == Keep(rows, q)
  {
    SameSelectionIs(rows, p, q);
    KeepCongruent(rows, |rows|, p, q);
  }

  lemma SameColumn(rows: seq<Row>, p: Where, q: Where, c: Column)
    requires SameSelection(rows, p, q)
    ensures ColumnSum(rows, p, c) == ColumnSum(rows, q, c)
  {
    SameSelectionIs(rows, p, q);
    ColumnCongruent(rows, |rows|, p, q, c);
  }

  /** The groups a rolled query answers with, in terms of the samples. */
  lemma RolledAnswer(rolled: seq<Row>, samples: seq<Row>, floor: int -> int, from: int, to: int, iface: Option<string>)
    requires Lists(rolled, Aggregate(samples, By(floor)))
    ensures ListsInOrder(Query(rolled, from, to, iface),
                         Aggregate(Keep(samples, Via(By(floor), Wanted(from, to, iface))),
                                   Compose(Shown(iface), By(floor))), ShownAs(iface))
  {
    var p := Wanted(from, to, iface);
    QueryAnswers(rolled, from, to, iface);
    KeepListed(rolled, samples, By(floor), p);
    GroupTheGroups(Keep(rolled, p), Keep(samples, Via(By(floor), p)), Shown(iface), By(floor));
  }

  /** The groups that bucketing a raw query's answer gives. */
  lemma RawAnswer(samples: seq<Row>, floor: int -> int, from: int, to: int, iface: Option<string>)
    ensures ListsInOrder(Buckets(Query(samples, from, to, iface), floor),
                         Aggregate(Keep(samples, Wanted(from, to, iface)),
                                   Compose(Shown(iface), By(floor))), ShownAs(iface))
  {
    var kept := Keep(samples, Wanted(from, to, iface));
    var q := Query(samples, from, to, iface);
    QueryAnswers(samples, from, to, iface);
    InOrderLists(q, Aggregate(kept, Shown(iface)), ShownAs(iface));
    BucketsListGroups(q, floor, ShownAs(iface));
    GroupTheGroups(q, kept, By(floor), Shown(iface));
    AggregateCongruent(kept, Compose(By(floor), Shown(iface)), Compose(Shown(iface), By(floor)));
  }

  // ---------- ranges that start and end with a bucket ----------

  /** Monotone, and at most its argument. */
  ghost predicate IsFloor(floor: int -> int) {
    forall s, t :: s <= t ==> floor(s) <= floor(t) <= t
  }

  ghost predicate Until(rows: seq<Row>, end: int) {
    forall i :: 0 <= i < |rows| ==> rows[i].ts <= end
  }

  /** The range starts with a bucket, and ends with one or with the last row. */
  ghost predicate WholeBuckets(rows: seq<Row>, floor: int -> int, from: int, to: int) {
    floor(from) == from && (floor(to) == to || Until(rows, to - 1))
  }

  /** A range of whole buckets has a row exactly if it has the row's bucket. */
  lemma AlignedHolds(x: Key, floor: int -> int, from: int, to: int, iface: Option<string>)
    requires IsFloor(floor) && floor(from) == from && (floor(to) == to || x.ts < to)
    ensures Wanted(from, to, iface).Holds(x) <==> Via(By(floor), Wanted(from, to, iface)).Holds(x)
  {
    var t := x.ts;
    assert floor(t) <= t;
    assert t >= from ==> floor(t) >= floor(from);
    assert t >= to ==> floor(t) >= floor(to);
    WantedHolds(x, from, to, iface);
    WantedHolds(By(floor).Of(x), from, to, iface);
  }

  lemma AlignedSelection(samples: seq<Row>, floor: int -> int, from: int, to: int, iface: Option<string>)
    requires IsFloor(floor) && WholeBuckets(samples, floor, from, to)
    ensures SameSelection(samples, Wanted(from, to, iface), Via(By(floor), Wanted(from, to, iface)))
  {
    var p, q := Wanted(from, to, iface), Via(By(floor), Wanted(from, to, iface));
    forall i | 0 <= i < |samples| ensures p.Holds(samples[i].Id()) <==> q.Holds(samples[i].Id()) {
      AlignedHolds(samples[i].Id(), floor, from, to, iface);
    }
    SameSelectionIs(samples, p, q);
  }

  lemma SelectedFallbackIsRolled(
    rolled: seq<Row>, samples: seq<Row>, floor: int -> int, from: int, to: int, iface: Option<string>)
    requires Lists(rolled, Aggregate(samples, By(floor)))
    requires SameSelection(samples, Wanted(from, to, iface), Via(By(floor), Wanted(from, to, iface)))
    ensures Query(rolled, from, to, iface) == Buckets(Query(samples, from, to, iface), floor)
  {
    var p, q := Wanted(from, to, iface), Via(By(floor), Wanted(from, to, iface));
    SameKept(samples, p, q);
    RolledAnswer(rolled, samples, floor, from, to, iface);
    RawAnswer(samples, floor, from, to, iface);
    InOrderUnique(Query(rolled, from, to, iface), Buckets(Query(samples, from, to, iface), floor),
                  Aggregate(Keep(samples, p), Compose(Shown(iface), By(floor))), ShownAs(iface));
  }

  /** Over whole buckets the rolled rows and the fallback rows are the same, whatever the samples. */
  lemma AlignedFallbackIsRolled(
    rolled: seq<Row>, samples: seq<Row>, floor: int -> int, from: int, to: int, iface: Option<string>)
    requires Lists(rolled, Aggregate(samples, By(floor)))
    requires IsFloor(floor) && WholeBuckets(samples, floor, from, to)
    ensures Query(rolled, from, to, iface) == Buckets(Query(samples, from, to, iface), floor)
  {
    AlignedSelection(samples, floor, from, to, iface);
    SelectedFallbackIsRolled(rolled, samples, floor, from, to, iface);
  }

  // ---------- when two selections have the same groups ----------

  predicate HasBytes(b: Bytes) {
    b.all.rx >= 0 && b.all.tx >= 0 && b.Total() > 0
  }

  predicate PositiveTo(rows: seq<Row>, n: nat)
    requires n <= |rows|
  {
    n == 0 || (PositiveTo(rows, n - 1) && HasBytes(rows[n - 1].bytes))
  }

  /** The daemon writes a row only for an interface that carried bytes. */
  predicate Positive(rows: seq<Row>) {
    PositiveTo(rows, |rows|)
  }

  lemma {:induction false} PositiveToIs(rows: seq<Row>, n: nat)
    requires n <= |rows|
    ensures PositiveTo(rows, n) <==> forall i :: 0 <= i < n ==> HasBytes(rows[i].bytes)
  {
    if n > 0 {
      PositiveToIs(rows, n - 1);
    }
  }

  lemma PositiveIs(rows: seq<Row>)
    ensures Positive(rows) <==> forall i :: 0 <= i < |rows| ==> HasBytes(rows[i].bytes)
  {
    PositiveToIs(rows, |rows|);
  }

  function TotalTo(rows: seq<Row>, n: nat, p: Where): int
    requires n <= |rows|
  {
    ColumnTo(rows, n, p, Rx) + ColumnTo(rows, n, p, Tx)
  }

  lemma TotalOneMore(rows: seq<Row>, n: nat, p: Where)
    requires n < |rows|
    ensures TotalTo(rows, n + 1, p)
         == TotalTo(rows, n, p) + (if p.Holds(rows[n].Id()) then rows[n].bytes.Total() else 0)
  {
  }

  ghost predicate Wider(rows: seq<Row>, n: nat, p: Where, q: Where)
    requires n <= |rows|
  {
    forall j :: 0 <= j < n && p.Holds(rows[j].Id()) ==> q.Holds(rows[j].Id())
  }

  lemma {:induction false} WiderIsNoLess(rows: seq<Row>, n: nat, p: Where, q: Where)
    requires n <= |rows| && PositiveTo(rows, n) && Wider(rows, n, p, q)
    ensures TotalTo(rows, n, p) <= TotalTo(rows, n, q)
  {
    if n > 0 {
      var r := rows[n - 1];
      assert HasBytes(r.bytes) && (p.Holds(r.Id()) ==> q.Holds(r.Id()));
      WiderIsNoLess(rows, n - 1, p, q);
      TotalOneMore(rows, n - 1, p);
      TotalOneMore(rows, n - 1, q);
    }
  }

  /** A wider condition that selects one more row has a larger total. */
  lemma {:induction false} WiderIsMore(rows: seq<Row>, n: nat, p: Where, q: Where, i: nat)
    requires i < n <= |rows| && PositiveTo(rows, n) && Wider(rows, n, p, q)
    requires q.Holds(rows[i].Id()) && !p.Holds(rows[i].Id())
    ensures TotalTo(rows, n, p) < TotalTo(rows, n, q)
  {
    var r := rows[n - 1];
    assert HasBytes(r.bytes) && (p.Holds(r.Id()) ==> q.Holds(r.Id()));
    TotalOneMore(rows, n - 1, p);
    TotalOneMore(rows, n - 1, q);
    if i < n - 1 {
      WiderIsMore(rows, n - 1, p, q, i);
    } else {
      WiderIsNoLess(rows, n - 1, p, q);
    }
  }

  lemma GroupSum(rows: seq<Row>, p: Where, g: Projection, k: Key, c: Column)
    ensures Get(Aggregate(Keep(rows, p), g), k, c) == ColumnSum(rows, Both(p, InGroup(g, k)), c)
  {
    GetAggregate(Keep(rows, p), g, k, c);
    ColumnKeep(rows, p, InGroup(g, k), c);
  }

  predicate Only(p: Where, q: Where, x: Key) {
    p.Holds(x) && !q.Holds(x)
  }

  /** Among the first `n` rows none that only `p` selects is in group `k`. */
  predicate OutOfGroup(rows: seq<Row>, n: nat, p: Where, q: Where, g: Projection, k: Key)
    requires n <= |rows|
  {
    n == 0
    || (OutOfGroup(rows, n - 1, p, q, g, k) && !(Only(p, q, rows[n - 1].Id()) && g.Of(rows[n - 1].Id()) == k))
  }

  predicate ApartTo(rows: seq<Row>, n: nat, p: Where, q: Where, g: Projection)
    requires n <= |rows|
  {
    n == 0
    || (ApartTo(rows, n - 1, p, q, g)
        && (Only(q, p, rows[n - 1].Id()) ==> OutOfGroup(rows, |rows|, p, q, g, g.Of(rows[n - 1].Id()))))
  }

  /** A row that only `p` selects and a row that only `q` selects are never in one group. */
  predicate Apart(rows: seq<Row>, p: Where, q: Where, g: Projection) {
    ApartTo(rows, |rows|, p, q, g)
  }

  lemma {:induction false} OutOfGroupIs(rows: seq<Row>, n: nat, p: Where, q: Where, g: Projection, k: Key)
    requires n <= |rows|
    ensures OutOfGroup(rows, n, p, q, g, k)
       <==> forall i :: 0 <= i < n && Only(p, q, rows[i].Id()) ==> g.Of(rows[i].Id()) != k
  {
    if n > 0 {
      OutOfGroupIs(rows, n - 1, p, q, g, k);
    }
  }

  lemma {:induction false} ApartToIs(rows: seq<Row>, n: nat, p: Where, q: Where, g: Projection)
    requires n <= |rows|
    ensures ApartTo(rows, n, p, q, g)
       <==> forall j :: 0 <= j < n && Only(q, p, rows[j].Id()) ==>
              OutOfGroup(rows, |rows|, p, q, g, g.Of(rows[j].Id()))
  {
    if n > 0 {
      ApartToIs(rows, n - 1, p, q, g);
    }
  }

  lemma ApartIf(rows: seq<Row>, p: Where, q: Where, g: Projection)
    requires forall i, j ::
      0 <= i < |rows| && 0 <= j < |rows| && Only(p, q, rows[i].Id()) && Only(q, p, rows[j].Id()) ==>
        g.Of(rows[i].Id()) != g.Of(rows[j].Id())
    ensures Apart(rows, p, q, g)
  {
    forall j | 0 <= j < |rows| && Only(q, p, rows[j].Id())
      ensures OutOfGroup(rows, |rows|, p, q, g, g.Of(rows[j].Id()))
    {
      OutOfGroupIs(rows, |rows|, p, q, g, g.Of(rows[j].Id()));
    }
    ApartToIs(rows, |rows|, p, q, g);
  }

  lemma ApartAt(rows: seq<Row>, p: Where, q: Where, g: Projection, i: nat, j: nat)
    requires i < |rows| && j < |rows| && Only(p, q, rows[i].Id()) && Only(q, p, rows[j].Id()) && Apart(rows, p, q, g)
    ensures g.Of(rows[i].Id()) != g.Of(rows[j].Id())
  {
    ApartToIs(rows, |rows|, p, q, g);
    OutOfGroupIs(rows, |rows|, p, q, g, g.Of(rows[j].Id()));
  }

  /** The group of a row that only `q` selects has a larger sum under `q`. */
  lemma OneSidedGroup(rows: seq<Row>, p: Where, q: Where, g: Projection, i: nat)
    requires i < |rows| && Positive(rows) && Only(q, p, rows[i].Id())
    requires forall j :: 0 <= j < |rows| && g.Of(rows[j].Id()) == g.Of(rows[i].Id()) ==> !Only(p, q, rows[j].Id())
    ensures Aggregate(Keep(rows, p), g) != Aggregate(Keep(rows, q), g)
  {
    var k := g.Of(rows[i].Id());
    var here := InGroup(g, k);
    forall j | 0 <= j < |rows| && Both(p, here).Holds(rows[j].Id()) ensures Both(q, here).Holds(rows[j].Id()) {
      assert here.Holds(rows[j].Id());
      assert !Only(p, q, rows[j].Id());
    }
    assert here.Holds(rows[i].Id());
    WiderIsMore(rows, |rows|, Both(p, here), Both(q, here), i);
    GroupSum(rows, p, g, k, Rx);
    GroupSum(rows, p, g, k, Tx);
    GroupSum(rows, q, g, k, Rx);
    GroupSum(rows, q, g, k, Tx);
  }

  lemma OtherGroups(rows: seq<Row>, p: Where, q: Where, g: Projection)
    requires Positive(rows) && Apart(rows, p, q, g) && !SameSelection(rows, p, q)
    ensures Aggregate(Keep(rows, p), g) != Aggregate(Keep(rows, q), g)
  {
    SameSelectionIs(rows, p, q);
    var i :| 0 <= i < |rows| && p.Holds(rows[i].Id()) != q.Holds(rows[i].Id());
    if q.Holds(rows[i].Id()) {
      forall j | 0 <= j < |rows| && g.Of(rows[j].Id()) == g.Of(rows[i].Id()) ensures !Only(p, q, rows[j].Id()) {
        if Only(p, q, rows[j].Id()) {
          ApartAt(rows, p, q, g, j, i);
        }
      }
      OneSidedGroup(rows, p, q, g, i);
    } else {
      forall j | 0 <= j < |rows| && g.Of(rows[j].Id()) == g.Of(rows[i].Id()) ensures !Only(q, p, rows[j].Id()) {
        if Only(q, p, rows[j].Id()) {
          ApartAt(rows, p, q, g, i, j);
        }
      }
      OneSidedGroup(rows, q, p, g, i);
    }
  }

  lemma SameGroups(rows: seq<Row>, p: Where, q: Where, g: Projection)
    requires SameSelection(rows, p, q)
    ensures Aggregate(Keep(rows, p), g) == Aggregate(Keep(rows, q), g)
  {
    SameKept(rows, p, q);
  }

  /** Selections that stay apart have the same groups exactly if they are the same selection. */
  lemma SameGroupsIff(rows: seq<Row>, p: Where, q: Where, g: Projection)
    requires Positive(rows) && Apart(rows, p, q, g)
    ensures Aggregate(Keep(rows, p), g) == Aggregate(Keep(rows, q), g) <==> SameSelection(rows, p, q)
  {
    if SameSelection(rows, p, q) {
      SameGroups(rows, p, q, g);
    } else {
      OtherGroups(rows, p, q, g);
    }
  }

  lemma ListsOneTable(rows: seq<Row>, t: map<Key, Bytes>, u: map<Key, Bytes>)
    requires Lists(rows, t) && Lists(rows, u)
    ensures t == u
  {
    EntriesAre(rows, |rows|, t);
    EntriesAre(rows, |rows|, u);
    ListsKeys(rows, t);
    ListsKeys(rows, u);
    forall k | k in t ensures t[k] == u[k] {
      var i := ListedAt(rows, |rows|, k);
    }
    SameMap(t, u);
  }
}

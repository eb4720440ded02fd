/**
  Tables as queries deliver them: a listing has each entry of a table once. Selecting
  from a listing of groups is grouping a selection, and sorting makes a listing unique.
 */
module Listing {
  import opened Traffic
  import opened Aggregation

  // ---------- distinct keys ----------

  lemma {:induction false} KeepDistinct(rows: seq<Row>, n: nat, p: Where)
    requires n <= |rows| && DistinctTo(rows, n)
    ensures DistinctIds(KeepTo(rows, n, p))
    ensures forall k :: k in Ids(KeepTo(rows, n, p)) <==> k in IdsTo(rows, n) && p.Holds(k)
  {
    if n > 0 {
      KeepDistinct(rows, n - 1, p);
      if p.Holds(rows[n - 1].Id()) {
        DistinctOneMore(KeepTo(rows, n - 1, p), rows[n - 1]);
      }
    }
  }

  lemma {:induction false} DistinctPrefix(a: seq<Row>, b: seq<Row>, n: nat)
    requires n <= |a| && n <= |b|
    requires forall i :: 0 <= i < n ==> a[i] == b[i]
    ensures IdsTo(a, n) == IdsTo(b, n) && DistinctTo(a, n) == DistinctTo(b, n)
  {
    if n > 0 {
      DistinctPrefix(a, b, n - 1);
    }
  }

  lemma DistinctOneMore(rows: seq<Row>, r: Row)
    ensures Ids(rows + [r]) == Ids(rows) + {r.Id()}
    ensures DistinctIds(rows + [r]) <==> DistinctIds(rows) && r.Id() !in Ids(rows)
  {
    DistinctPrefix(rows + [r], rows, |rows|);
  }

  // ---------- one table, many listings ----------

  lemma {:induction false} CountListed(rows: seq<Row>, n: nat, t: map<Key, Bytes>, r: Row)
    requires n <= |rows| && DistinctTo(rows, n)
    requires EntriesTo(rows, n, t)
    ensures CountTo(rows, n, r) == if r.Id() in IdsTo(rows, n) && r.Id() in t && t[r.Id()] == r.bytes then 1 else 0
  {
    if n > 0 {
      CountListed(rows, n - 1, t, r);
    }
  }

  /** Two listings of a table differ in order only. */
  lemma ListingsPermute(a: seq<Row>, b: seq<Row>, t: map<Key, Bytes>)
    requires Lists(a, t) && Lists(b, t)
    ensures multiset(a) == multiset(b)
  {
    ListsKeys(a, t);
    ListsKeys(b, t);
    forall r ensures multiset(a)[r] == multiset(b)[r] {
      CountListed(a, |a|, t, r);
      CountListed(b, |b|, t, r);
      CountIsMultiplicity(a, |a|, r);
      CountIsMultiplicity(b, |b|, r);
      assert a[..|a|] == a && b[..|b|] == b;
    }
  }

  lemma ListingExists(t: map<Key, Bytes>) returns (rows: seq<Row>)
    ensures Lists(rows, t)
    decreases |t|
  {
    if t == map[] {
      rows := [];
    } else {
      var k :| k in t;
      var rest := map x | x in t && x != k :: t[x];
      assert rest.Keys == t.Keys - {k};
      assert |rest.Keys| == |rest| && |t.Keys| == |t|;
      var others := ListingExists(rest);
      var r := Row(k.ts, k.iface, t[k]);
      rows := others + [r];
      DistinctOneMore(others, r);
      EntriesAre(others, |others|, rest);
      EntriesAre(rows, |rows|, t);
      ListsKeys(others, rest);
      ListsKeys(rows, t);
    }
  }

  // ---------- selecting groups ----------

  lemma {:induction false} KeysKeepTo(rows: seq<Row>, n: nat, g: Projection, p: Where)
    requires n <= |rows|
    ensures Keys(KeepTo(rows, n, Via(g, p)), g) == set k | k in KeysTo(rows, n, g) && p.Holds(k)
  {
    if n > 0 {
      KeysKeepTo(rows, n - 1, g, p);
      var kept := KeepTo(rows, n - 1, Via(g, p));
      KeysPrefix(kept + [rows[n - 1]], kept, |kept|, g);
    }
  }

  lemma KeysKeep(rows: seq<Row>, g: Projection, p: Where)
    ensures Keys(Keep(rows, Via(g, p)), g) == set k | k in Keys(rows, g) && p.Holds(k)
  {
    KeysKeepTo(rows, |rows|, g, p);
  }

  /** The groups a condition selects have all the rows they had. */
  lemma SelectedGroup(rows: seq<Row>, g: Projection, p: Where, k: Key)
    requires p.Holds(k)
    ensures Sum(Keep(rows, Via(g, p)), InGroup(g, k)) == Sum(rows, InGroup(g, k))
  {
    var a, b := Sum(Keep(rows, Via(g, p)), InGroup(g, k)), Sum(rows, InGroup(g, k));
    forall c: Column ensures Cell(a, c) == Cell(b, c) {
      ColumnKeep(rows, Via(g, p), InGroup(g, k), c);
      ColumnCongruent(rows, |rows|, Both(Via(g, p), InGroup(g, k)), InGroup(g, k), c);
    }
    SameBytes(a, b);
  }

  lemma KeptGroup(groups: seq<Row>, rows: seq<Row>, g: Projection, p: Where, j: nat)
    requires j < |groups| && p.Holds(groups[j].Id()) && IsEntry(groups[j], Aggregate(rows, g))
    ensures IsEntry(groups[j], Aggregate(Keep(rows, Via(g, p)), g))
  {
    var k := groups[j].Id();
    KeysKeep(rows, g, p);
    AggregateAt(rows, g, k);
    AggregateAt(Keep(rows, Via(g, p)), g, k);
    SelectedGroup(rows, g, p, k);
  }

  /** Selecting from listed groups is grouping the rows selected through the projection. */
  lemma KeepListed(groups: seq<Row>, rows: seq<Row>, g: Projection, p: Where)
    requires Lists(groups, Aggregate(rows, g))
    ensures Lists(Keep(groups, p), Aggregate(Keep(rows, Via(g, p)), g))
  {
    var kept, t := Keep(groups, p), Aggregate(Keep(rows, Via(g, p)), g);
    KeepDistinct(groups, |groups|, p);
    KeysKeep(rows, g, p);
    ListsKeys(groups, Aggregate(rows, g));
    EntriesAre(groups, |groups|, Aggregate(rows, g));
    EntriesAre(kept, |kept|, t);
    forall i | 0 <= i < |kept| ensures IsEntry(kept[i], t) {
      var j := KeepOrigin(groups, |groups|, p, i);
      KeptGroup(groups, rows, g, p, j);
    }
    assert Ids(kept) == t.Keys;
    ListsKeys(kept, t);
  }

  /** A selection's sum is its one group, when the projection maps every key to `k`. */
  lemma WholeGroup(rows: seq<Row>, p: Where, g: Projection, k: Key, c: Column)
    requires forall x: Key :: g.Of(x) == k
    ensures ColumnSum(rows, p, c) == Get(Aggregate(Keep(rows, p), g), k, c)
  {
    GetAggregate(Keep(rows, p), g, k, c);
    ColumnKeep(rows, p, InGroup(g, k), c);
    ColumnCongruent(rows, |rows|, Both(p, InGroup(g, k)), p, c);
  }

  /** Summing listed groups is summing their rows. */
  lemma SumListed(groups: seq<Row>, rows: seq<Row>, g: Projection, p: Where, c: Column)
    requires Lists(groups, Aggregate(rows, g))
    ensures ColumnSum(groups, p, c) == ColumnSum(rows, Via(g, p), c)
  {
    var one := Projection(t => 0, true);
    var k, both := Key(0, "_all"), Compose(one, g);
    assert forall x: Key :: one.Of(x) == k;
    assert forall x: Key :: both.Of(x) == k;
    KeepListed(groups, rows, g, p);
    GroupTheGroups(Keep(groups, p), Keep(rows, Via(g, p)), one, g);
    WholeGroup(groups, p, one, k, c);
    WholeGroup(rows, Via(g, p), both, k, c);
  }

  // ---------- sorted listings ----------

  predicate AscendingTo(rows: seq<Row>, n: nat)
    requires n <= |rows|
  {
    n <= 1 || (AscendingTo(rows, n - 1) && rows[n - 2].ts < rows[n - 1].ts)
  }

  predicate Ascending(rows: seq<Row>) {
    AscendingTo(rows, |rows|)
  }

  lemma {:induction false} Ascends(rows: seq<Row>, n: nat)
    requires n <= |rows|
    ensures AscendingTo(rows, n) <==> forall i, j :: 0 <= i < j < n ==> rows[i].ts < rows[j].ts
  {
    if n > 1 {
      Ascends(rows, n - 1);
    }
  }

  lemma {:induction false} ListedAt(rows: seq<Row>, n: nat, k: Key) returns (i: nat)
    requires n <= |rows| && k in IdsTo(rows, n)
    ensures i < n && rows[i].Id() == k
  {
    if rows[n - 1].Id() == k {
      i := n - 1;
    } else {
      i := ListedAt(rows, n - 1, k);
    }
  }

  lemma {:induction false} IdsHold(rows: seq<Row>, n: nat, i: nat)
    requires i < n <= |rows|
    ensures rows[i].Id() in IdsTo(rows, n)
  {
    if i < n - 1 {
      IdsHold(rows, n - 1, i);
    }
  }

  /** Where a listing's row is in another listing. */
  lemma Counterpart(a: seq<Row>, b: seq<Row>, t: map<Key, Bytes>, i: nat) returns (j: nat)
    requires Lists(a, t) && Lists(b, t) && i < |a|
    ensures j < |b| && b[j] == a[i]
  {
    IdsHold(a, |a|, i);
    ListsKeys(a, t);
    ListsKeys(b, t);
    j := ListedAt(b, |b|, a[i].Id());
    EntriesAre(a, |a|, t);
    EntriesAre(b, |b|, t);
  }

  lemma {:induction false} SortedPrefix(a: seq<Row>, b: seq<Row>, t: map<Key, Bytes>, n: nat)
    requires Lists(a, t) && Lists(b, t) && Ascending(a) && Ascending(b) && n <= |a|
    ensures n <= |b| && forall i :: 0 <= i < n ==> a[i] == b[i]
  {
    if n > 0 {
      SortedPrefix(a, b, t, n - 1);
      Ascends(a, |a|);
      Ascends(b, |b|);
      var j := Counterpart(a, b, t, n - 1);
      assert j >= n - 1;
      var i := Counterpart(b, a, t, n - 1);
      assert i >= n - 1;
      assert a[n - 1] == b[n - 1];
    }
  }

  /** `ORDER BY` leaves no choice: a table has one ascending listing. */
  lemma SortedListingUnique(a: seq<Row>, b: seq<Row>, t: map<Key, Bytes>)
    requires Lists(a, t) && Lists(b, t) && Ascending(a) && Ascending(b)
    ensures a == b
  {
    SortedPrefix(a, b, t, |a|);
    SortedPrefix(b, a, t, |b|);
  }
}

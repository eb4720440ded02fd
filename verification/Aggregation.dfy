/**
  Grouping rows by a projection of their key and summing each group: the one
  computation behind the rollups, the `_all` queries and the week view.
 */
module Aggregation {
  import opened Traffic

  /** A group key: the timestamp floored, the interface kept or replaced by `_all`. */
  datatype Projection = Projection(floor: int -> int, merged: bool) {
    function Label(iface: string): string {
      if merged then "_all" else iface
    }

    function Of(k: Key): Key {
      Key(floor(k.ts), Label(k.iface))
    }
  }

  function By(floor: int -> int): Projection {
    Projection(floor, false)
  }

  /** The conditions on a row's key that the queries use. */
  datatype Where =
    | Everything
    | NewerThan(marker: Option<int>)
    | Before(cut: int)
    | Between(from: int, to: int)
    | OnIface(iface: string)
    | WithId(id: Key)
    | InGroup(g: Projection, k: Key)
    | Via(g: Projection, w: Where)
    | Not(w: Where)
    | Both(v: Where, w: Where)
  {
    predicate Holds(x: Key) {
      match this
      case Everything => true
      case NewerThan(marker) => marker.None? || x.ts > marker.value
      case Before(cut) => x.ts < cut
      case Between(from, to) => from <= x.ts < to
      case OnIface(iface) => x.iface == iface
      case WithId(id) => x == id
      case InGroup(g, k) => g.Of(x) == k
      case Via(g, w) => w.Holds(g.Of(x))
      case Not(w) => !w.Holds(x)
      case Both(v, w) => v.Holds(x) && w.Holds(x)
    }
  }

  // ---------- selecting rows ----------

  /** The rows among the first `n` whose key satisfies `p`, in their order. */
  function KeepTo(rows: seq<Row>, n: nat, p: Where): seq<Row>
    requires n <= |rows|
  {
    if n == 0 then []
    else if p.Holds(rows[n - 1].Id()) then KeepTo(rows, n - 1, p) + [rows[n - 1]]
    else KeepTo(rows, n - 1, p)
  }

  function Keep(rows: seq<Row>, p: Where): seq<Row> {
    KeepTo(rows, |rows|, p)
  }

  /** How often `r` occurs among the first `n` rows. */
  function CountTo(rows: seq<Row>, n: nat, r: Row): nat
    requires n <= |rows|
  {
    if n == 0 then 0 else CountTo(rows, n - 1, r) + (if rows[n - 1] == r then 1 else 0)
  }

  lemma {:induction false} CountIsMultiplicity(rows: seq<Row>, n: nat, r: Row)
    requires n <= |rows|
    ensures multiset(rows[..n])[r] == CountTo(rows, n, r)
  {
    if n > 0 {
      CountIsMultiplicity(rows, n - 1, r);
      assert rows[..n] == rows[..n - 1] + [rows[n - 1]];
    }
  }

  lemma {:induction false} KeepCountsTo(rows: seq<Row>, n: nat, p: Where, r: Row)
    requires n <= |rows|
    ensures multiset(KeepTo(rows, n, p))[r] == if p.Holds(r.Id()) then CountTo(rows, n, r) else 0
  {
    if n > 0 {
      KeepCountsTo(rows, n - 1, p, r);
    }
  }

  /** How often a row survives a selection: as often as before, or never. */
  lemma KeepCounts(rows: seq<Row>, p: Where, r: Row)
    ensures multiset(Keep(rows, p))[r] == if p.Holds(r.Id()) then multiset(rows)[r] else 0
  {
    KeepCountsTo(rows, |rows|, p, r);
    CountIsMultiplicity(rows, |rows|, r);
    assert rows[..|rows|] == rows;
  }

  lemma KeepMembers(rows: seq<Row>, p: Where, r: Row)
    ensures r in Keep(rows, p) <==> r in rows && p.Holds(r.Id())
  {
    KeepCounts(rows, p, r);
    assert r in Keep(rows, p) <==> multiset(Keep(rows, p))[r] > 0;
    assert r in rows <==> multiset(rows)[r] > 0;
  }

  /** A selection and its complement share out the rows. */
  lemma KeepPartitions(rows: seq<Row>, p: Where)
    ensures multiset(rows) == multiset(Keep(rows, p)) + multiset(Keep(rows, Not(p)))
  {
    forall r ensures multiset(rows)[r] == (multiset(Keep(rows, p)) + multiset(Keep(rows, Not(p))))[r] {
      KeepCounts(rows, p, r);
      KeepCounts(rows, Not(p), r);
    }
  }

  lemma {:induction false} KeepSelectsTo(rows: seq<Row>, n: nat, p: Where)
    requires n <= |rows|
    ensures forall i :: 0 <= i < |KeepTo(rows, n, p)| ==> p.Holds(KeepTo(rows, n, p)[i].Id())
  {
    if n > 0 {
      KeepSelectsTo(rows, n - 1, p);
    }
  }

  lemma KeepSelects(rows: seq<Row>, p: Where)
    ensures forall i :: 0 <= i < |Keep(rows, p)| ==> p.Holds(Keep(rows, p)[i].Id())
  {
    KeepSelectsTo(rows, |rows|, p);
  }

  /** Where the row at index `i` ends up. */
  lemma {:induction false} KeepFinds(rows: seq<Row>, n: nat, p: Where, i: nat) returns (j: nat)
    requires i < n <= |rows| && p.Holds(rows[i].Id())
    ensures j < |KeepTo(rows, n, p)| && KeepTo(rows, n, p)[j] == rows[i]
  {
    if i < n - 1 {
      j := KeepFinds(rows, n - 1, p, i);
    } else {
      j := |KeepTo(rows, n - 1, p)|;
    }
  }

  /** Where the row kept at index `j` came from. */
  lemma {:induction false} KeepOrigin(rows: seq<Row>, n: nat, p: Where, j: nat) returns (i: nat)
    requires n <= |rows| && j < |KeepTo(rows, n, p)|
    ensures i < n && KeepTo(rows, n, p)[j] == rows[i] && p.Holds(rows[i].Id())
  {
    if j < |KeepTo(rows, n - 1, p)| {
      i := KeepOrigin(rows, n - 1, p, j);
    } else {
      i := n - 1;
    }
  }

  lemma KeepNone(rows: seq<Row>, p: Where)
    ensures Keep(rows, p) == [] <==> forall i :: 0 <= i < |rows| ==> !p.Holds(rows[i].Id())
  {
    if Keep(rows, p) == [] {
      forall i | 0 <= i < |rows| ensures !p.Holds(rows[i].Id()) {
        if p.Holds(rows[i].Id()) {
          var j := KeepFinds(rows, |rows|, p, i);
        }
      }
    } else {
      var i := KeepOrigin(rows, |rows|, p, 0);
    }
  }

  lemma {:induction false} KeepAllTo(rows: seq<Row>, n: nat, p: Where)
    requires n <= |rows|
    requires forall i :: 0 <= i < n ==> p.Holds(rows[i].Id())
    ensures KeepTo(rows, n, p) == rows[..n]
  {
    if n > 0 {
      KeepAllTo(rows, n - 1, p);
    }
  }

  lemma KeepAll(rows: seq<Row>, p: Where)
    requires forall i :: 0 <= i < |rows| ==> p.Holds(rows[i].Id())
    ensures Keep(rows, p) == rows
  {
    KeepAllTo(rows, |rows|, p);
    assert rows[..|rows|] == rows;
  }

  lemma {:induction false} KeepPrefix(a: seq<Row>, b: seq<Row>, n: nat, p: Where)
    requires n <= |a| && n <= |b|
    requires forall i :: 0 <= i < n ==> a[i] == b[i]
    ensures KeepTo(a, n, p) == KeepTo(b, n, p)
  {
    if n > 0 {
      KeepPrefix(a, b, n - 1, p);
    }
  }

  lemma KeepOneMore(rows: seq<Row>, r: Row, p: Where)
    ensures Keep(rows + [r], p) == if p.Holds(r.Id()) then Keep(rows, p) + [r] else Keep(rows, p)
  {
    KeepPrefix(rows + [r], rows, |rows|, p);
  }

  lemma {:induction false} KeepBothTo(rows: seq<Row>, n: nat, p: Where, q: Where)
    requires n <= |rows|
    ensures Keep(KeepTo(rows, n, p), q) == KeepTo(rows, n, Both(p, q))
  {
    if n > 0 {
      KeepBothTo(rows, n - 1, p, q);
      KeepOneMore(KeepTo(rows, n - 1, p), rows[n - 1], q);
    }
  }

  /** Two selections are one. */
  lemma KeepBoth(rows: seq<Row>, p: Where, q: Where)
    ensures Keep(Keep(rows, p), q) == Keep(rows, Both(p, q))
  {
    KeepBothTo(rows, |rows|, p, q);
  }

  lemma {:induction false} KeepCongruent(rows: seq<Row>, n: nat, p: Where, q: Where)
    requires n <= |rows|
    requires forall i :: 0 <= i < n ==> (p.Holds(rows[i].Id()) <==> q.Holds(rows[i].Id()))
    ensures KeepTo(rows, n, p) == KeepTo(rows, n, q)
  {
    if n > 0 {
      KeepCongruent(rows, n - 1, p, q);
      assert p.Holds(rows[n - 1].Id()) <==> q.Holds(rows[n - 1].Id());
    }
  }

  /** The order of two selections does not matter. */
  lemma KeepSwap(rows: seq<Row>, p: Where, q: Where)
    ensures Keep(Keep(rows, p), q) == Keep(Keep(rows, q), p)
  {
    KeepBoth(rows, p, q);
    KeepBoth(rows, q, p);
    forall i | 0 <= i < |rows| ensures Both(p, q).Holds(rows[i].Id()) <==> Both(q, p).Holds(rows[i].Id()) {
    }
    KeepCongruent(rows, |rows|, Both(p, q), Both(q, p));
  }

  // ---------- summing rows ----------

  /** One column, summed over those of the first `n` rows whose key satisfies `p`. */
  function ColumnTo(rows: seq<Row>, n: nat, p: Where, c: Column): int
    requires n <= |rows|
  {
    if n == 0 then 0
    else ColumnTo(rows, n - 1, p, c) + (if p.Holds(rows[n - 1].Id()) then Cell(rows[n - 1].bytes, c) else 0)
  }

  function ColumnSum(rows: seq<Row>, p: Where, c: Column): int {
    ColumnTo(rows, |rows|, p, c)
  }

  /** The bytes of those of the first `n` rows whose key satisfies `p`. */
  function SumTo(rows: seq<Row>, n: nat, p: Where): Bytes
    requires n <= |rows|
  {
    Bytes(Flow(ColumnTo(rows, n, p, Rx), ColumnTo(rows, n, p, Tx)),
          Flow(ColumnTo(rows, n, p, LanRx), ColumnTo(rows, n, p, LanTx)))
  }

  function Sum(rows: seq<Row>, p: Where): Bytes {
    SumTo(rows, |rows|, p)
  }

  lemma {:induction false} ColumnPrefix(a: seq<Row>, b: seq<Row>, n: nat, p: Where, c: Column)
    requires n <= |a| && n <= |b|
    requires forall i :: 0 <= i < n ==> a[i] == b[i]
    ensures ColumnTo(a, n, p, c) == ColumnTo(b, n, p, c)
  {
    if n > 0 {
      ColumnPrefix(a, b, n - 1, p, c);
    }
  }

  lemma {:induction false} ColumnAppendTo(a: seq<Row>, b: seq<Row>, n: nat, p: Where, c: Column)
    requires n <= |b|
    ensures ColumnTo(a + b, |a| + n, p, c) == ColumnSum(a, p, c) + ColumnTo(b, n, p, c)
  {
    if n == 0 {
      ColumnPrefix(a + b, a, |a|, p, c);
    } else {
      ColumnAppendTo(a, b, n - 1, p, c);
    }
  }

  lemma ColumnAppend(a: seq<Row>, b: seq<Row>, p: Where, c: Column)
    ensures ColumnSum(a + b, p, c) == ColumnSum(a, p, c) + ColumnSum(b, p, c)
  {
    ColumnAppendTo(a, b, |b|, p, c);
  }

  lemma ColumnOneMore(rows: seq<Row>, r: Row, p: Where, c: Column)
    ensures ColumnSum(rows + [r], p, c)
         == ColumnSum(rows, p, c) + (if p.Holds(r.Id()) then Cell(r.bytes, c) else 0)
  {
    ColumnPrefix(rows + [r], rows, |rows|, p, c);
  }

  lemma {:induction false} ColumnCongruent(rows: seq<Row>, n: nat, p: Where, q: Where, c: Column)
    requires n <= |rows|
    requires forall i :: 0 <= i < n ==> (p.Holds(rows[i].Id()) <==> q.Holds(rows[i].Id()))
    ensures ColumnTo(rows, n, p, c) == ColumnTo(rows, n, q, c)
  {
    if n > 0 {
      var k := rows[n - 1].Id();
      assert p.Holds(k) <==> q.Holds(k);
      ColumnCongruent(rows, n - 1, p, q, c);
    }
  }

  lemma {:induction false} ColumnOfNone(rows: seq<Row>, n: nat, p: Where, c: Column)
    requires n <= |rows|
    requires forall i :: 0 <= i < n ==> !p.Holds(rows[i].Id())
    ensures ColumnTo(rows, n, p, c) == 0
  {
    if n > 0 {
      ColumnOfNone(rows, n - 1, p, c);
    }
  }

  lemma {:induction false} ColumnKeepTo(rows: seq<Row>, n: nat, p: Where, q: Where, c: Column)
    requires n <= |rows|
    ensures ColumnSum(KeepTo(rows, n, p), q, c) == ColumnTo(rows, n, Both(p, q), c)
  {
    if n > 0 {
      ColumnKeepTo(rows, n - 1, p, q, c);
      ColumnOneMore(KeepTo(rows, n - 1, p), rows[n - 1], q, c);
    }
  }

  lemma ColumnKeep(rows: seq<Row>, p: Where, q: Where, c: Column)
    ensures ColumnSum(Keep(rows, p), q, c) == ColumnSum(rows, Both(p, q), c)
  {
    ColumnKeepTo(rows, |rows|, p, q, c);
  }

  /** Takes the row at index `j` out. */
  function Without(rows: seq<Row>, j: nat): seq<Row>
    requires j < |rows|
  {
    rows[..j] + rows[j + 1..]
  }

  lemma {:induction false} ColumnWithout(rows: seq<Row>, j: nat, n: nat, p: Where, c: Column)
    requires j < n <= |rows|
    ensures ColumnTo(rows, n, p, c)
         == ColumnTo(Without(rows, j), n - 1, p, c) + (if p.Holds(rows[j].Id()) then Cell(rows[j].bytes, c) else 0)
  {
    if n == j + 1 {
      ColumnPrefix(rows, Without(rows, j), j, p, c);
    } else {
      ColumnWithout(rows, j, n - 1, p, c);
      assert Without(rows, j)[n - 2] == rows[n - 1];
    }
  }

  lemma WithoutCounts(rows: seq<Row>, j: nat)
    requires j < |rows|
    ensures multiset(Without(rows, j)) == multiset(rows) - multiset{rows[j]}
  {
    assert rows == (rows[..j] + [rows[j]]) + rows[j + 1..];
  }

  /** Finds the last of the first `n` rows of `a` in `b`: without it, the two are still permutations. */
  lemma FindLast(a: seq<Row>, n: nat, b: seq<Row>) returns (j: nat)
    requires 0 < n <= |a| && multiset(a[..n]) == multiset(b)
    ensures j < |b| && b[j] == a[n - 1] && multiset(a[..n - 1]) == multiset(Without(b, j))
  {
    var first := a[..n];
    assert first[n - 1] == a[n - 1] && Without(first, n - 1) == a[..n - 1];
    WithoutCounts(first, n - 1);
    assert a[n - 1] in first;
    assert a[n - 1] in multiset(b);
    j :| 0 <= j < |b| && b[j] == a[n - 1];
    WithoutCounts(b, j);
  }

  lemma {:induction false} ColumnPermutationTo(a: seq<Row>, n: nat, b: seq<Row>, p: Where, c: Column)
    requires n <= |a| && multiset(a[..n]) == multiset(b)
    ensures ColumnTo(a, n, p, c) == ColumnSum(b, p, c)
  {
    if n == 0 {
      assert |b| == |multiset(b)|;
    } else {
      var j := FindLast(a, n, b);
      ColumnPermutationTo(a, n - 1, Without(b, j), p, c);
      ColumnWithout(b, j, |b|, p, c);
    }
  }

  /** Sums do not depend on the order in which a query delivers the rows. */
  lemma ColumnPermutation(a: seq<Row>, b: seq<Row>, p: Where, c: Column)
    requires multiset(a) == multiset(b)
    ensures ColumnSum(a, p, c) == ColumnSum(b, p, c)
  {
    assert a[..|a|] == a;
    ColumnPermutationTo(a, |a|, b, p, c);
  }

  // ---------- grouping ----------

  function KeysTo(rows: seq<Row>, n: nat, g: Projection): set<Key>
    requires n <= |rows|
  {
    if n == 0 then {} else KeysTo(rows, n - 1, g) + {g.Of(rows[n - 1].Id())}
  }

  function Keys(rows: seq<Row>, g: Projection): set<Key> {
    KeysTo(rows, |rows|, g)
  }

  lemma {:induction false} KeysMembers(rows: seq<Row>, n: nat, g: Projection)
    requires n <= |rows|
    ensures forall k :: k in KeysTo(rows, n, g) <==> exists i :: 0 <= i < n && g.Of(rows[i].Id()) == k
  {
    if n > 0 {
      KeysMembers(rows, n - 1, g);
    }
  }

  lemma {:induction false} KeysPrefix(a: seq<Row>, b: seq<Row>, n: nat, g: Projection)
    requires n <= |a| && n <= |b|
    requires forall i :: 0 <= i < n ==> a[i] == b[i]
    ensures KeysTo(a, n, g) == KeysTo(b, n, g)
  {
    if n > 0 {
      KeysPrefix(a, b, n - 1, g);
    }
  }

  lemma {:induction false} KeysAppendTo(a: seq<Row>, b: seq<Row>, n: nat, g: Projection)
    requires n <= |b|
    ensures KeysTo(a + b, |a| + n, g) == Keys(a, g) + KeysTo(b, n, g)
  {
    if n == 0 {
      KeysPrefix(a + b, a, |a|, g);
    } else {
      KeysAppendTo(a, b, n - 1, g);
    }
  }

  /** Adds a row to the entry of its group, as the accumulating loops do. */
  function Tally(t: map<Key, Bytes>, r: Row, g: Projection): (u: map<Key, Bytes>)
    ensures u.Keys == t.Keys + {g.Of(r.Id())}
  {
    AddAt(t, g.Of(r.Id()), r.bytes)
  }

  /** The table that grouping the first `n` rows builds, one upsert per row: one entry per group. */
  function AggregateTo(rows: seq<Row>, n: nat, g: Projection): (t: map<Key, Bytes>)
    requires n <= |rows|
    ensures t.Keys == KeysTo(rows, n, g)
  {
    if n == 0 then map[] else Tally(AggregateTo(rows, n - 1, g), rows[n - 1], g)
  }

  function Aggregate(rows: seq<Row>, g: Projection): map<Key, Bytes> {
    AggregateTo(rows, |rows|, g)
  }

  /** One column of the entry at `k`, or zero where there is none. */
  function Get(t: map<Key, Bytes>, k: Key, c: Column): int {
    if k in t then Cell(t[k], c) else 0
  }

  /** `INSERT ... ON CONFLICT DO UPDATE SET rx = rx + excluded.rx, ...` for one row. */
  function AddAt(t: map<Key, Bytes>, k: Key, b: Bytes): (u: map<Key, Bytes>)
    ensures u.Keys == t.Keys + {k}
  {
    t[k := Bytes(Flow(Get(t, k, Rx) + b.all.rx, Get(t, k, Tx) + b.all.tx),
                 Flow(Get(t, k, LanRx) + b.lan.rx, Get(t, k, LanTx) + b.lan.tx))]
  }

  /** The same upsert for every entry of `u`. */
  function Merge(t: map<Key, Bytes>, u: map<Key, Bytes>): (m: map<Key, Bytes>)
    ensures m.Keys == t.Keys + u.Keys
  {
    map k | k in t.Keys + u.Keys ::
      Bytes(Flow(Get(t, k, Rx) + Get(u, k, Rx), Get(t, k, Tx) + Get(u, k, Tx)),
            Flow(Get(t, k, LanRx) + Get(u, k, LanRx), Get(t, k, LanTx) + Get(u, k, LanTx)))
  }

  lemma SameMap<K, V>(t: map<K, V>, u: map<K, V>)
    requires t.Keys == u.Keys
    requires forall k :: k in t ==> t[k] == u[k]
    ensures t == u
  {
  }

  lemma SameBytes(a: Bytes, b: Bytes)
    requires forall c: Column :: Cell(a, c) == Cell(b, c)
    ensures a == b
  {
    assert Cell(a, Rx) == Cell(b, Rx) && Cell(a, Tx) == Cell(b, Tx);
    assert Cell(a, LanRx) == Cell(b, LanRx) && Cell(a, LanTx) == Cell(b, LanTx);
  }

  /** Tables with the same keys and the same columns are the same table. */
  lemma SameTable(t: map<Key, Bytes>, u: map<Key, Bytes>)
    requires t.Keys == u.Keys
    requires forall k, c :: k in t ==> Get(t, k, c) == Get(u, k, c)
    ensures t == u
  {
    forall k | k in t ensures t[k] == u[k] {
      forall c: Column ensures Cell(t[k], c) == Cell(u[k], c) {
        assert Get(t, k, c) == Get(u, k, c);
      }
      SameBytes(t[k], u[k]);
    }
    SameMap(t, u);
  }

  lemma GetMerge(t: map<Key, Bytes>, u: map<Key, Bytes>, k: Key, c: Column)
    ensures Get(Merge(t, u), k, c) == Get(t, k, c) + Get(u, k, c)
  {
  }

  lemma GetAddAt(t: map<Key, Bytes>, i: Key, b: Bytes, k: Key, c: Column)
    ensures Get(AddAt(t, i, b), k, c) == Get(t, k, c) + (if i == k then Cell(b, c) else 0)
  {
  }

  /** An entry is the sum of its group; where there is no entry, the group is empty. */
  lemma {:induction false} GetAggregateTo(rows: seq<Row>, n: nat, g: Projection, k: Key, c: Column)
    requires n <= |rows|
    ensures Get(AggregateTo(rows, n, g), k, c) == ColumnTo(rows, n, InGroup(g, k), c)
  {
    if n > 0 {
      GetAggregateTo(rows, n - 1, g, k, c);
      GetAddAt(AggregateTo(rows, n - 1, g), g.Of(rows[n - 1].Id()), rows[n - 1].bytes, k, c);
    }
  }

  lemma GetAggregate(rows: seq<Row>, g: Projection, k: Key, c: Column)
    ensures Get(Aggregate(rows, g), k, c) == ColumnSum(rows, InGroup(g, k), c)
  {
    GetAggregateTo(rows, |rows|, g, k, c);
  }

  lemma AggregateAt(rows: seq<Row>, g: Projection, k: Key)
    requires k in Keys(rows, g)
    ensures Aggregate(rows, g)[k] == Sum(rows, InGroup(g, k))
  {
    var a, b := Aggregate(rows, g)[k], Sum(rows, InGroup(g, k));
    forall c: Column ensures Cell(a, c) == Cell(b, c) {
      GetAggregate(rows, g, k, c);
    }
    SameBytes(a, b);
  }

  /** Incremental aggregation is aggregation of everything: the heart of the rollup. */
  lemma AggregateAppend(a: seq<Row>, b: seq<Row>, g: Projection)
    ensures Aggregate(a + b, g) == Merge(Aggregate(a, g), Aggregate(b, g))
  {
    var t, u := Aggregate(a + b, g), Merge(Aggregate(a, g), Aggregate(b, g));
    KeysAppendTo(a, b, |b|, g);
    forall k, c | k in t ensures Get(t, k, c) == Get(u, k, c) {
      GetAggregate(a + b, g, k, c);
      ColumnAppend(a, b, InGroup(g, k), c);
      GetAggregate(a, g, k, c);
      GetAggregate(b, g, k, c);
      GetMerge(Aggregate(a, g), Aggregate(b, g), k, c);
    }
    SameTable(t, u);
  }

  lemma KeysPermutation(a: seq<Row>, b: seq<Row>, g: Projection)
    requires multiset(a) == multiset(b)
    ensures Keys(a, g) <= Keys(b, g)
  {
    KeysMembers(a, |a|, g);
    KeysMembers(b, |b|, g);
    forall k | k in Keys(a, g) ensures k in Keys(b, g) {
      var i :| 0 <= i < |a| && g.Of(a[i].Id()) == k;
      assert a[i] in multiset(b);
      var j :| 0 <= j < |b| && b[j] == a[i];
    }
  }

  /** A table folded from the same rows in another order is the same table. */
  lemma AggregatePermutation(a: seq<Row>, b: seq<Row>, g: Projection)
    requires multiset(a) == multiset(b)
    ensures Aggregate(a, g) == Aggregate(b, g)
  {
    var t, u := Aggregate(a, g), Aggregate(b, g);
    KeysPermutation(a, b, g);
    KeysPermutation(b, a, g);
    forall k, c | k in t ensures Get(t, k, c) == Get(u, k, c) {
      GetAggregate(a, g, k, c);
      GetAggregate(b, g, k, c);
      ColumnPermutation(a, b, InGroup(g, k), c);
    }
    SameTable(t, u);
  }

  lemma {:induction false} KeysCongruent(rows: seq<Row>, n: nat, g: Projection, h: Projection)
    requires n <= |rows|
    requires forall i :: 0 <= i < n ==> g.Of(rows[i].Id()) == h.Of(rows[i].Id())
    ensures KeysTo(rows, n, g) == KeysTo(rows, n, h)
  {
    if n > 0 {
      KeysCongruent(rows, n - 1, g, h);
    }
  }

  /** Projections that agree on the rows group them alike. */
  lemma AggregateCongruent(rows: seq<Row>, g: Projection, h: Projection)
    requires forall i :: 0 <= i < |rows| ==> g.Of(rows[i].Id()) == h.Of(rows[i].Id())
    ensures Aggregate(rows, g) == Aggregate(rows, h)
  {
    var t, u := Aggregate(rows, g), Aggregate(rows, h);
    KeysCongruent(rows, |rows|, g, h);
    forall k, c | k in t ensures Get(t, k, c) == Get(u, k, c) {
      GetAggregate(rows, g, k, c);
      GetAggregate(rows, h, k, c);
      ColumnCongruent(rows, |rows|, InGroup(g, k), InGroup(h, k), c);
    }
    SameTable(t, u);
  }

  // ---------- grouping twice ----------

  /** Projects by `g` first, then by `h`. */
  function Compose(h: Projection, g: Projection): Projection {
    Projection(t => h.floor(g.floor(t)), g.merged || h.merged)
  }

  function IdsTo(rows: seq<Row>, n: nat): set<Key>
    requires n <= |rows|
  {
    if n == 0 then {} else IdsTo(rows, n - 1) + {rows[n - 1].Id()}
  }

  function Ids(rows: seq<Row>): set<Key> {
    IdsTo(rows, |rows|)
  }

  predicate DistinctTo(rows: seq<Row>, n: nat)
    requires n <= |rows|
  {
    n == 0 || (DistinctTo(rows, n - 1) && rows[n - 1].Id() !in IdsTo(rows, n - 1))
  }

  /** No two rows share a primary key. */
  predicate DistinctIds(rows: seq<Row>) {
    DistinctTo(rows, |rows|)
  }

  predicate IsEntry(r: Row, t: map<Key, Bytes>) {
    r.Id() in t && t[r.Id()] == r.bytes
  }

  predicate EntriesTo(rows: seq<Row>, n: nat, t: map<Key, Bytes>)
    requires n <= |rows|
  {
    n == 0 || (EntriesTo(rows, n - 1, t) && IsEntry(rows[n - 1], t))
  }

  /** `rows` holds exactly the entries of table `t`, each once, in some order. */
  predicate Lists(rows: seq<Row>, t: map<Key, Bytes>) {
    DistinctIds(rows) && EntriesTo(rows, |rows|, t) && |rows| == |t|
  }

  lemma {:induction false} IdsCount(rows: seq<Row>, n: nat, t: map<Key, Bytes>)
    requires n <= |rows| && DistinctTo(rows, n)
    ensures |IdsTo(rows, n)| == n && (EntriesTo(rows, n, t) ==> IdsTo(rows, n) <= t.Keys)
  {
    if n > 0 {
      IdsCount(rows, n - 1, t);
    }
  }

  lemma SubsetOfSameSize(a: set<Key>, b: set<Key>)
    requires a <= b && |a| == |b|
    ensures a == b
  {
    assert |b - a| == |b| - |a|;
    assert b - a == {};
  }

  /** Distinct entries are all of them exactly if they are as many. */
  lemma ListsKeys(rows: seq<Row>, t: map<Key, Bytes>)
    requires DistinctIds(rows) && EntriesTo(rows, |rows|, t)
    ensures |rows| == |t| <==> Ids(rows) == t.Keys
  {
    IdsCount(rows, |rows|, t);
    assert |t.Keys| == |t|;
    if |rows| == |t| {
      SubsetOfSameSize(Ids(rows), t.Keys);
    }
  }

  lemma {:induction false} EntriesAre(rows: seq<Row>, n: nat, t: map<Key, Bytes>)
    requires n <= |rows|
    ensures EntriesTo(rows, n, t) <==> forall i :: 0 <= i < n ==> IsEntry(rows[i], t)
  {
    if n > 0 {
      EntriesAre(rows, n - 1, t);
    }
  }

  /** The sum, over those of the first `m` groups that `h` sends to `k`, of the first `n` rows in each group. */
  function Nested(
      groups: seq<Row>, m: nat, rows: seq<Row>, n: nat, h: Projection, g: Projection, k: Key, c: Column): int
    requires m <= |groups| && n <= |rows|
  {
    if m == 0 then 0
    else
      Nested(groups, m - 1, rows, n, h, g, k, c)
      + (if InGroup(h, k).Holds(groups[m - 1].Id()) then ColumnTo(rows, n, InGroup(g, groups[m - 1].Id()), c) else 0)
  }

  lemma {:induction false} ColumnIsNested(
    groups: seq<Row>, m: nat, rows: seq<Row>, h: Projection, g: Projection, k: Key, c: Column)
    requires m <= |groups|
    requires forall i :: 0 <= i < m ==> groups[i].bytes == Sum(rows, InGroup(g, groups[i].Id()))
    ensures ColumnTo(groups, m, InGroup(h, k), c) == Nested(groups, m, rows, |rows|, h, g, k, c)
  {
    if m > 0 {
      ColumnIsNested(groups, m - 1, rows, h, g, k, c);
    }
  }

  /** A further row counts once: in the one group it belongs to. */
  lemma {:induction false} NestedOneMore(
    groups: seq<Row>, m: nat, rows: seq<Row>, n: nat, h: Projection, g: Projection, k: Key, c: Column)
    requires m <= |groups| && n < |rows| && DistinctTo(groups, m)
    ensures var group := g.Of(rows[n].Id());
            Nested(groups, m, rows, n + 1, h, g, k, c)
            == Nested(groups, m, rows, n, h, g, k, c)
             + (if group in IdsTo(groups, m) && h.Of(group) == k then Cell(rows[n].bytes, c) else 0)
  {
    if m > 0 {
      NestedOneMore(groups, m - 1, rows, n, h, g, k, c);
    }
  }

  lemma {:induction false} NestedOfNoRows(
    groups: seq<Row>, m: nat, rows: seq<Row>, h: Projection, g: Projection, k: Key, c: Column)
    requires m <= |groups|
    ensures Nested(groups, m, rows, 0, h, g, k, c) == 0
  {
    if m > 0 {
      NestedOfNoRows(groups, m - 1, rows, h, g, k, c);
    }
  }

  lemma {:induction false} NestedIsColumn(
    groups: seq<Row>, rows: seq<Row>, n: nat, h: Projection, g: Projection, k: Key, c: Column)
    requires n <= |rows| && DistinctIds(groups) && KeysTo(rows, n, g) <= Ids(groups)
    ensures Nested(groups, |groups|, rows, n, h, g, k, c) == ColumnTo(rows, n, InGroup(Compose(h, g), k), c)
  {
    if n == 0 {
      NestedOfNoRows(groups, |groups|, rows, h, g, k, c);
    } else {
      NestedIsColumn(groups, rows, n - 1, h, g, k, c);
      NestedOneMore(groups, |groups|, rows, n - 1, h, g, k, c);
    }
  }

  lemma {:induction false} KeysOfIds(groups: seq<Row>, m: nat, h: Projection)
    requires m <= |groups|
    ensures KeysTo(groups, m, h) == set i | i in IdsTo(groups, m) :: h.Of(i)
  {
    if m > 0 {
      KeysOfIds(groups, m - 1, h);
    }
  }

  lemma {:induction false} KeysOfKeys(rows: seq<Row>, n: nat, h: Projection, g: Projection)
    requires n <= |rows|
    ensures KeysTo(rows, n, Compose(h, g)) == set i | i in KeysTo(rows, n, g) :: h.Of(i)
  {
    if n > 0 {
      KeysOfKeys(rows, n - 1, h, g);
      assert Compose(h, g).Of(rows[n - 1].Id()) == h.Of(g.Of(rows[n - 1].Id()));
    }
  }

  lemma GroupsAreSums(groups: seq<Row>, rows: seq<Row>, g: Projection)
    requires Lists(groups, Aggregate(rows, g))
    ensures forall i :: 0 <= i < |groups| ==> groups[i].bytes == Sum(rows, InGroup(g, groups[i].Id()))
  {
    EntriesAre(groups, |groups|, Aggregate(rows, g));
    forall i | 0 <= i < |groups| ensures groups[i].bytes == Sum(rows, InGroup(g, groups[i].Id())) {
      AggregateAt(rows, g, groups[i].Id());
    }
  }

  /** Grouping the groups is grouping once by the composed projection. */
  lemma GroupTheGroups(groups: seq<Row>, rows: seq<Row>, h: Projection, g: Projection)
    requires Lists(groups, Aggregate(rows, g))
    ensures Aggregate(groups, h) == Aggregate(rows, Compose(h, g))
  {
    var t, u := Aggregate(groups, h), Aggregate(rows, Compose(h, g));
    ListsKeys(groups, Aggregate(rows, g));
    KeysOfIds(groups, |groups|, h);
    KeysOfKeys(rows, |rows|, h, g);
    GroupsAreSums(groups, rows, g);
    forall k, c | k in t ensures Get(t, k, c) == Get(u, k, c) {
      GetAggregate(groups, h, k, c);
      GetAggregate(rows, Compose(h, g), k, c);
      ColumnIsNested(groups, |groups|, rows, h, g, k, c);
      NestedIsColumn(groups, rows, |rows|, h, g, k, c);
    }
    SameTable(t, u);
  }

  // ---------- TOTAL = LAN + WAN ----------

  ghost predicate AllSound(rows: seq<Row>) {
    forall i :: 0 <= i < |rows| ==> rows[i].bytes.Sound()
  }

  lemma {:induction false} ColumnsSound(rows: seq<Row>, n: nat, p: Where)
    requires n <= |rows| && AllSound(rows)
    ensures 0 <= ColumnTo(rows, n, p, LanRx) <= ColumnTo(rows, n, p, Rx)
    ensures 0 <= ColumnTo(rows, n, p, LanTx) <= ColumnTo(rows, n, p, Tx)
  {
    if n > 0 {
      ColumnsSound(rows, n - 1, p);
    }
  }

  /** WAN is what LAN leaves of the total, and nothing where LAN is the larger. */
  lemma WanOfAnyRow(b: Bytes)
    ensures b.WanRx() >= 0 && b.WanTx() >= 0
    ensures if b.lan.rx <= b.all.rx then b.lan.rx + b.WanRx() == b.all.rx else b.WanRx() == 0
    ensures if b.lan.tx <= b.all.tx then b.lan.tx + b.WanTx() == b.all.tx else b.WanTx() == 0
  {
  }

  /** Sums of sound rows are sound: TOTAL is LAN plus WAN, and the clamp is inert. */
  lemma SumSound(rows: seq<Row>, p: Where)
    requires AllSound(rows)
    ensures Sum(rows, p).Sound()
    ensures Sum(rows, p).Total() == Sum(rows, p).Wan() + Sum(rows, p).lan.Total()
  {
    ColumnsSound(rows, |rows|, p);
  }

  /** The WAN bytes of the rows that satisfy `p`, row by row. */
  function WanTo(rows: seq<Row>, n: nat, p: Where): int
    requires n <= |rows|
  {
    if n == 0 then 0 else WanTo(rows, n - 1, p) + (if p.Holds(rows[n - 1].Id()) then rows[n - 1].bytes.Wan() else 0)
  }

  /** The WAN part of a merged row is the sum of the parts' WAN: clamping before or after merging is the same. */
  lemma {:induction false} WanAdds(rows: seq<Row>, n: nat, p: Where)
    requires n <= |rows| && AllSound(rows)
    ensures SumTo(rows, n, p).Wan() == WanTo(rows, n, p)
  {
    ColumnsSound(rows, n, p);
    if n > 0 {
      WanAdds(rows, n - 1, p);
      ColumnsSound(rows, n - 1, p);
    }
  }

  lemma AggregateSound(rows: seq<Row>, g: Projection)
    requires AllSound(rows)
    ensures forall k :: k in Aggregate(rows, g) ==> Aggregate(rows, g)[k].Sound()
  {
    forall k | k in Aggregate(rows, g) ensures Aggregate(rows, g)[k].Sound() {
      AggregateAt(rows, g, k);
      SumSound(rows, InGroup(g, k));
    }
  }
}

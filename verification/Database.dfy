/** The SQLite file as an object: each method is one transaction of the daemon. */
module Database {
  import opened Traffic
  import opened Aggregation
  import opened Ledger
  import opened Retention

  /** Adds every entry of `u` to `t`, in whatever order the hash map yields them. */
  method UpsertAll(t: map<Key, Bytes>, u: map<Key, Bytes>) returns (m: map<Key, Bytes>)
    ensures m == Merge(t, u)
  {
    m := t;
    var left := u.Keys;
    while left != {}
      invariant left <= u.Keys
      invariant m.Keys == t.Keys + (u.Keys - left)
      invariant forall k :: k in m ==> m[k] == if k in u && k !in left then Merge(t, u)[k] else t[k]
    {
      var k :| k in left;
      m := AddAt(m, k, u[k]);
      left := left - {k};
    }
    SameMap(m, Merge(t, u));
  }

  lemma {:induction false} RunPrefix(a: seq<Step>, b: seq<Step>, n: nat, f: Floors)
    requires n <= |a| && n <= |b|
    requires forall i :: 0 <= i < n ==> a[i] == b[i]
    ensures RunTo(a, n, f) == RunTo(b, n, f)
  {
    if n > 0 {
      RunPrefix(a, b, n - 1, f);
    }
  }

  lemma RunOneMore(steps: seq<Step>, step: Step, f: Floors)
    ensures Run(steps + [step], f) == Next(Run(steps, f), step, f)
  {
    RunPrefix(steps + [step], steps, |steps|, f);
  }

  class Database {
    const floors: Floors
    var samples: seq<Row>
    var hourly: map<Key, Bytes>
    var daily: map<Key, Bytes>
    var monthly: map<Key, Bytes>
    var marker: Option<int>
    ghost var steps: seq<Step>

    /** The tables are where the transactions so far lead: all that is proved of runs holds of them. */
    ghost predicate Valid()
      reads this
    {
      Store(samples, hourly, daily, monthly, marker) == Run(steps, floors).store
    }

    constructor (floors: Floors)
      ensures Valid() && this.floors == floors && steps == []
    {
      this.floors := floors;
      samples, hourly, daily, monthly, marker := [], map[], map[], map[], None;
      steps := [];
    }

    /** One tick's upserts into `samples`, committed together. */
    method Insert(rows: seq<Row>)
      requires Valid()
      modifies this
      ensures Valid() && steps == old(steps) + [Step.Insert(rows)]
      ensures forall r :: r in samples <==>
                if LastIn(rows, |rows|, r.Id()).Some? then LastIn(rows, |rows|, r.Id()) == Some(r)
                else r in old(samples)
      ensures hourly == old(hourly) && daily == old(daily) && monthly == old(monthly) && marker == old(marker)
    {
      ghost var l := Run(steps, floors);
      forall r ensures r in InsertTo(l, rows, |rows|).store.samples <==>
                         if LastIn(rows, |rows|, r.Id()).Some? then LastIn(rows, |rows|, r.Id()) == Some(r)
                         else r in samples
      {
        InsertToMembers(l, rows, |rows|, r);
      }
      RunOneMore(steps, Step.Insert(rows), floors);
      InsertLeavesRollups(l, rows, |rows|);
      samples := UpsertRows(samples, rows, l);
      steps := steps + [Step.Insert(rows)];
    }

    /** `rollup`: reads the samples past the marker, groups them three ways, and adds the groups. */
    method RollUp(commits: bool)
      requires Valid()
      modifies this
      ensures Valid() && steps == old(steps) + [if commits then Step.RollUp else AbortedRollUp]
      ensures samples == old(samples)
      ensures !commits ==>
                hourly == old(hourly) && daily == old(daily) && monthly == old(monthly) && marker == old(marker)
    {
      RunOneMore(steps, if commits then Step.RollUp else AbortedRollUp, floors);
      var next := RollUpStore(Store(samples, hourly, daily, monthly, marker), floors);
      if commits {
        hourly, daily, monthly, marker := next.hourly, next.daily, next.monthly, next.marker;
      }
      steps := steps + [if commits then Step.RollUp else AbortedRollUp];
    }

    /** `enforce_retention`: deletes raw samples and hourly buckets before their cuts. */
    method Prune(cutRaw: int, cutHour: int)
      requires Valid()
      modifies this
      ensures Valid() && steps == old(steps) + [Step.Prune(cutRaw, cutHour)]
      ensures forall r :: r in samples <==> r in old(samples) && r.ts >= cutRaw
      ensures forall k :: k in hourly <==> k in old(hourly) && k.ts >= cutHour
      ensures forall k :: k in hourly ==> hourly[k] == old(hourly)[k]
      ensures daily == old(daily) && monthly == old(monthly) && marker == old(marker)
    {
      ghost var s := Store(samples, hourly, daily, monthly, marker);
      forall r ensures r in Pruned(s, cutRaw, cutHour).samples <==> r in samples && r.ts >= cutRaw {
        PruneDeletesSamples(s, cutRaw, cutHour, r);
      }
      RunOneMore(steps, Step.Prune(cutRaw, cutHour), floors);
      samples := Select(samples, Not(Before(cutRaw)));
      hourly := From(hourly, cutHour);
      steps := steps + [Step.Prune(cutRaw, cutHour)];
    }
  }

  /** One upsert after the other. */
  method UpsertRows(samples: seq<Row>, rows: seq<Row>, ghost l: Ledger) returns (staged: seq<Row>)
    requires l.store.samples == samples
    ensures staged == InsertTo(l, rows, |rows|).store.samples
  {
    staged := samples;
    for i := 0 to |rows|
      invariant staged == InsertTo(l, rows, i).store.samples
    {
      staged := Select(staged, Not(WithId(rows[i].Id())));
      staged := staged + [rows[i]];
    }
  }

  /** The body of `rollup` up to its commit. */
  method RollUpStore(s: Store, f: Floors) returns (n: Store)
    ensures n == RolledUp(s, f)
  {
    var rows := Select(s.samples, NewerThan(s.marker));
    if |rows| == 0 {
      return s;
    }
    var maxTs := Newest(rows);
    var h, d, m := GroupThreeWays(rows, f);
    var first := s.marker.None?;
    h := UpsertAll(if first then map[] else s.hourly, h);
    d := UpsertAll(if first then map[] else s.daily, d);
    m := UpsertAll(if first then map[] else s.monthly, m);
    n := Store(s.samples, h, d, m, Some(maxTs));
  }

  /** `SELECT ... FROM samples WHERE p`. */
  method Select(samples: seq<Row>, p: Where) returns (rows: seq<Row>)
    ensures rows == Keep(samples, p)
  {
    rows := [];
    for i := 0 to |samples|
      invariant rows == KeepTo(samples, i, p)
    {
      if p.Holds(samples[i].Id()) {
        rows := rows + [samples[i]];
      }
    }
  }

  method Newest(rows: seq<Row>) returns (ts: int)
    requires rows != []
    ensures ts == Latest(rows)
  {
    ts := rows[0].ts;
    for i := 1 to |rows|
      invariant ts == LatestTo(rows, i)
    {
      if rows[i].ts > ts {
        ts := rows[i].ts;
      }
    }
  }

  lemma OneMoreRow(t: map<Key, Bytes>, rows: seq<Row>, n: nat, g: Projection)
    requires n < |rows| && t == AggregateTo(rows, n, g)
    ensures Tally(t, rows[n], g) == AggregateTo(rows, n + 1, g)
  {
  }

  /** The loop of `rollup`: three hash maps filled side by side. */
  method GroupThreeWays(rows: seq<Row>, f: Floors)
    returns (h: map<Key, Bytes>, d: map<Key, Bytes>, m: map<Key, Bytes>)
    ensures h == Aggregate(rows, By(f.hour))
    ensures d == Aggregate(rows, By(f.day))
    ensures m == Aggregate(rows, By(f.month))
  {
    h, d, m := map[], map[], map[];
    for i := 0 to |rows|
      invariant h == AggregateTo(rows, i, By(f.hour))
      invariant d == AggregateTo(rows, i, By(f.day))
      invariant m == AggregateTo(rows, i, By(f.month))
    {
      OneMoreRow(h, rows, i, By(f.hour));
      OneMoreRow(d, rows, i, By(f.day));
      OneMoreRow(m, rows, i, By(f.month));
      h := Tally(h, rows[i], By(f.hour));
      d := Tally(d, rows[i], By(f.day));
      m := Tally(m, rows[i], By(f.month));
    }
  }
}

/**
  What the two pruned tables hold after any run: of the samples the last row written under
  each key since retention last reached it, of each hourly bucket the rows folded since then.
 */
module Retention {
  import opened Traffic
  import opened Aggregation
  import opened Ledger

  // ---------- one step ----------

  /** Retention deletes the hourly buckets before the cut and keeps the others as they are. */
  lemma PruneDeletesHours(s: Store, cutRaw: int, cutHour: int, k: Key)
    ensures var n := Pruned(s, cutRaw, cutHour);
            && (k in n.hourly <==> k in s.hourly && k.ts >= cutHour)
            && (k in n.hourly ==> n.hourly[k] == s.hourly[k])
            && n.daily == s.daily && n.monthly == s.monthly && n.marker == s.marker
  {
  }

  /** And the samples before the other cut. */
  lemma PruneDeletesSamples(s: Store, cutRaw: int, cutHour: int, r: Row)
    ensures r in Pruned(s, cutRaw, cutHour).samples <==> r in s.samples && r.ts >= cutRaw
  {
    KeepMembers(s.samples, Not(Before(cutRaw)), r);
    assert Before(cutRaw).Holds(r.Id()) <==> r.ts < cutRaw;
  }

  /** An upsert stores the row and leaves the rows with other keys. */
  lemma InsertedMembers(s: Store, x: Row, r: Row)
    ensures r in Inserted(s, x).samples <==> r == x || (r in s.samples && r.Id() != x.Id())
  {
    KeepMembers(s.samples, Not(WithId(x.Id())), r);
    assert Not(WithId(x.Id())).Holds(r.Id()) <==> r.Id() != x.Id();
  }

  /** The first rollup of a database builds the tables from its samples alone, whatever they held. */
  lemma FirstRollUpRebuilds(s: Store, f: Floors)
    requires s.marker.None? && s.samples != []
    ensures var n := RolledUp(s, f);
            && n.hourly == Aggregate(s.samples, By(f.hour))
            && n.daily == Aggregate(s.samples, By(f.day))
            && n.monthly == Aggregate(s.samples, By(f.month))
  {
    KeepAll(s.samples, NewerThan(s.marker));
    MergeIntoNone(Aggregate(s.samples, By(f.hour)));
    MergeIntoNone(Aggregate(s.samples, By(f.day)));
    MergeIntoNone(Aggregate(s.samples, By(f.month)));
  }

  // ---------- samples ----------

  /** The last of the first `n` rows with key `k`. */
  function LastIn(rows: seq<Row>, n: nat, k: Key): Option<Row>
    requires n <= |rows|
  {
    if n == 0 then None else if rows[n - 1].Id() == k then Some(rows[n - 1]) else LastIn(rows, n - 1, k)
  }

  /** What a step makes of the row last written under key `k`. */
  function WrittenAfter(before: Option<Row>, step: Step, k: Key): Option<Row> {
    match step
    case Insert(rows) => if LastIn(rows, |rows|, k).Some? then LastIn(rows, |rows|, k) else before
    case Prune(cutRaw, _) => if k.ts < cutRaw then None else before
    case _ => before
  }

  /** The last row written under key `k`, unless retention has reached the key since. */
  function WrittenTo(steps: seq<Step>, n: nat, k: Key): Option<Row>
    requires n <= |steps|
  {
    if n == 0 then None else WrittenAfter(WrittenTo(steps, n - 1, k), steps[n - 1], k)
  }

  lemma {:induction false} LastInHasKey(rows: seq<Row>, n: nat, k: Key)
    requires n <= |rows|
    ensures LastIn(rows, n, k).Some? ==> LastIn(rows, n, k).value.Id() == k
  {
    if n > 0 {
      LastInHasKey(rows, n - 1, k);
    }
  }

  lemma {:induction false} InsertToMembers(l: Ledger, rows: seq<Row>, n: nat, r: Row)
    requires n <= |rows|
    ensures r in InsertTo(l, rows, n).store.samples
       <==> if LastIn(rows, n, r.Id()).Some? then LastIn(rows, n, r.Id()) == Some(r) else r in l.store.samples
  {
    if n > 0 {
      InsertToMembers(l, rows, n - 1, r);
      InsertedMembers(InsertTo(l, rows, n - 1).store, rows[n - 1], r);
    }
  }

  lemma StepMembers(l: Ledger, step: Step, f: Floors, before: Option<Row>, r: Row)
    requires r in l.store.samples <==> before == Some(r)
    ensures r in Next(l, step, f).store.samples <==> WrittenAfter(before, step, r.Id()) == Some(r)
  {
    match step
    case Insert(rows) => InsertToMembers(l, rows, |rows|, r);
    case Prune(cutRaw, cutHour) => PruneDeletesSamples(l.store, cutRaw, cutHour, r);
    case _ =>
  }

  /** In every run the sample table has for each key exactly the row written last, once. */
  lemma {:induction false} SamplesAreWritten(steps: seq<Step>, n: nat, f: Floors, r: Row)
    requires n <= |steps|
    ensures r in RunTo(steps, n, f).store.samples <==> WrittenTo(steps, n, r.Id()) == Some(r)
    ensures DistinctIds(RunTo(steps, n, f).store.samples)
  {
    RunKeepsInv(steps, n, f);
    if n > 0 {
      SamplesAreWritten(steps, n - 1, f, r);
      StepMembers(RunTo(steps, n - 1, f), steps[n - 1], f, WrittenTo(steps, n - 1, r.Id()), r);
    }
  }

  // ---------- hourly buckets ----------

  /** What a step makes of the rows folded since retention last reached bucket `k`. */
  function FoldedAfter(since: seq<Row>, step: Step, pending: seq<Row>, k: Key): seq<Row> {
    match step
    case RollUp => since + pending
    case Prune(_, cutHour) => if k.ts < cutHour then [] else since
    case _ => since
  }

  /** The rows folded since retention last reached bucket `k` of the hourly table. */
  function FoldedSince(steps: seq<Step>, n: nat, k: Key, f: Floors): seq<Row>
    requires n <= |steps|
  {
    if n == 0 then []
    else FoldedAfter(FoldedSince(steps, n - 1, k, f), steps[n - 1], Pending(RunTo(steps, n - 1, f).store), k)
  }

  lemma {:induction false} NothingFoldedSince(steps: seq<Step>, n: nat, k: Key, f: Floors)
    requires n <= |steps| && RunTo(steps, n, f).folded == []
    ensures FoldedSince(steps, n, k, f) == []
  {
    if n > 0 {
      var l := RunTo(steps, n - 1, f);
      if steps[n - 1].Insert? {
        InsertLeavesRollups(l, steps[n - 1].rows, |steps[n - 1].rows|);
      }
      assert l.folded == [];
      NothingFoldedSince(steps, n - 1, k, f);
    }
  }

  lemma FirstHasNone(steps: seq<Step>, n: nat, k: Key, f: Floors)
    requires n <= |steps| && RunTo(steps, n, f).store.marker.None?
    ensures FoldedSince(steps, n, k, f) == []
  {
    RunKeepsInv(steps, n, f);
    NothingFoldedSince(steps, n, k, f);
  }

  lemma RollUpAgrees(s: Store, since: seq<Row>, k: Key, f: Floors)
    requires AgreeAt(s.hourly, Aggregate(since, By(f.hour)), k)
    requires s.marker.None? ==> since == []
    ensures AgreeAt(RolledUp(s, f).hourly, Aggregate(since + Pending(s), By(f.hour)), k)
  {
    var rows, first := Pending(s), s.marker.None?;
    if rows == [] {
      assert since + rows == since;
    } else {
      var base := if first then map[] else s.hourly;
      assert AgreeAt(base, Aggregate(since, By(f.hour)), k);
      MergeAgreeAt(base, Aggregate(since, By(f.hour)), Aggregate(rows, By(f.hour)), k);
      AggregateAppend(since, rows, By(f.hour));
    }
  }

  lemma StepAgrees(l: Ledger, step: Step, f: Floors, since: seq<Row>, k: Key)
    requires AgreeAt(l.store.hourly, Aggregate(since, By(f.hour)), k)
    requires l.store.marker.None? ==> since == []
    ensures AgreeAt(Next(l, step, f).store.hourly,
                    Aggregate(FoldedAfter(since, step, Pending(l.store), k), By(f.hour)), k)
  {
    match step
    case Insert(rows) => InsertLeavesRollups(l, rows, |rows|);
    case RollUp => RollUpAgrees(l.store, since, k, f);
    case AbortedRollUp =>
    case Prune(cutRaw, cutHour) => PruneDeletesHours(l.store, cutRaw, cutHour, k);
  }

  predicate HoursFolded(steps: seq<Step>, n: nat, f: Floors, k: Key)
    requires n <= |steps|
  {
    AgreeAt(RunTo(steps, n, f).store.hourly, Aggregate(FoldedSince(steps, n, k, f), By(f.hour)), k)
  }

  lemma HoursFoldedNext(steps: seq<Step>, n: nat, f: Floors, k: Key)
    requires 0 < n <= |steps| && HoursFolded(steps, n - 1, f, k)
    ensures HoursFolded(steps, n, f, k)
  {
    var l := RunTo(steps, n - 1, f);
    if l.store.marker.None? {
      FirstHasNone(steps, n - 1, k, f);
    }
    StepAgrees(l, steps[n - 1], f, FoldedSince(steps, n - 1, k, f), k);
  }

  lemma {:induction false} HoursFoldedTo(steps: seq<Step>, n: nat, f: Floors, k: Key)
    requires n <= |steps|
    ensures HoursFolded(steps, n, f, k)
  {
    if n > 0 {
      HoursFoldedTo(steps, n - 1, f, k);
      HoursFoldedNext(steps, n, f, k);
    }
  }

  /**
    In every run, with losses or without, and on either side of the cuts: an hourly bucket
    is the aggregate of the rows folded since retention last reached it, and there is no
    bucket if there are no such rows.
   */
  lemma HoursAreFoldedSince(steps: seq<Step>, f: Floors, k: Key)
    ensures AgreeAt(Run(steps, f).store.hourly, Aggregate(FoldedSince(steps, |steps|, k, f), By(f.hour)), k)
  {
    HoursFoldedTo(steps, |steps|, f, k);
  }

  /** Right after retention no hourly bucket is before its cut, and no sample before the other. */
  lemma NothingBeforeTheCuts(steps: seq<Step>, cutRaw: int, cutHour: int, f: Floors)
    requires steps != [] && steps[|steps| - 1] == Prune(cutRaw, cutHour)
    ensures forall k :: k in Run(steps, f).store.hourly ==> k.ts >= cutHour
    ensures forall r :: r in Run(steps, f).store.samples ==> r.ts >= cutRaw
  {
    var s := RunTo(steps, |steps| - 1, f).store;
    forall k | k in Run(steps, f).store.hourly ensures k.ts >= cutHour {
      PruneDeletesHours(s, cutRaw, cutHour, k);
    }
    forall r | r in Run(steps, f).store.samples ensures r.ts >= cutRaw {
      PruneDeletesSamples(s, cutRaw, cutHour, r);
    }
  }
}

/**
  Two threads and a table: the capture thread accounts and folds, the daemon takes the
  shared totals and adds them to `proc_hourly`. Any interleaving of their atomic steps,
  with thread deaths, daemon crashes and retention, conserves bytes.
 */
module Pipeline {
  import opened MapSums
  import opened Capture

  datatype HourKey = HourKey(hour: int, comm: string)

  datatype Pipeline = Pipeline(
    scratch: map<nat, Entry>, shared: map<string, Usage>, inFlight: map<string, Usage>, table: map<HourKey, Usage>)

  const IDLE := Pipeline(map[], map[], map[], map[])

  // ---------- the daemon's upserts ----------

  predicate Empty(f: Usage) {
    f.rx == 0 && f.tx == 0
  }

  function UpsertOne(table: map<HourKey, Usage>, hour: int, comm: string, f: Usage): map<HourKey, Usage> {
    if Empty(f) then table else AddUsage(table, HourKey(hour, comm), f)
  }

  /** The table after the drained totals are added to hour `hour`, in some order. */
  ghost function Upserted(table: map<HourKey, Usage>, hour: int, cur: map<string, Usage>): map<HourKey, Usage>
    decreases |cur|
  {
    if cur == map[] then table
    else
      var c :| c in cur;
      UpsertOne(Upserted(table, hour, cur - {c}), hour, c, cur[c])
  }

  lemma UpsertsCommute(table: map<HourKey, Usage>, hour: int, b: string, f: Usage, c: string, g: Usage)
    ensures UpsertOne(UpsertOne(table, hour, b, f), hour, c, g) == UpsertOne(UpsertOne(table, hour, c, g), hour, b, f)
  {
    AddUsageCommutes(table, HourKey(hour, b), f, HourKey(hour, c), g);
  }

  lemma {:induction false} UpsertOneMore(table: map<HourKey, Usage>, hour: int, cur: map<string, Usage>, c: string)
    requires c in cur
    ensures Upserted(table, hour, cur) == UpsertOne(Upserted(table, hour, cur - {c}), hour, c, cur[c])
    decreases |cur|
  {
    var b :| b in cur && Upserted(table, hour, cur) == UpsertOne(Upserted(table, hour, cur - {b}), hour, b, cur[b]);
    if b != c {
      UpsertOneMore(table, hour, cur - {b}, c);
      UpsertOneMore(table, hour, cur - {c}, b);
      assert (cur - {b}) - {c} == (cur - {c}) - {b};
      UpsertsCommute(Upserted(table, hour, cur - {b} - {c}), hour, b, cur[b], c, cur[c]);
    }
  }

  /** Any total may be upserted first: the order does not matter. */
  lemma {:induction false} UpsertFirst(table: map<HourKey, Usage>, hour: int, cur: map<string, Usage>, c: string)
    requires c in cur
    ensures Upserted(table, hour, cur) == Upserted(UpsertOne(table, hour, c, cur[c]), hour, cur - {c})
    decreases |cur|
  {
    var more := UpsertOne(table, hour, c, cur[c]);
    if cur - {c} == map[] {
      UpsertOneMore(table, hour, cur, c);
    } else {
      var b :| b in cur - {c};
      UpsertOneMore(table, hour, cur, b);
      UpsertFirst(table, hour, cur - {b}, c);
      UpsertOneMore(more, hour, cur - {c}, b);
      assert (cur - {b}) - {c} == (cur - {c}) - {b};
    }
  }

  lemma {:induction false} UpsertConserves(table: map<HourKey, Usage>, hour: int, cur: map<string, Usage>, d: Dir)
    ensures UsageBytes(Upserted(table, hour, cur), d) == UsageBytes(table, d) + UsageBytes(cur, d)
    decreases |cur|
  {
    if cur == map[] {
      assert UsageIn(cur, d) == map[];
    } else {
      var c :| c in cur;
      UpsertConserves(table, hour, cur - {c}, d);
      UpsertOneMore(table, hour, cur, c);
      AddUsageAdds(Upserted(table, hour, cur - {c}), HourKey(hour, c), cur[c], d);
      SumRemove(UsageIn(cur, d), c);
      assert UsageIn(cur, d) - {c} == UsageIn(cur - {c}, d);
    }
  }

  // ---------- by hour and command ----------

  /** An hour's entry of a command gains what was drained under that name, and no other entry changes. */
  lemma {:induction false} UpsertByKey(
    table: map<HourKey, Usage>, hour: int, cur: map<string, Usage>, k: HourKey, d: Dir)
    ensures UsageOf(Upserted(table, hour, cur), k, d)
         == UsageOf(table, k, d) + (if k.hour == hour then UsageOf(cur, k.comm, d) else 0)
    decreases |cur|
  {
    if cur != map[] {
      var c :| c in cur;
      UpsertByKey(table, hour, cur - {c}, k, d);
      UpsertOneMore(table, hour, cur, c);
      AddUsageAt(Upserted(table, hour, cur - {c}), HourKey(hour, c), cur[c], k, d);
    }
  }

  /** New entries are those of the commands with bytes. */
  lemma {:induction false} UpsertKeys(table: map<HourKey, Usage>, hour: int, cur: map<string, Usage>, k: HourKey)
    ensures k in Upserted(table, hour, cur)
       <==> k in table || (k.hour == hour && k.comm in cur && (cur[k.comm].rx > 0 || cur[k.comm].tx > 0))
    decreases |cur|
  {
    if cur != map[] {
      var c :| c in cur;
      UpsertKeys(table, hour, cur - {c}, k);
      UpsertOneMore(table, hour, cur, c);
    }
  }

  /** What an entry of a command holds over all hours. */
  function NamedUsage(table: map<HourKey, Usage>, c: string, d: Dir): map<HourKey, int> {
    map k | k in table && k.comm == c :: In(table[k], d)
  }

  lemma NamedMore(table: map<HourKey, Usage>, k: HourKey, f: Usage, c: string, d: Dir)
    ensures Sum(NamedUsage(AddUsage(table, k, f), c, d))
         == Sum(NamedUsage(table, c, d)) + (if k.comm == c then In(f, d) else 0)
  {
    var after := AddUsage(table, k, f);
    if k.comm == c {
      SumUpdate(NamedUsage(table, c, d), k, In(after[k], d));
      assert NamedUsage(after, c, d) == NamedUsage(table, c, d)[k := In(after[k], d)];
    } else {
      assert NamedUsage(after, c, d) == NamedUsage(table, c, d);
    }
  }

  lemma {:induction false} UpsertByName(
    table: map<HourKey, Usage>, hour: int, cur: map<string, Usage>, c: string, d: Dir)
    ensures Sum(NamedUsage(Upserted(table, hour, cur), c, d)) == Sum(NamedUsage(table, c, d)) + UsageOf(cur, c, d)
    decreases |cur|
  {
    if cur != map[] {
      var b :| b in cur;
      UpsertByName(table, hour, cur - {b}, c, d);
      UpsertOneMore(table, hour, cur, b);
      NamedMore(Upserted(table, hour, cur - {b}), HourKey(hour, b), cur[b], c, d);
    }
  }

  // ---------- steps ----------

  datatype Step =
    | Accounts(frame: Frame, view: View)
    | Folds
    | Takes
    | Commits(hour: int)
    | ThreadDies
    | DaemonDies
    | Expires(cut: int)

  /** The daemon drains again only after it has dealt with what it drained before. */
  predicate Enabled(p: Pipeline, step: Step) {
    step.Takes? ==> p.inFlight == map[]
  }

  function Kept(table: map<HourKey, Usage>, cut: int): map<HourKey, Usage> {
    map k | k in table && k.hour >= cut :: table[k]
  }

  ghost function Next(p: Pipeline, step: Step): Pipeline {
    match step
    case Accounts(frame, view) => p.(scratch := Account(p.scratch, frame, view))
    case Folds => p.(scratch := map[], shared := Folded(p.shared, p.scratch))
    case Takes => p.(shared := map[], inFlight := p.shared)
    case Commits(hour) => p.(inFlight := map[], table := Upserted(p.table, hour, p.inFlight))
    case ThreadDies => p.(scratch := map[])
    case DaemonDies => Pipeline(map[], map[], map[], p.table)
    case Expires(cut) => p.(table := Kept(p.table, cut))
  }

  ghost function StateTo(steps: seq<Step>, n: nat): Pipeline
    requires n <= |steps|
  {
    if n == 0 then IDLE else Next(StateTo(steps, n - 1), steps[n - 1])
  }

  ghost predicate EnabledTo(steps: seq<Step>, n: nat)
    requires n <= |steps|
  {
    n == 0 || (EnabledTo(steps, n - 1) && Enabled(StateTo(steps, n - 1), steps[n - 1]))
  }

  // ---------- conservation ----------

  /** All bytes in the four places. */
  ghost function Held(p: Pipeline, d: Dir): int {
    ScratchBytes(p.scratch, d) + UsageBytes(p.shared, d) + UsageBytes(p.inFlight, d) + UsageBytes(p.table, d)
  }

  /** What a step brings in. */
  function Gain(step: Step, d: Dir): int {
    if step.Accounts? then FrameBytes(step.frame, step.view, d) else 0
  }

  /** What a step loses: a dying thread its scratch map and nothing else. */
  ghost function Loss(p: Pipeline, step: Step, d: Dir): int {
    match step
    case ThreadDies => ScratchBytes(p.scratch, d)
    case DaemonDies => ScratchBytes(p.scratch, d) + UsageBytes(p.shared, d) + UsageBytes(p.inFlight, d)
    case Expires(cut) => UsageBytes(p.table, d) - UsageBytes(Kept(p.table, cut), d)
    case _ => 0
  }

  ghost function GainTo(steps: seq<Step>, n: nat, d: Dir): int
    requires n <= |steps|
  {
    if n == 0 then 0 else GainTo(steps, n - 1, d) + Gain(steps[n - 1], d)
  }

  ghost function LossTo(steps: seq<Step>, n: nat, d: Dir): int
    requires n <= |steps|
  {
    if n == 0 then 0 else LossTo(steps, n - 1, d) + Loss(StateTo(steps, n - 1), steps[n - 1], d)
  }

  lemma NothingHeld(d: Dir)
    ensures ScratchBytes(map[], d) == 0 && UsageBytes<string>(map[], d) == 0 && UsageBytes<HourKey>(map[], d) == 0
  {
    assert ScratchIn(map[], d) == map[];
    assert UsageIn<string>(map[], d) == map[];
    assert UsageIn<HourKey>(map[], d) == map[];
  }

  lemma StepConserves(p: Pipeline, step: Step, d: Dir)
    requires Enabled(p, step)
    ensures Held(Next(p, step), d) == Held(p, d) + Gain(step, d) - Loss(p, step, d)
  {
    NothingHeld(d);
    match step
    case Accounts(frame, view) => AccountAdds(p.scratch, frame, view, d);
    case Folds => FoldConserves(p.shared, p.scratch, d);
    case Commits(hour) => UpsertConserves(p.table, hour, p.inFlight, d);
    case _ =>
  }

  /** At every point of every interleaving: accounted bytes are in one of the four places, or in a named loss. */
  lemma {:induction false} PipelineConserves(steps: seq<Step>, n: nat, d: Dir)
    requires n <= |steps| && EnabledTo(steps, n)
    ensures GainTo(steps, n, d) == Held(StateTo(steps, n), d) + LossTo(steps, n, d)
  {
    if n == 0 {
      NothingHeld(d);
    } else {
      PipelineConserves(steps, n - 1, d);
      StepConserves(StateTo(steps, n - 1), steps[n - 1], d);
    }
  }

  ghost predicate NoLosses(steps: seq<Step>, n: nat)
    requires n <= |steps|
  {
    forall i :: 0 <= i < n ==> !steps[i].ThreadDies? && !steps[i].DaemonDies? && !steps[i].Expires?
  }

  lemma {:induction false} NoLossesNoLoss(steps: seq<Step>, n: nat, d: Dir)
    requires n <= |steps| && NoLosses(steps, n)
    ensures LossTo(steps, n, d) == 0
  {
    if n > 0 {
      NoLossesNoLoss(steps, n - 1, d);
    }
  }

  /** Once everything is folded, taken and committed, the table has every accounted byte. */
  lemma TableCatchesUp(steps: seq<Step>, d: Dir)
    requires EnabledTo(steps, |steps|) && NoLosses(steps, |steps|)
    requires var p := StateTo(steps, |steps|); p.scratch == map[] && p.shared == map[] && p.inFlight == map[]
    ensures UsageBytes(StateTo(steps, |steps|).table, d) == GainTo(steps, |steps|, d)
  {
    PipelineConserves(steps, |steps|, d);
    NoLossesNoLoss(steps, |steps|, d);
    NothingHeld(d);
  }

  // ---------- whose bytes they are ----------

  /** The bytes of process `p`'s own frames since the scratch map was last emptied. */
  function AccountedTo(steps: seq<Step>, n: nat, p: nat, d: Dir): int
    requires n <= |steps|
  {
    if n == 0 then 0
    else
      match steps[n - 1]
      case Accounts(frame, view) =>
        AccountedTo(steps, n - 1, p, d) + (if IsFor(Got(frame), view, p) then FrameBytes(frame, view, d) else 0)
      case Folds => 0
      case ThreadDies => 0
      case DaemonDies => 0
      case _ => AccountedTo(steps, n - 1, p, d)
  }

  /** At every point of every interleaving each process has the bytes of its own frames since then. */
  lemma {:induction false} ScratchIsAccounted(steps: seq<Step>, n: nat, p: nat, d: Dir)
    requires n <= |steps|
    ensures Has(StateTo(steps, n).scratch, p, d) == AccountedTo(steps, n, p, d)
  {
    if n > 0 {
      ScratchIsAccounted(steps, n - 1, p, d);
    }
  }

  /** What was drained under the name of `k` and committed for its hour, since retention last reached that hour. */
  ghost function CommittedTo(steps: seq<Step>, n: nat, k: HourKey, d: Dir): int
    requires n <= |steps|
  {
    if n == 0 then 0
    else
      match steps[n - 1]
      case Commits(hour) =>
        CommittedTo(steps, n - 1, k, d)
        + (if hour == k.hour then UsageOf(StateTo(steps, n - 1).inFlight, k.comm, d) else 0)
      case Expires(cut) => if k.hour < cut then 0 else CommittedTo(steps, n - 1, k, d)
      case _ => CommittedTo(steps, n - 1, k, d)
  }

  /** At every point of every interleaving an entry of `proc_hourly` is exactly that. */
  lemma {:induction false} TableIsCommitted(steps: seq<Step>, n: nat, k: HourKey, d: Dir)
    requires n <= |steps|
    ensures UsageOf(StateTo(steps, n).table, k, d) == CommittedTo(steps, n, k, d)
  {
    if n > 0 {
      var p := StateTo(steps, n - 1);
      TableIsCommitted(steps, n - 1, k, d);
      match steps[n - 1]
      case Commits(hour) => UpsertByKey(p.table, hour, p.inFlight, k, d);
      case _ =>
    }
  }

  /** What the flushes have folded under name `c`. */
  ghost function FoldedTo(steps: seq<Step>, n: nat, c: string, d: Dir): int
    requires n <= |steps|
  {
    if n == 0 then 0
    else
      FoldedTo(steps, n - 1, c, d)
      + (if steps[n - 1].Folds? then Sum(NamedIn(StateTo(steps, n - 1).scratch, c, d)) else 0)
  }

  /** What name `c` loses: with the daemon what was not committed, with retention the expired hours. */
  ghost function NamedLoss(p: Pipeline, step: Step, c: string, d: Dir): int {
    match step
    case DaemonDies => UsageOf(p.shared, c, d) + UsageOf(p.inFlight, c, d)
    case Expires(cut) => Sum(NamedUsage(p.table, c, d)) - Sum(NamedUsage(Kept(p.table, cut), c, d))
    case _ => 0
  }

  ghost function NamedLossTo(steps: seq<Step>, n: nat, c: string, d: Dir): int
    requires n <= |steps|
  {
    if n == 0 then 0 else NamedLossTo(steps, n - 1, c, d) + NamedLoss(StateTo(steps, n - 1), steps[n - 1], c, d)
  }

  ghost function HeldAs(p: Pipeline, c: string, d: Dir): int {
    UsageOf(p.shared, c, d) + UsageOf(p.inFlight, c, d) + Sum(NamedUsage(p.table, c, d))
  }

  lemma StepKeepsNames(p: Pipeline, step: Step, c: string, d: Dir)
    requires Enabled(p, step)
    ensures HeldAs(Next(p, step), c, d)
         == HeldAs(p, c, d) + (if step.Folds? then Sum(NamedIn(p.scratch, c, d)) else 0) - NamedLoss(p, step, c, d)
  {
    match step
    case Folds => FoldByName(p.shared, p.scratch, c, d);
    case Commits(hour) => UpsertByName(p.table, hour, p.inFlight, c, d);
    case _ =>
  }

  /** What was folded under a name is shared, in flight or in the table under that name, or a named loss. */
  lemma {:induction false} NamesConserve(steps: seq<Step>, n: nat, c: string, d: Dir)
    requires n <= |steps| && EnabledTo(steps, n)
    ensures FoldedTo(steps, n, c, d) == HeldAs(StateTo(steps, n), c, d) + NamedLossTo(steps, n, c, d)
  {
    if n == 0 {
      assert NamedUsage(map[], c, d) == map[];
    } else {
      NamesConserve(steps, n - 1, c, d);
      StepKeepsNames(StateTo(steps, n - 1), steps[n - 1], c, d);
    }
  }

  // ---------- runs of steps ----------

  lemma {:induction false} StepsPrefix(a: seq<Step>, b: seq<Step>, n: nat)
    requires n <= |a| && n <= |b|
    requires forall i :: 0 <= i < n ==> a[i] == b[i]
    ensures StateTo(a, n) == StateTo(b, n) && EnabledTo(a, n) == EnabledTo(b, n)
  {
    if n > 0 {
      StepsPrefix(a, b, n - 1);
    }
  }

  lemma OneMoreStep(steps: seq<Step>, step: Step)
    ensures StateTo(steps + [step], |steps| + 1) == Next(StateTo(steps, |steps|), step)
    ensures EnabledTo(steps + [step], |steps| + 1)
       <==> EnabledTo(steps, |steps|) && Enabled(StateTo(steps, |steps|), step)
  {
    StepsPrefix(steps + [step], steps, |steps|);
  }

  /** Accounting the frames that arrived from position `i` up to `n`, frame by frame. */
  function AccountSteps(q: seq<Arrival>, i: nat, n: nat, v: View): seq<Step>
    requires n <= |q|
  {
    if n <= i then []
    else AccountSteps(q, i, n - 1, v) + (if q[n - 1].Got? then [Accounts(q[n - 1].frame, v)] else [])
  }

  /** The steps can be taken, and lead to `p`. */
  ghost predicate LeadTo(steps: seq<Step>, p: Pipeline) {
    EnabledTo(steps, |steps|) && StateTo(steps, |steps|) == p
  }

  lemma LeadOn(steps: seq<Step>, p: Pipeline, step: Step)
    requires LeadTo(steps, p) && Enabled(p, step)
    ensures LeadTo(steps + [step], Next(p, step))
  {
    OneMoreStep(steps, step);
  }

  lemma {:induction false} AccountStepsDo(steps: seq<Step>, p: Pipeline, q: seq<Arrival>, i: nat, n: nat, v: View)
    requires n <= |q| && LeadTo(steps, p)
    ensures LeadTo(steps + AccountSteps(q, i, n, v), p.(scratch := AccountFrom(p.scratch, q, i, n, v)))
  {
    if n <= i {
      assert steps + [] == steps;
    } else {
      var more := steps + AccountSteps(q, i, n - 1, v);
      var now := p.(scratch := AccountFrom(p.scratch, q, i, n - 1, v));
      AccountStepsDo(steps, p, q, i, n - 1, v);
      if q[n - 1].Got? {
        LeadOn(more, now, Accounts(q[n - 1].frame, v));
        assert more + [Accounts(q[n - 1].frame, v)] == steps + AccountSteps(q, i, n, v);
      } else {
        assert more == steps + AccountSteps(q, i, n, v);
      }
    }
  }
}

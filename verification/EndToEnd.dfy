/**
  From kernel counters to the daily table: over any run of the daemon, the bytes in the
  tables are the bytes that the interfaces carried, less exactly what can be named.
 */
module EndToEnd {
  import opened Traffic
  import opened Aggregation
  import opened Listing
  import opened Ledger
  import opened Refinement
  import opened Database
  import opened Hierarchy
  import opened Fallback
  import opened Show
  import opened Handover
  import opened Soundness
  import opened Budget
  import opened Counter
  import opened ProRate
  import opened Ticks

  // ---------- tables and counters ----------

  /** Bytes of one interface in the daily table and in the samples not rolled up yet. */
  ghost function Held(l: Ledger, days: seq<Row>, i: string, c: Column): int {
    ColumnSum(days, OnIface(i), c) + ColumnSum(Pending(l.store), OnIface(i), c)
  }

  lemma DaysOfIface(steps: seq<Step>, f: Floors, days: seq<Row>, i: string, c: Column)
    requires Lists(days, Run(steps, f).store.daily)
    ensures var l := Run(steps, f);
            Held(l, days, i, c) + ColumnSum(l.lost, OnIface(i), c) == ColumnSum(l.inserted, OnIface(i), c)
  {
    var l := Run(steps, f);
    RunKeepsInv(steps, |steps|, f);
    SharedSums(l, OnIface(i), c);
    SumListed(days, l.folded, By(f.day), OnIface(i), c);
    ColumnCongruent(l.folded, |l.folded|, Via(By(f.day), OnIface(i)), OnIface(i), c);
  }

  /** What the tables hold of an interface, and what they lost, is what its meter recorded. */
  lemma HeldIsRecorded(events: seq<Event>, cfg: Config, f: Floors, line: Line, days: seq<Row>)
    requires |line.truth| == |events| && PossibleTo(events, |events|, cfg) && ShowsTo(line, events, |events|, cfg)
    requires IsTotal(line.c) && Lists(days, Run(StateTo(events, |events|, cfg).steps, f).store.daily)
    ensures var l := Run(StateTo(events, |events|, cfg).steps, f);
            Held(l, days, line.iface, line.c) + ColumnSum(l.lost, OnIface(line.iface), line.c)
            == MeterOf(line, events, |events|, cfg).recorded
  {
    var steps := StateTo(events, |events|, cfg).steps;
    DaemonIsMeter(events, |events|, cfg, line);
    RunInserts(steps, |steps|, f, OnIface(line.iface), line.c);
    DaysOfIface(steps, f, days, line.iface, line.c);
  }

  /** Nothing the daemon compares on this counter is a reset, or a wrap that its readings cannot show. */
  ghost predicate NeverResets(line: Line, events: seq<Event>, cfg: Config)
    requires |line.truth| == |events|
  {
    && 0 <= line.value < line.width
    && FaithfulTo(line.value, line.truth, LooksTo(events, |events|, line.iface, cfg), |events|, line.width)
  }

  /**
    Telescoping, end to end: for a 32-bit or 64-bit counter that does not reset, over any
    possible run, the daily table plus pending samples plus lost rows are the bytes carried,
    minus the intervals of discarded spikes, minus the intervals without a baseline. What
    was carried is the last reading minus the first, unless the counter wrapped. A 32-bit
    counter has no spikes.
   */
  lemma TablesTelescope(events: seq<Event>, cfg: Config, f: Floors, line: Line, days: seq<Row>)
    requires |line.truth| == |events| && PossibleTo(events, |events|, cfg) && ShowsTo(line, events, |events|, cfg)
    requires IsTotal(line.c) && Lists(days, Run(StateTo(events, |events|, cfg).steps, f).store.daily)
    requires NeverResets(line, events, cfg)
    ensures var (l, m) := (Run(StateTo(events, |events|, cfg).steps, f), MeterOf(line, events, |events|, cfg));
            && Held(l, days, line.iface, line.c) + ColumnSum(l.lost, OnIface(line.iface), line.c)
               == m.carried - m.spiked - m.unseen
            && (line.width == U32 ==> m.spiked == 0)
            && m.value == (line.value + m.carried) % line.width
            && (line.value + m.carried < line.width ==> m.carried == m.value - line.value)
  {
    var looks := LooksTo(events, |events|, line.iface, cfg);
    HeldIsRecorded(events, cfg, f, line, days);
    EveryByteAccounted(line.value, line.truth, looks, |events|, line.width);
    ReadingIsCarried(line.value, line.truth, looks, |events|, line.width);
  }

  /**
    No phantom traffic, end to end: with resets from safe readings only, the tables never
    hold more than a 32-bit or 64-bit counter carried, however it wrapped.
   */
  lemma TablesInventNothing(events: seq<Event>, cfg: Config, f: Floors, line: Line, days: seq<Row>)
    requires |line.truth| == |events| && PossibleTo(events, |events|, cfg) && ShowsTo(line, events, |events|, cfg)
    requires IsTotal(line.c) && Lists(days, Run(StateTo(events, |events|, cfg).steps, f).store.daily)
    requires 0 <= line.value < line.width
    requires HonestTo(line.value, line.truth, LooksTo(events, |events|, line.iface, cfg), |events|, line.width)
    ensures var (l, m) := (Run(StateTo(events, |events|, cfg).steps, f), MeterOf(line, events, |events|, cfg));
            Held(l, days, line.iface, line.c) + ColumnSum(l.lost, OnIface(line.iface), line.c) + m.spiked + m.unseen
            <= m.carried
  {
    HeldIsRecorded(events, cfg, f, line, days);
    NothingInvented(line.value, line.truth, LooksTo(events, |events|, line.iface, cfg), |events|, line.width);
  }

  /**
    And with resets that a tick can tell from growth, what is missing from the tables is
    exactly the spikes, the intervals without baseline, and what a small reset wiped out
    since the last look.
   */
  lemma TablesWithResets(events: seq<Event>, cfg: Config, f: Floors, line: Line, days: seq<Row>)
    requires |line.truth| == |events| && PossibleTo(events, |events|, cfg) && ShowsTo(line, events, |events|, cfg)
    requires IsTotal(line.c) && Lists(days, Run(StateTo(events, |events|, cfg).steps, f).store.daily)
    requires 0 <= line.value < line.width
    requires VisibleTo(line.value, line.truth, LooksTo(events, |events|, line.iface, cfg), |events|, line.width)
    ensures var (l, m) := (Run(StateTo(events, |events|, cfg).steps, f), MeterOf(line, events, |events|, cfg));
            Held(l, days, line.iface, line.c) + ColumnSum(l.lost, OnIface(line.iface), line.c)
            == m.carried - m.spiked - m.unseen
             - WipedTo(line.value, line.truth, LooksTo(events, |events|, line.iface, cfg), |events|, line.width)
  {
    HeldIsRecorded(events, cfg, f, line, days);
    ResetsAccounted(line.value, line.truth, LooksTo(events, |events|, line.iface, cfg), |events|, line.width);
  }

  // ---------- the daemon writes sound, positive, orderly rows ----------

  lemma RowsSound(s: State, e: Event, cfg: Config)
    requires e.Tick? && Possible(s, e, cfg)
    ensures AllSound(RowsOf(s, e, cfg)) && Positive(RowsOf(s, e, cfg))
  {
    var max := e.limits.For("lan");
    MeasuredNonNegative(e.per, e.now, ReadingsOf(s, e, cfg));
    LanChangeIsNat(s.prevLan, e.lan, max, Rx);
    LanChangeIsNat(s.prevLan, e.lan, max, Tx);
    ProratedSound(e.per, |e.per|, Flow(LanChange(s.prevLan, e.lan, max, Rx), LanChange(s.prevLan, e.lan, max, Tx)),
                  ColumnSum(e.per, Everything, Rx), ColumnSum(e.per, Everything, Tx), cfg.forcedLan);
    PositiveIs(RowsOf(s, e, cfg));
  }

  ghost predicate InsertsPositive(steps: seq<Step>) {
    forall i :: 0 <= i < |steps| && steps[i].Insert? ==> Positive(steps[i].rows)
  }

  lemma AppendsSound(s: State, e: Event, cfg: Config)
    requires Possible(s, e, cfg) && InsertsSound(s.steps) && InsertsPositive(s.steps)
    ensures InsertsSound(Apply(s, e, cfg).steps) && InsertsPositive(Apply(s, e, cfg).steps)
  {
    if e.Tick? {
      RowsSound(s, e, cfg);
    }
  }

  /** Every row the daemon ever writes is sound and carries bytes. */
  lemma {:induction false} DaemonIsSound(events: seq<Event>, n: nat, cfg: Config)
    requires n <= |events| && PossibleTo(events, n, cfg)
    ensures InsertsSound(StateTo(events, n, cfg).steps) && InsertsPositive(StateTo(events, n, cfg).steps)
  {
    if n > 0 {
      DaemonIsSound(events, n - 1, cfg);
      AppendsSound(StateTo(events, n - 1, cfg), events[n - 1], cfg);
    }
  }

  /** TOTAL = LAN + WAN in every table, in every state the daemon can reach. */
  lemma DaemonStoreSound(events: seq<Event>, cfg: Config, f: Floors)
    requires PossibleTo(events, |events|, cfg)
    ensures StoreSound(Run(StateTo(events, |events|, cfg).steps, f).store)
  {
    var steps := StateTo(events, |events|, cfg).steps;
    DaemonIsSound(events, |events|, cfg);
    RunSound(steps, |steps|, f);
  }

  lemma KeepPositive(rows: seq<Row>, p: Where)
    requires Positive(rows)
    ensures Positive(Keep(rows, p))
  {
    PositiveIs(rows);
    forall j | 0 <= j < |Keep(rows, p)| ensures HasBytes(Keep(rows, p)[j].bytes) {
      var i := KeepOrigin(rows, |rows|, p, j);
    }
    PositiveIs(Keep(rows, p));
  }

  lemma OneMorePositive(rows: seq<Row>, r: Row)
    requires Positive(rows) && HasBytes(r.bytes)
    ensures Positive(rows + [r])
  {
    PositiveIs(rows);
    PositiveIs(rows + [r]);
  }

  lemma {:induction false} InsertPositive(l: Ledger, rows: seq<Row>, n: nat)
    requires n <= |rows| && Positive(rows) && Positive(l.store.samples)
    ensures Positive(InsertTo(l, rows, n).store.samples)
  {
    if n > 0 {
      var samples := InsertTo(l, rows, n - 1).store.samples;
      InsertPositive(l, rows, n - 1);
      KeepPositive(samples, Not(WithId(rows[n - 1].Id())));
      PositiveIs(rows);
      OneMorePositive(Keep(samples, Not(WithId(rows[n - 1].Id()))), rows[n - 1]);
    }
  }

  lemma {:induction false} RunPositive(steps: seq<Step>, n: nat, f: Floors)
    requires n <= |steps| && InsertsPositive(steps)
    ensures Positive(RunTo(steps, n, f).store.samples)
  {
    if n > 0 {
      var l := RunTo(steps, n - 1, f);
      RunPositive(steps, n - 1, f);
      match steps[n - 1]
      case Insert(rows) => InsertPositive(l, rows, |rows|);
      case Prune(cutRaw, _) => KeepPositive(l.store.samples, Not(Before(cutRaw)));
      case _ =>
    }
  }

  /** Every sample in every database the daemon reaches carries bytes, as the display theorems ask. */
  lemma DaemonStorePositive(events: seq<Event>, cfg: Config, f: Floors)
    requires PossibleTo(events, |events|, cfg)
    ensures Positive(Run(StateTo(events, |events|, cfg).steps, f).store.samples)
  {
    var steps := StateTo(events, |events|, cfg).steps;
    DaemonIsSound(events, |events|, cfg);
    RunPositive(steps, |steps|, f);
  }

  /** The time of the last tick. */
  function ClockTo(events: seq<Event>, n: nat): Option<int>
    requires n <= |events|
  {
    if n == 0 then None
    else if events[n - 1].Tick? then Some(events[n - 1].now)
    else ClockTo(events, n - 1)
  }

  /** The wall clock strictly increases from tick to tick. */
  predicate AdvancingTo(events: seq<Event>, n: nat)
    requires n <= |events|
  {
    n == 0 || (AdvancingTo(events, n - 1)
      && (events[n - 1].Tick? && ClockTo(events, n - 1).Some? ==> events[n - 1].now > ClockTo(events, n - 1).value))
  }

  ghost predicate InsertsUntil(steps: seq<Step>, clock: Option<int>) {
    forall i :: 0 <= i < |steps| && steps[i].Insert? ==> clock.Some? && Until(steps[i].rows, clock.value)
  }

  lemma {:induction false} InsertUntil(l: Ledger, rows: seq<Row>, n: nat, clock: int)
    requires n <= |rows| && Until(rows, clock) && Until(l.inserted, clock)
    ensures Until(InsertTo(l, rows, n).inserted, clock)
  {
    if n > 0 {
      InsertUntil(l, rows, n - 1, clock);
    }
  }

  lemma {:induction false} RunUntil(steps: seq<Step>, n: nat, f: Floors, clock: Option<int>)
    requires n <= |steps| && InsertsUntil(steps, clock)
    ensures clock.Some? ==> Until(RunTo(steps, n, f).inserted, clock.value)
    ensures clock.None? ==> RunTo(steps, n, f).inserted == []
  {
    if n > 0 {
      RunUntil(steps, n - 1, f, clock);
      if steps[n - 1].Insert? {
        InsertUntil(RunTo(steps, n - 1, f), steps[n - 1].rows, |steps[n - 1].rows|, clock.value);
      }
    }
  }

  lemma {:induction false} SameIds(a: seq<Row>, b: seq<Row>, n: nat)
    requires n <= |a| && n <= |b|
    requires forall i :: 0 <= i < n ==> a[i].Id() == b[i].Id()
    ensures IdsTo(a, n) == IdsTo(b, n) && DistinctTo(a, n) == DistinctTo(b, n)
  {
    if n > 0 {
      SameIds(a, b, n - 1);
    }
  }

  ghost predicate InsertsLater(steps: seq<Step>, f: Floors) {
    forall i :: 0 <= i < |steps| && steps[i].Insert? ==> Later(RunTo(steps, i, f), steps[i].rows)
  }

  /** A tick's rows are later than whatever was inserted before. */
  lemma TickIsLater(s: State, e: Event, cfg: Config, f: Floors, clock: Option<int>)
    requires e.Tick? && Possible(s, e, cfg) && InsertsUntil(s.steps, clock)
    requires clock.Some? ==> e.now > clock.value
    ensures Later(Run(s.steps, f), RowsOf(s, e, cfg)) && Until(RowsOf(s, e, cfg), e.now)
  {
    MeasuredNonNegative(e.per, e.now, ReadingsOf(s, e, cfg));
    SameIds(RowsOf(s, e, cfg), e.per, |e.per|);
    RunUntil(s.steps, |s.steps|, f, clock);
  }

  lemma AppendsLater(s: State, e: Event, cfg: Config, f: Floors, clock: Option<int>)
    requires Possible(s, e, cfg) && InsertsUntil(s.steps, clock) && InsertsLater(s.steps, f)
    requires e.Tick? && clock.Some? ==> e.now > clock.value
    ensures InsertsLater(Apply(s, e, cfg).steps, f)
    ensures InsertsUntil(Apply(s, e, cfg).steps, if e.Tick? then Some(e.now) else clock)
  {
    var steps := Apply(s, e, cfg).steps;
    if e.Tick? {
      TickIsLater(s, e, cfg, f, clock);
    }
    forall i | 0 <= i < |steps| && steps[i].Insert? ensures Later(RunTo(steps, i, f), steps[i].rows) {
      assert i <= |s.steps|;
      RunPrefix(steps, s.steps, i, f);
    }
  }

  lemma {:induction false} DaemonInsertsLater(events: seq<Event>, n: nat, cfg: Config, f: Floors)
    requires n <= |events| && PossibleTo(events, n, cfg) && AdvancingTo(events, n)
    ensures InsertsLater(StateTo(events, n, cfg).steps, f)
    ensures InsertsUntil(StateTo(events, n, cfg).steps, ClockTo(events, n))
  {
    if n > 0 {
      DaemonInsertsLater(events, n - 1, cfg, f);
      AppendsLater(StateTo(events, n - 1, cfg), events[n - 1], cfg, f, ClockTo(events, n - 1));
    }
  }

  /** Retention never deletes what came after the last committed rollup. */
  ghost predicate PrunesFollowRollUps(steps: seq<Step>) {
    forall i :: 0 <= i < |steps| && steps[i].Prune? ==> exists j: nat :: RolledSince(steps, j, i, steps[i].cutRaw)
  }

  /** With an advancing clock and retention behind the rollups, the daemon loses no row. */
  lemma DaemonLosesNothing(events: seq<Event>, cfg: Config, f: Floors)
    requires PossibleTo(events, |events|, cfg) && AdvancingTo(events, |events|)
    requires PrunesFollowRollUps(StateTo(events, |events|, cfg).steps)
    ensures Run(StateTo(events, |events|, cfg).steps, f).lost == []
  {
    var steps := StateTo(events, |events|, cfg).steps;
    DaemonInsertsLater(events, |events|, cfg, f);
    forall i | 0 <= i < |steps| ensures Orderly(steps, i, f) {
    }
    OrderlyRunsLoseNothing(steps, f);
  }

  /**
    So the daily table and the pending samples of an interface are exactly what it carried,
    less spikes and missing baselines.
   */
  lemma TablesAreExact(events: seq<Event>, cfg: Config, f: Floors, line: Line, days: seq<Row>)
    requires |line.truth| == |events| && PossibleTo(events, |events|, cfg) && ShowsTo(line, events, |events|, cfg)
    requires AdvancingTo(events, |events|) && PrunesFollowRollUps(StateTo(events, |events|, cfg).steps)
    requires IsTotal(line.c) && Lists(days, Run(StateTo(events, |events|, cfg).steps, f).store.daily)
    requires NeverResets(line, events, cfg)
    ensures var (l, m) := (Run(StateTo(events, |events|, cfg).steps, f), MeterOf(line, events, |events|, cfg));
            && Held(l, days, line.iface, line.c) == m.carried - m.spiked - m.unseen
            && (line.width == U32 ==> m.spiked == 0)
            && (line.value + m.carried < line.width ==> m.carried == m.value - line.value)
  {
    TablesTelescope(events, cfg, f, line, days);
    DaemonLosesNothing(events, cfg, f);
  }

  // ---------- the display of the daemon's databases ----------

  /**
    In every database that the daemon reaches without losses: when no rolled row is on
    display, the next rollup leaves the display as it was exactly if no sample's bucket is
    in range, or no sample straddles the range.
   */
  lemma DaemonKeepsDisplayIff(events: seq<Event>, cfg: Config, v: View, end: int, iface: Option<string>)
    requires PossibleTo(events, |events|, cfg) && AdvancingTo(events, |events|)
    requires PrunesFollowRollUps(StateTo(events, |events|, cfg).steps)
    requires var l := Run(StateTo(events, |events|, cfg).steps, Utc());
             HoursKept(l, v, end) && RolledRows(l.store, v, end, iface, UtcWeek()) == []
    ensures var s := Run(StateTo(events, |events|, cfg).steps, Utc()).store;
            SameDisplay(s, RolledUp(s, Utc()), v, end, iface, Utc(), UtcWeek())
            <==> NoneInRange(s, v, end, iface, Utc()) || NoneStraddles(s, v, end, iface, Utc())
  {
    DaemonLosesNothing(events, cfg, Utc());
    DaemonStorePositive(events, cfg, Utc());
    RollUpInUtc(StateTo(events, |events|, cfg).steps, v, end, iface);
  }

  /** In every database at all that the daemon reaches, for a range that ends no earlier than the last sample. */
  lemma DaemonShowsRollUpIff(events: seq<Event>, cfg: Config, v: View, end: int, iface: Option<string>)
    requires PossibleTo(events, |events|, cfg)
    requires var l := Run(StateTo(events, |events|, cfg).steps, Utc());
             RolledRows(l.store, v, end, iface, UtcWeek()) == [] && Until(l.store.samples, end)
    ensures var s := Run(StateTo(events, |events|, cfg).steps, Utc()).store;
            SameDisplay(s, RolledUp(s, Utc()), v, end, iface, Utc(), UtcWeek())
            <==> NonePending(s, v, end, iface, Utc()) || AllPending(s, v, end, iface, Utc())
  {
    DaemonStorePositive(events, cfg, Utc());
    AnyRollUpInUtc(Run(StateTo(events, |events|, cfg).steps, Utc()).store, v, end, iface);
  }
}

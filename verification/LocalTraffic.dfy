/**
  LAN bytes over whole runs: the one LAN counter is metered like any other, its deltas are
  shared out over the interfaces, and the tables never hold more LAN than it carried.
 */
module LocalTraffic {
  import opened Traffic
  import opened Aggregation
  import opened Listing
  import opened Ledger
  import opened Refinement
  import opened Counter
  import opened ProRate
  import opened Ticks

  /** One direction of the LAN counter and its true history. */
  datatype LanLine = LanLine(c: Column, value: int, truth: seq<Interval>, width: Width)

  /** The LAN column of a direction. */
  function LanColumn(c: Column): Column {
    if c.Rx? then LanRx else LanTx
  }

  /** What an event reads of the LAN rules. */
  function LanSeen(e: Event): Option<Counters> {
    match e
    case Tick(_, _, lan, _, _, _) => lan
    case Gap(lan) => lan
    case Restart(_) => None
  }

  /** A tick measures the LAN counter, and a suspend gap reads it for the next baseline only. */
  function LanLook(e: Event): Look {
    Look(LanSeen(e).Some?, e.Tick?, if e.Tick? then e.limits.For("lan") else 0)
  }

  function LanLooksTo(events: seq<Event>, n: nat): (looks: seq<Look>)
    requires n <= |events|
    ensures |looks| == n && forall k :: 0 <= k < n ==> looks[k] == LanLook(events[k])
  {
    if n == 0 then [] else LanLooksTo(events, n - 1) + [LanLook(events[n - 1])]
  }

  function LanMeter(line: LanLine, events: seq<Event>, n: nat): Meter
    requires n <= |events| && n <= |line.truth|
  {
    MeterTo(line.value, line.truth, LanLooksTo(events, |events|), n, line.width)
  }

  /** Whatever an event reads of the LAN rules is the true counter value. */
  predicate LanShowsTo(line: LanLine, events: seq<Event>, n: nat)
    requires n <= |events| && n <= |line.truth|
  {
    n == 0 || (LanShowsTo(line, events, n - 1)
      && (LanSeen(events[n - 1]).Some? ==>
           LanSeen(events[n - 1]).value.In(line.c) == LanMeter(line, events, n).value))
  }

  predicate SameLanBaseline(s: State, m: Meter, c: Column) {
    m.baseline == if s.prevLan.Some? then Some(s.prevLan.value.In(c)) else None
  }

  /** No forced-LAN interface carried bytes in that direction, in any tick. */
  ghost predicate IdleTo(events: seq<Event>, n: nat, c: Column, forced: set<string>)
    requires n <= |events|
  {
    forall k :: 0 <= k < n && events[k].Tick? ==> ForcedIdle(events[k].per, c, forced)
  }

  // ---------- one event ----------

  function TickLan(s: State, e: Event, c: Column): int
    requires e.Tick?
  {
    LanChange(s.prevLan, e.lan, e.limits.For("lan"), c)
  }

  /** What a tick drops or rounds away at most: the LAN delta above its traffic, and a byte per active interface. */
  function Shortfall(s: State, e: Event, c: Column): int {
    if e.Tick? then
      var lan := TickLan(s, e, c);
      lan - Lesser(lan, ColumnSum(e.per, Everything, c)) + ActiveTo(e.per, |e.per|, c)
    else 0
  }

  /** The rows of a tick hold at most the LAN delta, and at least that less the shortfall. */
  lemma RowsWithinDelta(s: State, e: Event, cfg: Config, c: Column)
    requires e.Tick? && Possible(s, e, cfg) && IsTotal(c) && ForcedIdle(e.per, c, cfg.forcedLan)
    ensures var held := ColumnSum(RowsOf(s, e, cfg), Everything, LanColumn(c));
            0 <= TickLan(s, e, c) && TickLan(s, e, c) - Shortfall(s, e, c) <= held <= TickLan(s, e, c)
  {
    var lan := Flow(TickLan(s, e, Rx), TickLan(s, e, Tx));
    var rx, tx := ColumnSum(e.per, Everything, Rx), ColumnSum(e.per, Everything, Tx);
    LanChangeIsNat(s.prevLan, e.lan, e.limits.For("lan"), c);
    MeasuredNonNegative(e.per, e.now, ReadingsOf(s, e, cfg));
    ProratedLan(e.per, |e.per|, lan, rx, tx, cfg.forcedLan);
    LanNearDelta(e.per, c, TickLan(s, e, c), cfg.forcedLan);
  }

  /** So do the transactions of any event. */
  lemma StepsWithinDelta(s: State, e: Event, cfg: Config, c: Column)
    requires Possible(s, e, cfg) && IsTotal(c) && (e.Tick? ==> ForcedIdle(e.per, c, cfg.forcedLan))
    ensures var (steps, lan) := (StepsOf(s, e, cfg), if e.Tick? then TickLan(s, e, c) else 0);
            lan - Shortfall(s, e, c) <= InsertedTo(steps, |steps|, Everything, LanColumn(c)) <= lan
  {
    match e
    case Tick(_, _, _, _, per, upkeep) =>
      var first: seq<Step> := if per == [] then [] else [Insert(RowsOf(s, e, cfg))];
      InsertedAppend(first, upkeep, |upkeep|, Everything, LanColumn(c));
      InsertedNone(upkeep, |upkeep|, Everything, LanColumn(c));
      RowsWithinDelta(s, e, cfg, c);
      if per != [] {
        assert InsertedTo(first, 1, Everything, LanColumn(c))
            == InsertedTo(first, 0, Everything, LanColumn(c)) + ColumnSum(RowsOf(s, e, cfg), Everything, LanColumn(c));
      }
    case Gap(_) =>
    case Restart(upkeep) => InsertedNone(upkeep, |upkeep|, Everything, LanColumn(c));
  }

  /** An event moves the daemon's LAN baseline as the meter's, and the meter records the LAN delta. */
  lemma LanEventMatches(s: State, m: Meter, e: Event, t: Interval, cfg: Config, line: LanLine)
    requires IsTotal(line.c) && SameLanBaseline(s, m, line.c)
    requires LanSeen(e).Some? ==> LanSeen(e).value.In(line.c) == Reading(m.value, t, line.width)
    ensures var (next, meter) := (Apply(s, e, cfg), Advance(m, t, LanLook(e), line.width));
            && SameLanBaseline(next, meter, line.c)
            && meter.recorded - m.recorded == if e.Tick? then TickLan(s, e, line.c) else 0
  {
  }

  // ---------- runs ----------

  function ShortfallTo(events: seq<Event>, n: nat, cfg: Config, c: Column): int
    requires n <= |events|
  {
    if n == 0 then 0
    else ShortfallTo(events, n - 1, cfg, c) + Shortfall(StateTo(events, n - 1, cfg), events[n - 1], c)
  }

  lemma LanAppends(s: State, m: Meter, e: Event, t: Interval, cfg: Config, line: LanLine, missed: int)
    requires Possible(s, e, cfg) && IsTotal(line.c) && SameLanBaseline(s, m, line.c)
    requires e.Tick? ==> ForcedIdle(e.per, line.c, cfg.forcedLan)
    requires LanSeen(e).Some? ==> LanSeen(e).value.In(line.c) == Reading(m.value, t, line.width)
    requires m.recorded - missed <= InsertedTo(s.steps, |s.steps|, Everything, LanColumn(line.c)) <= m.recorded
    ensures var (next, meter) := (Apply(s, e, cfg), Advance(m, t, LanLook(e), line.width));
            && SameLanBaseline(next, meter, line.c)
            && meter.recorded - missed - Shortfall(s, e, line.c)
               <= InsertedTo(next.steps, |next.steps|, Everything, LanColumn(line.c)) <= meter.recorded
  {
    var more := StepsOf(s, e, cfg);
    LanEventMatches(s, m, e, t, cfg, line);
    StepsWithinDelta(s, e, cfg, line.c);
    InsertedAppend(s.steps, more, |more|, Everything, LanColumn(line.c));
    assert Apply(s, e, cfg).steps == s.steps + more;
  }

  /**
    While forced-LAN interfaces are idle, a run inserts the LAN bytes that the meter records,
    less what its ticks drop above their traffic and at most a byte per active interface.
   */
  lemma {:induction false} LanIsMetered(events: seq<Event>, n: nat, cfg: Config, line: LanLine)
    requires n <= |events| && n <= |line.truth| && PossibleTo(events, n, cfg) && LanShowsTo(line, events, n)
    requires IsTotal(line.c) && IdleTo(events, n, line.c, cfg.forcedLan)
    ensures var (s, m) := (StateTo(events, n, cfg), LanMeter(line, events, n));
            && SameLanBaseline(s, m, line.c)
            && m.recorded - ShortfallTo(events, n, cfg, line.c)
               <= InsertedTo(s.steps, |s.steps|, Everything, LanColumn(line.c)) <= m.recorded
  {
    if n > 0 {
      LanIsMetered(events, n - 1, cfg, line);
      LanAppends(StateTo(events, n - 1, cfg), LanMeter(line, events, n - 1), events[n - 1], line.truth[n - 1], cfg,
                 line, ShortfallTo(events, n - 1, cfg, line.c));
    }
  }

  /** Everything in the daily table and in the samples not rolled up yet. */
  ghost function HeldInAll(l: Ledger, days: seq<Row>, c: Column): int {
    ColumnSum(days, Everything, c) + ColumnSum(Pending(l.store), Everything, c)
  }

  lemma AllDays(steps: seq<Step>, f: Floors, days: seq<Row>, c: Column)
    requires Lists(days, Run(steps, f).store.daily)
    ensures var l := Run(steps, f);
            HeldInAll(l, days, c) + ColumnSum(l.lost, Everything, c) == ColumnSum(l.inserted, Everything, c)
  {
    var l := Run(steps, f);
    RunKeepsInv(steps, |steps|, f);
    SharedSums(l, Everything, c);
    SumListed(days, l.folded, By(f.day), Everything, c);
    ColumnCongruent(l.folded, |l.folded|, Via(By(f.day), Everything), Everything, c);
  }

  /**
    LAN conservation, end to end: over any possible run with idle forced-LAN interfaces, the
    LAN bytes of all interfaces in the daily table, pending or lost, and those dropped with
    spikes and missing baselines, are never more than the LAN counter carried, through
    wraps, resets from safe readings, flushed rules, suspend gaps and restarts.
   */
  lemma TablesWithinLan(events: seq<Event>, cfg: Config, f: Floors, line: LanLine, days: seq<Row>)
    requires |line.truth| == |events| && PossibleTo(events, |events|, cfg) && LanShowsTo(line, events, |events|)
    requires IsTotal(line.c) && IdleTo(events, |events|, line.c, cfg.forcedLan)
    requires Lists(days, Run(StateTo(events, |events|, cfg).steps, f).store.daily)
    requires 0 <= line.value < line.width
    requires HonestTo(line.value, line.truth, LanLooksTo(events, |events|), |events|, line.width)
    ensures var (l, m) := (Run(StateTo(events, |events|, cfg).steps, f), LanMeter(line, events, |events|));
            HeldInAll(l, days, LanColumn(line.c)) + ColumnSum(l.lost, Everything, LanColumn(line.c))
            + m.spiked + m.unseen <= m.carried
  {
    var steps := StateTo(events, |events|, cfg).steps;
    LanIsMetered(events, |events|, cfg, line);
    NothingInvented(line.value, line.truth, LanLooksTo(events, |events|), |events|, line.width);
    RunInserts(steps, |steps|, f, Everything, LanColumn(line.c));
    AllDays(steps, f, days, LanColumn(line.c));
  }
}

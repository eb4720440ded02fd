/**
  The daemon's loop on values: what one tick measures and writes, what survives in its
  baselines, and how whole runs of ticks, suspend gaps, restarts, rollups and retention
  relate the tables to the bytes that the interfaces really carried.
 */
module Ticks {
  import opened Traffic
  import opened Aggregation
  import opened Ledger
  import opened Counter
  import opened ProRate

  type u64 = x: int | 0 <= x < U64

  /** Cumulative kernel counters of one interface, or of the LAN rules. */
  datatype Counters = Counters(rx: u64, tx: u64) {
    function In(c: Column): u64 {
      if c.Rx? then rx else tx
    }
  }

  /** The interface names that match the configured patterns. */
  datatype Config = Config(excluded: set<string>, forcedLan: set<string>)

  /** `max_bytes_per_tick`: by link speed where it is known. */
  datatype Limits = Limits(speeds: map<string, nat>, fallback: nat) {
    function For(iface: string): nat {
      if iface in speeds then speeds[iface] else fallback
    }
  }

  // ---------- one tick ----------

  /** The counters a tick compares. */
  datatype Readings = Readings(
    prev: map<string, Counters>, totals: map<string, Counters>, limits: Limits, excluded: set<string>)
  {

    predicate Compared(i: string) {
      i in totals && i !in excluded && i in prev
    }

    function Outcome(i: string, c: Column): Counter.Outcome
      requires Compared(i)
    {
      Delta(prev[i].In(c), totals[i].In(c), limits.For(i))
    }

    function Change(i: string, c: Column): int {
      if Compared(i) then Outcome(i, c).bytes else 0
    }

    predicate Moved(i: string) {
      Compared(i) && (Change(i, Rx) > 0 || Change(i, Tx) > 0)
    }

    predicate Spiked(i: string) {
      Compared(i) && (Outcome(i, Rx).discarded || Outcome(i, Tx).discarded)
    }

    function Movers(): set<string> {
      set i | i in totals && Moved(i)
    }

    function Spikes(): set<string> {
      set i | i in totals && Spiked(i)
    }
  }

  lemma ChangeIsNat(r: Readings, i: string, c: Column)
    ensures r.Change(i, c) >= 0
  {
    if r.Compared(i) {
      DeltaBounds(r.prev[i].In(c), r.totals[i].In(c), r.limits.For(i));
    }
  }

  /** A spike is counted for an included interface with a baseline, when a direction exceeds the interface's limit. */
  lemma SpikesAre(r: Readings, i: string)
    ensures i in r.Spikes() <==>
              && i in r.totals && i !in r.excluded && i in r.prev
              && var max := if i in r.limits.speeds then r.limits.speeds[i] else r.limits.fallback;
                 var (rx, tx) := (Delta(r.prev[i].rx, r.totals[i].rx, max), Delta(r.prev[i].tx, r.totals[i].tx, max));
                 rx == Counter.Outcome(0, true) || tx == Counter.Outcome(0, true)
  {
    if r.Compared(i) {
      DeltaBounds(r.prev[i].rx, r.totals[i].rx, r.limits.For(i));
      DeltaBounds(r.prev[i].tx, r.totals[i].tx, r.limits.For(i));
    }
  }

  /** The re-baseline: every included interface that was read. */
  function Baselines(totals: map<string, Counters>, excluded: set<string>): map<string, Counters> {
    map i | i in totals && i !in excluded :: totals[i]
  }

  /** The LAN delta, zero unless both readings exist. */
  function LanChange(prev: Option<Counters>, lan: Option<Counters>, max: nat, c: Column): int {
    if prev.Some? && lan.Some? then Delta(prev.value.In(c), lan.value.In(c), max).bytes else 0
  }

  lemma LanChangeIsNat(prev: Option<Counters>, lan: Option<Counters>, max: nat, c: Column)
    ensures LanChange(prev, lan, max, c) >= 0
  {
    if prev.Some? && lan.Some? {
      DeltaBounds(prev.value.In(c), lan.value.In(c), max);
    }
  }

  /** A row of `per`: what an interface moved, LAN not yet known. */
  predicate Measures(p: Row, now: int, r: Readings) {
    && p.ts == now && r.Moved(p.iface)
    && p.bytes.all.rx == r.Change(p.iface, Rx) && p.bytes.all.tx == r.Change(p.iface, Tx)
  }

  predicate MeasuresTo(per: seq<Row>, n: nat, now: int, r: Readings)
    requires n <= |per|
  {
    n == 0 || (MeasuresTo(per, n - 1, now, r) && Measures(per[n - 1], now, r))
  }

  function NamesTo(per: seq<Row>, n: nat): set<string>
    requires n <= |per|
  {
    if n == 0 then {} else NamesTo(per, n - 1) + {per[n - 1].iface}
  }

  /** One row for each interface that moved, in any order. */
  predicate Measured(per: seq<Row>, now: int, r: Readings) {
    MeasuresTo(per, |per|, now, r) && DistinctIds(per) && NamesTo(per, |per|) == r.Movers()
  }

  lemma {:induction false} MeasuredNames(per: seq<Row>, n: nat, now: int, r: Readings, i: string)
    requires n <= |per| && MeasuresTo(per, n, now, r)
    ensures i in NamesTo(per, n) <==> Key(now, i) in IdsTo(per, n)
  {
    if n > 0 {
      MeasuredNames(per, n - 1, now, r, i);
    }
  }

  lemma {:induction false} MeasuredColumnTo(per: seq<Row>, n: nat, now: int, r: Readings, i: string, c: Column)
    requires n <= |per| && MeasuresTo(per, n, now, r) && DistinctTo(per, n) && IsTotal(c)
    ensures ColumnTo(per, n, OnIface(i), c) == if i in NamesTo(per, n) then r.Change(i, c) else 0
  {
    if n > 0 {
      MeasuredColumnTo(per, n - 1, now, r, i, c);
      MeasuredNames(per, n - 1, now, r, i);
    }
  }

  /** A tick's rows hold exactly the accepted delta of each included interface. */
  lemma MeasuredColumn(per: seq<Row>, now: int, r: Readings, i: string, c: Column)
    requires Measured(per, now, r) && IsTotal(c)
    ensures ColumnSum(per, OnIface(i), c) == r.Change(i, c)
  {
    MeasuredColumnTo(per, |per|, now, r, i, c);
    ChangeIsNat(r, i, Rx);
    ChangeIsNat(r, i, Tx);
  }

  lemma {:induction false} ProratedColumn(
      per: seq<Row>, n: nat, lan: Flow, rx: int, tx: int, forced: set<string>, p: Where, c: Column)
    requires n <= |per| && IsTotal(c)
    ensures ColumnSum(ProratedTo(per, n, lan, rx, tx, forced), p, c) == ColumnTo(per, n, p, c)
  {
    if n > 0 {
      var rows := ProratedTo(per, n, lan, rx, tx, forced);
      ProratedColumn(per, n - 1, lan, rx, tx, forced, p, c);
      ColumnOneMore(ProratedTo(per, n - 1, lan, rx, tx, forced), rows[n - 1], p, c);
    }
  }

  lemma {:induction false} MeasuredRows(per: seq<Row>, n: nat, now: int, r: Readings)
    requires n <= |per| && MeasuresTo(per, n, now, r)
    ensures forall i :: 0 <= i < n ==> Measures(per[i], now, r)
  {
    if n > 0 {
      MeasuredRows(per, n - 1, now, r);
    }
  }

  lemma MeasuredNonNegative(per: seq<Row>, now: int, r: Readings)
    requires Measured(per, now, r)
    ensures NonNegative(per)
    ensures forall i :: 0 <= i < |per| ==> per[i].ts == now && per[i].bytes.Total() > 0
  {
    MeasuredRows(per, |per|, now, r);
    forall i | 0 <= i < |per| ensures per[i].bytes.all.rx >= 0 && per[i].bytes.all.tx >= 0 {
      ChangeIsNat(r, per[i].iface, Rx);
      ChangeIsNat(r, per[i].iface, Tx);
    }
  }

  // ---------- runs ----------

  /** One iteration of the loop, with the rollups and retention at its end, or a restart. */
  datatype Event =
    | Tick(now: int, totals: map<string, Counters>, lan: Option<Counters>, limits: Limits, per: seq<Row>,
           upkeep: seq<Step>)
    | Gap(lan: Option<Counters>)
    | Restart(upkeep: seq<Step>)

  /** What the daemon remembers, and the transactions it has made. */
  datatype State = State(prev: map<string, Counters>, prevLan: Option<Counters>, steps: seq<Step>)

  const STARTED := State(map[], None, [])

  function ReadingsOf(s: State, e: Event, cfg: Config): Readings
    requires e.Tick?
  {
    Readings(s.prev, e.totals, e.limits, cfg.excluded)
  }

  function RowsOf(s: State, e: Event, cfg: Config): seq<Row>
    requires e.Tick?
  {
    var max := e.limits.For("lan");
    Prorated(e.per, Flow(LanChange(s.prevLan, e.lan, max, Rx), LanChange(s.prevLan, e.lan, max, Tx)), cfg.forcedLan)
  }

  function StepsOf(s: State, e: Event, cfg: Config): seq<Step> {
    match e
    case Tick(_, _, _, _, per, upkeep) => (if per == [] then [] else [Insert(RowsOf(s, e, cfg))]) + upkeep
    case Gap(_) => []
    case Restart(upkeep) => upkeep
  }

  function Apply(s: State, e: Event, cfg: Config): State {
    match e
    case Tick(_, totals, lan, _, _, _) => State(Baselines(totals, cfg.excluded), lan, s.steps + StepsOf(s, e, cfg))
    case Gap(lan) => State(map[], lan, s.steps)
    case Restart(_) => State(map[], None, s.steps + StepsOf(s, e, cfg))
  }

  function StateTo(events: seq<Event>, n: nat, cfg: Config): State
    requires n <= |events|
  {
    if n == 0 then STARTED else Apply(StateTo(events, n - 1, cfg), events[n - 1], cfg)
  }

  predicate NoInserts(steps: seq<Step>) {
    forall i :: 0 <= i < |steps| ==> !steps[i].Insert?
  }

  predicate Possible(s: State, e: Event, cfg: Config) {
    match e
    case Tick(now, _, _, _, per, upkeep) => Measured(per, now, ReadingsOf(s, e, cfg)) && NoInserts(upkeep)
    case Gap(_) => true
    case Restart(upkeep) => NoInserts(upkeep)
  }

  /** The events can happen one after the other. */
  predicate PossibleTo(events: seq<Event>, n: nat, cfg: Config)
    requires n <= |events|
  {
    n == 0 || (PossibleTo(events, n - 1, cfg) && Possible(StateTo(events, n - 1, cfg), events[n - 1], cfg))
  }

  // ---------- what a run inserts ----------

  function InsertedTo(steps: seq<Step>, n: nat, p: Where, c: Column): int
    requires n <= |steps|
  {
    if n == 0 then 0
    else InsertedTo(steps, n - 1, p, c) + (if steps[n - 1].Insert? then ColumnSum(steps[n - 1].rows, p, c) else 0)
  }

  lemma {:induction false} InsertedPrefix(a: seq<Step>, b: seq<Step>, n: nat, p: Where, c: Column)
    requires n <= |a| && n <= |b|
    requires forall i :: 0 <= i < n ==> a[i] == b[i]
    ensures InsertedTo(a, n, p, c) == InsertedTo(b, n, p, c)
  {
    if n > 0 {
      InsertedPrefix(a, b, n - 1, p, c);
    }
  }

  lemma {:induction false} InsertedAppend(a: seq<Step>, b: seq<Step>, n: nat, p: Where, c: Column)
    requires n <= |b|
    ensures InsertedTo(a + b, |a| + n, p, c) == InsertedTo(a, |a|, p, c) + InsertedTo(b, n, p, c)
  {
    if n == 0 {
      InsertedPrefix(a + b, a, |a|, p, c);
    } else {
      InsertedAppend(a, b, n - 1, p, c);
    }
  }

  lemma {:induction false} InsertedNone(steps: seq<Step>, n: nat, p: Where, c: Column)
    requires n <= |steps| && NoInserts(steps)
    ensures InsertedTo(steps, n, p, c) == 0
  {
    if n > 0 {
      InsertedNone(steps, n - 1, p, c);
    }
  }

  lemma {:induction false} InsertColumn(l: Ledger, rows: seq<Row>, n: nat, p: Where, c: Column)
    requires n <= |rows|
    ensures ColumnSum(InsertTo(l, rows, n).inserted, p, c) == ColumnSum(l.inserted, p, c) + ColumnTo(rows, n, p, c)
  {
    if n > 0 {
      InsertColumn(l, rows, n - 1, p, c);
      ColumnOneMore(InsertTo(l, rows, n - 1).inserted, rows[n - 1], p, c);
    }
  }

  /** The ledger's history holds what the steps inserted. */
  lemma {:induction false} RunInserts(steps: seq<Step>, n: nat, f: Floors, p: Where, c: Column)
    requires n <= |steps|
    ensures ColumnSum(RunTo(steps, n, f).inserted, p, c) == InsertedTo(steps, n, p, c)
  {
    if n > 0 {
      RunInserts(steps, n - 1, f, p, c);
      if steps[n - 1].Insert? {
        InsertColumn(RunTo(steps, n - 1, f), steps[n - 1].rows, |steps[n - 1].rows|, p, c);
      }
    }
  }

  // ---------- runs and meters ----------

  /** A tick sees an interface that it reads and does not exclude. */
  function LookAt(e: Event, i: string, cfg: Config): Look {
    if e.Tick? then Look(i in e.totals && i !in cfg.excluded, true, e.limits.For(i)) else Look(false, true, 0)
  }

  function LooksTo(events: seq<Event>, n: nat, i: string, cfg: Config): (looks: seq<Look>)
    requires n <= |events|
    ensures |looks| == n && forall k :: 0 <= k < n ==> looks[k] == LookAt(events[k], i, cfg)
  {
    if n == 0 then [] else LooksTo(events, n - 1, i, cfg) + [LookAt(events[n - 1], i, cfg)]
  }

  /** One direction of one interface: its true history, and the meter that the daemon's looks make of it. */
  datatype Line = Line(iface: string, c: Column, value: int, truth: seq<Interval>, width: Width)

  function MeterOf(line: Line, events: seq<Event>, n: nat, cfg: Config): Meter
    requires n <= |events| && n <= |line.truth|
  {
    MeterTo(line.value, line.truth, LooksTo(events, |events|, line.iface, cfg), n, line.width)
  }

  /** Whatever a tick reads of the interface is its true counter value. */
  predicate ShowsTo(line: Line, events: seq<Event>, n: nat, cfg: Config)
    requires n <= |events| && n <= |line.truth|
  {
    n == 0 || (ShowsTo(line, events, n - 1, cfg)
      && (events[n - 1].Tick? && line.iface in events[n - 1].totals ==>
           events[n - 1].totals[line.iface].In(line.c) == MeterOf(line, events, n, cfg).value))
  }

  /** The daemon's baseline for the interface is the meter's. */
  predicate SameBaseline(s: State, m: Meter, line: Line) {
    if line.iface in s.prev then m.baseline == Some(s.prev[line.iface].In(line.c)) else m.baseline == None
  }

  lemma StepsInsert(s: State, e: Event, cfg: Config, i: string, c: Column)
    requires Possible(s, e, cfg) && IsTotal(c)
    ensures var steps := StepsOf(s, e, cfg);
            InsertedTo(steps, |steps|, OnIface(i), c) == if e.Tick? then ReadingsOf(s, e, cfg).Change(i, c) else 0
  {
    match e
    case Tick(now, _, _, _, per, upkeep) =>
      var first: seq<Step> := if per == [] then [] else [Insert(RowsOf(s, e, cfg))];
      InsertedAppend(first, upkeep, |upkeep|, OnIface(i), c);
      InsertedNone(upkeep, |upkeep|, OnIface(i), c);
      MeasuredColumn(per, now, ReadingsOf(s, e, cfg), i, c);
      RowsInsert(s, e, cfg, i, c);
      if per != [] {
        assert InsertedTo(first, 1, OnIface(i), c)
            == InsertedTo(first, 0, OnIface(i), c) + ColumnSum(RowsOf(s, e, cfg), OnIface(i), c);
      }
    case Gap(_) =>
    case Restart(upkeep) => InsertedNone(upkeep, |upkeep|, OnIface(i), c);
  }

  lemma RowsInsert(s: State, e: Event, cfg: Config, i: string, c: Column)
    requires e.Tick? && IsTotal(c)
    ensures ColumnSum(RowsOf(s, e, cfg), OnIface(i), c) == ColumnSum(e.per, OnIface(i), c)
  {
    var max := e.limits.For("lan");
    var lan := Flow(LanChange(s.prevLan, e.lan, max, Rx), LanChange(s.prevLan, e.lan, max, Tx));
    ProratedColumn(e.per, |e.per|, lan, ColumnSum(e.per, Everything, Rx), ColumnSum(e.per, Everything, Tx),
                   cfg.forcedLan, OnIface(i), c);
  }

  /** One event moves the daemon and the meter alike. */
  lemma EventMatches(s: State, m: Meter, e: Event, t: Interval, cfg: Config, line: Line)
    requires Possible(s, e, cfg) && IsTotal(line.c) && SameBaseline(s, m, line)
    requires line.iface in s.prev ==> line.iface !in cfg.excluded
    requires e.Tick? && line.iface in e.totals ==> e.totals[line.iface].In(line.c) == Reading(m.value, t, line.width)
    ensures var (next, meter) := (Apply(s, e, cfg), Advance(m, t, LookAt(e, line.iface, cfg), line.width));
            && SameBaseline(next, meter, line)
            && (line.iface in next.prev ==> line.iface !in cfg.excluded)
            && InsertedTo(StepsOf(s, e, cfg), |StepsOf(s, e, cfg)|, OnIface(line.iface), line.c)
               == meter.recorded - m.recorded
  {
    StepsInsert(s, e, cfg, line.iface, line.c);
  }

  /** The daemon records, for every interface and direction, exactly what the meter records. */
  lemma {:induction false} DaemonIsMeter(events: seq<Event>, n: nat, cfg: Config, line: Line)
    requires n <= |events| && n <= |line.truth| && PossibleTo(events, n, cfg) && ShowsTo(line, events, n, cfg)
    requires IsTotal(line.c)
    ensures var (s, m) := (StateTo(events, n, cfg), MeterOf(line, events, n, cfg));
            && SameBaseline(s, m, line)
            && (line.iface in s.prev ==> line.iface !in cfg.excluded)
            && InsertedTo(s.steps, |s.steps|, OnIface(line.iface), line.c) == m.recorded
  {
    if n > 0 {
      var s, m := StateTo(events, n - 1, cfg), MeterOf(line, events, n - 1, cfg);
      var more := StepsOf(s, events[n - 1], cfg);
      DaemonIsMeter(events, n - 1, cfg, line);
      EventMatches(s, m, events[n - 1], line.truth[n - 1], cfg, line);
      InsertedAppend(s.steps, more, |more|, OnIface(line.iface), line.c);
      assert Apply(s, events[n - 1], cfg).steps == s.steps + more;
    }
  }

  /** One direction of the daemon's tick drops a spike exactly if the meter of that direction does. */
  predicate Drops(m: Meter, value: int, look: Look) {
    Compares(m, look) && Delta(m.baseline.value, value, look.max).discarded
  }

  /** The tick counts an interface as discarded exactly if the meter of one of its directions drops a spike. */
  lemma SpikeIsCounted(s: State, e: Event, cfg: Config, rx: Meter, tx: Meter, rxLine: Line, txLine: Line)
    requires e.Tick? && rxLine.iface == txLine.iface && rxLine.c == Rx && txLine.c == Tx
    requires SameBaseline(s, rx, rxLine) && SameBaseline(s, tx, txLine)
    ensures var (i, look) := (rxLine.iface, LookAt(e, rxLine.iface, cfg));
            i in ReadingsOf(s, e, cfg).Spikes()
            <==> i in e.totals && (Drops(rx, e.totals[i].rx, look) || Drops(tx, e.totals[i].tx, look))
  {
    var r, i := ReadingsOf(s, e, cfg), rxLine.iface;
    assert i in r.Spikes() <==> i in r.totals && r.Spiked(i);
  }
}

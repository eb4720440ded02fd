/** The daemon as an object: its loop body, written out, against the runs on values. */
module Daemon {
  import opened Traffic
  import opened Aggregation
  import opened Listing
  import opened Ledger
  import opened Refinement
  import opened Database
  import opened ProRate
  import opened Ticks

  /** The body of the first loop: two deltas, a spike or not, a row or none. */
  method MeasureOne(per: seq<Row>, now: int, i: string, r: Readings) returns (more: seq<Row>, spiked: bool)
    requires MeasuresTo(per, |per|, now, r) && DistinctIds(per) && i !in NamesTo(per, |per|)
    ensures MeasuresTo(more, |more|, now, r) && DistinctIds(more) && spiked == r.Spiked(i)
    ensures NamesTo(more, |more|) == NamesTo(per, |per|) + (if r.Moved(i) then {i} else {})
  {
    more, spiked := per, false;
    if r.Compared(i) {
      var rx := r.Outcome(i, Rx);
      var tx := r.Outcome(i, Tx);
      spiked := rx.discarded || tx.discarded;
      if rx.bytes > 0 || tx.bytes > 0 {
        var p := Row(now, i, Bytes(Flow(rx.bytes, tx.bytes), NO_FLOW));
        OneMoreName(per, p, now, r);
        more := per + [p];
      }
    }
  }

  /** The first loop over `totals`, in whatever order the hash map yields them. */
  method Measure(now: int, r: Readings) returns (per: seq<Row>, discarded: nat)
    ensures Measured(per, now, r) && discarded == |r.Spikes()|
  {
    per, discarded := [], 0;
    var left := r.totals.Keys;
    while left != {}
      invariant left <= r.totals.Keys
      invariant MeasuresTo(per, |per|, now, r) && DistinctIds(per)
      invariant NamesTo(per, |per|) == r.Movers() - left
      invariant discarded == |r.Spikes() - left|
    {
      var i :| i in left;
      OneLeft(r, left, i);
      var spiked;
      per, spiked := MeasureOne(per, now, i, r);
      if spiked {
        discarded := discarded + 1;
      }
      left := left - {i};
    }
    assert r.Movers() - {} == r.Movers() && r.Spikes() - {} == r.Spikes();
  }

  lemma OneDone(all: set<string>, left: set<string>, i: string)
    requires i in left
    ensures all - (left - {i}) == (all - left) + (if i in all then {i} else {})
    ensures |all - (left - {i})| == |all - left| + (if i in all then 1 else 0)
  {
    assert all - (left - {i}) == (all - left) + (if i in all then {i} else {});
  }

  lemma OneLeft(r: Readings, left: set<string>, i: string)
    requires i in left && left <= r.totals.Keys
    ensures r.Movers() - (left - {i}) == (r.Movers() - left) + (if r.Moved(i) then {i} else {})
    ensures |r.Spikes() - (left - {i})| == |r.Spikes() - left| + (if r.Spiked(i) then 1 else 0)
  {
    OneDone(r.Movers(), left, i);
    OneDone(r.Spikes(), left, i);
  }

  lemma {:induction false} MeasuresPrefix(a: seq<Row>, b: seq<Row>, n: nat, now: int, r: Readings)
    requires n <= |a| && n <= |b|
    requires forall i :: 0 <= i < n ==> a[i] == b[i]
    ensures MeasuresTo(a, n, now, r) == MeasuresTo(b, n, now, r) && NamesTo(a, n) == NamesTo(b, n)
  {
    if n > 0 {
      MeasuresPrefix(a, b, n - 1, now, r);
    }
  }

  lemma OneMoreName(per: seq<Row>, p: Row, now: int, r: Readings)
    requires MeasuresTo(per, |per|, now, r) && DistinctIds(per)
    requires Measures(p, now, r) && p.iface !in NamesTo(per, |per|)
    ensures MeasuresTo(per + [p], |per| + 1, now, r) && NamesTo(per + [p], |per| + 1) == NamesTo(per, |per|) + {p.iface}
    ensures DistinctIds(per + [p])
  {
    MeasuresPrefix(per + [p], per, |per|, now, r);
    MeasuredNames(per, |per|, now, r, p.iface);
    DistinctOneMore(per, p);
  }

  /** What one loop iteration does after the samples: a rollup that commits or not, and retention with its cuts. */
  datatype Upkeep = Upkeep(rollUp: Option<bool>, cuts: Option<Cuts>)

  datatype Cuts = Cuts(raw: int, hour: int)

  function RollUpStep(commits: bool): Step {
    if commits then RollUp else AbortedRollUp
  }

  function UpkeepSteps(u: Upkeep): seq<Step> {
    (if u.rollUp.Some? then [RollUpStep(u.rollUp.value)] else [])
    + (if u.cuts.Some? then [Prune(u.cuts.value.raw, u.cuts.value.hour)] else [])
  }

  lemma PruneOfNothingPending(l: Ledger, cutRaw: int, cutHour: int, f: Floors)
    requires Pending(l.store) == []
    ensures Next(l, Prune(cutRaw, cutHour), f).lost == l.lost
    ensures Pending(Next(l, Prune(cutRaw, cutHour), f).store) == []
  {
    KeepSwap(l.store.samples, Not(Before(cutRaw)), NewerThan(l.store.marker));
  }

  /** A rollup that commits comes before the retention of the same upkeep, so that retention loses nothing. */
  lemma UpkeepLosesNothing(steps: seq<Step>, u: Upkeep, f: Floors)
    requires u.rollUp == Some(true)
    ensures Run(steps + UpkeepSteps(u), f).lost == Run(steps, f).lost
    ensures Pending(Run(steps + UpkeepSteps(u), f).store) == []
  {
    var rolled := steps + [RollUp];
    RunOneMore(steps, RollUp, f);
    RollUpLeavesNothingPending(Run(steps, f).store, f);
    if u.cuts.Some? {
      var raw, hour := u.cuts.value.raw, u.cuts.value.hour;
      RunOneMore(rolled, Prune(raw, hour), f);
      PruneOfNothingPending(Run(rolled, f), raw, hour, f);
      assert steps + UpkeepSteps(u) == rolled + [Prune(raw, hour)];
    } else {
      assert steps + UpkeepSteps(u) == rolled;
    }
  }

  /** A tick's rows are in the rollup of the same tick; a shutdown rolls up whatever is there and loses none of it. */
  lemma TickRollsUpItsRows(s: State, e: Event, cfg: Config, u: Upkeep, f: Floors)
    requires !e.Gap? && e.upkeep == UpkeepSteps(u) && u.rollUp == Some(true)
    ensures var before := s.steps + (if e.Tick? && e.per != [] then [Step.Insert(RowsOf(s, e, cfg))] else []);
            && Pending(Run(Apply(s, e, cfg).steps, f).store) == []
            && Run(Apply(s, e, cfg).steps, f).lost == Run(before, f).lost
  {
    var before := s.steps + (if e.Tick? && e.per != [] then [Step.Insert(RowsOf(s, e, cfg))] else []);
    assert Apply(s, e, cfg).steps == before + UpkeepSteps(u);
    UpkeepLosesNothing(before, u, f);
  }

  lemma {:induction false} EventsPrefix(a: seq<Event>, b: seq<Event>, n: nat, cfg: Config)
    requires n <= |a| && n <= |b|
    requires forall i :: 0 <= i < n ==> a[i] == b[i]
    ensures StateTo(a, n, cfg) == StateTo(b, n, cfg) && PossibleTo(a, n, cfg) == PossibleTo(b, n, cfg)
  {
    if n > 0 {
      EventsPrefix(a, b, n - 1, cfg);
    }
  }

  function Reached(events: seq<Event>, cfg: Config): State {
    StateTo(events, |events|, cfg)
  }

  predicate CanHappen(events: seq<Event>, cfg: Config) {
    PossibleTo(events, |events|, cfg)
  }

  lemma ReachedNext(events: seq<Event>, e: Event, cfg: Config)
    ensures Reached(events + [e], cfg) == Apply(Reached(events, cfg), e, cfg)
  {
    EventsPrefix(events + [e], events, |events|, cfg);
  }

  lemma PossibleNext(events: seq<Event>, e: Event, cfg: Config, s: State)
    requires CanHappen(events, cfg) && s == Reached(events, cfg) && Possible(s, e, cfg)
    ensures CanHappen(events + [e], cfg)
  {
    var more, n := events + [e], |events|;
    assert PossibleTo(more, n, cfg) && StateTo(more, n, cfg) == s by {
      EventsPrefix(more, events, n, cfg);
    }
    assert more[n] == e;
  }

  lemma OneMoreEvent(events: seq<Event>, e: Event, cfg: Config, s: State)
    requires CanHappen(events, cfg) && s == Reached(events, cfg) && Possible(s, e, cfg)
    ensures CanHappen(events + [e], cfg) && Reached(events + [e], cfg) == Apply(s, e, cfg)
  {
    PossibleNext(events, e, cfg, s);
    ReachedNext(events, e, cfg);
  }

  lemma TickLeaves(s: State, e: Event, cfg: Config, rows: seq<Row>)
    requires e.Tick?
    requires rows == Prorated(e.per, Flow(LanChange(s.prevLan, e.lan, e.limits.For("lan"), Rx),
                                          LanChange(s.prevLan, e.lan, e.limits.For("lan"), Tx)), cfg.forcedLan)
    ensures Apply(s, e, cfg)
         == State(Baselines(e.totals, cfg.excluded), e.lan,
                  (s.steps + (if e.per == [] then [] else [Step.Insert(rows)])) + e.upkeep)
  {
    assert rows == RowsOf(s, e, cfg);
    assert Apply(s, e, cfg).steps == (s.steps + (if e.per == [] then [] else [Step.Insert(rows)])) + e.upkeep;
  }

  /** What a tick must leave behind to be the next event. */
  lemma TickIsNext(events: seq<Event>, e: Event, cfg: Config, s: State, rows: seq<Row>)
    requires CanHappen(events, cfg) && s == Reached(events, cfg) && e.Tick? && NoInserts(e.upkeep)
    requires Measured(e.per, e.now, Readings(s.prev, e.totals, e.limits, cfg.excluded))
    requires rows == Prorated(e.per, Flow(LanChange(s.prevLan, e.lan, e.limits.For("lan"), Rx),
                                          LanChange(s.prevLan, e.lan, e.limits.For("lan"), Tx)), cfg.forcedLan)
    ensures CanHappen(events + [e], cfg)
    ensures Reached(events + [e], cfg)
         == State(Baselines(e.totals, cfg.excluded), e.lan,
                  (s.steps + (if e.per == [] then [] else [Step.Insert(rows)])) + e.upkeep)
  {
    TickLeaves(s, e, cfg, rows);
    OneMoreEvent(events, e, cfg, s);
  }

  class Daemon {
    const cfg: Config
    const db: Database
    var prev: map<string, Counters>
    var prevLan: Option<Counters>
    var discarded: nat
    ghost var events: seq<Event>

    /** The object is where its events lead, and so is its database. */
    ghost predicate Valid()
      reads this, db
    {
      && CanHappen(events, cfg)
      && State(prev, prevLan, db.steps) == Reached(events, cfg)
      && db.Valid()
    }

    constructor (cfg: Config, floors: Floors)
      ensures Valid() && fresh(db) && events == [] && discarded == 0 && this.cfg == cfg && db.floors == floors
    {
      this.cfg := cfg;
      db := new Database(floors);
      prev, prevLan, discarded, events := map[], None, 0, [];
    }

    /** A suspend gap: no sample, and no baseline for the next tick. */
    method Gap(lan: Option<Counters>)
      requires Valid()
      modifies this
      ensures Valid() && events == old(events) + [Event.Gap(lan)]
      ensures discarded == old(discarded)
    {
      OneMoreEvent(events, Event.Gap(lan), cfg, Reached(events, cfg));
      prev := map[];
      prevLan := lan;
      events := events + [Event.Gap(lan)];
    }

    /** Deltas, re-baseline, LAN shares and upserts. */
    method Sample(now: int, totals: map<string, Counters>, lan: Option<Counters>, limits: Limits)
      returns (per: seq<Row>, rows: seq<Row>)
      requires db.Valid()
      modifies this, db
      ensures db.Valid() && events == old(events)
      ensures Measured(per, now, Readings(old(prev), totals, limits, cfg.excluded))
      ensures rows == Prorated(per, Flow(LanChange(old(prevLan), lan, limits.For("lan"), Rx),
                                         LanChange(old(prevLan), lan, limits.For("lan"), Tx)), cfg.forcedLan)
      ensures prev == Baselines(totals, cfg.excluded) && prevLan == lan
      ensures discarded == old(discarded) + |Readings(old(prev), totals, limits, cfg.excluded).Spikes()|
      ensures db.steps == old(db.steps) + (if per == [] then [] else [Step.Insert(rows)])
    {
      var lanRx := LanChange(prevLan, lan, limits.For("lan"), Rx);
      var lanTx := LanChange(prevLan, lan, limits.For("lan"), Tx);
      prevLan := lan;
      var spikes: nat;
      per, spikes := Measure(now, Readings(prev, totals, limits, cfg.excluded));
      prev := Baselines(totals, cfg.excluded);
      discarded := discarded + spikes;
      rows := Prorate(per, Flow(lanRx, lanTx), cfg.forcedLan);
      if |per| > 0 {
        db.Insert(rows);
      }
    }

    /** A tick: the samples, then whatever upkeep is due. */
    method Tick(
        now: int, totals: map<string, Counters>, lan: Option<Counters>, limits: Limits,
        u: Upkeep) returns (per: seq<Row>)
      requires Valid()
      modifies this, db
      ensures Valid()
      ensures events == old(events) + [Event.Tick(now, totals, lan, limits, per, UpkeepSteps(u))]
      ensures discarded == old(discarded) + |Readings(old(prev), totals, limits, cfg.excluded).Spikes()|
    {
      ghost var s := State(prev, prevLan, db.steps);
      var rows;
      per, rows := Sample(now, totals, lan, limits);
      Maintain(u);
      ghost var e := Event.Tick(now, totals, lan, limits, per, UpkeepSteps(u));
      TickIsNext(events, e, cfg, s, rows);
      events := events + [e];
    }

    /** The rollup and the retention that are due. */
    method Maintain(u: Upkeep)
      requires db.Valid()
      modifies db
      ensures db.Valid() && db.steps == old(db.steps) + UpkeepSteps(u)
    {
      if u.rollUp.Some? {
        db.RollUp(u.rollUp.value);
      }
      if u.cuts.Some? {
        db.Prune(u.cuts.value.raw, u.cuts.value.hour);
      }
    }

    /** SIGTERM: a last rollup, retention, and later a new process with nothing in memory. */
    method Restart(u: Upkeep)
      requires Valid()
      modifies this, db
      ensures Valid() && events == old(events) + [Event.Restart(UpkeepSteps(u))]
      ensures prev == map[] && prevLan == None && discarded == old(discarded)
    {
      ghost var s := State(prev, prevLan, db.steps);
      Maintain(u);
      OneMoreEvent(events, Event.Restart(UpkeepSteps(u)), cfg, s);
      prev, prevLan := map[], None;
      events := events + [Event.Restart(UpkeepSteps(u))];
    }
  }
}

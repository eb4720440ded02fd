/** The packet sockets, and the recorder with its maps and table, as objects. */
module Recorder {
  import opened Traffic
  import opened Capture
  import opened Pipeline

  /** A packet socket: what has arrived, and how far it has been read. */
  class Receiver {
    var queue: seq<Arrival>
    var at: nat

    ghost predicate Valid()
      reads this
    {
      at <= |queue|
    }

    constructor ()
      ensures Valid() && queue == [] && at == 0
    {
      queue, at := [], 0;
    }

    /** The next arrival, or none when the socket would block. */
    method Next() returns (r: Option<Arrival>)
      requires Valid()
      modifies this`at
      ensures Valid()
      ensures old(at) == |queue| ==> r == None && at == old(at)
      ensures old(at) < |queue| ==> r == Some(queue[old(at)]) && at == old(at) + 1
    {
      if at == |queue| {
        return None;
      }
      r := Some(queue[at]);
      at := at + 1;
    }
  }

  /** `drain_one`: up to `cap` frames; true after a hard error, which is consumed as well. */
  method DrainOne(rx: Receiver, v: View, cum: map<nat, Entry>, cap: nat) returns (after: map<nat, Entry>, failed: bool)
    requires rx.Valid()
    modifies rx`at
    ensures rx.Valid()
    ensures var n := Reach(rx.queue, old(rx.at), cap);
            && failed == (n < |rx.queue| && n < old(rx.at) + cap)
            && rx.at == (if failed then n + 1 else n)
            && after == AccountFrom(cum, rx.queue, old(rx.at), n, v)
  {
    after := cum;
    ghost var from := rx.at;
    for i := 0 to cap
      invariant rx.Valid() && rx.at == from + i && rx.at == Reach(rx.queue, from, i)
      invariant after == AccountFrom(cum, rx.queue, from, rx.at, v)
    {
      var r := rx.Next();
      match r {
        case None =>
          ReachStops(rx.queue, from, i, cap);
          return after, false;
        case Some(Fails) =>
          ReachStops(rx.queue, from, i, cap);
          return after, true;
        case Some(Got(frame)) =>
          after := Account(after, frame, v);
      }
    }
    failed := false;
  }

  /** A larger cap does not get past a hard error or the end of the queue. */
  lemma {:induction false} ReachStops(q: seq<Arrival>, at: nat, i: nat, cap: nat)
    requires at <= |q| && i < cap && Reach(q, at, i) == at + i
    requires at + i == |q| || q[at + i].Fails?
    ensures Reach(q, at, cap) == at + i
    decreases cap
  {
    if i < cap - 1 {
      ReachStops(q, at, i, cap - 1);
    }
  }

  /** A receiver at a moment: its queue and position. */
  datatype Feed = Feed(queue: seq<Arrival>, at: nat) {
    predicate Valid() {
      at <= |queue|
    }

    function Reach(cap: nat): nat
      requires Valid()
    {
      Capture.Reach(queue, at, cap)
    }
  }

  /** The scratch map after the first `n` feeds are drained in turn. */
  function DrainedTo(cum: map<nat, Entry>, feeds: seq<Feed>, n: nat, cap: nat, v: View): map<nat, Entry>
    requires n <= |feeds| && forall i :: 0 <= i < |feeds| ==> feeds[i].Valid()
  {
    if n == 0 then cum
    else
      var f := feeds[n - 1];
      AccountFrom(DrainedTo(cum, feeds, n - 1, cap, v), f.queue, f.at, f.Reach(cap), v)
  }

  function FeedBytesTo(feeds: seq<Feed>, n: nat, cap: nat, v: View, d: Dir): int
    requires n <= |feeds| && forall i :: 0 <= i < |feeds| ==> feeds[i].Valid()
  {
    if n == 0 then 0
    else
      var f := feeds[n - 1];
      FeedBytesTo(feeds, n - 1, cap, v, d) + BytesFrom(f.queue, f.at, f.Reach(cap), v, d)
  }

  /** A round accounts the frames it consumes, of all receivers, once each. */
  lemma {:induction false} RoundAdds(cum: map<nat, Entry>, feeds: seq<Feed>, n: nat, cap: nat, v: View, d: Dir)
    requires n <= |feeds| && forall i :: 0 <= i < |feeds| ==> feeds[i].Valid()
    ensures ScratchBytes(DrainedTo(cum, feeds, n, cap, v), d) == ScratchBytes(cum, d) + FeedBytesTo(feeds, n, cap, v, d)
  {
    if n > 0 {
      RoundAdds(cum, feeds, n - 1, cap, v, d);
      var f := feeds[n - 1];
      AccountAllAdds(DrainedTo(cum, feeds, n - 1, cap, v), f.queue, f.at, f.Reach(cap), v, d);
    }
  }

  /** The loop of the flush, in hash-map order. */
  method FoldAll(shared: map<string, Usage>, cum: map<nat, Entry>) returns (m: map<string, Usage>)
    ensures m == Folded(shared, cum)
  {
    m := shared;
    var left := cum;
    while left != map[]
      invariant Folded(m, left) == Folded(shared, cum)
      decreases |left|
    {
      var p :| p in left;
      FoldFirst(m, left, p);
      m := AddUsage(m, left[p].comm, left[p].bytes);
      left := left - {p};
    }
  }

  /** The daemon's loop over what it drained, in hash-map order. */
  method UpsertAll(table: map<HourKey, Usage>, hour: int, cur: map<string, Usage>) returns (rows: map<HourKey, Usage>)
    ensures rows == Upserted(table, hour, cur)
  {
    rows := table;
    var left := cur;
    while left != map[]
      invariant Upserted(rows, hour, left) == Upserted(table, hour, cur)
      decreases |left|
    {
      var c :| c in left;
      UpsertFirst(rows, hour, left, c);
      if left[c].rx > 0 || left[c].tx > 0 {
        rows := AddUsage(rows, HourKey(hour, c), left[c]);
      }
      left := left - {c};
    }
  }

  lemma OtherHoursStay(table: map<HourKey, Usage>, hour: int, cur: map<string, Usage>)
    ensures var rows := Upserted(table, hour, cur);
            forall k: HourKey :: k.hour != hour ==> (k in rows <==> k in table) && (k in rows ==> rows[k] == table[k])
  {
    var rows := Upserted(table, hour, cur);
    forall k: HourKey | k.hour != hour ensures (k in rows <==> k in table) && (k in rows ==> rows[k] == table[k]) {
      UpsertKeys(table, hour, cur, k);
      UpsertByKey(table, hour, cur, k, Down);
      UpsertByKey(table, hour, cur, k, Up);
    }
  }

  // ---------- rounds over several receivers ----------

  ghost predicate AllValid(feeds: seq<Feed>) {
    forall i :: 0 <= i < |feeds| ==> feeds[i].Valid()
  }

  /** A receiver after `k` rounds: the others do not matter to it. */
  function FeedAfter(f: Feed, cap: nat, k: nat): (after: Feed)
    requires f.Valid()
    ensures after.Valid()
  {
    Feed(f.queue, PositionAfter(f.queue, f.at, cap, k))
  }

  lemma FeedMoves(f: Feed, cap: nat, k: nat)
    requires f.Valid()
    ensures FeedAfter(f, cap, k + 1) == Feed(f.queue, FeedAfter(f, cap, k).Reach(cap))
  {
  }

  function FeedsAfterTo(feeds: seq<Feed>, n: nat, cap: nat, k: nat): (after: seq<Feed>)
    requires n <= |feeds| && forall i :: 0 <= i < |feeds| ==> feeds[i].Valid()
    ensures |after| == n && forall i :: 0 <= i < n ==> after[i] == FeedAfter(feeds[i], cap, k)
  {
    if n == 0 then [] else FeedsAfterTo(feeds, n - 1, cap, k) + [FeedAfter(feeds[n - 1], cap, k)]
  }

  /** All receivers after `k` rounds in which none fails. */
  function FeedsAfter(feeds: seq<Feed>, cap: nat, k: nat): (after: seq<Feed>)
    requires forall i :: 0 <= i < |feeds| ==> feeds[i].Valid()
    ensures |after| == |feeds| && forall i :: 0 <= i < |feeds| ==> after[i] == FeedAfter(feeds[i], cap, k)
  {
    FeedsAfterTo(feeds, |feeds|, cap, k)
  }

  /** The shared scratch map after those rounds: every round drains the receivers in turn. */
  function RoundsTo(cum: map<nat, Entry>, feeds: seq<Feed>, cap: nat, k: nat, v: View): map<nat, Entry>
    requires forall i :: 0 <= i < |feeds| ==> feeds[i].Valid()
  {
    if k == 0 then cum
    else DrainedTo(RoundsTo(cum, feeds, cap, k - 1, v), FeedsAfter(feeds, cap, k - 1), |feeds|, cap, v)
  }

  /** Without hard errors each receiver consumes the lesser of what it holds and `k * cap` frames. */
  lemma RoundsConsume(feeds: seq<Feed>, cap: nat, k: nat, i: nat)
    requires AllValid(feeds) && i < |feeds| && NoErrors(feeds[i].queue)
    ensures FeedsAfter(feeds, cap, k)[i].at == feeds[i].at + Least(|feeds[i].queue| - feeds[i].at, k * cap)
  {
    PositionIsMin(feeds[i].queue, feeds[i].at, cap, k);
  }

  /** The bytes of process `p` that the first `n` receivers deliver from round `j` up to round `k`. */
  function GainedTo(feeds: seq<Feed>, n: nat, cap: nat, j: nat, k: nat, v: View, p: nat, d: Dir): int
    requires n <= |feeds| && forall i :: 0 <= i < |feeds| ==> feeds[i].Valid()
  {
    if n == 0 then 0
    else
      var f := feeds[n - 1];
      GainedTo(feeds, n - 1, cap, j, k, v, p, d)
      + BytesForFrom(f.queue, FeedAfter(f, cap, j).at, FeedAfter(f, cap, k).at, v, p, d)
  }

  lemma {:induction false} RoundGains(
    cum: map<nat, Entry>, feeds: seq<Feed>, n: nat, cap: nat, k: nat, v: View, p: nat, d: Dir)
    requires n <= |feeds| && AllValid(feeds)
    ensures Has(DrainedTo(cum, FeedsAfter(feeds, cap, k), n, cap, v), p, d)
         == Has(cum, p, d) + GainedTo(feeds, n, cap, k, k + 1, v, p, d)
  {
    if n > 0 {
      RoundGains(cum, feeds, n - 1, cap, k, v, p, d);
      var now := FeedsAfter(feeds, cap, k);
      var f := now[n - 1];
      AccountsApart(DrainedTo(cum, now, n - 1, cap, v), f.queue, f.at, f.Reach(cap), v, p, d);
    }
  }

  lemma {:induction false} GainsAdd(feeds: seq<Feed>, n: nat, cap: nat, k: nat, v: View, p: nat, d: Dir)
    requires n <= |feeds| && AllValid(feeds)
    ensures GainedTo(feeds, n, cap, 0, k, v, p, d) + GainedTo(feeds, n, cap, k, k + 1, v, p, d)
         == GainedTo(feeds, n, cap, 0, k + 1, v, p, d)
  {
    if n > 0 {
      GainsAdd(feeds, n - 1, cap, k, v, p, d);
      var f := feeds[n - 1];
      BytesForInTwo(f.queue, f.at, FeedAfter(f, cap, k).at, FeedAfter(f, cap, k + 1).at, v, p, d);
    }
  }

  lemma {:induction false} GainsNone(feeds: seq<Feed>, n: nat, cap: nat, v: View, p: nat, d: Dir)
    requires n <= |feeds| && AllValid(feeds)
    ensures GainedTo(feeds, n, cap, 0, 0, v, p, d) == 0
  {
    if n > 0 {
      GainsNone(feeds, n - 1, cap, v, p, d);
    }
  }

  lemma NextRoundGains(cum: map<nat, Entry>, feeds: seq<Feed>, cap: nat, k: nat, v: View, p: nat, d: Dir)
    requires AllValid(feeds)
    ensures Has(RoundsTo(cum, feeds, cap, k + 1, v), p, d)
         == Has(RoundsTo(cum, feeds, cap, k, v), p, d) + GainedTo(feeds, |feeds|, cap, k, k + 1, v, p, d)
  {
    RoundGains(RoundsTo(cum, feeds, cap, k, v), feeds, |feeds|, cap, k, v, p, d);
  }

  /**
    Chunked draining of several receivers into one scratch map: after `k` rounds each process
    has gained the bytes of its own frames among all that were consumed, once.
   */
  lemma RoundsApart(
    cum: map<nat, Entry>, feeds: seq<Feed>, cap: nat, k: nat, v: View, p: nat, d: Dir)
    requires AllValid(feeds)
    ensures Has(RoundsTo(cum, feeds, cap, k, v), p, d)
         == Has(cum, p, d) + GainedTo(feeds, |feeds|, cap, 0, k, v, p, d)
  {
    GainsNone(feeds, |feeds|, cap, v, p, d);
    for i := 0 to k
      invariant Has(RoundsTo(cum, feeds, cap, i, v), p, d)
             == Has(cum, p, d) + GainedTo(feeds, |feeds|, cap, 0, i, v, p, d)
    {
      NextRoundGains(cum, feeds, cap, i, v, p, d);
      GainsAdd(feeds, |feeds|, cap, i, v, p, d);
    }
  }

  ghost predicate NoneFails(feeds: seq<Feed>) {
    forall i :: 0 <= i < |feeds| ==> NoErrors(feeds[i].queue)
  }

  // ---------- the recorder ----------

  /** The frames that a round over the first `n` feeds accounts, as steps. */
  function RoundSteps(feeds: seq<Feed>, n: nat, cap: nat, v: View): seq<Step>
    requires n <= |feeds| && forall i :: 0 <= i < |feeds| ==> feeds[i].Valid()
  {
    if n == 0 then []
    else
      var f := feeds[n - 1];
      RoundSteps(feeds, n - 1, cap, v) + AccountSteps(f.queue, f.at, f.Reach(cap), v)
  }

  lemma {:induction false} RoundStepsDo(steps: seq<Step>, p: Pipeline, feeds: seq<Feed>, n: nat, cap: nat, v: View)
    requires n <= |feeds| && AllValid(feeds) && LeadTo(steps, p)
    ensures LeadTo(steps + RoundSteps(feeds, n, cap, v), p.(scratch := DrainedTo(p.scratch, feeds, n, cap, v)))
  {
    if n == 0 {
      assert steps + [] == steps;
    } else {
      var f := feeds[n - 1];
      var before, more := steps + RoundSteps(feeds, n - 1, cap, v), AccountSteps(f.queue, f.at, f.Reach(cap), v);
      RoundStepsDo(steps, p, feeds, n - 1, cap, v);
      AccountStepsDo(before, p.(scratch := DrainedTo(p.scratch, feeds, n - 1, cap, v)), f.queue, f.at, f.Reach(cap), v);
      assert before + more == steps + RoundSteps(feeds, n, cap, v);
    }
  }

  /** The receivers, as the feeds they are now. */
  ghost predicate AreFeeds(rs: seq<Receiver>, feeds: seq<Feed>)
    reads rs
  {
    && |feeds| == |rs| && AllValid(feeds)
    && (forall i :: 0 <= i < |rs| ==> feeds[i] == Feed(rs[i].queue, rs[i].at))
    && (forall i, j :: 0 <= i < j < |rs| ==> rs[i] != rs[j])
  }

  /** Feed `i` has a hard error within reach. */
  predicate FailsWithin(f: Feed, cap: nat)
    requires f.Valid()
  {
    var n := f.Reach(cap);
    n < |f.queue| && n < f.at + cap && f.queue[n].Fails?
  }

  /** Feed `i` is behind the round, ahead of it, or the one that failed and stopped it. */
  predicate Visited(f: Feed, at: nat, before: bool, failed: bool, cap: nat)
    requires f.Valid()
  {
    if !before then at == f.at
    else FailsWithin(f, cap) == failed && at == f.Reach(cap) + (if failed then 1 else 0)
  }

  /** The loop over the receivers. It ends early, after `n` of them, exactly when one fails. */
  method DrainAll(rs: seq<Receiver>, v: View, cum: map<nat, Entry>, cap: nat, ghost feeds: seq<Feed>)
    returns (after: map<nat, Entry>, n: nat, dead: bool)
    requires AreFeeds(rs, feeds)
    modifies set r | r in rs
    ensures n <= |rs| && (if dead then n > 0 else n == |rs|)
    ensures after == DrainedTo(cum, feeds, n, cap, v)
    ensures forall i :: 0 <= i < |rs| ==>
              && rs[i].Valid() && rs[i].queue == feeds[i].queue
              && Visited(feeds[i], rs[i].at, i < n, dead && i == n - 1, cap)
  {
    after, n, dead := cum, 0, false;
    while n < |rs| && !dead
      invariant n <= |rs| && (dead ==> n > 0)
      invariant after == DrainedTo(cum, feeds, n, cap, v)
      invariant forall i :: 0 <= i < |rs| ==>
                  && rs[i].Valid() && rs[i].queue == feeds[i].queue
                  && Visited(feeds[i], rs[i].at, i < n, dead && i == n - 1, cap)
      decreases |rs| - n
    {
      assert Visited(feeds[n], rs[n].at, false, false, cap);
      after, dead := DrainOne(rs[n], v, after, cap);
      n := n + 1;
    }
  }

  lemma NoneFailsWithin(feeds: seq<Feed>, cap: nat, k: nat, i: nat)
    requires AllValid(feeds) && NoneFails(feeds) && i < |feeds|
    ensures !FailsWithin(FeedsAfter(feeds, cap, k)[i], cap)
  {
    assert NoErrors(feeds[i].queue);
  }

  /** Round `k` of several, while nothing arrives and nothing fails. */
  method DrainAgain(rs: seq<Receiver>, v: View, cum: map<nat, Entry>, cap: nat, ghost feeds: seq<Feed>, ghost k: nat)
    returns (after: map<nat, Entry>)
    requires AllValid(feeds) && NoneFails(feeds) && AreFeeds(rs, FeedsAfter(feeds, cap, k))
    modifies set r | r in rs
    ensures AreFeeds(rs, FeedsAfter(feeds, cap, k + 1))
    ensures after == DrainedTo(cum, FeedsAfter(feeds, cap, k), |feeds|, cap, v)
  {
    var n, dead;
    ghost var now := FeedsAfter(feeds, cap, k);
    after, n, dead := DrainAll(rs, v, cum, cap, now);
    if dead {
      NoneFailsWithin(feeds, cap, k, n - 1);
    }
    forall i | 0 <= i < |rs| ensures Feed(rs[i].queue, rs[i].at) == FeedAfter(feeds[i], cap, k + 1) {
      FeedMoves(feeds[i], cap, k);
      assert Visited(now[i], rs[i].at, true, false, cap);
    }
  }

  /** `k` rounds. */
  method DrainRounds(rs: seq<Receiver>, v: View, cum: map<nat, Entry>, cap: nat, k: nat, ghost feeds: seq<Feed>)
    returns (after: map<nat, Entry>)
    requires AreFeeds(rs, feeds) && NoneFails(feeds)
    modifies set r | r in rs
    ensures AreFeeds(rs, FeedsAfter(feeds, cap, k)) && after == RoundsTo(cum, feeds, cap, k, v)
  {
    after := cum;
    for i := 0 to k
      invariant AreFeeds(rs, FeedsAfter(feeds, cap, i)) && after == RoundsTo(cum, feeds, cap, i, v)
    {
      after := DrainAgain(rs, v, after, cap, feeds, i);
    }
  }

  /**
    The pid-keyed scratch map of the capture thread, the map it shares with the daemon, what
    the daemon has drained and not committed, and `proc_hourly`.
   */
  class Recorder {
    var scratch: map<nat, Entry>
    var shared: map<string, Usage>
    var inFlight: map<string, Usage>
    var table: map<HourKey, Usage>
    ghost var steps: seq<Step>

    ghost function Now(): Pipeline
      reads this
    {
      Pipeline(scratch, shared, inFlight, table)
    }

    /** The object is where its steps lead: what is proved of interleavings holds of it. */
    ghost predicate Valid()
      reads this
    {
      LeadTo(steps, Now())
    }

    constructor ()
      ensures Valid() && steps == []
    {
      scratch, shared, inFlight, table, steps := map[], map[], map[], map[], [];
    }

    /** One round over the receivers. It ends early, after `n` of them, exactly when one fails. */
    method Round(rs: seq<Receiver>, v: View, cap: nat, ghost feeds: seq<Feed>) returns (n: nat, dead: bool)
      requires Valid() && AreFeeds(rs, feeds)
      modifies this`scratch, this`steps, set r | r in rs
      ensures Valid() && n <= |rs| && (if dead then n > 0 else n == |rs|)
      ensures steps == old(steps) + RoundSteps(feeds, n, cap, v)
      ensures scratch == DrainedTo(old(scratch), feeds, n, cap, v)
      ensures forall i :: 0 <= i < |rs| ==>
                && rs[i].Valid() && rs[i].queue == feeds[i].queue
                && Visited(feeds[i], rs[i].at, i < n, dead && i == n - 1, cap)
    {
      ghost var before := Now();
      scratch, n, dead := DrainAll(rs, v, scratch, cap, feeds);
      RoundStepsDo(steps, before, feeds, n, cap, v);
      steps := steps + RoundSteps(feeds, n, cap, v);
    }

    /** The round the thread makes: at most 4096 frames of each receiver. */
    method CappedRound(rs: seq<Receiver>, v: View, ghost feeds: seq<Feed>) returns (n: nat, dead: bool)
      requires Valid() && AreFeeds(rs, feeds)
      modifies this`scratch, this`steps, set r | r in rs
      ensures Valid() && n <= |rs| && (if dead then n > 0 else n == |rs|)
      ensures steps == old(steps) + RoundSteps(feeds, n, 4096, v)
      ensures scratch == DrainedTo(old(scratch), feeds, n, 4096, v)
      ensures forall i :: 0 <= i < |rs| ==>
                && rs[i].Valid() && rs[i].queue == feeds[i].queue
                && Visited(feeds[i], rs[i].at, i < n, dead && i == n - 1, 4096)
    {
      n, dead := Round(rs, v, MAX_DRAIN_FRAMES, feeds);
    }

    /** The flush: every scratch entry goes into the shared map under its name. */
    method Flush()
      requires Valid()
      modifies this`scratch, this`shared, this`steps
      ensures Valid() && steps == old(steps) + [Folds]
      ensures scratch == map[] && shared == Folded(old(shared), old(scratch))
    {
      LeadOn(steps, Now(), Folds);
      shared := FoldAll(shared, scratch);
      scratch := map[];
      steps := steps + [Folds];
    }

    /** `drain_deltas`: takes the shared map and leaves an empty one. */
    method Drain()
      requires Valid() && inFlight == map[]
      modifies this`shared, this`inFlight, this`steps
      ensures Valid() && steps == old(steps) + [Takes]
      ensures inFlight == old(shared) && shared == map[]
    {
      LeadOn(steps, Now(), Takes);
      inFlight, shared := shared, map[];
      steps := steps + [Takes];
    }

    /** One transaction: each drained total is added to its hour, empty ones are skipped. */
    method Upsert(hour: int)
      requires Valid()
      modifies this`table, this`inFlight, this`steps
      ensures Valid() && steps == old(steps) + [Commits(hour)]
      ensures inFlight == map[] && table == Upserted(old(table), hour, old(inFlight))
      ensures forall c, d :: UsageOf(table, HourKey(hour, c), d)
                          == UsageOf(old(table), HourKey(hour, c), d) + UsageOf(old(inFlight), c, d)
      ensures forall k: HourKey :: k.hour != hour ==>
                (k in table <==> k in old(table)) && (k in table ==> table[k] == old(table)[k])
    {
      LeadOn(steps, Now(), Commits(hour));
      forall c, d ensures UsageOf(Upserted(table, hour, inFlight), HourKey(hour, c), d)
                       == UsageOf(table, HourKey(hour, c), d) + UsageOf(inFlight, c, d)
      {
        UpsertByKey(table, hour, inFlight, HourKey(hour, c), d);
      }
      OtherHoursStay(table, hour, inFlight);
      table := UpsertAll(table, hour, inFlight);
      inFlight := map[];
      steps := steps + [Commits(hour)];
    }

    /**
      `ensure_running` after the thread has died: a new thread starts with an empty scratch
      map. The bytes of the old one are lost, and no others.
     */
    method Relaunch()
      requires Valid()
      modifies this`scratch, this`steps
      ensures Valid() && steps == old(steps) + [ThreadDies]
      ensures forall d :: Held(Now(), d) == old(Held(Now(), d)) - old(ScratchBytes(scratch, d))
    {
      LeadOn(steps, Now(), ThreadDies);
      ghost var p := Now();
      forall d: Dir ensures Held(Next(p, ThreadDies), d) == Held(p, d) - ScratchBytes(p.scratch, d) {
        StepConserves(p, ThreadDies, d);
      }
      scratch := map[];
      steps := steps + [ThreadDies];
    }

    /** The process ends and starts again: the table stays, everything in memory is lost. */
    method Restart()
      requires Valid()
      modifies this`scratch, this`shared, this`inFlight, this`steps
      ensures Valid() && steps == old(steps) + [DaemonDies]
      ensures forall d :: Held(Now(), d) == UsageBytes(table, d)
    {
      LeadOn(steps, Now(), DaemonDies);
      scratch, shared, inFlight := map[], map[], map[];
      forall d: Dir ensures Held(Now(), d) == UsageBytes(table, d) {
        NothingHeld(d);
      }
      steps := steps + [DaemonDies];
    }

    /** Retention of `proc_hourly`: the hours from the cut on stay as they are, the others go. */
    method Expire(cut: int)
      requires Valid()
      modifies this`table, this`steps
      ensures Valid() && steps == old(steps) + [Expires(cut)]
      ensures forall k :: k in table <==> k in old(table) && k.hour >= cut
      ensures forall k :: k in table ==> table[k] == old(table)[k]
    {
      LeadOn(steps, Now(), Expires(cut));
      table := Kept(table, cut);
      steps := steps + [Expires(cut)];
    }
  }

  /** At every moment of a recorder's life, what it accounted is in its four maps or in a named loss. */
  lemma RecorderConserves(r: Recorder, d: Dir)
    requires r.Valid()
    ensures GainTo(r.steps, |r.steps|, d) == Held(r.Now(), d) + LossTo(r.steps, |r.steps|, d)
  {
    PipelineConserves(r.steps, |r.steps|, d);
  }
}

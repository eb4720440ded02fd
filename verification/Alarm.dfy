/**
  From recorded bytes to notices: when the checks are the daemon's own, a notice for a
  window and threshold means that the window's recorded bytes had reached it.
 */
module Alarm {
  import opened WindowKey
  import opened Ledger
  import opened Hierarchy
  import opened Budget
  import opened Ticks
  import opened EndToEnd
  import Notifier

  /** A budget check: the transactions so far, the time, and the budget in bytes. */
  datatype Moment = Moment(steps: seq<Step>, now: int, budget: int)

  /** All bytes ever recorded in the window of a moment. */
  function Recorded(m: Moment, p: Period, wan: bool): int {
    Basis(Run(m.steps, Utc()).inserted, Window(Start(p, m.now)), wan)
  }

  function CheckAt(m: Moment, p: Period, wan: bool): Notifier.Check {
    Notifier.Check(BudgetKey(p, m.now), DaemonSays(Run(m.steps, Utc()), p, m.now, wan), m.budget)
  }

  /** Check `i` is what the daemon computed at moment `i`. */
  ghost predicate ChecksAt(checks: seq<Notifier.Check>, moments: seq<Moment>, p: Period, wan: bool) {
    |checks| == |moments| && forall i :: 0 <= i < |checks| ==> checks[i] == CheckAt(moments[i], p, wan)
  }

  /** The transactions up to each moment inserted sound rows. */
  ghost predicate SoundAt(moments: seq<Moment>) {
    forall i :: 0 <= i < |moments| ==> InsertsSound(moments[i].steps)
  }

  /** At that moment the window named by `key` had reached the threshold. */
  ghost predicate Reached(m: Moment, key: string, l: Notifier.Level, p: Period, wan: bool) {
    && m.budget > 0 && key == BudgetKey(p, m.now)
    && if l.L80? then 5 * Recorded(m, p, wan) >= 4 * m.budget else Recorded(m, p, wan) >= m.budget
  }

  lemma CheckIsNoMore(m: Moment, p: Period, wan: bool)
    requires InsertsSound(m.steps)
    ensures CheckAt(m, p, wan).used <= Recorded(m, p, wan)
  {
    DaemonNeverOvercounts(m.steps, p, m.now, wan);
  }

  lemma OverIsReached(
    checks: seq<Notifier.Check>, moments: seq<Moment>, key: string, l: Notifier.Level, p: Period, wan: bool)
    requires ChecksAt(checks, moments, p, wan) && SoundAt(moments) && Notifier.Over(checks, key, l)
    ensures exists i :: 0 <= i < |moments| && Reached(moments[i], key, l, p, wan)
  {
    var i :| 0 <= i < |checks| && checks[i].key == key && checks[i].budget > 0 && Notifier.Reaches(checks[i], l);
    CheckIsNoMore(moments[i], p, wan);
    assert Reached(moments[i], key, l, p, wan);
  }

  /**
    No false alarm. In every interleaving of checks, polls and crashes, and whatever was
    lost or deleted: behind each notice is a moment of its window at which the bytes
    recorded in the window had reached the notice's share of the budget.
   */
  lemma NoticesMeanBytes(steps: seq<Notifier.Step>, moments: seq<Moment>, p: Period, wan: bool, i: nat)
    requires ChecksAt(Notifier.StateTo(steps, |steps|).checks, moments, p, wan) && SoundAt(moments)
    requires i < |Notifier.StateTo(steps, |steps|).notices|
    ensures var n := Notifier.StateTo(steps, |steps|).notices[i];
            exists j :: 0 <= j < |moments| && Reached(moments[j], n.key, n.level, p, wan)
  {
    var s := Notifier.StateTo(steps, |steps|);
    Notifier.NoticesDeserved(steps);
    OverIsReached(s.checks, moments, s.notices[i].key, s.notices[i].level, p, wan);
  }

  /** A retention that covers the window makes the check exact. */
  lemma CheckIsExact(m: Moment, p: Period, days: int, wan: bool)
    requires Retained(m.steps, m.now, days, wan) && days >= LongestDays(p)
    ensures CheckAt(m, p, wan).used == Recorded(m, p, wan)
  {
    DaemonCountsWindow(m.steps, p, m.now, days, wan);
  }

  /**
    No missed alarm. When the bytes recorded in the window have reached 80% or 100% of the
    budget at a moment whose retention covers the window, and that moment's check runs to its
    end among any steps of the agent, then whatever happens afterwards the next undisturbed
    poll of the window leaves the notice sent.
   */
  lemma BytesMeanNotices(
    before: seq<Notifier.Step>, m: Moment, a: seq<Notifier.Step>, b: seq<Notifier.Step>, after: seq<Notifier.Step>,
    l: Notifier.Level, p: Period, days: int, wan: bool)
    requires Retained(m.steps, m.now, days, wan) && days >= LongestDays(p) && m.budget > 0
    requires if l.L80? then 5 * Recorded(m, p, wan) >= 4 * m.budget else Recorded(m, p, wan) >= m.budget
    requires Notifier.StateTo(before, |before|).checker.Resting? && Notifier.AgentOnly(a) && Notifier.AgentOnly(b)
    requires var steps := before + Notifier.CheckSteps(CheckAt(m, p, wan), a, b) + after;
             Notifier.StateTo(steps, |steps|).agent.Asleep?
    ensures var steps := before + Notifier.CheckSteps(CheckAt(m, p, wan), a, b) + after;
            var poll := Notifier.Next(Notifier.StateTo(steps, |steps|), Notifier.BeginPoll(BudgetKey(p, m.now)));
            Notifier.Notice(BudgetKey(p, m.now), l) in Notifier.Continued(poll, 6).notices
  {
    CheckIsExact(m, p, days, wan);
    Notifier.CheckIsNotified(before, CheckAt(m, p, wan), a, b, after, l);
  }

  /** The moments are moments of one run of the daemon. */
  ghost predicate MomentsOf(moments: seq<Moment>, events: seq<Event>, cfg: Config) {
    forall i :: 0 <= i < |moments| ==> moments[i].steps <= StateTo(events, |events|, cfg).steps
  }

  /** The same for any run of the daemon, whose rows are sound. */
  lemma DaemonNoticesMeanBytes(
    steps: seq<Notifier.Step>, moments: seq<Moment>, events: seq<Event>, cfg: Config, p: Period, wan: bool, i: nat)
    requires ChecksAt(Notifier.StateTo(steps, |steps|).checks, moments, p, wan)
    requires PossibleTo(events, |events|, cfg) && MomentsOf(moments, events, cfg)
    requires i < |Notifier.StateTo(steps, |steps|).notices|
    ensures var n := Notifier.StateTo(steps, |steps|).notices[i];
            exists j :: 0 <= j < |moments| && Reached(moments[j], n.key, n.level, p, wan)
  {
    DaemonIsSound(events, |events|, cfg);
    NoticesMeanBytes(steps, moments, p, wan, i);
  }
}

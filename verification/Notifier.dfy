/**
  Budget thresholds: the daemon raises flags per window, a separate agent polls them,
  notifies and leaves sentinel files. Their atomic steps interleave in any order, either
  may crash anywhere, and sentinel writes may fail.
 */
module Notifier {
  import opened WindowKey

  datatype Level = L80 | L100

  /** `crossed80` and `crossed100` of one window. */
  datatype Flags = Flags(c80: bool, c100: bool) {
    predicate Has(l: Level) {
      if l.L80? then c80 else c100
    }
  }

  function FlagsOf(table: map<string, Flags>, key: string): Flags {
    if key in table then table[key] else Flags(false, false)
  }

  /** One budget check that had a positive budget. */
  datatype Check = Check(key: string, used: int, budget: int)

  /** The fraction is at least 0.8, or at least 1. */
  predicate Reaches(c: Check, l: Level) {
    if l.L80? then 5 * c.used >= 4 * c.budget else c.used >= c.budget
  }

  /** The upsert that raises a flag; the one for 100% raises both. */
  function Raised(table: map<string, Flags>, key: string, l: Level): map<string, Flags> {
    table[key := Flags(true, l.L100? || FlagsOf(table, key).c100)]
  }

  // ---------- the two programs, run alone ----------

  /** What a check does: raise what is reached and was not set when the row was read. */
  function Checked(table: map<string, Flags>, c: Check): map<string, Flags> {
    if c.budget <= 0 then table
    else
      var seen := FlagsOf(table, c.key);
      var first := if Reaches(c, L80) && !seen.c80 then Raised(table, c.key, L80) else table;
      if Reaches(c, L100) && !seen.c100 then Raised(first, c.key, L100) else first
  }

  /** A check sets the flags from 80% and from 100% of the budget on, keeps set ones, and no others. */
  lemma ThresholdsExact(table: map<string, Flags>, c: Check)
    ensures var after := Checked(table, c);
            && (c.budget > 0 ==>
                 && (FlagsOf(after, c.key).c80 <==> FlagsOf(table, c.key).c80 || 5 * c.used >= 4 * c.budget)
                 && (FlagsOf(after, c.key).c100 <==> FlagsOf(table, c.key).c100 || c.used >= c.budget))
            && (c.budget <= 0 ==> after == table)
            && forall key :: key != c.key ==> FlagsOf(after, key) == FlagsOf(table, key)
  {
  }

  /** A notice, and the sentinel that records it. */
  datatype Notice = Notice(key: string, level: Level)

  class Host {
    var table: map<string, Flags>
    var sentinels: set<Notice>
    var notices: seq<Notice>

    constructor ()
      ensures table == map[] && sentinels == {} && notices == []
    {
      table, sentinels, notices := map[], {}, [];
    }

    /** `check_budget`, once the sum is known. */
    method CheckBudget(c: Check)
      modifies this`table
      ensures table == Checked(old(table), c)
      ensures c.budget > 0 ==>
                && (FlagsOf(table, c.key).c80 <==> FlagsOf(old(table), c.key).c80 || 5 * c.used >= 4 * c.budget)
                && (FlagsOf(table, c.key).c100 <==> FlagsOf(old(table), c.key).c100 || c.used >= c.budget)
      ensures c.budget <= 0 ==> table == old(table)
      ensures forall key :: key != c.key ==> FlagsOf(table, key) == FlagsOf(old(table), key)
    {
      ThresholdsExact(table, c);
      if c.budget <= 0 {
        return;
      }
      var seen := FlagsOf(table, c.key);
      if 5 * c.used >= 4 * c.budget && !seen.c80 {
        table := table[c.key := Flags(true, FlagsOf(table, c.key).c100)];
      }
      if c.used >= c.budget && !seen.c100 {
        table := table[c.key := Flags(true, true)];
      }
    }

    /** `check_once`: notify, then mark; `ok80` and `ok100` say whether the sentinel writes succeed. */
    method CheckOnce(key: string, ok80: bool, ok100: bool)
      modifies this`sentinels, this`notices
      ensures notices == old(notices) + Due(old(table), old(sentinels), key)
      ensures forall n :: n in sentinels <==>
                || n in old(sentinels)
                || (n in Due(old(table), old(sentinels), key) && if n.level.L80? then ok80 else ok100)
    {
      var flags := FlagsOf(table, key);
      var sent80 := Notice(key, L80) in sentinels;
      var sent100 := Notice(key, L100) in sentinels;
      if flags.c80 && !sent80 {
        notices := notices + [Notice(key, L80)];
        if ok80 {
          sentinels := sentinels + {Notice(key, L80)};
        }
      }
      if flags.c100 && !sent100 {
        notices := notices + [Notice(key, L100)];
        if ok100 {
          sentinels := sentinels + {Notice(key, L100)};
        }
      }
    }
  }

  /** The notices one undisturbed poll sends, in order. */
  function Due(table: map<string, Flags>, sentinels: set<Notice>, key: string): seq<Notice> {
    (if FlagsOf(table, key).c80 && Notice(key, L80) !in sentinels then [Notice(key, L80)] else [])
    + (if FlagsOf(table, key).c100 && Notice(key, L100) !in sentinels then [Notice(key, L100)] else [])
  }

  // ---------- both programs, step by step ----------

  /** The daemon between its read and its two writes. */
  datatype Checker = Resting | Checking(check: Check, seen: Flags, level: Level)

  datatype Phase = Looks(level: Level) | Tells(level: Level) | Marks(level: Level)

  /** The agent between its atomic actions. */
  datatype Agent = Asleep | Awake(key: string, flags: Flags, sent80: bool, sent100: bool, phase: Phase)

  datatype State = State(
    table: map<string, Flags>, sentinels: set<Notice>, checker: Checker, agent: Agent,
    checks: seq<Check>, notices: seq<Notice>, failures: seq<Notice>)

  const INITIAL := State(map[], {}, Resting, Asleep, [], [], [])

  datatype Step =
    | BeginCheck(check: Check)
    | ContinueCheck
    | CheckerCrashes
    | BeginPoll(key: string)
    | ContinuePoll(ok: bool)
    | AgentCrashes

  function NextChecker(s: State): State
    requires s.checker.Checking?
  {
    var Checking(c, seen, l) := s.checker;
    s.(table := if Reaches(c, l) && !seen.Has(l) then Raised(s.table, c.key, l) else s.table,
       checker := if l.L80? then Checking(c, seen, L100) else Resting)
  }

  /** After the 80% notice comes the 100% one, and then sleep. */
  function After(a: Agent, l: Level): Agent
    requires a.Awake?
  {
    if l.L80? then a.(phase := Tells(L100)) else Asleep
  }

  /** The agent found the sentinel of `l`. */
  predicate Sent(a: Agent, l: Level)
    requires a.Awake?
  {
    if l.L80? then a.sent80 else a.sent100
  }

  predicate Owes(a: Agent, l: Level)
    requires a.Awake?
  {
    a.flags.Has(l) && !Sent(a, l)
  }

  function NextAgent(s: State, ok: bool): State
    requires s.agent.Awake?
  {
    var a := s.agent;
    match a.phase
    case Looks(L80) => s.(agent := a.(sent80 := Notice(a.key, L80) in s.sentinels, phase := Looks(L100)))
    case Looks(L100) => s.(agent := a.(sent100 := Notice(a.key, L100) in s.sentinels, phase := Tells(L80)))
    case Tells(l) =>
      if Owes(a, l) then s.(agent := a.(phase := Marks(l)), notices := s.notices + [Notice(a.key, l)])
      else s.(agent := After(a, l))
    case Marks(l) =>
      if ok then s.(agent := After(a, l), sentinels := s.sentinels + {Notice(a.key, l)})
      else s.(agent := After(a, l), failures := s.failures + [Notice(a.key, l)])
  }

  /** A step that its program cannot take now changes nothing. */
  function Next(s: State, step: Step): State {
    match step
    case BeginCheck(c) =>
      if s.checker.Resting? && c.budget > 0 then
        s.(checker := Checking(c, FlagsOf(s.table, c.key), L80), checks := s.checks + [c])
      else s
    case ContinueCheck => if s.checker.Checking? then NextChecker(s) else s
    case CheckerCrashes => s.(checker := Resting)
    case BeginPoll(key) =>
      if s.agent.Asleep? then s.(agent := Awake(key, FlagsOf(s.table, key), false, false, Looks(L80))) else s
    case ContinuePoll(ok) => if s.agent.Awake? then NextAgent(s, ok) else s
    case AgentCrashes =>
      if s.agent.Awake? && s.agent.phase.Marks? then
        s.(agent := Asleep, failures := s.failures + [Notice(s.agent.key, s.agent.phase.level)])
      else s.(agent := Asleep)
  }

  function StateTo(steps: seq<Step>, n: nat): State
    requires n <= |steps|
  {
    if n == 0 then INITIAL else Next(StateTo(steps, n - 1), steps[n - 1])
  }

  // ---------- flags ----------

  /** Some check found the window over the threshold. */
  ghost predicate Over(checks: seq<Check>, key: string, l: Level) {
    exists i :: 0 <= i < |checks| && checks[i].key == key && checks[i].budget > 0 && Reaches(checks[i], l)
  }

  ghost predicate FlagsDeserved(table: map<string, Flags>, checks: seq<Check>) {
    forall key, l :: FlagsOf(table, key).Has(l) ==> Over(checks, key, l)
  }

  ghost predicate FlagsNested(table: map<string, Flags>) {
    forall key :: FlagsOf(table, key).Has(L100) ==> FlagsOf(table, key).Has(L80)
  }

  predicate CheckerHonest(s: State) {
    s.checker.Checking? ==> s.checker.check in s.checks && s.checker.check.budget > 0
  }

  lemma RaisedHas(table: map<string, Flags>, key: string, l: Level, k: string, m: Level)
    ensures FlagsOf(Raised(table, key, l), k).Has(m) <==> FlagsOf(table, k).Has(m) || (k == key && (m.L80? || l.L100?))
  {
  }

  ghost predicate FlagsInv(s: State) {
    FlagsDeserved(s.table, s.checks) && FlagsNested(s.table) && CheckerHonest(s)
  }

  lemma OverMore(checks: seq<Check>, c: Check, key: string, l: Level)
    ensures Over(checks, key, l) ==> Over(checks + [c], key, l)
  {
    if Over(checks, key, l) {
      var i :| 0 <= i < |checks| && checks[i].key == key && checks[i].budget > 0 && Reaches(checks[i], l);
      assert (checks + [c])[i] == checks[i];
    }
  }

  /** Reaching the whole budget is reaching 80% of it. */
  lemma ReachesBoth(c: Check)
    requires c.budget > 0 && Reaches(c, L100)
    ensures Reaches(c, L80)
  {
  }

  lemma RaiseDeserved(table: map<string, Flags>, checks: seq<Check>, c: Check, l: Level)
    requires FlagsDeserved(table, checks) && FlagsNested(table) && c in checks && c.budget > 0 && Reaches(c, l)
    ensures FlagsDeserved(Raised(table, c.key, l), checks) && FlagsNested(Raised(table, c.key, l))
  {
    var i :| 0 <= i < |checks| && checks[i] == c;
    if l.L100? {
      ReachesBoth(c);
    }
    forall key, m | FlagsOf(Raised(table, c.key, l), key).Has(m) ensures Over(checks, key, m) {
      RaisedHas(table, c.key, l, key, m);
    }
    var raised := Raised(table, c.key, l);
    forall key ensures FlagsOf(raised, key).Has(L100) ==> FlagsOf(raised, key).Has(L80) {
      RaisedHas(table, c.key, l, key, L80);
      RaisedHas(table, c.key, l, key, L100);
    }
  }

  lemma FlagsStep(s: State, step: Step)
    requires FlagsInv(s)
    ensures FlagsInv(Next(s, step))
  {
    match step
    case BeginCheck(c) =>
      forall key, l ensures Over(s.checks, key, l) ==> Over(s.checks + [c], key, l) {
        OverMore(s.checks, c, key, l);
      }
    case ContinueCheck =>
      if s.checker.Checking? && Reaches(s.checker.check, s.checker.level) {
        RaiseDeserved(s.table, s.checks, s.checker.check, s.checker.level);
      }
    case _ =>
  }

  /** Flags never clear. */
  lemma FlagsStick(s: State, step: Step, key: string, l: Level)
    ensures FlagsOf(s.table, key).Has(l) ==> FlagsOf(Next(s, step).table, key).Has(l)
  {
    if s.checker.Checking? {
      RaisedHas(s.table, s.checker.check.key, s.checker.level, key, l);
    }
  }

  // ---------- notices ----------

  function Told(notices: seq<Notice>, n: nat): set<Notice>
    requires n <= |notices|
  {
    if n == 0 then {} else Told(notices, n - 1) + {notices[n - 1]}
  }

  /** Every 100% notice has an 80% notice of its window before it. */
  predicate PrecededTo(notices: seq<Notice>, n: nat)
    requires n <= |notices|
  {
    n == 0 || (PrecededTo(notices, n - 1)
      && (notices[n - 1].level.L100? ==> Notice(notices[n - 1].key, L80) in Told(notices, n - 1)))
  }

  lemma {:induction false} ToldPrefix(a: seq<Notice>, b: seq<Notice>, n: nat)
    requires n <= |a| && n <= |b|
    requires forall i :: 0 <= i < n ==> a[i] == b[i]
    ensures Told(a, n) == Told(b, n) && PrecededTo(a, n) == PrecededTo(b, n)
  {
    if n > 0 {
      ToldPrefix(a, b, n - 1);
    }
  }

  lemma ToldMore(notices: seq<Notice>, m: Notice)
    ensures Told(notices + [m], |notices| + 1) == Told(notices, |notices|) + {m}
    ensures PrecededTo(notices, |notices|) && (m.level.L100? ==> Notice(m.key, L80) in Told(notices, |notices|)) ==>
              PrecededTo(notices + [m], |notices| + 1)
  {
    ToldPrefix(notices + [m], notices, |notices|);
  }

  /** Whether the agent has read the sentinel of `l` and not yet acted on it. */
  predicate Knows(a: Agent, l: Level)
    requires a.Awake?
  {
    match a.phase
    case Looks(at) => at.L100? && l.L80?
    case Tells(at) => at == l || l.L100?
    case Marks(at) => at == l || l.L100?
  }

  /** How often `m` is among the first `n` notices. */
  function Times(notices: seq<Notice>, n: nat, m: Notice): nat
    requires n <= |notices|
  {
    if n == 0 then 0 else Times(notices, n - 1, m) + (if notices[n - 1] == m then 1 else 0)
  }

  function Count(notices: seq<Notice>, m: Notice): nat {
    Times(notices, |notices|, m)
  }

  lemma {:induction false} TimesPrefix(a: seq<Notice>, b: seq<Notice>, n: nat, m: Notice)
    requires n <= |a| && n <= |b|
    requires forall i :: 0 <= i < n ==> a[i] == b[i]
    ensures Times(a, n, m) == Times(b, n, m)
  {
    if n > 0 {
      TimesPrefix(a, b, n - 1, m);
    }
  }

  lemma CountMore(notices: seq<Notice>, x: Notice, m: Notice)
    ensures Count(notices + [x], m) == Count(notices, m) + (if x == m then 1 else 0)
  {
    TimesPrefix(notices + [x], notices, |notices|, m);
  }

  lemma {:induction false} CountedIsTold(notices: seq<Notice>, n: nat, m: Notice)
    requires n <= |notices|
    ensures Times(notices, n, m) > 0 <==> m in Told(notices, n)
  {
    if n > 0 {
      CountedIsTold(notices, n - 1, m);
    }
  }

  /** The agent has sent `m` and not yet marked it. */
  predicate Unmarked(s: State, m: Notice) {
    s.agent.Awake? && s.agent.phase.Marks? && m == Notice(s.agent.key, s.agent.phase.level)
  }

  /** The bookkeeping: each notice sent has left a sentinel, or failed to, or is about to. */
  predicate BookedAt(s: State, m: Notice) {
    Count(s.notices, m)
    == (if m in s.sentinels then 1 else 0) + Count(s.failures, m) + (if Unmarked(s, m) then 1 else 0)
  }

  ghost predicate Booked(s: State) {
    forall m :: BookedAt(s, m)
  }

  ghost predicate AgentHonest(s: State) {
    s.agent.Awake? ==>
      && (s.agent.flags.Has(L100) ==> s.agent.flags.Has(L80))
      && (forall l :: s.agent.flags.Has(l) ==> FlagsOf(s.table, s.agent.key).Has(l))
      && (forall l :: Knows(s.agent, l) ==> (Sent(s.agent, l) <==> Notice(s.agent.key, l) in s.sentinels))
      && (s.agent.phase.Marks? ==> Owes(s.agent, s.agent.phase.level))
  }

  /** When the agent comes to 100%, the 80% notice of the window is out. */
  ghost predicate Ordered(s: State) {
    && PrecededTo(s.notices, |s.notices|)
    && s.sentinels <= Told(s.notices, |s.notices|)
    && (s.agent.Awake? && s.agent.flags.Has(L80) && !s.agent.phase.Looks? && s.agent.phase != Tells(L80) ==>
          Notice(s.agent.key, L80) in Told(s.notices, |s.notices|))
  }

  ghost predicate Deserved(s: State) {
    forall n :: n in Told(s.notices, |s.notices|) ==> FlagsOf(s.table, n.key).Has(n.level)
  }

  ghost predicate NoticeInv(s: State) {
    Booked(s) && AgentHonest(s) && Ordered(s) && Deserved(s)
  }

  lemma CheckerLeavesNotices(s: State, step: Step)
    requires FlagsInv(s) && NoticeInv(s) && (step.BeginCheck? || step.ContinueCheck? || step.CheckerCrashes?)
    ensures NoticeInv(Next(s, step))
  {
    var n := Next(s, step);
    forall key, l ensures FlagsOf(s.table, key).Has(l) ==> FlagsOf(n.table, key).Has(l) {
      FlagsStick(s, step, key, l);
    }
    forall m ensures BookedAt(n, m) {
      assert BookedAt(s, m);
    }
  }

  /** Nothing is sent, marked or given up: the books stay as they are. */
  lemma SameBooks(s: State, n: State)
    requires Booked(s) && n.notices == s.notices && n.sentinels == s.sentinels && n.failures == s.failures
    requires forall m :: Unmarked(s, m) <==> Unmarked(n, m)
    ensures Booked(n)
  {
    forall m ensures BookedAt(n, m) {
      assert BookedAt(s, m);
    }
  }

  lemma TellBooks(s: State, n: State, x: Notice)
    requires Booked(s) && n.notices == s.notices + [x] && n.sentinels == s.sentinels && n.failures == s.failures
    requires forall m :: !Unmarked(s, m) && (Unmarked(n, m) <==> m == x)
    ensures Booked(n)
  {
    forall m ensures BookedAt(n, m) {
      assert BookedAt(s, m);
      CountMore(s.notices, x, m);
    }
  }

  lemma MarkBooks(s: State, n: State, x: Notice)
    requires Booked(s) && n.notices == s.notices && x !in s.sentinels
    requires || (n.sentinels == s.sentinels + {x} && n.failures == s.failures)
             || (n.sentinels == s.sentinels && n.failures == s.failures + [x])
    requires forall m :: !Unmarked(n, m) && (Unmarked(s, m) <==> m == x)
    ensures Booked(n)
  {
    forall m ensures BookedAt(n, m) {
      assert BookedAt(s, m);
      CountMore(s.failures, x, m);
    }
  }

  lemma TellKeeps(s: State, l: Level)
    requires FlagsInv(s) && NoticeInv(s) && s.agent.Awake? && s.agent.phase == Tells(l) && Owes(s.agent, l)
    ensures NoticeInv(NextAgent(s, true))
  {
    var x, n := Notice(s.agent.key, l), NextAgent(s, true);
    assert Knows(s.agent, l);
    ToldMore(s.notices, x);
    TellBooks(s, n, x);
  }

  lemma PassKeeps(s: State, l: Level)
    requires FlagsInv(s) && NoticeInv(s) && s.agent.Awake? && s.agent.phase == Tells(l) && !Owes(s.agent, l)
    ensures NoticeInv(NextAgent(s, true))
  {
    assert Knows(s.agent, l);
    SameBooks(s, NextAgent(s, true));
  }

  lemma MarkedIsTold(s: State)
    requires NoticeInv(s) && s.agent.Awake? && s.agent.phase.Marks?
    ensures Notice(s.agent.key, s.agent.phase.level) in Told(s.notices, |s.notices|)
    ensures Notice(s.agent.key, s.agent.phase.level) !in s.sentinels
  {
    var x := Notice(s.agent.key, s.agent.phase.level);
    assert Knows(s.agent, s.agent.phase.level);
    assert BookedAt(s, x) && Unmarked(s, x);
    CountedIsTold(s.notices, |s.notices|, x);
  }

  lemma {:induction false} ToldIsSent(notices: seq<Notice>, n: nat, m: Notice)
    requires n <= |notices|
    ensures m in Told(notices, n) <==> exists i :: 0 <= i < n && notices[i] == m
  {
    if n > 0 {
      ToldIsSent(notices, n - 1, m);
    }
  }

  lemma MarkKeeps(s: State, l: Level, ok: bool)
    requires FlagsInv(s) && NoticeInv(s) && s.agent.Awake? && s.agent.phase == Marks(l)
    ensures NoticeInv(NextAgent(s, ok))
  {
    MarkedIsTold(s);
    MarkBooks(s, NextAgent(s, ok), Notice(s.agent.key, l));
  }

  lemma LookKeeps(s: State, l: Level, ok: bool)
    requires FlagsInv(s) && NoticeInv(s) && s.agent.Awake? && s.agent.phase == Looks(l)
    ensures NoticeInv(NextAgent(s, ok))
  {
    SameBooks(s, NextAgent(s, ok));
  }

  lemma PollKeeps(s: State, key: string)
    requires FlagsInv(s) && NoticeInv(s)
    ensures NoticeInv(Next(s, BeginPoll(key)))
  {
    SameBooks(s, Next(s, BeginPoll(key)));
  }

  lemma CrashKeeps(s: State)
    requires FlagsInv(s) && NoticeInv(s)
    ensures NoticeInv(Next(s, AgentCrashes))
  {
    if s.agent.Awake? && s.agent.phase.Marks? {
      MarkedIsTold(s);
      MarkBooks(s, Next(s, AgentCrashes), Notice(s.agent.key, s.agent.phase.level));
    } else {
      SameBooks(s, Next(s, AgentCrashes));
    }
  }

  lemma ContinueKeeps(s: State, ok: bool)
    requires FlagsInv(s) && NoticeInv(s) && s.agent.Awake?
    ensures NoticeInv(NextAgent(s, ok))
  {
    match s.agent.phase
    case Looks(l) => LookKeeps(s, l, ok);
    case Tells(l) =>
      assert NextAgent(s, ok) == NextAgent(s, true);
      if Owes(s.agent, l) {
        TellKeeps(s, l);
      } else {
        PassKeeps(s, l);
      }
    case Marks(l) => MarkKeeps(s, l, ok);
  }

  lemma NoticeStep(s: State, step: Step)
    requires FlagsInv(s) && NoticeInv(s)
    ensures NoticeInv(Next(s, step))
  {
    match step
    case ContinuePoll(ok) =>
      if s.agent.Awake? {
        ContinueKeeps(s, ok);
      }
    case AgentCrashes => CrashKeeps(s);
    case BeginPoll(key) => PollKeeps(s, key);
    case _ => CheckerLeavesNotices(s, step);
  }

  lemma {:induction false} RunsKeepInv(steps: seq<Step>, n: nat)
    requires n <= |steps|
    ensures FlagsInv(StateTo(steps, n)) && NoticeInv(StateTo(steps, n))
  {
    if n > 0 {
      RunsKeepInv(steps, n - 1);
      FlagsStep(StateTo(steps, n - 1), steps[n - 1]);
      NoticeStep(StateTo(steps, n - 1), steps[n - 1]);
    }
  }

  // ---------- what users get ----------

  /** Every notice sent has left a sentinel, or its mark failed, or is about to be written. */
  lemma NoticesAccounted(steps: seq<Step>, m: Notice)
    ensures var s := StateTo(steps, |steps|);
            Count(s.notices, m)
            == (if m in s.sentinels then 1 else 0) + Count(s.failures, m) + (if Unmarked(s, m) then 1 else 0)
  {
    RunsKeepInv(steps, |steps|);
    assert BookedAt(StateTo(steps, |steps|), m);
  }

  /** A window's threshold is notified at most once more often than its marking failed. */
  lemma AtMostOnce(steps: seq<Step>, m: Notice)
    ensures var s := StateTo(steps, |steps|); Count(s.notices, m) <= 1 + Count(s.failures, m)
  {
    var s := StateTo(steps, |steps|);
    RunsKeepInv(steps, |steps|);
    NoticesAccounted(steps, m);
    if Unmarked(s, m) {
      MarkedIsTold(s);
    }
  }

  /** No 100% notice without an earlier 80% notice, and no notice without a check over its threshold. */
  lemma NoticesDeserved(steps: seq<Step>)
    ensures var s := StateTo(steps, |steps|);
            && PrecededTo(s.notices, |s.notices|)
            && forall i :: 0 <= i < |s.notices| ==> Over(s.checks, s.notices[i].key, s.notices[i].level)
  {
    var s := StateTo(steps, |steps|);
    RunsKeepInv(steps, |steps|);
    forall i | 0 <= i < |s.notices| ensures Over(s.checks, s.notices[i].key, s.notices[i].level) {
      ToldIsSent(s.notices, |s.notices|, s.notices[i]);
      assert s.notices[i] in Told(s.notices, |s.notices|);
      assert FlagsOf(s.table, s.notices[i].key).Has(s.notices[i].level);
    }
  }

  /** A check that is not cut short is `CheckBudget`, and raises every flag it should. */
  lemma CheckCompletes(s: State, c: Check)
    requires s.checker.Resting? && c.budget > 0
    ensures var t := Next(Next(Next(s, BeginCheck(c)), ContinueCheck), ContinueCheck);
            && t.table == Checked(s.table, c)
            && (FlagsOf(t.table, c.key).c80 <==> FlagsOf(s.table, c.key).c80 || 5 * c.used >= 4 * c.budget)
            && (FlagsOf(t.table, c.key).c100 <==> FlagsOf(s.table, c.key).c100 || c.used >= c.budget)
  {
    ThresholdsExact(s.table, c);
  }

  // ---------- a check among polls ----------

  /** Only the agent acts. */
  predicate AgentOnly(steps: seq<Step>) {
    forall i :: 0 <= i < |steps| ==> steps[i].BeginPoll? || steps[i].ContinuePoll? || steps[i].AgentCrashes?
  }

  function RunFrom(s: State, steps: seq<Step>, n: nat): State
    requires n <= |steps|
  {
    if n == 0 then s else Next(RunFrom(s, steps, n - 1), steps[n - 1])
  }

  lemma {:induction false} AgentLeavesChecker(s: State, steps: seq<Step>, n: nat)
    requires n <= |steps| && AgentOnly(steps)
    ensures RunFrom(s, steps, n).table == s.table && RunFrom(s, steps, n).checker == s.checker
  {
    if n > 0 {
      AgentLeavesChecker(s, steps, n - 1);
    }
  }

  lemma {:induction false} FlagsStickTo(s: State, steps: seq<Step>, n: nat, key: string, l: Level)
    requires n <= |steps| && FlagsOf(s.table, key).Has(l)
    ensures FlagsOf(RunFrom(s, steps, n).table, key).Has(l)
  {
    if n > 0 {
      FlagsStickTo(s, steps, n - 1, key, l);
      FlagsStick(RunFrom(s, steps, n - 1), steps[n - 1], key, l);
    }
  }

  /** A check that runs to its end, with any agent steps between its read and its writes. */
  function CheckSteps(c: Check, a: seq<Step>, b: seq<Step>): seq<Step> {
    [BeginCheck(c)] + a + [ContinueCheck] + b + [ContinueCheck]
  }

  lemma RunOn(s: State, a: seq<Step>, b: seq<Step>, n: nat)
    requires n <= |b|
    ensures RunFrom(s, a + b, |a| + n) == RunFrom(RunFrom(s, a, |a|), b, n)
  {
    RunPrefix(s, a + b, a, |a|);
    var t := RunFrom(s, a, |a|);
    for i := 0 to n
      invariant RunFrom(s, a + b, |a| + i) == RunFrom(t, b, i)
    {
      assert (a + b)[|a| + i] == b[i];
    }
  }

  lemma {:induction false} RunPrefix(s: State, a: seq<Step>, b: seq<Step>, n: nat)
    requires n <= |a| && n <= |b|
    requires forall i :: 0 <= i < n ==> a[i] == b[i]
    ensures RunFrom(s, a, n) == RunFrom(s, b, n)
  {
    if n > 0 {
      RunPrefix(s, a, b, n - 1);
    }
  }

  lemma OneOn(s: State, steps: seq<Step>, step: Step)
    ensures RunFrom(s, steps + [step], |steps| + 1) == Next(RunFrom(s, steps, |steps|), step)
  {
    RunPrefix(s, steps + [step], steps, |steps|);
  }

  /** The writes of a check are those of an undisturbed one, since the agent leaves table and checker alone. */
  lemma CheckWrites(s: State, c: Check, reading: State, writing: State)
    requires s.checker.Resting? && c.budget > 0
    requires reading.table == s.table && reading.checker == Next(s, BeginCheck(c)).checker
    requires writing.table == Next(reading, ContinueCheck).table
    requires writing.checker == Next(reading, ContinueCheck).checker
    ensures Next(writing, ContinueCheck).table == Checked(s.table, c)
  {
  }

  lemma ContinuedAfter(s: State, x: seq<Step>, a: seq<Step>)
    ensures RunFrom(s, x + a + [ContinueCheck], |x| + |a| + 1)
         == Next(RunFrom(RunFrom(s, x, |x|), a, |a|), ContinueCheck)
  {
    RunOn(s, x, a, |a|);
    OneOn(s, x + a, ContinueCheck);
  }

  lemma CheckRuns(s: State, c: Check, a: seq<Step>, b: seq<Step>)
    ensures var first := Next(RunFrom(Next(s, BeginCheck(c)), a, |a|), ContinueCheck);
            RunFrom(s, CheckSteps(c, a, b), |CheckSteps(c, a, b)|) == Next(RunFrom(first, b, |b|), ContinueCheck)
  {
    var x := [BeginCheck(c)];
    assert RunFrom(s, x, 1) == Next(RunFrom(s, x, 0), x[0]);
    ContinuedAfter(s, x, a);
    ContinuedAfter(s, x + a + [ContinueCheck], b);
  }

  lemma CheckSets(s: State, c: Check, a: seq<Step>, b: seq<Step>, l: Level)
    requires s.checker.Resting? && c.budget > 0 && AgentOnly(a) && AgentOnly(b)
    requires if l.L80? then 5 * c.used >= 4 * c.budget else c.used >= c.budget
    ensures FlagsOf(RunFrom(s, CheckSteps(c, a, b), |CheckSteps(c, a, b)|).table, c.key).Has(l)
  {
    var begun := Next(s, BeginCheck(c));
    var reading := RunFrom(begun, a, |a|);
    var writing := RunFrom(Next(reading, ContinueCheck), b, |b|);
    AgentLeavesChecker(begun, a, |a|);
    AgentLeavesChecker(Next(reading, ContinueCheck), b, |b|);
    CheckWrites(s, c, reading, writing);
    CheckRuns(s, c, a, b);
    ThresholdsExact(s.table, c);
  }

  lemma {:induction false} RunIsStateTo(steps: seq<Step>, n: nat)
    requires n <= |steps|
    ensures RunFrom(INITIAL, steps, n) == StateTo(steps, n)
  {
    if n > 0 {
      RunIsStateTo(steps, n - 1);
    }
  }

  lemma RunInTwo(s: State, a: seq<Step>, b: seq<Step>)
    ensures RunFrom(s, a + b, |a + b|) == RunFrom(RunFrom(s, a, |a|), b, |b|)
  {
    RunOn(s, a, b, |b|);
    assert |a + b| == |a| + |b|;
  }

  lemma RunInThree(s: State, a: seq<Step>, b: seq<Step>, c: seq<Step>)
    ensures RunFrom(s, a + b + c, |a + b + c|) == RunFrom(RunFrom(RunFrom(s, a, |a|), b, |b|), c, |c|)
  {
    RunInTwo(s, a, b);
    RunInTwo(s, a + b, c);
  }

  /** A flag that a check sets is set for good. */
  lemma SetForGood(s: State, c: Check, a: seq<Step>, b: seq<Step>, after: seq<Step>, l: Level)
    requires s.checker.Resting? && c.budget > 0 && AgentOnly(a) && AgentOnly(b)
    requires if l.L80? then 5 * c.used >= 4 * c.budget else c.used >= c.budget
    ensures var checked := RunFrom(s, CheckSteps(c, a, b), |CheckSteps(c, a, b)|);
            FlagsOf(RunFrom(checked, after, |after|).table, c.key).Has(l)
  {
    CheckSets(s, c, a, b, l);
    FlagsStickTo(RunFrom(s, CheckSteps(c, a, b), |CheckSteps(c, a, b)|), after, |after|, c.key, l);
  }

  lemma SetInRun(before: seq<Step>, c: Check, a: seq<Step>, b: seq<Step>, after: seq<Step>, l: Level)
    requires StateTo(before, |before|).checker.Resting? && c.budget > 0 && AgentOnly(a) && AgentOnly(b)
    requires if l.L80? then 5 * c.used >= 4 * c.budget else c.used >= c.budget
    ensures var steps := before + CheckSteps(c, a, b) + after;
            FlagsOf(StateTo(steps, |steps|).table, c.key).Has(l)
  {
    var steps := before + CheckSteps(c, a, b) + after;
    RunIsStateTo(before, |before|);
    RunIsStateTo(steps, |steps|);
    RunInThree(INITIAL, before, CheckSteps(c, a, b), after);
    SetForGood(StateTo(before, |before|), c, a, b, after, l);
  }

  /**
    No missed notice: once a check at 80% or 100% of the budget has run to its end, whatever
    the agent did meanwhile and whatever happens afterwards, the next undisturbed poll of
    the window leaves the notice sent.
   */
  lemma CheckIsNotified(
    before: seq<Step>, c: Check, a: seq<Step>, b: seq<Step>, after: seq<Step>, l: Level)
    requires StateTo(before, |before|).checker.Resting? && c.budget > 0 && AgentOnly(a) && AgentOnly(b)
    requires if l.L80? then 5 * c.used >= 4 * c.budget else c.used >= c.budget
    requires var steps := before + CheckSteps(c, a, b) + after; StateTo(steps, |steps|).agent.Asleep?
    ensures var steps := before + CheckSteps(c, a, b) + after;
            Notice(c.key, l) in Continued(Next(StateTo(steps, |steps|), BeginPoll(c.key)), 6).notices
  {
    SetInRun(before, c, a, b, after, l);
    RaisedIsNotified(before + CheckSteps(c, a, b) + after, c.key, l);
  }

  function Continued(s: State, n: nat): State {
    if n == 0 then s else Next(Continued(s, n - 1), ContinuePoll(true))
  }

  lemma LooksTwice(s: State, key: string)
    requires s.agent.Asleep?
    ensures Continued(Next(s, BeginPoll(key)), 2)
         == s.(agent := Awake(key, FlagsOf(s.table, key), Notice(key, L80) in s.sentinels,
                              Notice(key, L100) in s.sentinels, Tells(L80)))
  {
    var a := Next(s, BeginPoll(key));
    var b := NextAgent(a, true);
    assert Continued(a, 1) == b;
    assert Continued(a, 2) == NextAgent(b, true);
  }

  /** One level done: told and marked if owed, and the agent moves on. */
  lemma LevelDone(s: State, l: Level)
    requires s.agent.Awake? && s.agent.phase == Tells(l)
    ensures var m := Notice(s.agent.key, l);
            if Owes(s.agent, l) then
              Continued(s, 2) == s.(agent := After(s.agent, l), notices := s.notices + [m],
                                    sentinels := s.sentinels + {m})
            else Continued(s, 1) == s.(agent := After(s.agent, l))
  {
    var b := NextAgent(s, true);
    assert Continued(s, 1) == b;
    if Owes(s.agent, l) {
      assert Continued(s, 2) == NextAgent(b, true);
    }
  }

  lemma ContinuedOn(s: State, m: nat, n: nat)
    ensures Continued(Continued(s, m), n) == Continued(s, m + n)
  {
    var t := Continued(s, m);
    for i := 0 to n
      invariant Continued(t, i) == Continued(s, m + i)
    {
    }
  }

  lemma {:induction false} AsleepStays(s: State, n: nat)
    requires s.agent.Asleep?
    ensures Continued(s, n) == s
  {
    if n > 0 {
      AsleepStays(s, n - 1);
    }
  }

  /** What an undisturbed poll does: send what is due, and leave a sentinel for each. */
  function PolledAlone(s: State, key: string): State {
    var due := Due(s.table, s.sentinels, key);
    s.(notices := s.notices + due, sentinels := s.sentinels + set n | n in due)
  }

  lemma SecondLevel(s: State, b: State, key: string, n: nat)
    requires s.agent.Asleep? && b.agent.Awake? && b.agent.phase == Tells(L100) && b.agent.key == key && n >= 2
    requires b.agent.flags == FlagsOf(s.table, key) && b.agent.sent100 == (Notice(key, L100) in s.sentinels)
    requires var m := Notice(key, L80);
             var first := if FlagsOf(s.table, key).c80 && m !in s.sentinels then [m] else [];
             b == s.(agent := b.agent, notices := s.notices + first, sentinels := s.sentinels + set x | x in first)
    ensures Continued(b, n) == PolledAlone(s, key)
  {
    var due := Due(s.table, s.sentinels, key);
    LevelDone(b, L100);
    var k := if Owes(b.agent, L100) then 2 else 1;
    var c := Continued(b, k);
    assert c.notices == s.notices + due;
    assert c.sentinels == s.sentinels + set x | x in due;
    assert c == PolledAlone(s, key);
    ContinuedOn(b, k, n - k);
    AsleepStays(c, n - k);
  }

  /** A poll that nothing interrupts is `CheckOnce`: six steps at most, and no notice is left unsent. */
  lemma PollAlone(s: State, key: string)
    requires s.agent.Asleep?
    ensures Continued(Next(s, BeginPoll(key)), 6) == PolledAlone(s, key)
  {
    var a := Next(s, BeginPoll(key));
    var t := Continued(a, 2);
    LooksTwice(s, key);
    LevelDone(t, L80);
    var k := if Owes(t.agent, L80) then 2 else 1;
    var b := Continued(t, k);
    ContinuedOn(a, 2, 4);
    ContinuedOn(t, k, 4 - k);
    SecondLevel(s, b, key, 4 - k);
  }

  /** After it, every raised flag of the window has been notified. */
  lemma RaisedIsNotified(steps: seq<Step>, key: string, l: Level)
    requires StateTo(steps, |steps|).agent.Asleep? && FlagsOf(StateTo(steps, |steps|).table, key).Has(l)
    ensures var t := Continued(Next(StateTo(steps, |steps|), BeginPoll(key)), 6);
            t.agent.Asleep? && Notice(key, l) in t.sentinels && Notice(key, l) in t.notices
  {
    var s, m := StateTo(steps, |steps|), Notice(key, l);
    RunsKeepInv(steps, |steps|);
    PollAlone(s, key);
    if m in s.sentinels {
      assert m in Told(s.notices, |s.notices|);
      ToldIsSent(s.notices, |s.notices|, m);
    } else {
      assert m in Due(s.table, s.sentinels, key);
    }
  }

  /** Unless marking failed, two notices of one threshold name different budget windows. */
  lemma OncePerWindow(steps: seq<Step>, i: nat, j: nat, p: Period, t: int, q: Period, u: int)
    requires var s := StateTo(steps, |steps|);
             && i < j < |s.notices| && s.notices[i].level == s.notices[j].level
             && s.notices[i].key == BudgetKey(p, t) && s.notices[j].key == BudgetKey(q, u) && s.failures == []
    ensures p != q || Start(p, t) != Start(q, u)
  {
    var s := StateTo(steps, |steps|);
    KeysAreFaithful(p, t, q, u);
    if s.notices[i] == s.notices[j] {
      AtMostOnce(steps, s.notices[i]);
      TwiceIsTwo(s.notices, i, j);
    }
  }

  lemma {:induction false} CountsAt(notices: seq<Notice>, n: nat, i: nat)
    requires i < n <= |notices|
    ensures Times(notices, n, notices[i]) >= Times(notices, i, notices[i]) + 1
  {
    if i < n - 1 {
      CountsAt(notices, n - 1, i);
    }
  }

  lemma TwiceIsTwo(notices: seq<Notice>, i: nat, j: nat)
    requires i < j < |notices| && notices[i] == notices[j]
    ensures Count(notices, notices[i]) >= 2
  {
    CountsAt(notices, |notices|, j);
    CountsAt(notices, j, i);
  }
}

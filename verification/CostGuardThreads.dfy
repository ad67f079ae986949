/**
 The cost guard with any number of threads inside it.

 The counters and the latch are atomics, and each window's start lies behind its own lock; nothing guards an
 operation as a whole.  A step below is one atomic access of one thread, together with what it does under a lock it
 holds.  A window's lock is held by the thread whose place says that it is rolling that window over.
 */
module CostGuardThreads {
  import opened Common
  import opened CostGuard

  type ThreadId = nat

  datatype Job = Recording(call: Call) | Checking

  /** Where a thread stands in its operation: at the access it makes next. */
  datatype Place =
    | AtDay(job: Job)
    | DayZeroed(job: Job)
    | AtHour(job: Job)
    | HourZeroed(job: Job)
    | HourLoaded(job: Job, dailyOk: bool)
    | Adding(call: Call)
    | Counting(newDaily: nat)
    | Latching(newDaily: nat, newHourly: nat)
    | Looking
    | Done(answer: Option<bool>)

  /** `added` are the calls added since the day was last zeroed; `late` says that the last write to the latch cleared
      it although a limit was reached. */
  datatype State = State(g: Guard, threads: map<ThreadId, Place>, added: seq<Call>, late: bool)

  datatype Step = Start(t: ThreadId, job: Job) | Go(t: ThreadId, wall: int, mono: int)

  predicate Reached(g: Guard) {
    DailyReached(g) || HourlyReached(g)
  }

  function Begun(job: Job): Place {
    match job
    case Recording(c) => Adding(c)
    case Checking => Looking
  }

  predicate MustLatch(g: Guard, newDaily: nat, newHourly: nat) {
    (g.dailyLimit > 0 && newDaily >= g.dailyLimit) || (g.hourlyLimit > 0 && newHourly >= g.hourlyLimit)
  }

  /** One access of a thread: the shared state and the thread's place after it. */
  function Access(g: Guard, p: Place, wall: int, mono: int): (Guard, Place) {
    match p
    case AtDay(job) =>
      if wall - g.lastDaily >= DAY then (g.(dailyCents := 0), DayZeroed(job)) else (g, AtHour(job))
    case DayZeroed(job) =>
      (g.(exceeded := g.exceeded && g.hourlyLimit != 0, lastDaily := wall), AtHour(job))
    case AtHour(job) =>
      if mono - g.lastHourly >= HOUR then (g.(hourlyActions := 0), HourZeroed(job)) else (g, Begun(job))
    case HourZeroed(job) => (g, HourLoaded(job, !DailyReached(g)))
    case HourLoaded(job, ok) => (g.(exceeded := g.exceeded && !ok, lastHourly := mono), Begun(job))
    case Adding(c) => (g.(dailyCents := g.dailyCents + Cents(c)), Counting(g.dailyCents + Cents(c)))
    case Counting(d) => (g.(hourlyActions := g.hourlyActions + 1), Latching(d, g.hourlyActions + 1))
    case Latching(d, n) => (g.(exceeded := g.exceeded || MustLatch(g, d, n)), Done(None))
    case Looking => (g, Done(Some(g.exceeded)))
    case Done(_) => (g, p)
  }

  /** The access writes `false` into the latch. */
  predicate Clears(g: Guard, p: Place) {
    (p.DayZeroed? && g.hourlyLimit == 0) || (p.HourLoaded? && p.dailyOk)
  }

  predicate Sets(g: Guard, p: Place) {
    p.Latching? && MustLatch(g, p.newDaily, p.newHourly)
  }

  predicate DayLocked(s: State) {
    exists t :: t in s.threads && s.threads[t].DayZeroed?
  }

  predicate HourLocked(s: State) {
    exists t :: t in s.threads && (s.threads[t].HourZeroed? || s.threads[t].HourLoaded?)
  }

  predicate Enabled(s: State, e: Step) {
    match e
    case Start(t, _) => t !in s.threads
    case Go(t, _, _) =>
      && t in s.threads && !s.threads[t].Done?
      && (s.threads[t].AtDay? ==> !DayLocked(s))
      && (s.threads[t].AtHour? ==> !HourLocked(s))
  }

  function Apply(s: State, e: Step): State
    requires Enabled(s, e)
  {
    match e
    case Start(t, job) => s.(threads := s.threads[t := AtDay(job)])
    case Go(t, wall, mono) =>
      var p := s.threads[t];
      var (g, q) := Access(s.g, p, wall, mono);
      State(g, s.threads[t := q],
            if p.Adding? then s.added + [p.call] else if q.DayZeroed? then [] else s.added,
            if Clears(s.g, p) then Reached(g) else if Sets(s.g, p) then false else s.late)
  }

  predicate IsRun(s: State, es: seq<Step>)
    decreases |es|
  {
    es == [] || (Enabled(s, es[0]) && IsRun(Apply(s, es[0]), es[1..]))
  }

  function Run(s: State, es: seq<Step>): State
    requires IsRun(s, es)
    decreases |es|
  {
    if es == [] then s else Run(Apply(s, es[0]), es[1..])
  }

  // ---------------------------------------------------------------- alone

  function Rank(p: Place): nat {
    match p
    case AtDay(_) => 8
    case DayZeroed(_) => 7
    case AtHour(_) => 6
    case HourZeroed(_) => 5
    case HourLoaded(_, _) => 4
    case Adding(_) => 3
    case Counting(_) => 2
    case Latching(_, _) => 1
    case Looking => 1
    case Done(_) => 0
  }

  /** What a thread makes of the guard when nobody else gets in between and the clocks stand still. */
  function Alone(g: Guard, p: Place, wall: int, mono: int): (Guard, Option<bool>)
    decreases Rank(p)
  {
    if p.Done? then (g, p.answer) else var (h, q) := Access(g, p, wall, mono); Alone(h, q, wall, mono)
  }

  lemma AloneFromHour(g: Guard, job: Job, wall: int, mono: int)
    ensures Alone(g, AtHour(job), wall, mono) == Alone(RollHour(g, mono), Begun(job), wall, mono)
  {
    if mono - g.lastHourly >= HOUR {
      var zeroed := g.(hourlyActions := 0);
      var ok := !DailyReached(zeroed);
      assert Alone(zeroed, HourZeroed(job), wall, mono) == Alone(zeroed, HourLoaded(job, ok), wall, mono);
      assert RollHour(g, mono) == Access(zeroed, HourLoaded(job, ok), wall, mono).0;
    }
  }

  lemma AloneFromDay(g: Guard, job: Job, wall: int, mono: int)
    ensures Alone(g, AtDay(job), wall, mono) == Alone(MaybeReset(g, wall, mono), Begun(job), wall, mono)
  {
    AloneFromHour(RollDay(g, wall), job, wall, mono);
    if wall - g.lastDaily >= DAY {
      var zeroed := g.(dailyCents := 0);
      assert RollDay(g, wall) == Access(zeroed, DayZeroed(job), wall, mono).0;
      assert Alone(zeroed, DayZeroed(job), wall, mono) == Alone(RollDay(g, wall), AtHour(job), wall, mono);
    }
  }

  lemma AloneFromAdding(g: Guard, c: Call, wall: int, mono: int)
    ensures var n := g.(dailyCents := g.dailyCents + Cents(c), hourlyActions := g.hourlyActions + 1);
            Alone(g, Adding(c), wall, mono).0 == n.(exceeded := n.exceeded || Reached(n))
  {
    var a := g.(dailyCents := g.dailyCents + Cents(c));
    var n := a.(hourlyActions := a.hourlyActions + 1);
    assert Alone(n, Latching(a.dailyCents, n.hourlyActions), wall, mono).0 == n.(exceeded := n.exceeded || Reached(n));
    assert Alone(a, Counting(a.dailyCents), wall, mono)
        == Alone(n, Latching(a.dailyCents, n.hourlyActions), wall, mono);
  }

  /** Taken alone, the accesses of a thread make up the operation: a recording records, a check answers. */
  lemma AloneIsTheOperation(g: Guard, c: Call, wall: int, mono: int)
    ensures Alone(g, AtDay(Recording(c)), wall, mono).0 == RecordOp(g, c, wall, mono)
    ensures Alone(g, AtDay(Checking), wall, mono)
            == (MaybeReset(g, wall, mono), Some(MaybeReset(g, wall, mono).exceeded))
  {
    AloneFromDay(g, Recording(c), wall, mono);
    AloneFromDay(g, Checking, wall, mono);
    AloneFromAdding(MaybeReset(g, wall, mono), c, wall, mono);
  }

  // ---------------------------------------------------------------- together

  /** The thread has pushed a counter to its limit and is about to set the latch. */
  predicate WillLatch(g: Guard, p: Place) {
    || (p.Counting? && g.dailyLimit > 0 && p.newDaily >= g.dailyLimit)
    || Sets(g, p)
  }

  ghost predicate SomeoneWillLatch(s: State) {
    exists t :: t in s.threads && WillLatch(s.g, s.threads[t])
  }

  /**
   The spend is what the calls since the day's zero add up to.  A limit that is reached with the latch open means a
   thread on its way to set it, or a clearing that came too late.
   */
  ghost predicate Safe(s: State) {
    && s.g.dailyCents == TotalCents(s.added)
    && (s.late ==> !s.g.exceeded)
    && (!s.g.exceeded && Reached(s.g) ==> s.late || SomeoneWillLatch(s))
  }

  lemma {:induction false} TotalCentsSnoc(cs: seq<Call>, c: Call)
    ensures TotalCents(cs + [c]) == TotalCents(cs) + Cents(c)
  {
    if cs == [] {
      assert (cs + [c])[0] == c && (cs + [c])[1..] == [];
    } else {
      assert (cs + [c])[0] == cs[0] && (cs + [c])[1..] == cs[1..] + [c];
      TotalCentsSnoc(cs[1..], c);
    }
  }

  /** A thread about to set the latch stays so until it has. */
  lemma WillLatchStands(s: State, e: Step, n: State)
    requires Enabled(s, e) && n == Apply(s, e) && SomeoneWillLatch(s)
    ensures n.g.exceeded || SomeoneWillLatch(n)
  {
    var t :| t in s.threads && WillLatch(s.g, s.threads[t]);
    assert e.t != t ==> n.threads[t] == s.threads[t];
    assert t in n.threads && (e.t != t || s.threads[t].Counting? ==> WillLatch(n.g, n.threads[t]));
  }

  /** Only adding and counting bring a limit nearer, and the thread that reaches it will set the latch. */
  lemma ReachingWillLatch(s: State, e: Step, n: State)
    requires Enabled(s, e) && n == Apply(s, e) && !Reached(s.g) && Reached(n.g)
    ensures SomeoneWillLatch(n)
  {
    assert e.t in n.threads && WillLatch(n.g, n.threads[e.t]);
  }

  lemma StepKeepsSafe(s: State, e: Step, n: State)
    requires Enabled(s, e) && n == Apply(s, e) && Safe(s)
    ensures Safe(n)
  {
    if e.Go? && s.threads[e.t].Adding? {
      TotalCentsSnoc(s.added, s.threads[e.t].call);
    }
    if !n.g.exceeded && Reached(n.g) && !n.late {
      if !Reached(s.g) {
        ReachingWillLatch(s, e, n);
      } else if SomeoneWillLatch(s) {
        WillLatchStands(s, e, n);
      }
    }
  }

  /** However the threads interleave and whatever the clocks do. */
  lemma {:induction false} EveryRunIsSafe(s: State, es: seq<Step>)
    requires Safe(s) && IsRun(s, es)
    ensures Safe(Run(s, es))
    decreases |es|
  {
    if es != [] {
      StepKeepsSafe(s, es[0], Apply(s, es[0]));
      EveryRunIsSafe(Apply(s, es[0]), es[1..]);
    }
  }

  ghost predicate Quiet(s: State) {
    forall t :: t in s.threads ==> s.threads[t].Done?
  }

  /**
   After any run of any number of threads, once all are done: no recorded call is lost from the spend, and with a
   limit reached the guard is latched exactly when the last write to the latch was not a clearing that came too late.
   */
  lemma LatchedUnlessLate(dailyLimit: nat, hourlyLimit: nat, wall: int, mono: int, es: seq<Step>)
    requires var s := State(Fresh(dailyLimit, hourlyLimit, wall, mono), map[], [], false);
             IsRun(s, es) && Quiet(Run(s, es))
    ensures var e := Run(State(Fresh(dailyLimit, hourlyLimit, wall, mono), map[], [], false), es);
            && e.g.dailyCents == TotalCents(e.added)
            && (Reached(e.g) ==> (e.g.exceeded <==> !e.late))
  {
    EveryRunIsSafe(State(Fresh(dailyLimit, hourlyLimit, wall, mono), map[], [], false), es);
  }

  // ---------------------------------------------------------------- schedules that keep the latch

  /** No thread adds or counts while a window is being rolled over. */
  ghost predicate Orderly(s: State, es: seq<Step>)
    requires IsRun(s, es)
    decreases |es|
  {
    es == [] || (OrderlyStep(s, es[0]) && Orderly(Apply(s, es[0]), es[1..]))
  }

  ghost predicate OrderlyStep(s: State, e: Step)
    requires Enabled(s, e)
  {
    e.Go? && (s.threads[e.t].Adding? || s.threads[e.t].Counting?) ==> !DayLocked(s) && !HourLocked(s)
  }

  /** While a window is rolled over its counter stays zero, and what was read of the spend stays true. */
  ghost predicate Calm(s: State) {
    && !s.late
    && (DayLocked(s) ==> s.g.dailyCents == 0)
    && (HourLocked(s) ==> s.g.hourlyActions == 0)
    && (forall t :: t in s.threads && s.threads[t].HourLoaded? && s.threads[t].dailyOk ==> !DailyReached(s.g))
  }

  lemma CalmClearing(s: State, e: Step)
    requires Calm(s) && Enabled(s, e) && e.Go? && Clears(s.g, s.threads[e.t])
    ensures !Reached(Apply(s, e).g)
  {
    if s.threads[e.t].DayZeroed? {
      assert DayLocked(s);
    } else {
      assert HourLocked(s);
    }
  }

  /** Locks are taken only with the zeroing of their counter. */
  lemma LocksBefore(s: State, e: Step, n: State)
    requires Enabled(s, e) && n == Apply(s, e)
    ensures DayLocked(n) ==> DayLocked(s) || n.g.dailyCents == 0
    ensures HourLocked(n) ==> HourLocked(s) || n.g.hourlyActions == 0
  {
    if DayLocked(n) {
      var t :| t in n.threads && n.threads[t].DayZeroed?;
      assert t != e.t ==> t in s.threads && s.threads[t] == n.threads[t];
    }
    if HourLocked(n) {
      var t :| t in n.threads && (n.threads[t].HourZeroed? || n.threads[t].HourLoaded?);
      assert t != e.t ==> t in s.threads && s.threads[t] == n.threads[t];
      assert t == e.t && n.threads[t].HourLoaded? ==> s.threads[t].HourZeroed?;
    }
  }

  /** In an orderly step no counter grows while its window is being rolled over. */
  lemma CountersRest(s: State, e: Step, n: State)
    requires Enabled(s, e) && n == Apply(s, e) && OrderlyStep(s, e)
    ensures DayLocked(s) || HourLocked(s) ==> n.g.dailyCents <= s.g.dailyCents && n.g.hourlyActions <= s.g.hourlyActions
    ensures n.g.dailyLimit == s.g.dailyLimit && n.g.hourlyLimit == s.g.hourlyLimit
  {
  }

  lemma ReadingsStayTrue(s: State, e: Step, n: State, t: ThreadId)
    requires Calm(s) && Enabled(s, e) && n == Apply(s, e) && OrderlyStep(s, e)
    requires t in n.threads && n.threads[t].HourLoaded? && n.threads[t].dailyOk
    ensures !DailyReached(n.g)
  {
    CountersRest(s, e, n);
    if t != e.t {
      assert s.threads[t] == n.threads[t] && HourLocked(s);
    }
  }

  lemma StepKeepsCalm(s: State, e: Step, n: State)
    requires Calm(s) && Enabled(s, e) && n == Apply(s, e) && OrderlyStep(s, e)
    ensures Calm(n)
  {
    if e.Go? && Clears(s.g, s.threads[e.t]) {
      CalmClearing(s, e);
    }
    LocksBefore(s, e, n);
    CountersRest(s, e, n);
    forall t | t in n.threads && n.threads[t].HourLoaded? && n.threads[t].dailyOk ensures !DailyReached(n.g) {
      ReadingsStayTrue(s, e, n, t);
    }
  }

  lemma {:induction false} OrderlyRunIsCalm(s: State, es: seq<Step>)
    requires Safe(s) && Calm(s) && IsRun(s, es) && Orderly(s, es)
    ensures Safe(Run(s, es)) && Calm(Run(s, es))
    decreases |es|
  {
    if es != [] {
      StepKeepsSafe(s, es[0], Apply(s, es[0]));
      StepKeepsCalm(s, es[0], Apply(s, es[0]));
      OrderlyRunIsCalm(Apply(s, es[0]), es[1..]);
    }
  }

  /** So, if no thread adds or counts while another rolls a window over, a limit reached is a latch set. */
  lemma OrderlyRunLatches(dailyLimit: nat, hourlyLimit: nat, wall: int, mono: int, es: seq<Step>)
    requires var s := State(Fresh(dailyLimit, hourlyLimit, wall, mono), map[], [], false);
             IsRun(s, es) && Orderly(s, es) && Quiet(Run(s, es))
    ensures var e := Run(State(Fresh(dailyLimit, hourlyLimit, wall, mono), map[], [], false), es);
            Reached(e.g) ==> e.g.exceeded
  {
    OrderlyRunIsCalm(State(Fresh(dailyLimit, hourlyLimit, wall, mono), map[], [], false), es);
  }

  // ---------------------------------------------------------------- a late clearing, and what becomes of it

  /** The latch is set in some state of the run. */
  ghost predicate EverLatched(s: State, es: seq<Step>)
    requires IsRun(s, es)
    decreases |es|
  {
    s.g.exceeded || (es != [] && EverLatched(Apply(s, es[0]), es[1..]))
  }

  /** A thread about to set the latch does so before it is done. */
  lemma {:induction false} WillLatchDoes(s: State, es: seq<Step>, t: ThreadId)
    requires IsRun(s, es) && t in s.threads && WillLatch(s.g, s.threads[t])
    requires t in Run(s, es).threads && Run(s, es).threads[t].Done?
    ensures EverLatched(s, es)
    decreases |es|
  {
    var n := Apply(s, es[0]);
    if es[0].t == t && s.threads[t].Latching? {
      assert n.g.exceeded;
    } else {
      assert WillLatch(n.g, n.threads[t]);
      WillLatchDoes(n, es[1..], t);
    }
  }

  /**
   A late clearing is made good by the next recording: one that adds with the daily limit reached, or counts with the
   hourly limit reached, sets the latch before it is done, whatever the others do meanwhile.
   */
  lemma NextRecordingLatches(s: State, es: seq<Step>, t: ThreadId)
    requires IsRun(s, es) && es != [] && es[0].Go? && es[0].t == t
    requires (s.threads[t].Adding? && DailyReached(s.g)) || (s.threads[t].Counting? && HourlyReached(s.g))
    requires t in Run(s, es).threads && Run(s, es).threads[t].Done?
    ensures EverLatched(s, es)
  {
    WillLatchDoes(Apply(s, es[0]), es[1..], t);
  }

  /**
   Such a clearing happens: a check that ends the hour reads a spend below the limit; before it clears the latch a
   recording reaches the limit and sets it.  All done, the limit is reached and calls are let through.
   */
  lemma ClearingCanComeLate(c: Call) returns (es: seq<Step>)
    requires Cents(c) >= 1
    ensures var s := State(Fresh(1, 10, 0, 0), map[], [], false);
            && IsRun(s, es) && Quiet(Run(s, es))
            && DailyReached(Run(s, es).g) && !Run(s, es).g.exceeded
            && 1 in Run(s, es).threads && Run(s, es).threads[1] == Done(Some(false))
  {
    var a := BothEnter(c);
    var b := CheckEndsTheHour(c);
    var d := RecordingLatches(c);
    var e := CheckClears(c);
    var s := State(Fresh(1, 10, 0, 0), map[], [], false);
    RunOn(s, a, b);
    RunOn(s, a + b, d);
    RunOn(s, a + b + d, e);
    es := a + b + d + e;
  }

  const NEW: Guard := Fresh(1, 10, 0, 0)

  lemma BothEnter(c: Call) returns (es: seq<Step>)
    ensures var s := State(NEW, map[], [], false);
            IsRun(s, es) && Run(s, es) == State(NEW, map[0 := AtHour(Recording(c)), 1 := AtDay(Checking)], [], false)
  {
    var s := State(NEW, map[], [], false);
    var s1 := s.(threads := map[0 := AtDay(Recording(c))]);
    var s2 := s.(threads := map[0 := AtDay(Recording(c)), 1 := AtDay(Checking)]);
    var s3 := s.(threads := map[0 := AtHour(Recording(c)), 1 := AtDay(Checking)]);
    es := [Start(0, Recording(c)), Start(1, Checking), Go(0, 0, 0)];
    ThreeMoves(s, es, s1, s2, s3);
  }

  lemma CheckEndsTheHour(c: Call) returns (es: seq<Step>)
    ensures var s := State(NEW, map[0 := AtHour(Recording(c)), 1 := AtDay(Checking)], [], false);
            IsRun(s, es) && Run(s, es) == State(NEW, map[0 := Adding(c), 1 := HourZeroed(Checking)], [], false)
  {
    var s := State(NEW, map[0 := AtHour(Recording(c)), 1 := AtDay(Checking)], [], false);
    var s1 := s.(threads := map[0 := Adding(c), 1 := AtDay(Checking)]);
    var s2 := s.(threads := map[0 := Adding(c), 1 := AtHour(Checking)]);
    var s3 := s.(threads := map[0 := Adding(c), 1 := HourZeroed(Checking)]);
    es := [Go(0, 0, 0), Go(1, 0, 0), Go(1, 3_600, 3_600)];
    ThreeMoves(s, es, s1, s2, s3);
  }

  function Counted(c: Call): Guard {
    NEW.(dailyCents := Cents(c), hourlyActions := 1)
  }

  lemma RecordingLatches(c: Call) returns (es: seq<Step>)
    ensures var s := State(NEW, map[0 := Adding(c), 1 := HourZeroed(Checking)], [], false);
            && IsRun(s, es)
            && Run(s, es) == State(Counted(c), map[0 := Latching(Cents(c), 1), 1 := HourLoaded(Checking, true)], [c], false)
  {
    var s := State(NEW, map[0 := Adding(c), 1 := HourZeroed(Checking)], [], false);
    var s1 := s.(threads := map[0 := Adding(c), 1 := HourLoaded(Checking, true)]);
    var s2 := State(NEW.(dailyCents := Cents(c)), map[0 := Counting(Cents(c)), 1 := HourLoaded(Checking, true)], [c], false);
    var s3 := State(Counted(c), map[0 := Latching(Cents(c), 1), 1 := HourLoaded(Checking, true)], [c], false);
    es := [Go(1, 3_600, 3_600), Go(0, 0, 0), Go(0, 0, 0)];
    ThreeMoves(s, es, s1, s2, s3);
  }

  lemma CheckClears(c: Call) returns (es: seq<Step>)
    requires Cents(c) >= 1
    ensures var s := State(Counted(c), map[0 := Latching(Cents(c), 1), 1 := HourLoaded(Checking, true)], [c], false);
            && IsRun(s, es)
            && Run(s, es) == State(Counted(c).(lastHourly := 3_600), map[0 := Done(None), 1 := Done(Some(false))], [c], true)
  {
    var s := State(Counted(c), map[0 := Latching(Cents(c), 1), 1 := HourLoaded(Checking, true)], [c], false);
    var s1 := State(Counted(c).(exceeded := true), map[0 := Done(None), 1 := HourLoaded(Checking, true)], [c], false);
    var s2 := State(Counted(c).(lastHourly := 3_600), map[0 := Done(None), 1 := Looking], [c], true);
    var s3 := State(Counted(c).(lastHourly := 3_600), map[0 := Done(None), 1 := Done(Some(false))], [c], true);
    es := [Go(0, 0, 0), Go(1, 3_600, 3_600), Go(1, 3_600, 3_600)];
    ThreeMoves(s, es, s1, s2, s3);
  }

  lemma ThreeMoves(s: State, es: seq<Step>, s1: State, s2: State, s3: State)
    requires |es| == 3
    requires Enabled(s, es[0]) && s1 == Apply(s, es[0])
    requires Enabled(s1, es[1]) && s2 == Apply(s1, es[1])
    requires Enabled(s2, es[2]) && s3 == Apply(s2, es[2])
    ensures IsRun(s, es) && Run(s, es) == s3
  {
    assert es[1..][0] == es[1] && es[1..][1..] == [es[2]] && [es[2]][1..] == [];
    assert IsRun(s2, [es[2]]) && Run(s2, [es[2]]) == s3;
    assert IsRun(s1, es[1..]) && Run(s1, es[1..]) == s3;
  }

  lemma {:induction false} RunOn(s: State, a: seq<Step>, b: seq<Step>)
    requires IsRun(s, a) && IsRun(Run(s, a), b)
    ensures IsRun(s, a + b) && Run(s, a + b) == Run(Run(s, a), b)
    decreases |a|
  {
    if a == [] {
      assert a + b == b;
    } else {
      assert (a + b)[0] == a[0] && (a + b)[1..] == a[1..] + b;
      RunOn(Apply(s, a[0]), a[1..], b);
    }
  }
}

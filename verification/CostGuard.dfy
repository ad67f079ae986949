/**
 The live cost guard: a daily spend and an hourly action count, each with its own window, sharing one latch.

 Two clocks are involved.  The daily window is measured on the wall clock, which may run backwards; the hourly
 window on a monotonic clock.  Both are given to each operation as a reading in seconds.
 */
module CostGuard {
  import opened Common

  const DAY: int := 86_400
  const HOUR: int := 3_600
  const MILLION: nat := 1_000_000

  datatype Guard = Guard(
    dailyLimit: nat,
    hourlyLimit: nat,
    dailyCents: nat,
    hourlyActions: nat,
    exceeded: bool,
    lastDaily: int,
    lastHourly: int)

  function Fresh(dailyLimit: nat, hourlyLimit: nat, wall: int, mono: int): Guard {
    Guard(dailyLimit, hourlyLimit, 0, 0, false, wall, mono)
  }

  // ---------------------------------------------------------------- prices

  function Lower(s: string): string {
    seq(|s|, i requires 0 <= i < |s| => if 'A' <= s[i] <= 'Z' then s[i] - 'A' + 'a' else s[i])
  }

  /** Cents per million input and output tokens; the first family named in the model wins. */
  function Pricing(model: string): (nat, nat) {
    var m := Lower(model);
    if Contains(m, "opus") then (1_500, 7_500)
    else if Contains(m, "sonnet") then (300, 1_500)
    else if Contains(m, "haiku") then (25, 125)
    else if Contains(m, "gpt-4o") then (250, 1_000)
    else if Contains(m, "gpt-4") then (1_000, 3_000)
    else if Contains(m, "gpt-3.5") then (50, 150)
    else (300, 1_500)
  }

  datatype Call = Call(inputTokens: nat, outputTokens: nat, model: string)

  /** Exact price of a call in millionths of a cent. */
  function Exact(c: Call): nat {
    c.inputTokens * Pricing(c.model).0 + c.outputTokens * Pricing(c.model).1
  }

  /** What is recorded: whole cents. */
  function Cents(c: Call): nat {
    Exact(c) / MILLION
  }

  /** What is recorded for a call, by the family its model's name belongs to: whole cents of the exact price. */
  ghost predicate Charges(c: Call, inputPrice: nat, outputPrice: nat) {
    var exact := c.inputTokens * inputPrice + c.outputTokens * outputPrice;
    1_000_000 * Cents(c) <= exact < 1_000_000 * (Cents(c) + 1)
  }

  lemma ChargesAt(c: Call, inputPrice: nat, outputPrice: nat)
    requires Pricing(c.model) == (inputPrice, outputPrice)
    ensures Charges(c, inputPrice, outputPrice)
  {
  }

  /** The price list, in cents per million input and output tokens. */
  lemma PricesByFamily(c: Call)
    ensures var m := Lower(c.model);
            if Contains(m, "opus") then Charges(c, 1_500, 7_500)
            else if Contains(m, "sonnet") then Charges(c, 300, 1_500)
            else if Contains(m, "haiku") then Charges(c, 25, 125)
            else if Contains(m, "gpt-4o") then Charges(c, 250, 1_000)
            else if Contains(m, "gpt-4") then Charges(c, 1_000, 3_000)
            else if Contains(m, "gpt-3.5") then Charges(c, 50, 150)
            else Charges(c, 300, 1_500)
  {
    ChargesAt(c, Pricing(c.model).0, Pricing(c.model).1);
  }

  /** Two letters are the same but for their case. */
  ghost predicate SameLetter(a: char, b: char) {
    || a == b
    || ('A' <= a <= 'Z' && b as int == a as int + 32)
    || ('A' <= b <= 'Z' && a as int == b as int + 32)
  }

  /** The case in which a model is named does not change its price. */
  lemma CaseDoesNotMatter(a: string, b: string)
    requires |a| == |b| && forall i :: 0 <= i < |a| ==> SameLetter(a[i], b[i])
    ensures Pricing(a) == Pricing(b)
  {
    assert Lower(a) == Lower(b);
  }

  // ---------------------------------------------------------------- operations

  predicate DailyReached(g: Guard) {
    g.dailyLimit > 0 && g.dailyCents >= g.dailyLimit
  }

  predicate HourlyReached(g: Guard) {
    g.hourlyLimit > 0 && g.hourlyActions >= g.hourlyLimit
  }

  function RollDay(g: Guard, wall: int): Guard {
    if wall - g.lastDaily >= DAY
    then g.(dailyCents := 0, exceeded := g.exceeded && g.hourlyLimit != 0, lastDaily := wall)
    else g
  }

  function RollHour(g: Guard, mono: int): Guard {
    if mono - g.lastHourly >= HOUR
    then g.(hourlyActions := 0, exceeded := g.exceeded && DailyReached(g), lastHourly := mono)
    else g
  }

  function MaybeReset(g: Guard, wall: int, mono: int): Guard {
    RollHour(RollDay(g, wall), mono)
  }

  function RecordOp(g: Guard, c: Call, wall: int, mono: int): Guard {
    var r := MaybeReset(g, wall, mono);
    var n := r.(dailyCents := r.dailyCents + Cents(c), hourlyActions := r.hourlyActions + 1);
    n.(exceeded := n.exceeded || DailyReached(n) || HourlyReached(n))
  }

  datatype Event =
    | Record(call: Call, wall: int, mono: int)
    | Check(wall: int, mono: int)
    | ClearAndRebase(wall: int, mono: int)
    | ResetExceeded

  function Apply(g: Guard, e: Event): Guard {
    match e
    case Record(c, wall, mono) => RecordOp(g, c, wall, mono)
    case Check(wall, mono) => MaybeReset(g, wall, mono)
    case ClearAndRebase(wall, mono) =>
      g.(dailyCents := 0, hourlyActions := 0, exceeded := false, lastDaily := wall, lastHourly := mono)
    case ResetExceeded => g.(exceeded := false)
  }

  function Run(g: Guard, es: seq<Event>): Guard
    decreases |es|
  {
    if es == [] then g else Run(Apply(g, es[0]), es[1..])
  }

  // ---------------------------------------------------------------- the latch over every run

  /** Unlatched means below both limits; and without an hourly limit the latch is exactly the daily limit. */
  ghost predicate Inv(g: Guard) {
    && (!g.exceeded ==> !DailyReached(g) && !HourlyReached(g))
    && (g.hourlyLimit == 0 ==> (g.exceeded <==> DailyReached(g)))
  }

  lemma StepKeepsInv(g: Guard, e: Event)
    requires Inv(g) && e != ResetExceeded
    ensures Inv(Apply(g, e))
  {
    if e.Record? || e.Check? {
      assert Inv(RollDay(g, e.wall));
      assert Inv(MaybeReset(g, e.wall, e.mono));
    }
  }

  lemma {:induction false} EveryRunKeepsInv(g: Guard, es: seq<Event>)
    requires Inv(g) && forall i :: 0 <= i < |es| ==> es[i] != ResetExceeded
    ensures Inv(Run(g, es))
    ensures Run(g, es).dailyLimit == g.dailyLimit && Run(g, es).hourlyLimit == g.hourlyLimit
    decreases |es|
  {
    if es != [] {
      StepKeepsInv(g, es[0]);
      EveryRunKeepsInv(Apply(g, es[0]), es[1..]);
    }
  }

  /**
   What a check tells after any run in which nobody cleared the latch by hand, whatever the clocks did.  "No" is
   always right.  "Yes" is right when there is no hourly limit, and at every check that ends an hourly window.
   */
  lemma CheckIsSound(dailyLimit: nat, hourlyLimit: nat, w0: int, m0: int, es: seq<Event>, wall: int, mono: int)
    requires forall i :: 0 <= i < |es| ==> es[i] != ResetExceeded
    ensures var before := Run(Fresh(dailyLimit, hourlyLimit, w0, m0), es);
            var g := MaybeReset(before, wall, mono);
            && g.dailyLimit == dailyLimit && g.hourlyLimit == hourlyLimit
            && (!g.exceeded ==> !AtALimit(g))
            && (hourlyLimit == 0 ==> (g.exceeded <==> dailyLimit > 0 && g.dailyCents >= dailyLimit))
            && (mono - before.lastHourly >= 3_600 ==>
                  (g.exceeded <==> dailyLimit > 0 && g.dailyCents >= dailyLimit) && g.hourlyActions == 0)
  {
    var start := Fresh(dailyLimit, hourlyLimit, w0, m0);
    EveryRunKeepsInv(start, es);
    StepKeepsInv(Run(start, es), Check(wall, mono));
  }

  /** The latch outlasts both limits only between a day's rollover and the end of the running hour. */
  lemma StaleLatchIff(g: Guard, wall: int, mono: int)
    requires Inv(g)
    ensures var n := MaybeReset(g, wall, mono);
            (n.exceeded && !AtALimit(n)) <==>
              && g.exceeded && g.hourlyLimit > 0 && g.hourlyActions < g.hourlyLimit
              && mono - g.lastHourly < 3_600
              && (wall - g.lastDaily >= 86_400 || g.dailyLimit == 0 || g.dailyCents < g.dailyLimit)
  {
    assert Inv(RollDay(g, wall));
  }

  /** Such a check exists: the day rolls over one second into an hour, and the guard still refuses calls. */
  lemma LatchCanBeStale()
    ensures var g := Run(Fresh(1, 10, 0, 0),
                         [Record(Call(1_000_000, 0, "opus"), 0, 0), Check(86_399, 86_399), Check(86_400, 86_400)]);
            g.exceeded && g.dailyCents == 0 && g.hourlyActions == 0
  {
    var c := Call(1_000_000, 0, "opus");
    assert Contains(Lower("opus"), "opus") by {
      assert Lower("opus") == "opus";
      assert OccursAt("opus", "opus", 0);
    }
    assert Exact(c) == 1_500_000_000 && Cents(c) == 1_500;
    var es := [Record(c, 0, 0), Check(86_399, 86_399), Check(86_400, 86_400)];
    var g1 := Apply(Fresh(1, 10, 0, 0), es[0]);
    assert g1.exceeded && g1.dailyCents == 1_500 && g1.hourlyActions == 1;
    var g2 := Apply(g1, es[1]);
    var g3 := Apply(g2, es[2]);
    assert g2.exceeded && g2.lastHourly == 86_399;
    assert es[1..][1..] == [es[2]] && es[1..][0] == es[1];
    assert Run(g1, es[1..]) == Run(g2, [es[2]]);
    assert [es[2]][1..] == [] && Run(g2, [es[2]]) == g3;
  }

  // ---------------------------------------------------------------- windows and causes

  /** A day is 86,400 seconds and an hour 3,600; a counter is zeroed, and its window restarted, only when it is over. */
  lemma WindowsMean(g: Guard, wall: int, mono: int)
    ensures var n := MaybeReset(g, wall, mono);
            && n.dailyLimit == g.dailyLimit && n.hourlyLimit == g.hourlyLimit
            && n.dailyCents == (if wall - g.lastDaily >= 86_400 then 0 else g.dailyCents)
            && n.lastDaily == (if wall - g.lastDaily >= 86_400 then wall else g.lastDaily)
            && n.hourlyActions == (if mono - g.lastHourly >= 3_600 then 0 else g.hourlyActions)
            && n.lastHourly == (if mono - g.lastHourly >= 3_600 then mono else g.lastHourly)
            && (wall - g.lastDaily < 86_400 && mono - g.lastHourly < 3_600 ==> n == g)
            && (n.exceeded ==> g.exceeded)
  {
  }

  /** A counter is at its configured limit. */
  ghost predicate AtALimit(g: Guard) {
    (g.dailyLimit > 0 && g.dailyCents >= g.dailyLimit) || (g.hourlyLimit > 0 && g.hourlyActions >= g.hourlyLimit)
  }

  /** The latch is never set without cause: some recording of the run brought a counter to its limit. */
  lemma {:induction false} LatchHasCause(g: Guard, es: seq<Event>) returns (k: nat)
    requires !g.exceeded && Run(g, es).exceeded
    ensures k < |es| && es[k].Record? && AtALimit(Run(g, es[..k + 1]))
    decreases |es|
  {
    var n := Apply(g, es[0]);
    if n.exceeded {
      k := 0;
      assert es[..1][1..] == [] && es[..1][0] == es[0];
      assert Run(g, es[..1]) == Run(n, []) == n;
    } else {
      var j := LatchHasCause(n, es[1..]);
      k := j + 1;
      assert es[..k + 1][0] == es[0] && es[..k + 1][1..] == es[1..][..j + 1];
    }
  }

  /** Within one hour's window: checks and recorded calls only, none an hour or more past `since`. */
  ghost predicate WithinHour(es: seq<Event>, since: int) {
    forall i :: 0 <= i < |es| ==> (es[i].Record? || es[i].Check?) && es[i].mono - since < 3_600
  }

  /** Within an hour every recorded call counts as one action. */
  lemma {:induction false} ActionsAddUp(g: Guard, es: seq<Event>)
    requires WithinHour(es, g.lastHourly)
    ensures Run(g, es).hourlyActions == g.hourlyActions + |Calls(es)|
    decreases |es|
  {
    if es != [] {
      var n := Apply(g, es[0]);
      assert n.lastHourly == g.lastHourly;
      ActionsAddUp(n, es[1..]);
    }
  }

  /** The operator's reset leaves a new guard with the same limits and both windows starting now. */
  lemma ClearStartsFresh(g: Guard, wall: int, mono: int)
    ensures Apply(g, ClearAndRebase(wall, mono)) == Guard(g.dailyLimit, g.hourlyLimit, 0, 0, false, wall, mono)
    ensures Apply(g, ClearAndRebase(wall, mono)) == Fresh(g.dailyLimit, g.hourlyLimit, wall, mono)
  {
  }

  /** Clearing the latch alone is a reprieve of one call: with the spend still at its limit the next one trips it again. */
  lemma ClearedLatchTripsAgain(g: Guard, c: Call, wall: int, mono: int)
    requires g.dailyLimit > 0 && g.dailyCents >= g.dailyLimit && wall - g.lastDaily < 86_400
    ensures var n := Apply(g, ResetExceeded);
            !n.exceeded && n == g.(exceeded := false) && Apply(n, Record(c, wall, mono)).exceeded
  {
  }

  // ---------------------------------------------------------------- accuracy

  function TotalExact(cs: seq<Call>): nat {
    if cs == [] then 0 else Exact(cs[0]) + TotalExact(cs[1..])
  }

  function TotalCents(cs: seq<Call>): nat {
    if cs == [] then 0 else Cents(cs[0]) + TotalCents(cs[1..])
  }

  /** Recorded cents never exceed the exact cost, and miss less than one cent per call. */
  lemma {:induction false} CentsUndershoot(cs: seq<Call>)
    ensures TotalCents(cs) * MILLION <= TotalExact(cs) <= TotalCents(cs) * MILLION + |cs| * (MILLION - 1)
  {
    if cs != [] {
      CentsUndershoot(cs[1..]);
      var c := cs[0];
      assert Cents(c) * MILLION <= Exact(c) <= Cents(c) * MILLION + (MILLION - 1);
    }
  }

  /** Within one day's window: checks and recorded calls only, none a day or more past `since`. */
  ghost predicate WithinDay(es: seq<Event>, since: int) {
    forall i :: 0 <= i < |es| ==> (es[i].Record? || es[i].Check?) && es[i].wall - since < 86_400
  }

  function Calls(es: seq<Event>): seq<Call> {
    if es == [] then [] else if es[0].Record? then [es[0].call] + Calls(es[1..]) else Calls(es[1..])
  }

  lemma {:induction false} RecordsAddUp(g: Guard, es: seq<Event>)
    requires WithinDay(es, g.lastDaily)
    ensures Run(g, es).dailyCents == g.dailyCents + TotalCents(Calls(es))
    decreases |es|
  {
    if es != [] {
      var n := Apply(g, es[0]);
      assert n.lastDaily == g.lastDaily;
      RecordsAddUp(n, es[1..]);
      if es[0].Record? {
        assert ([es[0].call] + Calls(es[1..]))[1..] == Calls(es[1..]);
      }
    }
  }

  /** So over a day the guard's spend is the exact cost, short by less than a cent per call. */
  lemma SpendIsAccurate(g: Guard, es: seq<Event>)
    requires WithinDay(es, g.lastDaily) && g.dailyCents == 0
    ensures var spent := Run(g, es).dailyCents * MILLION;
            spent <= TotalExact(Calls(es)) <= spent + |Calls(es)| * (MILLION - 1)
  {
    RecordsAddUp(g, es);
    CentsUndershoot(Calls(es));
  }

  // ---------------------------------------------------------------- the guard object

  class LiveGuard {
    const dailyLimit: nat
    const hourlyLimit: nat
    var dailyCents: nat
    var hourlyActions: nat
    var exceeded: bool
    var lastDaily: int
    var lastHourly: int

    ghost function State(): Guard
      reads this
    {
      Guard(dailyLimit, hourlyLimit, dailyCents, hourlyActions, exceeded, lastDaily, lastHourly)
    }

    constructor (dailyLimit: nat, hourlyLimit: nat, wall: int, mono: int)
      ensures State() == Fresh(dailyLimit, hourlyLimit, wall, mono) && Inv(State())
    {
      this.dailyLimit, this.hourlyLimit := dailyLimit, hourlyLimit;
      dailyCents, hourlyActions, exceeded := 0, 0, false;
      lastDaily, lastHourly := wall, mono;
    }

    method IsExceeded(wall: int, mono: int) returns (r: bool)
      modifies this
      ensures State() == Apply(old(State()), Check(wall, mono)) && r == exceeded
      ensures old(Inv(State())) ==> Inv(State()) && (!r ==> !AtALimit(State()))
    {
      if Inv(State()) {
        StepKeepsInv(State(), Check(wall, mono));
      }
      ResetWindows(wall, mono);
      r := exceeded;
    }

    method RecordUsage(c: Call, wall: int, mono: int)
      modifies this
      ensures State() == Apply(old(State()), Record(c, wall, mono))
      ensures old(Inv(State())) ==> Inv(State())
    {
      if Inv(State()) {
        StepKeepsInv(State(), Record(c, wall, mono));
      }
      ResetWindows(wall, mono);
      var (inputPrice, outputPrice) := Pricing(c.model);
      dailyCents := dailyCents + (c.inputTokens * inputPrice + c.outputTokens * outputPrice) / MILLION;
      hourlyActions := hourlyActions + 1;
      var dailyExceeded := dailyLimit > 0 && dailyCents >= dailyLimit;
      var hourlyExceeded := hourlyLimit > 0 && hourlyActions >= hourlyLimit;
      if dailyExceeded || hourlyExceeded {
        exceeded := true;
      }
    }

    method ClearAndRebase(wall: int, mono: int)
      modifies this
      ensures State() == Apply(old(State()), Event.ClearAndRebase(wall, mono)) && Inv(State())
    {
      dailyCents, hourlyActions := 0, 0;
      lastDaily, lastHourly := wall, mono;
      exceeded := false;
    }

    method ResetExceeded()
      modifies this`exceeded
      ensures State() == Apply(old(State()), Event.ResetExceeded)
    {
      exceeded := false;
    }

    method ResetWindows(wall: int, mono: int)
      modifies this
      ensures State() == MaybeReset(old(State()), wall, mono)
    {
      if wall - lastDaily >= DAY {
        dailyCents := 0;
        if hourlyLimit == 0 {
          exceeded := false;
        }
        lastDaily := wall;
      }
      if mono - lastHourly >= HOUR {
        hourlyActions := 0;
        var dailyOk := dailyLimit == 0 || dailyCents < dailyLimit;
        if dailyOk {
          exceeded := false;
        }
        lastHourly := mono;
      }
    }
  }
}

/**
 Context compression: three heuristic strategies and the boundary logic of LLM compaction.
 */
module Compressor {
  import opened Common
  import opened Conversation

  /** Estimated cost of one message: a quarter token per byte and four for the envelope. */
  function Cost(m: Message): (n: nat)
    ensures 4 * (n - 4) <= |m.content| < 4 * (n - 4) + 4
  {
    |m.content| / 4 + 4
  }

  function Estimate(ms: seq<Message>): nat {
    if ms == [] then 0 else Cost(ms[0]) + Estimate(ms[1..])
  }

  lemma {:induction false} EstimateConcat(a: seq<Message>, b: seq<Message>)
    ensures Estimate(a + b) == Estimate(a) + Estimate(b)
  {
    if a == [] {
      assert a + b == b;
    } else {
      assert (a + b)[1..] == a[1..] + b;
      EstimateConcat(a[1..], b);
    }
  }

  lemma {:induction false} EstimateIsTokensAndEnvelopes(ms: seq<Message>)
    ensures Estimate(ms) == TotalTokens(ms) + 4 * |ms|
  {
    if ms != [] {
      EstimateIsTokensAndEnvelopes(ms[1..]);
    }
  }

  // ---------------------------------------------------------------- system messages

  predicate IsOther(m: Message) {
    !IsSystem(m)
  }

  function Systems(ms: seq<Message>): seq<Message> {
    Filter(IsSystem, ms)
  }

  function Others(ms: seq<Message>): seq<Message> {
    Filter(IsOther, ms)
  }

  // ---------------------------------------------------------------- summarising strategy

  const KEEP_TAIL: nat := 4

  function TailStart(ms: seq<Message>): nat {
    SnapEnd(ms, SaturatingSub(|ms|, KEEP_TAIL))
  }

  /** What stays: system messages anywhere, and the tail. */
  function Kept(ms: seq<Message>): seq<Message> {
    Systems(ms[..TailStart(ms)]) + ms[TailStart(ms)..]
  }

  function Replaced(ms: seq<Message>): seq<Message> {
    Others(ms[..TailStart(ms)])
  }

  /** `None` stands for the panic when the summary's position 1 lies past the end of what was kept. */
  function Summarized(ms: seq<Message>, summary: Message): Option<seq<Message>> {
    var kept := Kept(ms);
    if Replaced(ms) == [] then Some(kept)
    else if kept == [] then None
    else Some(kept[..1] + [summary] + kept[1..])
  }

  /** The insertion is in range for every history except a non-empty one with no system message and only tool
      results at its end. */
  lemma SummaryFitsIff(ms: seq<Message>, summary: Message)
    ensures Summarized(ms, summary).Some? <==>
              ms == [] || (exists i :: 0 <= i < |ms| && (IsSystem(ms[i]) || (|ms| - KEEP_TAIL <= i && !IsTool(ms[i]))))
  {
    var t := TailStart(ms);
    assert forall i :: 0 <= i < t ==> ms[..t][i] == ms[i];
    FilterMembers(IsSystem, ms[..t]);
    assert Kept(ms) == [] <==> Systems(ms[..t]) == [] && t == |ms|;
  }

  /** Where the tail begins, and what is kept and replaced: the last four messages less their leading tool results stay,
      and of the rest the system messages; the summary goes behind the first of them, unless it would stand for nothing. */
  lemma SummarizedMeans(ms: seq<Message>, summary: Message) returns (t: nat)
    ensures |ms| - 4 <= t <= |ms|
    ensures (forall k :: 0 <= k < t && |ms| - 4 <= k ==> ms[k].role == Tool) && (t < |ms| ==> ms[t].role != Tool)
    ensures var kept := Filter(IsSystem, ms[..t]) + ms[t..];
            && ((forall i :: 0 <= i < t ==> ms[i].role == System) ==> Summarized(ms, summary) == Some(kept))
            && ((exists i :: 0 <= i < t && ms[i].role != System) ==>
                  Summarized(ms, summary) == if kept == [] then None else Some(kept[..1] + [summary] + kept[1..]))
  {
    t := TailStart(ms);
    FilterMembers(IsOther, ms[..t]);
    assert forall i :: 0 <= i < t ==> ms[..t][i] == ms[i];
  }

  /** System messages make no calls and answer none: they are paired by themselves and leave no call open. */
  lemma {:induction false} SystemsArePaired(open: set<string>, ms: seq<Message>)
    requires forall i :: 0 <= i < |ms| ==> IsSystem(ms[i])
    ensures PairedFrom(open, ms)
    decreases |ms|
  {
    if ms != [] {
      SystemsArePaired(CallIds(ms[0]), ms[1..]);
    }
  }

  /** A tail that does not begin on a tool result may follow any system messages. */
  lemma SystemsThenTail(systems: seq<Message>, open: set<string>, tail: seq<Message>)
    requires forall i :: 0 <= i < |systems| ==> IsSystem(systems[i])
    requires (tail == [] || !IsTool(tail[0])) && PairedFrom(open, tail)
    ensures Paired(systems + tail)
  {
    SystemsArePaired({}, systems);
    PairedConcat({}, systems, tail);
    PairedAnyStart(open, OpenAfter({}, systems), tail);
  }

  /** Where the summary goes: behind the first system message kept from the front, or else behind the tail's first. */
  lemma SummarizedShape(ms: seq<Message>, summary: Message)
    requires Summarized(ms, summary).Some?
    ensures var systems, tail := Systems(ms[..TailStart(ms)]), ms[TailStart(ms)..];
            var result := Summarized(ms, summary).value;
            && (Replaced(ms) == [] ==> result == systems + tail)
            && (Replaced(ms) != [] && systems != [] ==> result == ([systems[0], summary] + systems[1..]) + tail)
            && (Replaced(ms) != [] && systems == [] ==> tail != [] && result == [tail[0], summary] + tail[1..])
  {
    var systems, tail := Systems(ms[..TailStart(ms)]), ms[TailStart(ms)..];
    var kept := systems + tail;
    if systems != [] {
      assert kept[..1] == [systems[0]] && kept[1..] == systems[1..] + tail;
    } else {
      assert kept == tail;
    }
  }

  /** A summary set behind the first message of a paired list separates only a call from a result directly behind it. */
  lemma SummaryBehindFirst(open: set<string>, tail: seq<Message>, summary: Message)
    requires tail != [] && !IsTool(tail[0]) && PairedFrom(open, tail) && IsSystem(summary)
    ensures Paired([tail[0], summary] + tail[1..]) <==> |tail| < 2 || !IsTool(tail[1])
  {
    var r, rest := [tail[0], summary] + tail[1..], tail[1..];
    assert r[1..] == [summary] + rest && r[1..][1..] == rest;
    assert Paired(r) <==> PairedFrom(CallIds(summary), rest) by {
      assert PairedFrom(CallIds(tail[0]), r[1..]) <==> PairedFrom(CallIds(summary), rest);
    }
    assert CallIds(summary) == {};
    assert rest != [] ==> rest[0] == tail[1];
    if rest == [] || !IsTool(rest[0]) {
      PairedAnyStart(CallIds(tail[0]), CallIds(summary), rest);
    }
  }

  /**
   When the summarising strategy keeps a paired history paired: when nothing is replaced, or a system message stands
   before the tail, or the tail's first message has no tool result behind it; and in no other case.
   */
  lemma SummarizedPairedIff(ms: seq<Message>, summary: Message)
    requires Paired(ms) && IsSystem(summary) && Summarized(ms, summary).Some?
    ensures var t := TailStart(ms);
            Paired(Summarized(ms, summary).value) <==>
              || Replaced(ms) == []
              || (exists i :: 0 <= i < t && IsSystem(ms[i]))
              || t + 1 >= |ms|
              || !IsTool(ms[t + 1])
  {
    var t := TailStart(ms);
    SummarizedShape(ms, summary);
    var tail, systems := ms[t..], Systems(ms[..t]);
    var open := FrontAndTail(ms, t);
    if Replaced(ms) == [] {
      SystemsThenTail(systems, open, tail);
    } else if systems != [] {
      SystemsThenTail([systems[0], summary] + systems[1..], open, tail);
    } else {
      SummaryBehindFirst(open, tail, summary);
    }
  }

  /** What is known of the two parts of a paired history. */
  lemma FrontAndTail(ms: seq<Message>, t: nat) returns (open: set<string>)
    requires Paired(ms) && t <= |ms|
    ensures PairedFrom(open, ms[t..])
    ensures forall i :: 0 <= i < |Systems(ms[..t])| ==> IsSystem(Systems(ms[..t])[i])
    ensures Systems(ms[..t]) == [] <==> forall i :: 0 <= i < t ==> !IsSystem(ms[i])
  {
    var front := ms[..t];
    FilterMembers(IsSystem, front);
    assert forall i :: 0 <= i < t ==> front[i] == ms[i];
    assert ms == front + ms[t..];
    PairedConcat({}, front, ms[t..]);
    open := OpenAfter({}, front);
  }

  /** In particular a history that starts with a system message stays paired. */
  lemma SummarizedIsPaired(ms: seq<Message>, summary: Message)
    requires Paired(ms) && ms != [] && IsSystem(ms[0]) && IsSystem(summary)
    ensures Summarized(ms, summary).Some? && Paired(Summarized(ms, summary).value)
  {
    SummaryFitsIff(ms, summary);
    SummarizedPairedIff(ms, summary);
    FilterMembers(IsSystem, ms[..TailStart(ms)]);
    assert TailStart(ms) > 0 ==> IsSystem(ms[0]);
  }

  /** Otherwise the summary may come to stand between a call and its result. */
  lemma SummaryCanSplitAPair(u: Message, summary: Message)
    requires IsUser(u) && IsSystem(summary)
    ensures var a, r := Message(Assistant, "", None, Some(["c"]), None), Message(Tool, "", None, None, Some("c"));
            var ms := [u, a, r, u, u];
            && Paired(ms)
            && Summarized(ms, summary) == Some([a, summary, r, u, u])
            && !Paired([a, summary, r, u, u])
  {
    var a, r := Message(Assistant, "", None, Some(["c"]), None), Message(Tool, "", None, None, Some("c"));
    var ms := [u, a, r, u, u];
    assert Answers(ms, 1, 2);
    AnsweredIsPaired({}, ms);
    assert TailStart(ms) == 1 && ms[..1] == [u] && ms[1..] == [a, r, u, u] && [u][1..] == [];
    FilterSingle(IsSystem, u);
    FilterSingle(IsOther, u);
    SummarizedShape(ms, summary);
    assert [a, r, u, u][1..] == [r, u, u];
    assert [a, summary] + [r, u, u] == [a, summary, r, u, u];
    SummarizedPairedIff(ms, summary);
  }

  /** And with no system message and only tool results at the end there is nothing to set it behind: the panic. */
  lemma SummaryCanPanic(u: Message, summary: Message)
    requires IsUser(u)
    ensures var a, r := Message(Assistant, "", None, Some(["c"]), None), Message(Tool, "", None, None, Some("c"));
            Paired([u, a, r, r, r, r]) && Summarized([u, a, r, r, r, r], summary) == None
  {
    var a, r := Message(Assistant, "", None, Some(["c"]), None), Message(Tool, "", None, None, Some("c"));
    var ms := [u, a, r, r, r, r];
    forall i | 0 <= i < |ms| && IsTool(ms[i]) ensures exists j: nat :: Answers(ms, j, i) {
      assert Answers(ms, 1, i);
    }
    AnsweredIsPaired({}, ms);
    SummaryFitsIff(ms, summary);
  }

  lemma SystemsThenAny(systems: seq<Message>, tail: seq<Message>)
    requires forall i :: 0 <= i < |systems| ==> IsSystem(systems[i])
    ensures Systems(systems + tail) == systems + Systems(tail)
  {
    FilterConcat(IsSystem, systems, tail);
    AllSystems(systems);
  }

  lemma SystemsSplit(ms: seq<Message>, t: nat)
    requires t <= |ms|
    ensures Systems(ms) == Systems(ms[..t]) + Systems(ms[t..])
  {
    assert ms == ms[..t] + ms[t..];
    FilterConcat(IsSystem, ms[..t], ms[t..]);
  }

  lemma SystemsAround(m: Message, summary: Message, rest: seq<Message>)
    requires IsSystem(summary)
    ensures Systems([m, summary] + rest) == Systems([m]) + [summary] + Systems(rest)
    ensures Systems([m] + rest) == Systems([m]) + Systems(rest)
    ensures Systems([m]) == if IsSystem(m) then [m] else []
  {
    FilterPair(IsSystem, m, summary, rest);
    FilterConcat(IsSystem, [m], rest);
    FilterSingle(IsSystem, m);
    FilterSingle(IsSystem, summary);
  }

  lemma SystemsBehindFirst(tail: seq<Message>, summary: Message)
    requires tail != [] && IsSystem(summary)
    ensures var n := if IsSystem(tail[0]) then 1 else 0;
            && n <= |Systems(tail)|
            && Systems([tail[0], summary] + tail[1..]) == Systems(tail)[..n] + [summary] + Systems(tail)[n..]
  {
    SystemsAround(tail[0], summary, tail[1..]);
    assert tail == [tail[0]] + tail[1..];
    var first, rest := Systems([tail[0]]), Systems(tail[1..]);
    assert (first + rest)[..|first|] == first && (first + rest)[|first|..] == rest;
  }

  /** Summarising loses no system message, of any history, and adds at most the summary, behind the first kept message. */
  lemma SummarizedKeepsSystems(ms: seq<Message>, summary: Message)
    requires IsSystem(summary) && Summarized(ms, summary).Some?
    ensures Replaced(ms) == [] ==> Systems(Summarized(ms, summary).value) == Systems(ms)
    ensures Replaced(ms) != [] ==>
              && Kept(ms) != []
              && var n := if IsSystem(Kept(ms)[0]) then 1 else 0;
                 && n <= |Systems(ms)|
                 && Systems(Summarized(ms, summary).value) == Systems(ms)[..n] + [summary] + Systems(ms)[n..]
  {
    KeptKeepsSystems(ms);
    if Replaced(ms) != [] {
      var kept := Kept(ms);
      SystemsBehindFirst(kept, summary);
      assert kept[..1] + [summary] + kept[1..] == [kept[0], summary] + kept[1..];
    }
  }

  lemma KeptKeepsSystems(ms: seq<Message>)
    ensures Systems(Kept(ms)) == Systems(ms)
  {
    var t := TailStart(ms);
    FilterMembers(IsSystem, ms[..t]);
    SystemsSplit(ms, t);
    SystemsThenAny(Systems(ms[..t]), ms[t..]);
  }

  lemma {:induction false} AllSystems(ms: seq<Message>)
    requires forall i :: 0 <= i < |ms| ==> IsSystem(ms[i])
    ensures Systems(ms) == ms
  {
    if ms != [] {
      AllSystems(ms[1..]);
    }
  }

  // ---------------------------------------------------------------- sliding window

  /** Start of the longest suffix whose cost fits in `room`, scanning back from `k`. */
  function WindowStart(ms: seq<Message>, room: nat, k: nat): (r: nat)
    requires k <= |ms|
    ensures r <= k
  {
    if k > 0 && Estimate(ms[k - 1..]) <= room then WindowStart(ms, room, k - 1) else k
  }

  function Available(ms: seq<Message>, target: nat): nat {
    SaturatingSub(target, TotalTokens(Systems(ms)))
  }

  function Window(ms: seq<Message>, target: nat): seq<Message> {
    var rest := Others(ms);
    rest[WindowStart(rest, Available(ms, target), |rest|)..]
  }

  function Slid(ms: seq<Message>, target: nat): seq<Message> {
    var w := Window(ms, target);
    Systems(ms) + w[SnapEnd(w, 0)..]
  }

  lemma {:induction false} EstimateSuffix(ms: seq<Message>, i: nat, j: nat)
    requires i <= j <= |ms|
    ensures Estimate(ms[j..]) <= Estimate(ms[i..])
    ensures i < j ==> Estimate(ms[j..]) < Estimate(ms[i..])
    decreases j - i
  {
    if i < j {
      assert ms[i..][1..] == ms[i + 1..];
      EstimateSuffix(ms, i + 1, j);
    }
  }

  lemma {:induction false} WindowIsLongest(ms: seq<Message>, room: nat, k: nat)
    requires k <= |ms| && Estimate(ms[k..]) <= room
    ensures var w := WindowStart(ms, room, k);
            && Estimate(ms[w..]) <= room
            && (forall i :: 0 <= i < w ==> Estimate(ms[i..]) > room)
  {
    if k > 0 && Estimate(ms[k - 1..]) <= room {
      WindowIsLongest(ms, room, k - 1);
    } else if k > 0 {
      forall i | 0 <= i < k ensures Estimate(ms[i..]) > room {
        EstimateSuffix(ms, i, k - 1);
      }
    }
  }

  /** Removing system messages separates no result from its call. */
  lemma {:induction false} WithoutSystemsIsPaired(open: set<string>, more: set<string>, ms: seq<Message>)
    requires PairedFrom(open, ms) && open <= more
    ensures PairedFrom(more, Others(ms))
    decreases |ms|
  {
    if ms != [] {
      var f := Others(ms[1..]);
      if IsTool(ms[0]) {
        WithoutSystemsIsPaired(open, more, ms[1..]);
        assert ([ms[0]] + f)[1..] == f;
      } else if IsSystem(ms[0]) {
        WithoutSystemsIsPaired(CallIds(ms[0]), more, ms[1..]);
      } else {
        WithoutSystemsIsPaired(CallIds(ms[0]), CallIds(ms[0]), ms[1..]);
        assert ([ms[0]] + f)[1..] == f;
      }
    }
  }

  /** The window is the longest suffix of the other messages that fits; its leading tool results are left out. */
  lemma SlidIsLongestSuffix(ms: seq<Message>, target: nat)
    ensures var rest := Others(ms);
            var room: nat := if target >= TotalTokens(Systems(ms)) then target - TotalTokens(Systems(ms)) else 0;
            var w := WindowStart(rest, room, |rest|);
            var window := rest[w..];
            var first := SnapEnd(window, 0);
            && Slid(ms, target) == Systems(ms) + window[first..]
            && Estimate(window) <= room
            && (forall i :: 0 <= i < w ==> Estimate(rest[i..]) > room)
            && (forall i :: 0 <= i < first ==> IsTool(window[i]))
            && (first < |window| ==> !IsTool(window[first]))
  {
    var rest := Others(ms);
    assert rest[|rest|..] == [];
    WindowIsLongest(rest, Available(ms, target), |rest|);
  }

  lemma SystemsThenWindow(systems: seq<Message>, rest: seq<Message>, w: nat)
    requires forall i :: 0 <= i < |systems| ==> IsSystem(systems[i])
    requires Paired(rest) && w <= |rest|
    ensures Paired(systems + rest[w..][SnapEnd(rest[w..], 0)..])
  {
    var cut := w + SnapEnd(rest[w..], 0);
    assert rest[w..][SnapEnd(rest[w..], 0)..] == rest[cut..];
    assert rest == rest[..cut] + rest[cut..];
    PairedConcat({}, rest[..cut], rest[cut..]);
    SystemsThenTail(systems, OpenAfter({}, rest[..cut]), rest[cut..]);
  }

  lemma SlidIsPaired(ms: seq<Message>, target: nat)
    requires Paired(ms)
    ensures Paired(Slid(ms, target))
  {
    var rest := Others(ms);
    WithoutSystemsIsPaired({}, {}, ms);
    FilterMembers(IsSystem, ms);
    SystemsThenWindow(Systems(ms), rest, WindowStart(rest, Available(ms, target), |rest|));
  }

  lemma SlidKeepsSystems(ms: seq<Message>, target: nat)
    ensures Systems(Slid(ms, target)) == Systems(ms)
  {
    var w := Window(ms, target);
    FilterMembers(IsSystem, ms);
    FilterMembers(IsOther, ms);
    NoSystems(w[SnapEnd(w, 0)..]);
    SystemsThenAny(Systems(ms), w[SnapEnd(w, 0)..]);
  }

  /** The envelopes of the system messages are the only cost the target does not cover. */
  lemma SlidCost(ms: seq<Message>, target: nat)
    ensures Estimate(Slid(ms, target))
            <= Max(target, TotalTokens(Systems(ms))) + 4 * |Systems(ms)|
  {
    var w, systems := Window(ms, target), Systems(ms);
    SlidIsLongestSuffix(ms, target);
    EstimateSuffix(w, 0, SnapEnd(w, 0));
    assert w[0..] == w;
    EstimateConcat(systems, w[SnapEnd(w, 0)..]);
    EstimateIsTokensAndEnvelopes(systems);
  }

  lemma NoSystems(ms: seq<Message>)
    requires forall i :: 0 <= i < |ms| ==> IsOther(ms[i])
    ensures Systems(ms) == []
  {
    FilterMembers(IsSystem, ms);
  }

  // ---------------------------------------------------------------- oldest-first strategy

  const RECENT: nat := 4

  datatype Priority = Low | Normal | High | Critical

  function Level(p: Priority): nat {
    match p case Low => 0 case Normal => 1 case High => 2 case Critical => 3
  }

  function PriorityOf(ms: seq<Message>, i: nat): Priority
    requires i < |ms|
  {
    if i >= SaturatingSub(|ms|, RECENT) then High
    else match ms[i].role
      case System => Critical
      case Tool => High
      case Assistant => if Contains(ms[i].content, "Task") || Contains(ms[i].content, "todo") then High else Normal
      case User => Low
  }

  predicate IsCritical(ms: seq<Message>, i: nat)
    requires i < |ms|
  {
    PriorityOf(ms, i) == Critical
  }

  /** Higher priority first, and of equal priority the later message first. */
  predicate Before(ms: seq<Message>, i: nat, j: nat)
    requires i < |ms| && j < |ms|
  {
    var p, q := Level(PriorityOf(ms, i)), Level(PriorityOf(ms, j));
    p > q || (p == q && i > j)
  }

  /** Cost of the chosen messages among the first `k`. */
  function ChosenCost(ms: seq<Message>, chosen: set<nat>, k: nat): nat
    requires k <= |ms|
  {
    if k == 0 then 0 else ChosenCost(ms, chosen, k - 1) + if k - 1 in chosen then Cost(ms[k - 1]) else 0
  }

  /** The chosen messages that rank before message `i`. */
  function Ahead(ms: seq<Message>, chosen: set<nat>, i: nat): set<nat>
    requires i < |ms|
  {
    set j | j in chosen && j < |ms| && Before(ms, j, i)
  }

  /** A message is in exactly when it is critical or still fits behind the chosen ones that rank before it. */
  ghost predicate Decided(ms: seq<Message>, target: nat, chosen: set<nat>, i: nat) {
    i < |ms| &&
    (i in chosen <==> IsCritical(ms, i) || ChosenCost(ms, Ahead(ms, chosen, i), |ms|) + Cost(ms[i]) <= target)
  }

  ghost predicate Greedy(ms: seq<Message>, target: nat, chosen: set<nat>) {
    && (forall i :: i in chosen ==> i < |ms|)
    && (forall i :: 0 <= i < |ms| ==> Decided(ms, target, chosen, i))
  }

  /** What the strategy has spent on the first `k` messages when the turn of message `i` comes. */
  function Spent(ms: seq<Message>, target: nat, i: nat, k: nat): nat
    requires i < |ms| && k <= |ms|
    decreases 3 - Level(PriorityOf(ms, i)), |ms| - i, k
  {
    if k == 0 then 0
    else Spent(ms, target, i, k - 1) + if Before(ms, k - 1, i) && Takes(ms, target, k - 1) then Cost(ms[k - 1]) else 0
  }

  /** Message `i` is critical, or fits when its turn comes. */
  predicate Takes(ms: seq<Message>, target: nat, i: nat)
    requires i < |ms|
    decreases 3 - Level(PriorityOf(ms, i)), |ms| - i, |ms| + 1
  {
    IsCritical(ms, i) || Spent(ms, target, i, |ms|) + Cost(ms[i]) <= target
  }

  function Choice(ms: seq<Message>, target: nat): set<nat> {
    set i: nat | i < |ms| && Takes(ms, target, i)
  }

  lemma {:induction false} SpentIsAhead(ms: seq<Message>, target: nat, i: nat, k: nat)
    requires i < |ms| && k <= |ms|
    ensures Spent(ms, target, i, k) == ChosenCost(ms, Ahead(ms, Choice(ms, target), i), k)
    decreases k
  {
    if k > 0 {
      SpentIsAhead(ms, target, i, k - 1);
    }
  }

  /** There is a greedy choice, read off the history and the target. */
  lemma ChoiceIsGreedy(ms: seq<Message>, target: nat)
    ensures Greedy(ms, target, Choice(ms, target))
  {
    forall i | 0 <= i < |ms| ensures Decided(ms, target, Choice(ms, target), i) {
      SpentIsAhead(ms, target, i, |ms|);
    }
  }

  function AllCritical(ms: seq<Message>): set<nat> {
    set i | 0 <= i < |ms| && IsCritical(ms, i)
  }

  lemma {:induction false} NoneChosen(ms: seq<Message>, k: nat)
    requires k <= |ms|
    ensures ChosenCost(ms, {}, k) == 0
  {
    if k > 0 {
      NoneChosen(ms, k - 1);
    }
  }

  lemma {:induction false} ChosenCostMonotone(ms: seq<Message>, a: set<nat>, b: set<nat>, k: nat)
    requires k <= |ms| && forall i :: i in a && i < k ==> i in b
    ensures ChosenCost(ms, a, k) <= ChosenCost(ms, b, k)
  {
    if k > 0 {
      ChosenCostMonotone(ms, a, b, k - 1);
    }
  }

  lemma {:induction false} ChosenCostAdd(ms: seq<Message>, chosen: set<nat>, x: nat, k: nat)
    requires k <= |ms| && x !in chosen && x < |ms|
    ensures ChosenCost(ms, chosen + {x}, k) == ChosenCost(ms, chosen, k) + if x < k then Cost(ms[x]) else 0
  {
    if k > 0 {
      ChosenCostAdd(ms, chosen, x, k - 1);
    }
  }

  lemma {:induction false} PickIsSubsequence(ms: seq<Message>, chosen: set<nat>, k: nat)
    requires k <= |ms|
    ensures IsSubsequence(Pick(ms, chosen, k), ms[..k])
  {
    if k > 0 {
      PickIsSubsequence(ms, chosen, k - 1);
      var p := Pick(ms, chosen, k - 1);
      assert ms[..k] == ms[..k - 1] + [ms[k - 1]];
      SubsequenceSnoc(p, ms[..k - 1], ms[k - 1], k - 1 in chosen);
      assert p + [] == p;
    }
  }

  /** What the choice costs, and that nothing chosen is lost. */
  lemma {:induction false} PickCost(ms: seq<Message>, chosen: set<nat>, k: nat)
    requires k <= |ms|
    ensures Estimate(Pick(ms, chosen, k)) == ChosenCost(ms, chosen, k)
    ensures forall i :: 0 <= i < k && i in chosen ==> ms[i] in Pick(ms, chosen, k)
  {
    if k > 0 {
      PickCost(ms, chosen, k - 1);
      var p := Pick(ms, chosen, k - 1);
      EstimateConcat(p, [ms[k - 1]]);
      assert [ms[k - 1]][1..] == [];
      assert p + [] == p;
    }
  }

  lemma {:induction false} SubsequenceSnoc(a: seq<Message>, b: seq<Message>, x: Message, take: bool)
    requires IsSubsequence(a, b)
    ensures IsSubsequence(if take then a + [x] else a, b + [x])
    decreases |b|
  {
    if b == [] {
      assert a == [] && a + [x] == [x] && b + [x] == [x] && [x][1..] == [];
    } else {
      assert (b + [x])[1..] == b[1..] + [x];
      if a != [] && a[0] == b[0] && IsSubsequence(a[1..], b[1..]) {
        assert (a + [x])[1..] == a[1..] + [x];
        SubsequenceSnoc(a[1..], b[1..], x, take);
      } else {
        SubsequenceSnoc(a, b[1..], x, take);
      }
    }
  }

  /** Every system message outside the last four positions is critical. */
  lemma OlderSystemsAreCritical(ms: seq<Message>, i: nat)
    requires i < |ms|
    ensures IsCritical(ms, i) <==> IsSystem(ms[i]) && i + RECENT < |ms|
  {
  }

  /** The weight of a message: user messages least, then assistant messages; tool results, talk of tasks and whatever
      stands among the last four more; older system messages most. */
  ghost function Weight(ms: seq<Message>, k: nat): nat
    requires k < |ms|
  {
    if k + 4 >= |ms| || ms[k].role == Tool then 2
    else if ms[k].role == System then 3
    else if ms[k].role == User then 0
    else if Contains(ms[k].content, "Task") || Contains(ms[k].content, "todo") then 2
    else 1
  }

  /** Messages are taken by weight, and of equal weight the later first. */
  lemma RankIsWeight(ms: seq<Message>, i: nat, j: nat)
    requires i < |ms| && j < |ms|
    ensures Before(ms, i, j) <==> Weight(ms, i) > Weight(ms, j) || (Weight(ms, i) == Weight(ms, j) && i > j)
  {
  }

  /** The chosen messages taken before message `i`: the heavier ones, and the later ones of its weight. */
  ghost function TakenBefore(ms: seq<Message>, chosen: set<nat>, i: nat): set<nat>
    requires i < |ms|
  {
    set j | j in chosen && j < |ms| && (Weight(ms, j) > Weight(ms, i) || (Weight(ms, j) == Weight(ms, i) && j > i))
  }

  /** A message is in exactly when it is an older system message, or fits beside those taken before it. */
  lemma ChoiceMeans(ms: seq<Message>, target: nat, i: nat)
    requires i < |ms|
    ensures i in Choice(ms, target) <==>
              || (ms[i].role == System && i + 4 < |ms|)
              || ChosenCost(ms, TakenBefore(ms, Choice(ms, target), i), |ms|) + Cost(ms[i]) <= target
  {
    ChoiceIsGreedy(ms, target);
    var chosen := Choice(ms, target);
    assert Decided(ms, target, chosen, i);
    OlderSystemsAreCritical(ms, i);
    assert Ahead(ms, chosen, i) == TakenBefore(ms, chosen, i) by {
      forall j: nat | j < |ms| ensures Before(ms, j, i) <==>
          Weight(ms, j) > Weight(ms, i) || (Weight(ms, j) == Weight(ms, i) && j > i) {
        RankIsWeight(ms, j, i);
      }
    }
  }

  ghost predicate RanksInOrder(ms: seq<Message>, order: seq<nat>) {
    && (forall k :: 0 <= k < |order| ==> order[k] < |ms|)
    && (forall k, l :: 0 <= k < l < |order| ==> Before(ms, order[k], order[l]))
  }

  /** Put every index into rank order. */
  method SortByRank(ms: seq<Message>) returns (order: seq<nat>)
    ensures RanksInOrder(ms, order)
    ensures forall i: nat :: i < |ms| <==> i in order
  {
    order := [];
    var i := 0;
    while i < |ms|
      invariant 0 <= i <= |ms|
      invariant RanksInOrder(ms, order)
      invariant forall x: nat :: x < i <==> x in order
    {
      var k := 0;
      while k < |order| && Before(ms, order[k], i)
        invariant 0 <= k <= |order|
        invariant forall l :: 0 <= l < k ==> Before(ms, order[l], i)
      {
        k := k + 1;
      }
      ghost var before := order;
      order := order[..k] + [i] + order[k..];
      InsertRanked(ms, before, i, k);
      i := i + 1;
    }
  }

  lemma RanksBeforeTheRest(ms: seq<Message>, order: seq<nat>, i: nat, k: nat, l: nat)
    requires RanksInOrder(ms, order) && i < |ms| && i !in order && k <= l < |order| && !Before(ms, order[k], i)
    ensures Before(ms, i, order[l])
  {
    assert order[k] in order;
    assert Before(ms, i, order[k]);
    assert l > k ==> Before(ms, order[k], order[l]);
  }

  lemma InsertedRanks(ms: seq<Message>, order: seq<nat>, i: nat, k: nat, r: seq<nat>)
    requires RanksInOrder(ms, order) && i < |ms| && k <= |order| && r == order[..k] + [i] + order[k..]
    requires forall l :: 0 <= l < k ==> Before(ms, order[l], i)
    requires forall l :: k <= l < |order| ==> Before(ms, i, order[l])
    ensures RanksInOrder(ms, r)
  {
    assert |r| == |order| + 1 && r[k] == i;
    assert forall a :: 0 <= a < k ==> r[a] == order[a];
    assert forall a :: k < a < |r| ==> r[a] == order[a - 1];
  }

  lemma InsertRanked(ms: seq<Message>, order: seq<nat>, i: nat, k: nat)
    requires RanksInOrder(ms, order) && i < |ms| && i !in order && k <= |order|
    requires forall l :: 0 <= l < k ==> Before(ms, order[l], i)
    requires k < |order| ==> !Before(ms, order[k], i)
    ensures RanksInOrder(ms, order[..k] + [i] + order[k..])
    ensures forall x: nat :: x in order[..k] + [i] + order[k..] <==> x in order || x == i
  {
    forall l | k <= l < |order| ensures Before(ms, i, order[l]) {
      RanksBeforeTheRest(ms, order, i, k, l);
    }
    InsertedRanks(ms, order, i, k, order[..k] + [i] + order[k..]);
    assert order == order[..k] + order[k..];
  }

  /** Choosing the next message in rank leaves the verdict on all earlier ones as it was. */
  lemma ChoosingKeepsEarlier(ms: seq<Message>, order: seq<nat>, k: nat, chosen: set<nat>, l: nat)
    requires RanksInOrder(ms, order) && l < k < |order|
    ensures Ahead(ms, chosen + {order[k]}, order[l]) == Ahead(ms, chosen, order[l])
  {
    assert Before(ms, order[l], order[k]);
  }

  /** Take messages in rank order while they fit, and critical ones even when they do not. */
  method Choose(ms: seq<Message>, target: nat) returns (chosen: set<nat>)
    ensures Greedy(ms, target, chosen) && chosen == Choice(ms, target)
    ensures ChosenCost(ms, chosen, |ms|) <= Max(target, ChosenCost(ms, AllCritical(ms), |ms|))
  {
    var order := SortByRank(ms);
    chosen := {};
    var total := 0;
    NoneChosen(ms, |ms|);
    var k := 0;
    while k < |order|
      invariant 0 <= k <= |order|
      invariant forall i :: i in chosen ==> i in order[..k]
      invariant total == ChosenCost(ms, chosen, |ms|) <= Max(target, ChosenCost(ms, AllCritical(ms), |ms|))
      invariant forall l :: 0 <= l < k ==> Decided(ms, target, chosen, order[l])
    {
      var i := order[k];
      NextInRank(ms, order, k, chosen);
      var cost := |ms[i].content| / 4 + 4;
      if total + cost <= target || PriorityOf(ms, i) == Critical {
        ChosenCostAdd(ms, chosen, i, |ms|);
        forall l | 0 <= l < k ensures Decided(ms, target, chosen + {i}, order[l]) {
          assert Decided(ms, target, chosen, order[l]) && Before(ms, order[l], order[k]);
          ChoosingKeepsEarlier(ms, order, k, chosen, l);
        }
        assert Ahead(ms, chosen + {i}, i) == Ahead(ms, chosen, i);
        if PriorityOf(ms, i) == Critical {
          ChosenCostMonotone(ms, chosen + {i}, AllCritical(ms), |ms|);
        }
        chosen := chosen + {i};
        total := total + cost;
      }
      assert order[..k + 1] == order[..k] + [order[k]];
      k := k + 1;
    }
    forall i: nat | i < |ms| ensures Decided(ms, target, chosen, i) {
      assert i in order;
    }
    forall i | i in chosen ensures i < |ms| {
      assert i in order[..k];
    }
    ChoiceIsGreedy(ms, target);
    GreedyIsUnique(ms, target, chosen, Choice(ms, target));
  }

  /** Sorting the chosen messages back by index. */
  method InOriginalOrder(ms: seq<Message>, chosen: set<nat>) returns (r: seq<Message>)
    ensures r == Pick(ms, chosen, |ms|)
  {
    r := [];
    var j := 0;
    while j < |ms|
      invariant 0 <= j <= |ms| && r == Pick(ms, chosen, j)
    {
      if j in chosen {
        r := r + [ms[j]];
      }
      j := j + 1;
    }
  }

  lemma GreedyKeepsOlderSystems(ms: seq<Message>, target: nat, chosen: set<nat>)
    requires Greedy(ms, target, chosen)
    ensures IsSubsequence(Pick(ms, chosen, |ms|), ms)
    ensures forall i :: 0 <= i < |ms| - RECENT && IsSystem(ms[i]) ==> ms[i] in Pick(ms, chosen, |ms|)
  {
    PickIsSubsequence(ms, chosen, |ms|);
    assert ms[..|ms|] == ms;
    PickCost(ms, chosen, |ms|);
    forall i | 0 <= i < |ms| - RECENT && IsSystem(ms[i]) ensures i in chosen {
      OlderSystemsAreCritical(ms, i);
      assert Decided(ms, target, chosen, i);
    }
  }

  method CompressOldestFirst(ms: seq<Message>, target: nat) returns (r: seq<Message>)
    ensures Greedy(ms, target, Choice(ms, target)) && r == Pick(ms, Choice(ms, target), |ms|)
    ensures IsSubsequence(r, ms)
    ensures forall i :: 0 <= i < |ms| - RECENT && IsSystem(ms[i]) ==> ms[i] in r
    ensures Estimate(r) <= Max(target, ChosenCost(ms, AllCritical(ms), |ms|))
  {
    var chosen := Choose(ms, target);
    r := InOriginalOrder(ms, chosen);
    GreedyKeepsOlderSystems(ms, target, chosen);
    PickCost(ms, chosen, |ms|);
  }

  /** Everything chosen so far ranks before the next message; and all of it is critical if that one is. */
  lemma NextInRank(ms: seq<Message>, order: seq<nat>, k: nat, chosen: set<nat>)
    requires RanksInOrder(ms, order) && k < |order| && forall i :: i in chosen ==> i in order[..k]
    ensures order[k] !in chosen
    ensures Ahead(ms, chosen, order[k]) == chosen
    ensures IsCritical(ms, order[k]) ==> forall i :: i in chosen ==> i < |ms| && IsCritical(ms, i)
  {
    forall i | i in chosen ensures i < |ms| && Before(ms, i, order[k]) {
      var l :| 0 <= l < k && order[..k][l] == i;
      assert order[l] == i;
    }
  }

  /** The call `j` of result `t` no longer fits when its turn comes, and the result still does. */
  ghost predicate Parts(ms: seq<Message>, target: nat, j: nat, t: nat) {
    && Owns(ms, j, t)
    && Spent(ms, target, t, |ms|) + Cost(ms[t]) <= target < Spent(ms, target, j, |ms|) + Cost(ms[j])
  }

  lemma PartedIsTaken(ms: seq<Message>, target: nat, j: nat, t: nat)
    requires Paired(ms) && Owns(ms, j, t)
    ensures Parts(ms, target, j, t) <==> t in Choice(ms, target) && j !in Choice(ms, target)
  {
    var c := PairedMeans(ms, t);
    assert c == j;
    OlderSystemsAreCritical(ms, t);
    OlderSystemsAreCritical(ms, j);
  }

  /**
   When the strategy keeps a paired history paired, told by the history and the target alone: exactly when every
   result that fits where its call does not is adopted; where call ids are not reused, exactly when there is no such
   result.
   */
  lemma OldestFirstPairedIff(ms: seq<Message>, target: nat)
    requires Paired(ms)
    ensures Paired(Pick(ms, Choice(ms, target), |ms|)) <==>
              forall j: nat, t: nat :: Parts(ms, target, j, t) ==> Adopted(ms, Choice(ms, target), j, t)
    ensures DistinctCalls(ms) ==>
              (Paired(Pick(ms, Choice(ms, target), |ms|)) <==> forall j: nat, t: nat :: !Parts(ms, target, j, t))
  {
    var chosen := Choice(ms, target);
    PickStaysPairedIff(ms, chosen);
    forall j: nat, t: nat | Owns(ms, j, t)
      ensures Parts(ms, target, j, t) <==> t in chosen && j !in chosen
      ensures DistinctCalls(ms) ==> !Adopted(ms, chosen, j, t)
    {
      PartedIsTaken(ms, target, j, t);
      if DistinctCalls(ms) {
        DistinctCallsAdoptNone(ms, chosen, j, t);
      }
    }
  }

  /** All but the messages of lowest priority. */
  function Important(ms: seq<Message>): set<nat> {
    set i: nat | i < |ms| && PriorityOf(ms, i) != Low
  }

  lemma ImportantIsTaken(ms: seq<Message>, target: nat, i: nat)
    requires ChosenCost(ms, Important(ms), |ms|) <= target && i in Important(ms)
    ensures Spent(ms, target, i, |ms|) + Cost(ms[i]) <= target
  {
    var ahead := Ahead(ms, Choice(ms, target), i);
    SpentIsAhead(ms, target, i, |ms|);
    ChosenCostAdd(ms, ahead, i, |ms|);
    ChosenCostMonotone(ms, ahead + {i}, Important(ms), |ms|);
  }

  /** In particular it does when all messages but those of lowest priority fit into the target. */
  lemma OldestFirstPairedIfRoom(ms: seq<Message>, target: nat)
    requires Paired(ms) && ChosenCost(ms, Important(ms), |ms|) <= target
    ensures Paired(Pick(ms, Choice(ms, target), |ms|))
  {
    forall j: nat, t: nat ensures !Parts(ms, target, j, t) {
      if Owns(ms, j, t) {
        var c := PairedMeans(ms, t);
        assert c == j && ms[j].role == Assistant;
        ImportantIsTaken(ms, target, j);
      }
    }
    OldestFirstPairedIff(ms, target);
  }

  /** Results rank above an older call, so the strategy can keep a result and drop its call. */
  lemma OldestFirstCanStrand()
    ensures var a, r := Message(Assistant, "", None, Some(["c"]), None), Message(Tool, "", None, None, Some("c"));
            var u := Message(User, "", None, None, None);
            var ms, chosen: set<nat> := [a, r, u, u, u], {1, 2, 3, 4};
            Paired(ms) && Estimate(ms) > 16 && Choice(ms, 16) == chosen && !Paired(Pick(ms, chosen, 5))
  {
    var a, r := Message(Assistant, "", None, Some(["c"]), None), Message(Tool, "", None, None, Some("c"));
    var u := Message(User, "", None, None, None);
    var ms, chosen: set<nat> := [a, r, u, u, u], {1, 2, 3, 4};
    assert Answers(ms, 0, 1);
    AnsweredIsPaired({}, ms);
    EstimateIsTokensAndEnvelopes(ms);
    assert Ahead(ms, chosen, 0) == chosen;
    assert Ahead(ms, chosen, 1) == {2, 3, 4} && Ahead(ms, chosen, 2) == {3, 4};
    assert Ahead(ms, chosen, 3) == {4} && Ahead(ms, chosen, 4) == {};
    forall i | 0 <= i < 5 ensures Decided(ms, 16, chosen, i) {
      CostOfFive(ms, Ahead(ms, chosen, i));
    }
    ChoiceIsGreedy(ms, 16);
    GreedyIsUnique(ms, 16, chosen, Choice(ms, 16));
    PickPairedIff(ms, chosen, 5);
    assert OpenAt(ms, chosen, 1) == {};
    assert !Served(ms, chosen, 1);
  }

  lemma CostOfFive(ms: seq<Message>, s: set<nat>)
    requires |ms| == 5 && forall i :: 0 <= i < 5 ==> Cost(ms[i]) == 4
    ensures ChosenCost(ms, s, 5) == (if 0 in s then 4 else 0) + (if 1 in s then 4 else 0) + (if 2 in s then 4 else 0)
                                    + (if 3 in s then 4 else 0) + (if 4 in s then 4 else 0)
  {
    assert ChosenCost(ms, s, 1) == if 0 in s then 4 else 0;
    assert ChosenCost(ms, s, 2) == ChosenCost(ms, s, 1) + (if 1 in s then 4 else 0);
    assert ChosenCost(ms, s, 4) == ChosenCost(ms, s, 2) + (if 2 in s then 4 else 0) + (if 3 in s then 4 else 0);
  }

  /** The greedy rule has one solution, so the method's result is determined by it. */
  lemma GreedyIsUnique(ms: seq<Message>, target: nat, a: set<nat>, b: set<nat>)
    requires Greedy(ms, target, a) && Greedy(ms, target, b)
    ensures a == b
  {
    forall i: nat | i < |ms| ensures i in a <==> i in b {
      GreedyAgrees(ms, target, a, b, i);
    }
  }

  lemma {:induction false} GreedyAgrees(ms: seq<Message>, target: nat, a: set<nat>, b: set<nat>, i: nat)
    requires Greedy(ms, target, a) && Greedy(ms, target, b) && i < |ms|
    ensures i in a <==> i in b
    decreases 3 - Level(PriorityOf(ms, i)), |ms| - i
  {
    assert Decided(ms, target, a, i) && Decided(ms, target, b, i);
    forall j | 0 <= j < |ms| && Before(ms, j, i) ensures j in a <==> j in b {
      GreedyAgrees(ms, target, a, b, j);
    }
    assert Ahead(ms, a, i) == Ahead(ms, b, i);
  }

  // ---------------------------------------------------------------- the loops

  method CompressSummarize(ms: seq<Message>, summary: Message) returns (r: Option<seq<Message>>)
    ensures r == Summarized(ms, summary)
  {
    var tailStart := SaturatingSub(|ms|, KEEP_TAIL);
    while tailStart < |ms| && ms[tailStart].role == Tool
      invariant tailStart <= |ms|
      invariant SnapEnd(ms, tailStart) == TailStart(ms)
    {
      tailStart := tailStart + 1;
    }
    var result, toSummarize := Partition(ms, tailStart);
    if toSummarize == [] {
      r := Some(result);
    } else if 1 > |result| {
      r := None;
    } else {
      r := Some(result[..1] + [summary] + result[1..]);
    }
  }

  method Partition(ms: seq<Message>, tailStart: nat) returns (kept: seq<Message>, replaced: seq<Message>)
    requires tailStart <= |ms|
    ensures kept == Systems(ms[..tailStart]) + ms[tailStart..]
    ensures replaced == Others(ms[..tailStart])
  {
    kept, replaced := [], [];
    var i := 0;
    assert ms[..0] == [];
    while i < |ms|
      invariant 0 <= i <= |ms|
      invariant i <= tailStart ==> kept == Systems(ms[..i]) && replaced == Others(ms[..i])
      invariant i >= tailStart ==> kept == Systems(ms[..tailStart]) + ms[tailStart..i]
      invariant i >= tailStart ==> replaced == Others(ms[..tailStart])
    {
      if i < tailStart {
        SystemsSnoc(ms, i);
      }
      if ms[i].role == System || i >= tailStart {
        kept := kept + [ms[i]];
      } else {
        replaced := replaced + [ms[i]];
      }
      i := i + 1;
    }
  }

  lemma SystemsSnoc(ms: seq<Message>, i: nat)
    requires i < |ms|
    ensures Systems(ms[..i + 1]) == if IsSystem(ms[i]) then Systems(ms[..i]) + [ms[i]] else Systems(ms[..i])
    ensures Others(ms[..i + 1]) == if IsSystem(ms[i]) then Others(ms[..i]) else Others(ms[..i]) + [ms[i]]
  {
    assert ms[..i + 1] == ms[..i] + [ms[i]];
    FilterConcat(IsSystem, ms[..i], [ms[i]]);
    FilterConcat(IsOther, ms[..i], [ms[i]]);
    assert [ms[i]][1..] == [];
  }

  method CompressSlidingWindow(ms: seq<Message>, target: nat) returns (r: seq<Message>)
    ensures r == Slid(ms, target)
  {
    var systems, others := Systems(ms), Others(ms);
    var systemTokens := CountTokens(systems);
    var recent := RecentFitting(others, SaturatingSub(target, systemTokens));
    var first := 0;
    while first < |recent| && recent[first].role == Tool
      invariant 0 <= first <= |recent| && SnapEnd(recent, first) == SnapEnd(recent, 0)
    {
      first := first + 1;
    }
    r := systems + recent[first..];
  }

  method CountTokens(ms: seq<Message>) returns (total: nat)
    ensures total == TotalTokens(ms)
  {
    total := 0;
    var i := 0;
    while i < |ms|
      invariant 0 <= i <= |ms| && total == TotalTokens(ms[..i])
    {
      assert ms[..i + 1] == ms[..i] + [ms[i]];
      TotalTokensConcat(ms[..i], [ms[i]]);
      total := total + |ms[i].content| / 4;
      i := i + 1;
    }
    assert ms[..i] == ms;
  }

  lemma WindowStep(ms: seq<Message>, room: nat, k: nat)
    requires 0 < k <= |ms|
    ensures Estimate(ms[k - 1..]) == Cost(ms[k - 1]) + Estimate(ms[k..])
    ensures WindowStart(ms, room, k)
            == if Cost(ms[k - 1]) + Estimate(ms[k..]) <= room then WindowStart(ms, room, k - 1) else k
  {
    assert ms[k - 1..][1..] == ms[k..];
  }

  /** Walk back from the newest message until one does not fit. */
  method RecentFitting(ms: seq<Message>, room: nat) returns (recent: seq<Message>)
    ensures recent == ms[WindowStart(ms, room, |ms|)..]
  {
    var k, total := |ms|, 0;
    assert ms[k..] == [];
    while k > 0 && total + |ms[k - 1].content| / 4 + 4 <= room
      invariant 0 <= k <= |ms| && total == Estimate(ms[k..])
      invariant WindowStart(ms, room, k) == WindowStart(ms, room, |ms|)
    {
      WindowStep(ms, room, k);
      total := total + (|ms[k - 1].content| / 4 + 4);
      k := k - 1;
    }
    if k > 0 {
      WindowStep(ms, room, k);
    }
    recent := ms[k..];
  }

  /** `reply` is what the provider answered, if it did; an empty answer counts as none. */
  method CompactWithLlm(ms: seq<Message>, reply: Option<string>, keepHead: nat, keepTail: nat)
    returns (r: seq<Message>)
    ensures var (a, b) := MiddleSection(ms, keepHead, keepTail);
            r == if reply.Some? && reply.value != [] && a < b
                 then ReplaceMiddle(ms, keepHead, keepTail, CompactionSummary(b - a, reply.value)) else ms
    ensures reply.None? || reply.value == [] || keepHead + keepTail >= |ms| ==> r == ms
    ensures reply.Some? && reply.value != [] && keepHead + keepTail < |ms| ==>
              exists a: nat, b: nat :: CutAt(ms, keepHead, keepTail, a, b) && a <= b &&
                Summarizes(ms, a, b, "[Summary of " + Decimal(b - a) + " earlier messages]\n" + reply.value, r)
    ensures Paired(ms) ==> Paired(r)
  {
    var tail := SaturatingSub(|ms|, keepTail);
    if keepHead >= tail {
      return ms;
    }
    var start, end := SnapBoundaries(ms, keepHead, tail);
    assert CutAt(ms, keepHead, keepTail, start, end);
    if start >= end || reply.None? || reply.value == [] {
      return ms;
    }
    var summary := CompactionSummary(end - start, reply.value);
    ReplaceBetween(ms, keepHead, keepTail, summary);
    if Paired(ms) {
      ReplaceMiddleIsPaired(ms, keepHead, keepTail, summary);
    }
    r := ms[..start] + [summary] + ms[end..];
  }

  function CompactionSummary(replaced: nat, text: string): Message {
    Message(System, "[Summary of " + Decimal(replaced) + " earlier messages]\n" + text,
            Some("compaction_summary"), None, None)
  }
}

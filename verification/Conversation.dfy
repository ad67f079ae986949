/**
 Message lists as providers see them, and the rule that every tool result must answer a call still in the list.
 */
module Conversation {
  import opened Common

  datatype Role = System | User | Assistant | Tool

  /** `content` is taken as bytes; of a tool call only the id matters here. */
  datatype Message = Message(
    role: Role,
    content: string,
    name: Option<string>,
    toolCalls: Option<seq<string>>,
    toolCallId: Option<string>)

  predicate IsTool(m: Message) {
    m.role == Tool
  }

  predicate IsUser(m: Message) {
    m.role == User
  }

  predicate IsSystem(m: Message) {
    m.role == System
  }

  /** Rough token count: four bytes to a token. */
  function Tokens(m: Message): (n: nat)
    ensures 4 * n <= |m.content| < 4 * n + 4
  {
    |m.content| / 4
  }

  function TotalTokens(ms: seq<Message>): nat {
    if ms == [] then 0 else Tokens(ms[0]) + TotalTokens(ms[1..])
  }

  lemma {:induction false} TotalTokensConcat(a: seq<Message>, b: seq<Message>)
    ensures TotalTokens(a + b) == TotalTokens(a) + TotalTokens(b)
  {
    if a == [] {
      assert a + b == b;
    } else {
      assert (a + b)[1..] == a[1..] + b;
      TotalTokensConcat(a[1..], b);
    }
  }

  lemma {:induction false} TotalTokensRemoveAt(ms: seq<Message>, i: nat)
    requires i < |ms|
    ensures TotalTokens(RemoveAt(ms, i)) == TotalTokens(ms) - Tokens(ms[i])
  {
    var r := RemoveAt(ms, i);
    if i == 0 {
      assert r == ms[1..];
    } else {
      assert r[0] == ms[0] && r[1..] == RemoveAt(ms[1..], i - 1);
      TotalTokensRemoveAt(ms[1..], i - 1);
    }
  }

  // ---------------------------------------------------------------- calls and results

  /** The calls a tool result may answer when it follows `m`. */
  function CallIds(m: Message): set<string> {
    if m.role == Assistant && m.toolCalls.Some? then set id | id in m.toolCalls.value else {}
  }

  /** Reading on with calls `open` waiting, every tool result answers one of the calls last made. */
  predicate PairedFrom(open: set<string>, ms: seq<Message>)
    decreases |ms|
  {
    ms == [] ||
    if IsTool(ms[0]) then ms[0].toolCallId.Some? && ms[0].toolCallId.value in open && PairedFrom(open, ms[1..])
    else PairedFrom(CallIds(ms[0]), ms[1..])
  }

  predicate Paired(ms: seq<Message>) {
    PairedFrom({}, ms)
  }

  function OpenAfter(open: set<string>, ms: seq<Message>): set<string>
    decreases |ms|
  {
    if ms == [] then open
    else OpenAfter(if IsTool(ms[0]) then open else CallIds(ms[0]), ms[1..])
  }

  lemma {:induction false} PairedConcat(open: set<string>, a: seq<Message>, b: seq<Message>)
    ensures PairedFrom(open, a + b) <==> PairedFrom(open, a) && PairedFrom(OpenAfter(open, a), b)
    decreases |a|
  {
    if a == [] {
      assert a + b == b;
    } else {
      assert (a + b)[0] == a[0] && (a + b)[1..] == a[1..] + b;
      PairedConcat(if IsTool(a[0]) then open else CallIds(a[0]), a[1..], b);
    }
  }

  /** A list that does not start on a tool result is paired, or not, whatever came before. */
  lemma PairedAnyStart(open: set<string>, other: set<string>, ms: seq<Message>)
    requires ms == [] || !IsTool(ms[0])
    requires PairedFrom(open, ms)
    ensures PairedFrom(other, ms)
  {
  }

  /** Message `i` is one of the tool results standing in an unbroken run behind message `j`. */
  ghost predicate Owns(ms: seq<Message>, j: nat, i: nat) {
    && j < i < |ms|
    && !IsTool(ms[j])
    && (forall k :: j < k <= i ==> IsTool(ms[k]))
  }

  ghost predicate Answers(ms: seq<Message>, j: nat, i: nat) {
    Owns(ms, j, i) && ms[i].toolCallId.Some? && ms[i].toolCallId.value in CallIds(ms[j])
  }

  lemma {:induction false} PairedFromMeans(open: set<string>, ms: seq<Message>, i: nat) returns (j: int)
    requires PairedFrom(open, ms) && i < |ms| && IsTool(ms[i])
    ensures -1 <= j < i && forall k :: j < k <= i ==> IsTool(ms[k])
    ensures ms[i].toolCallId.Some?
    ensures j == -1 ==> ms[i].toolCallId.value in open
    ensures j >= 0 ==> Answers(ms, j, i)
    decreases |ms|
  {
    if i == 0 {
      j := -1;
    } else {
      var next := if IsTool(ms[0]) then open else CallIds(ms[0]);
      var j' := PairedFromMeans(next, ms[1..], i - 1);
      assert forall k :: 0 < k <= i ==> ms[k] == ms[1..][k - 1];
      if j' == -1 && IsTool(ms[0]) {
        j := -1;
      } else {
        j := j' + 1;
      }
    }
  }

  /** In a paired list every tool result stands in the run behind the very message that made its call. */
  lemma PairedMeans(ms: seq<Message>, i: nat) returns (j: nat)
    requires Paired(ms) && i < |ms| && IsTool(ms[i])
    ensures Answers(ms, j, i)
  {
    var k := PairedFromMeans({}, ms, i);
    j := k;
  }

  /** The converse: if every tool result answers the message its run stands behind, the list is paired. */
  lemma {:induction false} AnsweredIsPaired(open: set<string>, ms: seq<Message>)
    requires forall i :: 0 <= i < |ms| && IsTool(ms[i]) ==>
               (exists j: nat :: Answers(ms, j, i))
               || (ms[i].toolCallId.Some? && ms[i].toolCallId.value in open && forall k :: 0 <= k <= i ==> IsTool(ms[k]))
    ensures PairedFrom(open, ms)
    decreases |ms|
  {
    if ms != [] {
      var rest := ms[1..];
      var next := if IsTool(ms[0]) then open else CallIds(ms[0]);
      assert forall k :: 0 <= k < |rest| ==> rest[k] == ms[k + 1];
      forall i | 0 <= i < |rest| && IsTool(rest[i])
        ensures (exists j: nat :: Answers(rest, j, i))
             || (rest[i].toolCallId.Some? && rest[i].toolCallId.value in next && forall k :: 0 <= k <= i ==> IsTool(rest[k]))
      {
        var x := i + 1;
        assert IsTool(ms[x]);
        if j: nat :| Answers(ms, j, x) {
          if j > 0 {
            assert Answers(rest, j - 1, i);
          }
        }
      }
      AnsweredIsPaired(next, rest);
    }
  }

  // ---------------------------------------------------------------- keeping some of the messages

  /** The chosen among the first `k` messages, in order. */
  function Pick(ms: seq<Message>, chosen: set<nat>, k: nat): seq<Message>
    requires k <= |ms|
  {
    if k == 0 then [] else Pick(ms, chosen, k - 1) + if k - 1 in chosen then [ms[k - 1]] else []
  }

  /** The calls of the last chosen message before position `k` that is not a tool result. */
  function OpenAt(ms: seq<Message>, chosen: set<nat>, k: nat): set<string>
    requires k <= |ms|
  {
    if k == 0 then {}
    else if k - 1 in chosen && !IsTool(ms[k - 1]) then CallIds(ms[k - 1])
    else OpenAt(ms, chosen, k - 1)
  }

  ghost predicate Served(ms: seq<Message>, chosen: set<nat>, t: nat)
    requires t < |ms|
  {
    IsTool(ms[t]) ==> ms[t].toolCallId.Some? && ms[t].toolCallId.value in OpenAt(ms, chosen, t)
  }

  lemma {:induction false} OpenAfterSnoc(open: set<string>, ms: seq<Message>, m: Message)
    ensures OpenAfter(open, ms + [m]) == if IsTool(m) then OpenAfter(open, ms) else CallIds(m)
    decreases |ms|
  {
    if ms == [] {
      assert (ms + [m])[0] == m && (ms + [m])[1..] == [];
    } else {
      assert (ms + [m])[0] == ms[0] && (ms + [m])[1..] == ms[1..] + [m];
      OpenAfterSnoc(if IsTool(ms[0]) then open else CallIds(ms[0]), ms[1..], m);
    }
  }

  /** A choice is paired exactly when every chosen result answers the last chosen message before it. */
  lemma {:induction false} PickPairedIff(ms: seq<Message>, chosen: set<nat>, k: nat)
    requires k <= |ms|
    ensures OpenAfter({}, Pick(ms, chosen, k)) == OpenAt(ms, chosen, k)
    ensures Paired(Pick(ms, chosen, k)) <==> forall t :: 0 <= t < k && t in chosen ==> Served(ms, chosen, t)
  {
    if k > 0 {
      PickPairedIff(ms, chosen, k - 1);
      var p, m := Pick(ms, chosen, k - 1), ms[k - 1];
      if k - 1 in chosen {
        OpenAfterSnoc({}, p, m);
        PairedConcat({}, p, [m]);
        assert [m][1..] == [];
        assert PairedFrom(OpenAfter({}, p), [m]) <==> Served(ms, chosen, k - 1);
      } else {
        assert p + [] == p;
      }
    }
  }

  lemma {:induction false} OpenAtInRun(ms: seq<Message>, chosen: set<nat>, j: nat, t: nat)
    requires Owns(ms, j, t)
    ensures OpenAt(ms, chosen, t) == if j in chosen then CallIds(ms[j]) else OpenAt(ms, chosen, j)
    decreases t
  {
    if t > j + 1 {
      assert Owns(ms, j, t - 1);
      OpenAtInRun(ms, chosen, j, t - 1);
    }
  }

  /** Result `t` stays without its own call at `j`, but answers the call it then stands behind. */
  ghost predicate Adopted(ms: seq<Message>, chosen: set<nat>, j: nat, t: nat)
    requires j < |ms| && t < |ms|
  {
    ms[t].toolCallId.Some? && ms[t].toolCallId.value in OpenAt(ms, chosen, j)
  }

  /**
   When a choice from a paired history is paired: exactly when every result that stays without its own call has the
   id of a call of the message it then stands behind.
   */
  lemma PickStaysPairedIff(ms: seq<Message>, chosen: set<nat>)
    requires Paired(ms)
    ensures Paired(Pick(ms, chosen, |ms|)) <==>
              forall j: nat, t: nat :: Owns(ms, j, t) && t in chosen && j !in chosen ==> Adopted(ms, chosen, j, t)
  {
    PickPairedIff(ms, chosen, |ms|);
    if Paired(Pick(ms, chosen, |ms|)) {
      forall j: nat, t: nat | Owns(ms, j, t) && t in chosen && j !in chosen ensures Adopted(ms, chosen, j, t) {
        assert Served(ms, chosen, t);
        OpenAtInRun(ms, chosen, j, t);
      }
    } else {
      var t :| 0 <= t < |ms| && t in chosen && !Served(ms, chosen, t);
      var j := PairedMeans(ms, t);
      OpenAtInRun(ms, chosen, j, t);
      assert Owns(ms, j, t) && j !in chosen && !Adopted(ms, chosen, j, t);
    }
  }

  lemma {:induction false} OpenAtOrigin(ms: seq<Message>, chosen: set<nat>, k: nat, id: string) returns (m: nat)
    requires k <= |ms| && id in OpenAt(ms, chosen, k)
    ensures m < k && id in CallIds(ms[m])
  {
    if k - 1 in chosen && !IsTool(ms[k - 1]) {
      m := k - 1;
    } else {
      m := OpenAtOrigin(ms, chosen, k - 1, id);
    }
  }

  /** No call id is used by two messages. */
  ghost predicate DistinctCalls(ms: seq<Message>) {
    forall i, j :: 0 <= i < j < |ms| ==> CallIds(ms[i]) !! CallIds(ms[j])
  }

  /** Where call ids are not reused no result is ever adopted. */
  lemma DistinctCallsAdoptNone(ms: seq<Message>, chosen: set<nat>, j: nat, t: nat)
    requires Paired(ms) && DistinctCalls(ms) && Owns(ms, j, t)
    ensures !Adopted(ms, chosen, j, t)
  {
    var c := PairedMeans(ms, t);
    assert c == j;
    if Adopted(ms, chosen, j, t) {
      var m := OpenAtOrigin(ms, chosen, j, ms[t].toolCallId.value);
    }
  }

  // ---------------------------------------------------------------- replacing a middle section

  /** First boundary: forward past tool results, but no further than `b`. */
  function SnapStart(ms: seq<Message>, a: nat, b: nat): (r: nat)
    requires a <= b <= |ms|
    ensures a <= r <= b
    ensures forall k :: a <= k < r ==> IsTool(ms[k])
    ensures r < b ==> !IsTool(ms[r])
    decreases b - a
  {
    if a < b && IsTool(ms[a]) then SnapStart(ms, a + 1, b) else a
  }

  /** Second boundary: forward past tool results, to the end if need be. */
  function SnapEnd(ms: seq<Message>, b: nat): (r: nat)
    requires b <= |ms|
    ensures b <= r <= |ms|
    ensures forall k :: b <= k < r ==> IsTool(ms[k])
    ensures r < |ms| ==> !IsTool(ms[r])
    decreases |ms| - b
  {
    if b < |ms| && IsTool(ms[b]) then SnapEnd(ms, b + 1) else b
  }

  /** Move both ends of the section `[head, tail)` forward past tool results. */
  method SnapBoundaries(ms: seq<Message>, head: nat, tail: nat) returns (start: nat, end: nat)
    requires head <= tail <= |ms|
    ensures start == SnapStart(ms, head, tail) && end == SnapEnd(ms, tail)
  {
    start, end := head, tail;
    while start < tail && ms[start].role == Tool
      invariant head <= start <= tail
      invariant SnapStart(ms, start, tail) == SnapStart(ms, head, tail)
    {
      start := start + 1;
    }
    while end < |ms| && ms[end].role == Tool
      invariant tail <= end <= |ms|
      invariant SnapEnd(ms, end) == SnapEnd(ms, tail)
    {
      end := end + 1;
    }
  }

  /** The section `[a, b)` to replace when keeping `head` and `tail` messages; empty when there is none. */
  function MiddleSection(ms: seq<Message>, head: nat, tail: nat): (nat, nat) {
    var end := SaturatingSub(|ms|, tail);
    if head >= end then (0, 0)
    else
      var a, b := SnapStart(ms, head, end), SnapEnd(ms, end);
      if a >= b then (0, 0) else (a, b)
  }

  function ReplaceMiddle(ms: seq<Message>, head: nat, tail: nat, summary: Message): seq<Message> {
    var (a, b) := MiddleSection(ms, head, tail);
    if a < b <= |ms| then ms[..a] + [summary] + ms[b..] else ms
  }

  lemma ReplaceBetween(ms: seq<Message>, head: nat, tail: nat, summary: Message)
    requires head < SaturatingSub(|ms|, tail)
    ensures var end := SaturatingSub(|ms|, tail);
            var a, b := SnapStart(ms, head, end), SnapEnd(ms, end);
            && MiddleSection(ms, head, tail) == (if a < b then (a, b) else (0, 0))
            && ReplaceMiddle(ms, head, tail, summary) == if a < b then ms[..a] + [summary] + ms[b..] else ms
  {
  }

  /** The two ends of the section between `head` and `tail` kept messages, each moved forward past tool results. */
  ghost predicate CutAt(ms: seq<Message>, head: nat, tail: nat, a: nat, b: nat) {
    var end := |ms| - tail;
    && head <= a <= end <= b <= |ms|
    && (forall k :: head <= k < a ==> ms[k].role == Tool) && (a < end ==> ms[a].role != Tool)
    && (forall k :: end <= k < b ==> ms[k].role == Tool) && (b < |ms| ==> ms[b].role != Tool)
  }

  /** `r` is `ms` with the section `[a, b)`, if it holds anything, replaced by one system message of that content. */
  ghost predicate Summarizes(ms: seq<Message>, a: nat, b: nat, content: string, r: seq<Message>) {
    if a < b <= |ms|
    then r == ms[..a] + [Message(System, content, Some("compaction_summary"), None, None)] + ms[b..]
    else r == ms
  }

  lemma MiddleSectionInRange(ms: seq<Message>, head: nat, tail: nat)
    ensures var (a, b) := MiddleSection(ms, head, tail);
            && a <= b <= |ms|
            && (a < b ==> head <= a && |ms| - tail <= b && (b < |ms| ==> !IsTool(ms[b])))
  {
  }

  /** Replacing the middle of a paired history leaves a paired history. */
  lemma ReplaceMiddleIsPaired(ms: seq<Message>, head: nat, tail: nat, summary: Message)
    requires Paired(ms) && summary.role == System
    ensures Paired(ReplaceMiddle(ms, head, tail, summary))
  {
    var (a, b) := MiddleSection(ms, head, tail);
    MiddleSectionInRange(ms, head, tail);
    if a < b {
      assert ms == ms[..a] + ms[a..b] + ms[b..];
      PairedConcat({}, ms[..a] + ms[a..b], ms[b..]);
      PairedConcat({}, ms[..a], ms[a..b]);
      PairedAnyStart(OpenAfter({}, ms[..a] + ms[a..b]), OpenAfter({}, ms[..a] + [summary]), ms[b..]);
      PairedConcat({}, ms[..a], [summary]);
      PairedConcat({}, ms[..a] + [summary], ms[b..]);
    }
  }

  /** No message outside `[a, b)` loses a tool result of its own run that stood inside. */
  ghost predicate KeepsRuns(ms: seq<Message>, a: nat, b: nat) {
    forall j: nat, i: nat :: Owns(ms, j, i) && !(a <= j < b) ==> !(a <= i < b)
  }

  /**
   When a kept call keeps its whole run of results: exactly when the section between the two keeps holds some
   message that is not a tool result, or the kept tail does not begin on one.
   */
  lemma KeepsRunsIff(ms: seq<Message>, head: nat, tail: nat)
    requires Paired(ms) && head < SaturatingSub(|ms|, tail)
    ensures var end := SaturatingSub(|ms|, tail);
            var (a, b) := MiddleSection(ms, head, tail);
            KeepsRuns(ms, a, b) <==>
              (exists k :: head <= k < end && !IsTool(ms[k])) || end == |ms| || !IsTool(ms[end])
  {
    var end := SaturatingSub(|ms|, tail);
    var (a, b) := MiddleSection(ms, head, tail);
    var start := SnapStart(ms, head, end);
    if exists k :: head <= k < end && !IsTool(ms[k]) {
      assert start < end && !IsTool(ms[start]);
      forall j: nat, i: nat | Owns(ms, j, i) && !(a <= j < b) ensures !(a <= i < b) {
        if j < a {
          assert i < a;
        }
      }
    } else {
      assert start == end;
      if end < |ms| && IsTool(ms[end]) {
        assert a == end < b;
        var j := PairedMeans(ms, end);
        assert Owns(ms, j, end) && j < a;
      }
    }
  }
}

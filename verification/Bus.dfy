/**
 The cross-session message bus.

 `BusState` is the bus: bounded message lists, subscriptions and read offsets that pruning shifts.  `Log` is
 what the bus is meant to be: every message ever published, and a cursor per reader.  While the clock does not
 run backwards the two give every reader the same answers; under any clock the bus never skips a message it
 still holds.
 */
module Bus {
  import opened Common

  type Topic = string
  type Subscriber = string

  datatype BusMessage = BusMessage(id: string, topic: Topic, senderId: Subscriber, payload: string, sentAt: int)

  const MAX_MESSAGES: nat := 1000
  /** One hour in nanoseconds. */
  const TTL: int := 3_600_000_000_000

  datatype BusState = BusState(
    messages: map<Topic, seq<BusMessage>>,
    subscriptions: map<Topic, set<Subscriber>>,
    offsets: map<(Subscriber, Topic), nat>)

  const EMPTY_BUS := BusState(map[], map[], map[])

  function Messages(b: BusState, t: Topic): seq<BusMessage> {
    if t in b.messages then b.messages[t] else []
  }

  predicate Subscribed(b: BusState, s: Subscriber, t: Topic) {
    t in b.subscriptions && s in b.subscriptions[t]
  }

  // ---------------------------------------------------------------- operations

  predicate Fresh(m: BusMessage, now: int) {
    now - m.sentAt <= TTL
  }

  function FreshAt(now: int): BusMessage -> bool {
    (m: BusMessage) => Fresh(m, now)
  }

  function Newest(ms: seq<BusMessage>): seq<BusMessage> {
    if |ms| > MAX_MESSAGES then ms[|ms| - MAX_MESSAGES..] else ms
  }

  function Retained(ms: seq<BusMessage>, now: int): seq<BusMessage> {
    Newest(Filter(FreshAt(now), ms))
  }

  function Shift(offsets: map<(Subscriber, Topic), nat>, t: Topic, removed: nat): map<(Subscriber, Topic), nat> {
    map k | k in offsets :: if k.1 == t then SaturatingSub(offsets[k], removed) else offsets[k]
  }

  function PruneOp(b: BusState, t: Topic, now: int): BusState {
    if t !in b.messages then b
    else
      var kept := Retained(b.messages[t], now);
      RetainedIsShorter(b.messages[t], now);
      BusState(if kept == [] then b.messages - {t} else b.messages[t := kept],
               b.subscriptions,
               Shift(b.offsets, t, |b.messages[t]| - |kept|))
  }

  function SubscribeOp(b: BusState, s: Subscriber, t: Topic, now: int): BusState {
    var others := if t in b.subscriptions then b.subscriptions[t] else {};
    var p := PruneOp(b.(subscriptions := b.subscriptions[t := others + {s}]), t, now);
    if (s, t) in p.offsets then p else p.(offsets := p.offsets[(s, t) := |Messages(p, t)|])
  }

  function UnsubscribeOp(b: BusState, s: Subscriber, t: Topic): BusState {
    var subs :=
      if t !in b.subscriptions then b.subscriptions
      else if b.subscriptions[t] - {s} == {} then b.subscriptions - {t}
      else b.subscriptions[t := b.subscriptions[t] - {s}];
    BusState(b.messages, subs, b.offsets - {(s, t)})
  }

  function Appended(b: BusState, m: BusMessage): BusState {
    b.(messages := b.messages[m.topic := Messages(b, m.topic) + [m]])
  }

  function PublishOp(b: BusState, m: BusMessage, now: int): BusState {
    PruneOp(Appended(b, m), m.topic, now)
  }

  function PollOp(b: BusState, s: Subscriber, t: Topic, now: int): (BusState, seq<BusMessage>)
    requires Valid(b)
  {
    if !Subscribed(b, s, t) then (b, [])
    else
      var p := PruneOp(b, t, now);
      PruneKeepsValid(b, t, now);
      if t !in p.messages then (p, [])
      else
        var offset := if (s, t) in p.offsets then p.offsets[(s, t)] else 0;
        (p.(offsets := p.offsets[(s, t) := |p.messages[t]|]), p.messages[t][offset..])
  }

  // ---------------------------------------------------------------- what holds under any clock

  /** Offsets stay within their topic, exactly the subscribers have one, and no topic outgrows its cap. */
  ghost predicate Valid(b: BusState) {
    && (forall t :: t in b.messages ==> 0 < |b.messages[t]| <= MAX_MESSAGES)
    && Consistent(b)
  }

  ghost predicate Consistent(b: BusState) {
    && (forall k :: k in b.offsets ==> b.offsets[k] <= |Messages(b, k.1)|)
    && (forall k :: k in b.offsets <==> Subscribed(b, k.0, k.1))
    && (forall t :: t in b.subscriptions ==> b.subscriptions[t] != {})
  }

  lemma RetainedIsShorter(ms: seq<BusMessage>, now: int)
    ensures |Retained(ms, now)| <= |ms|
  {
    FilterMembers(FreshAt(now), ms);
  }

  /** What pruning keeps: messages at most an hour old, at most the newest thousand of them, and all if they are fewer. */
  lemma RetainedMeans(ms: seq<BusMessage>, now: int)
    ensures |Retained(ms, now)| <= 1000
    ensures forall m :: m in Retained(ms, now) ==> m in ms && now - m.sentAt <= 3_600_000_000_000
    ensures |ms| <= 1000 ==> forall m :: m in ms && now - m.sentAt <= 3_600_000_000_000 ==> m in Retained(ms, now)
    ensures forall m :: m in ms && now - m.sentAt <= 3_600_000_000_000 && m !in Retained(ms, now) ==>
              |Retained(ms, now)| == 1000
  {
    FilterMembers(FreshAt(now), ms);
    var f := Filter(FreshAt(now), ms);
    forall m | m in Retained(ms, now) ensures m in f {
    }
  }

  lemma PruneKeepsValid(b: BusState, t: Topic, now: int)
    requires Consistent(b)
    requires forall u :: u in b.messages && u != t ==> 0 < |b.messages[u]| <= MAX_MESSAGES
    ensures Valid(PruneOp(b, t, now))
    ensures PruneOp(b, t, now).offsets.Keys == b.offsets.Keys
  {
    var p := PruneOp(b, t, now);
    if t in b.messages {
      RetainedIsShorter(b.messages[t], now);
      forall k | k in p.offsets ensures p.offsets[k] <= |Messages(p, k.1)| {
        assert b.offsets[k] <= |Messages(b, k.1)|;
      }
      forall k ensures k in p.offsets <==> Subscribed(p, k.0, k.1) {
        assert k in b.offsets <==> Subscribed(b, k.0, k.1);
      }
    }
  }

  lemma ConsistentByKey(r: BusState)
    requires forall k :: k in r.offsets ==> r.offsets[k] <= |Messages(r, k.1)|
    requires forall s, t :: (s, t) in r.offsets <==> Subscribed(r, s, t)
    requires forall t :: t in r.subscriptions ==> r.subscriptions[t] != {}
    ensures Consistent(r)
  {
    forall k ensures k in r.offsets <==> Subscribed(r, k.0, k.1) {
      assert k == (k.0, k.1);
      assert (k.0, k.1) in r.offsets <==> Subscribed(r, k.0, k.1);
    }
  }

  lemma SubscriptionAdded(b: BusState, r: BusState, s: Subscriber, t: Topic)
    requires r.subscriptions == b.subscriptions[t := (if t in b.subscriptions then b.subscriptions[t] else {}) + {s}]
    ensures forall s', t' :: Subscribed(r, s', t') <==> Subscribed(b, s', t') || (s' == s && t' == t)
    ensures (forall u :: u in b.subscriptions ==> b.subscriptions[u] != {})
            ==> forall u :: u in r.subscriptions ==> r.subscriptions[u] != {}
  {
  }

  lemma SubscribeShape(b: BusState, s: Subscriber, t: Topic, now: int)
    ensures var d, r := PruneOp(b, t, now), SubscribeOp(b, s, t, now);
            && r.messages == d.messages
            && r.offsets == (if (s, t) in d.offsets then d.offsets else d.offsets[(s, t) := |Messages(d, t)|])
            && (forall s', t' :: Subscribed(r, s', t') <==> Subscribed(b, s', t') || (s' == s && t' == t))
            && ((forall u :: u in b.subscriptions ==> b.subscriptions[u] != {})
                ==> forall u :: u in r.subscriptions ==> r.subscriptions[u] != {})
  {
    SubscriptionAdded(b, SubscribeOp(b, s, t, now), s, t);
  }

  /** Adding a reader at the end of its topic keeps the bus valid. */
  lemma NewReaderIsValid(d: BusState, r: BusState, s: Subscriber, t: Topic)
    requires Valid(d) && r.messages == d.messages
    requires r.offsets == (if (s, t) in d.offsets then d.offsets else d.offsets[(s, t) := |Messages(d, t)|])
    requires forall s', t' :: Subscribed(r, s', t') <==> Subscribed(d, s', t') || (s' == s && t' == t)
    requires forall u :: u in r.subscriptions ==> r.subscriptions[u] != {}
    ensures Valid(r)
  {
    forall s', t' ensures (s', t') in r.offsets <==> Subscribed(r, s', t') {
      assert (s', t') in d.offsets <==> Subscribed(d, (s', t').0, (s', t').1);
    }
    forall k | k in r.offsets ensures r.offsets[k] <= |Messages(r, k.1)| {
      assert k in d.offsets ==> d.offsets[k] <= |Messages(d, k.1)|;
    }
    ConsistentByKey(r);
  }

  lemma SubscribeKeepsValid(b: BusState, s: Subscriber, t: Topic, now: int)
    requires Valid(b)
    ensures Valid(SubscribeOp(b, s, t, now))
  {
    PruneKeepsValid(b, t, now);
    SubscribeShape(b, s, t, now);
    NewReaderIsValid(PruneOp(b, t, now), SubscribeOp(b, s, t, now), s, t);
  }

  lemma UnsubscribeKeepsValid(b: BusState, s: Subscriber, t: Topic)
    requires Valid(b)
    ensures Valid(UnsubscribeOp(b, s, t))
  {
    var r := UnsubscribeOp(b, s, t);
    forall s', t' ensures (s', t') in r.offsets <==> Subscribed(r, s', t') {
      assert (s', t') in b.offsets <==> Subscribed(b, (s', t').0, (s', t').1);
      assert Subscribed(r, s', t') <==> Subscribed(b, s', t') && (s', t') != (s, t) by {
        if t in b.subscriptions && t' == t {
          assert s' in b.subscriptions[t] - {s} <==> s' in b.subscriptions[t] && s' != s;
        }
      }
    }
    forall k | k in r.offsets ensures r.offsets[k] <= |Messages(r, k.1)| {
      assert b.offsets[k] <= |Messages(b, k.1)|;
    }
    ConsistentByKey(r);
  }

  lemma AppendKeepsConsistent(b: BusState, m: BusMessage)
    requires Valid(b)
    ensures Consistent(Appended(b, m))
  {
    var c := Appended(b, m);
    forall k | k in c.offsets ensures c.offsets[k] <= |Messages(c, k.1)| {
      assert b.offsets[k] <= |Messages(b, k.1)|;
    }
    forall s, t ensures (s, t) in c.offsets <==> Subscribed(c, s, t) {
      assert (s, t) in b.offsets <==> Subscribed(b, (s, t).0, (s, t).1);
    }
    ConsistentByKey(c);
  }

  lemma PollKeepsValid(b: BusState, s: Subscriber, t: Topic, now: int)
    requires Valid(b)
    ensures Valid(PollOp(b, s, t, now).0)
  {
    var p, r := PruneOp(b, t, now), PollOp(b, s, t, now).0;
    PruneKeepsValid(b, t, now);
    if Subscribed(b, s, t) && t in p.messages {
      assert r.messages == p.messages && r.subscriptions == p.subscriptions == b.subscriptions;
      forall s', t' ensures (s', t') in r.offsets <==> Subscribed(r, s', t') {
        assert (s', t') in p.offsets <==> Subscribed(p, (s', t').0, (s', t').1);
      }
      forall k | k in r.offsets ensures r.offsets[k] <= |Messages(r, k.1)| {
        assert k in p.offsets ==> p.offsets[k] <= |Messages(p, k.1)|;
      }
      ConsistentByKey(r);
    }
  }

  /** Every operation, at any clock reading, keeps every offset in range: the slice in `poll` cannot panic. */
  lemma EveryStepKeepsValid(b: BusState, e: Event)
    requires Valid(b)
    ensures Valid(Apply(b, e).0)
  {
    match e
    case Subscribe(s, t, now) => SubscribeKeepsValid(b, s, t, now);
    case Unsubscribe(s, t) => UnsubscribeKeepsValid(b, s, t);
    case Publish(m, now) =>
      AppendKeepsConsistent(b, m);
      PruneKeepsValid(Appended(b, m), m.topic, now);
    case Poll(s, t, now) => PollKeepsValid(b, s, t, now);
  }

  /** A topic without messages has every offset at zero. */
  lemma EmptyTopicHasZeroOffsets(b: BusState, s: Subscriber, t: Topic)
    requires Valid(b) && t !in b.messages && (s, t) in b.offsets
    ensures b.offsets[(s, t)] == 0
  {
    assert b.offsets[(s, t)] <= |Messages(b, (s, t).1)|;
  }

  lemma NewestSplits(read: seq<BusMessage>, unread: seq<BusMessage>) returns (split: nat)
    ensures split == |Newest(read + unread)| - |Newest(unread)|
    ensures Newest(read + unread)[split..] == Newest(unread)
    ensures Newest(read + unread)[..split] == read[|read| - split..]
  {
    split := |Newest(read + unread)| - |Newest(unread)|;
  }

  /** However pruning thins a list, what it keeps of the part from `off` on comes last, and the offset is not past it. */
  lemma RetainedSplits(ms: seq<BusMessage>, off: nat, now: int) returns (split: nat)
    requires off <= |ms|
    ensures |Retained(ms, now)| <= |ms|
    ensures SaturatingSub(off, |ms| - |Retained(ms, now)|) <= split <= |Retained(ms, now)|
    ensures Retained(ms, now)[split..] == Retained(ms[off..], now)
    ensures forall m :: m in Retained(ms, now)[..split] ==> m in ms[..off]
  {
    var live := FreshAt(now);
    var read, unread := Filter(live, ms[..off]), Filter(live, ms[off..]);
    assert Filter(live, ms) == read + unread by {
      assert ms == ms[..off] + ms[off..];
      FilterConcat(live, ms[..off], ms[off..]);
    }
    FilterMembers(live, ms[..off]);
    FilterMembers(live, ms[off..]);
    split := NewestSplits(read, unread);
    forall m | m in read[|read| - split..] ensures m in ms[..off] {
      assert m in read;
    }
  }

  /**
   Under any clock a poll returns every message at or behind the reader's offset that survives pruning, in order and
   at the end; what may stand before them is messages from before the offset.
   */
  lemma PollNeverSkips(b: BusState, s: Subscriber, t: Topic, now: int) returns (seen: seq<BusMessage>)
    requires Valid(b) && Subscribed(b, s, t)
    ensures (s, t) in b.offsets && b.offsets[(s, t)] <= |Messages(b, t)|
    ensures PollOp(b, s, t, now).1 == seen + Retained(Messages(b, t)[b.offsets[(s, t)]..], now)
    ensures forall m :: m in seen ==> m in Messages(b, t)[..b.offsets[(s, t)]]
  {
    var k, ms := (s, t), Messages(b, t);
    assert Subscribed(b, k.0, k.1) && b.offsets[k] <= |Messages(b, k.1)|;
    var split := RetainedSplits(ms, b.offsets[k], now);
    PollSlices(b, s, t, now);
    assert Retained([], now) == [];
    var p, kept := PruneOp(b, t, now), Retained(ms, now);
    assert Messages(p, t) == kept && p.offsets[k] == SaturatingSub(b.offsets[k], |ms| - |kept|);
    seen := SeenBefore(kept, p.offsets[k], split, ms[..b.offsets[k]]);
  }

  lemma SeenBefore(kept: seq<BusMessage>, off: nat, split: nat, read: seq<BusMessage>) returns (seen: seq<BusMessage>)
    requires off <= split <= |kept| && forall m :: m in kept[..split] ==> m in read
    ensures kept[off..] == seen + kept[split..]
    ensures forall m :: m in seen ==> m in read
  {
    seen := kept[off..split];
    assert seen == kept[..split][off..];
  }

  // ---------------------------------------------------------------- runs

  datatype Event =
    | Subscribe(s: Subscriber, t: Topic, now: int)
    | Unsubscribe(s: Subscriber, t: Topic)
    | Publish(m: BusMessage, now: int)
    | Poll(s: Subscriber, t: Topic, now: int)

  function Apply(b: BusState, e: Event): (BusState, seq<BusMessage>)
    requires Valid(b)
  {
    match e
    case Subscribe(s, t, now) => (SubscribeOp(b, s, t, now), [])
    case Unsubscribe(s, t) => (UnsubscribeOp(b, s, t), [])
    case Publish(m, now) => (PublishOp(b, m, now), [])
    case Poll(s, t, now) => PollOp(b, s, t, now)
  }

  /** What each event of a run hands back. */
  function Outputs(b: BusState, es: seq<Event>): seq<seq<BusMessage>>
    requires Valid(b)
    decreases |es|
  {
    if es == [] then []
    else
      EveryStepKeepsValid(b, es[0]);
      [Apply(b, es[0]).1] + Outputs(Apply(b, es[0]).0, es[1..])
  }

  // ---------------------------------------------------------------- the unbounded log

  datatype Log = Log(entries: map<Topic, seq<BusMessage>>, cursors: map<(Subscriber, Topic), nat>)

  const EMPTY_LOG := Log(map[], map[])

  function Entries(l: Log, t: Topic): seq<BusMessage> {
    if t in l.entries then l.entries[t] else []
  }

  /** Readers may see entry `i` while it is at most an hour old and among the newest thousand. */
  predicate Visible(log: seq<BusMessage>, i: nat, now: int) {
    i < |log| && Fresh(log[i], now) && |log| - MAX_MESSAGES <= i
  }

  /** Positions from `c` on that are visible at `now`. */
  function VisibleFrom(log: seq<BusMessage>, c: nat, now: int): seq<nat>
    decreases |log| - c
  {
    if c >= |log| then []
    else if Visible(log, c, now) then [c] + VisibleFrom(log, c + 1, now)
    else VisibleFrom(log, c + 1, now)
  }

  function At(log: seq<BusMessage>, positions: seq<nat>): seq<BusMessage> {
    seq(|positions|, k requires 0 <= k < |positions| =>
      if positions[k] < |log| then log[positions[k]] else BusMessage("", "", "", "", 0))
  }

  /** The reference step: the new log, and the positions delivered. */
  function LogApply(l: Log, e: Event): (Log, seq<nat>) {
    match e
    case Subscribe(s, t, now) =>
      (if (s, t) in l.cursors then l else l.(cursors := l.cursors[(s, t) := |Entries(l, t)|]), [])
    case Unsubscribe(s, t) => (l.(cursors := l.cursors - {(s, t)}), [])
    case Publish(m, now) => (l.(entries := l.entries[m.topic := Entries(l, m.topic) + [m]]), [])
    case Poll(s, t, now) =>
      if (s, t) !in l.cursors then (l, [])
      else (l.(cursors := l.cursors[(s, t) := |Entries(l, t)|]),
            VisibleFrom(Entries(l, t), l.cursors[(s, t)], now))
  }

  function LogOutputs(l: Log, es: seq<Event>): seq<seq<BusMessage>>
    decreases |es|
  {
    if es == [] then []
    else
      var (l', positions) := LogApply(l, es[0]);
      [if es[0].Poll? then At(Entries(l, es[0].t), positions) else []] + LogOutputs(l', es[1..])
  }

  // ---------------------------------------------------------------- refinement

  /** Clock readings from `clock` on never decrease; a message is stamped before the prune that follows it. */
  ghost predicate Ordered(clock: int, es: seq<Event>)
    decreases |es|
  {
    es == [] ||
    match es[0]
    case Unsubscribe(_, _) => Ordered(clock, es[1..])
    case Publish(m, now) => clock <= m.sentAt <= now && Ordered(now, es[1..])
    case Subscribe(_, _, now) => clock <= now && Ordered(now, es[1..])
    case Poll(_, _, now) => clock <= now && Ordered(now, es[1..])
  }

  ghost predicate Sorted(log: seq<BusMessage>, clock: int) {
    && (forall i, j :: 0 <= i < j < |log| ==> log[i].sentAt <= log[j].sentAt)
    && (forall i :: 0 <= i < |log| ==> log[i].sentAt <= clock)
  }

  /** The bus holds a suffix of the log; what it no longer holds no reader may see from `clock` on. */
  ghost predicate Suffix(ms: seq<BusMessage>, log: seq<BusMessage>, clock: int) {
    && |ms| <= |log|
    && ms == log[|log| - |ms|..]
    && (forall i :: 0 <= i < |log| - |ms| ==> !Visible(log, i, clock))
  }

  ghost predicate TopicRefines(b: BusState, l: Log, t: Topic, clock: int) {
    Sorted(Entries(l, t), clock) && Suffix(Messages(b, t), Entries(l, t), clock)
  }

  /** The offset is where the cursor falls in the suffix, or its start when the cursor points before it. */
  ghost predicate Reads(b: BusState, l: Log, k: (Subscriber, Topic)) {
    && k in b.offsets && k in l.cursors
    && l.cursors[k] <= |Entries(l, k.1)| && |Messages(b, k.1)| <= |Entries(l, k.1)|
    && b.offsets[k] == SaturatingSub(l.cursors[k], |Entries(l, k.1)| - |Messages(b, k.1)|)
  }

  ghost predicate Refines(b: BusState, l: Log, clock: int) {
    && Valid(b)
    && (forall t :: TopicRefines(b, l, t, clock))
    && b.offsets.Keys == l.cursors.Keys
    && (forall k :: k in l.cursors ==> Reads(b, l, k))
  }

  lemma {:induction false} FilterSortedIsSuffix(ms: seq<BusMessage>, now: int)
    requires forall i, j :: 0 <= i < j < |ms| ==> ms[i].sentAt <= ms[j].sentAt
    ensures var f := Filter(FreshAt(now), ms);
            && |f| <= |ms| && f == ms[|ms| - |f|..]
            && (forall i :: 0 <= i < |ms| ==> (Fresh(ms[i], now) <==> |ms| - |f| <= i))
  {
    var live := FreshAt(now);
    if ms != [] {
      FilterSortedIsSuffix(ms[1..], now);
      var f, g := Filter(live, ms), Filter(live, ms[1..]);
      if Fresh(ms[0], now) {
        assert |ms| > 1 ==> Fresh(ms[1..][0], now);
        assert f == ms;
      } else {
        assert f == g;
        assert ms[1..][|ms[1..]| - |g|..] == ms[|ms| - |g|..];
      }
      forall i | 0 <= i < |ms| ensures Fresh(ms[i], now) <==> |ms| - |f| <= i {
        if i > 0 {
          assert ms[i] == ms[1..][i - 1];
        }
      }
    }
  }

  /** Pruning a suffix at a later time leaves a suffix, and exactly the visible part of it. */
  lemma PruneSuffix(ms: seq<BusMessage>, log: seq<BusMessage>, clock: int, now: int)
    requires clock <= now && Sorted(log, now) && Suffix(ms, log, clock)
    ensures Suffix(Retained(ms, now), log, now)
    ensures forall i :: |log| - |Retained(ms, now)| <= i < |log| ==> Visible(log, i, now)
    ensures |Retained(ms, now)| <= |ms|
  {
    var base := |log| - |ms|;
    var f := Filter(FreshAt(now), ms);
    FilterSortedIsSuffix(ms, now);
    assert forall i :: 0 <= i < |ms| ==> ms[i] == log[base + i];
    var kept := Retained(ms, now);
    forall i | 0 <= i < |log| - |kept| ensures !Visible(log, i, now) {
      if i >= base {
        assert ms[i - base] == log[i];
      } else {
        assert !Visible(log, i, clock);
      }
    }
    forall i | |log| - |kept| <= i < |log| ensures Visible(log, i, now) {
      assert ms[i - base] == log[i];
    }
  }

  lemma {:induction false} VisibleSuffix(log: seq<BusMessage>, base: nat, c: nat, now: int)
    requires c <= |log| && base <= |log|
    requires forall i :: 0 <= i < |log| ==> (Visible(log, i, now) <==> base <= i)
    ensures At(log, VisibleFrom(log, c, now)) == log[Max(c, base)..]
    decreases |log| - c
  {
    if c < |log| {
      VisibleSuffix(log, base, c + 1, now);
      var rest := VisibleFrom(log, c + 1, now);
      if base <= c {
        assert At(log, [c] + rest) == [log[c]] + At(log, rest);
      }
    }
  }

  lemma PruneTopicRefines(b: BusState, l: Log, t: Topic, u: Topic, clock: int, now: int)
    requires TopicRefines(b, l, u, clock) && clock <= now
    ensures TopicRefines(PruneOp(b, t, now), l, u, now)
    ensures u == t ==> forall i :: 0 <= i < |Entries(l, t)| ==>
              (Visible(Entries(l, t), i, now) <==> |Entries(l, t)| - |Messages(PruneOp(b, t, now), t)| <= i)
  {
    var p := PruneOp(b, t, now);
    PruneSuffix(Messages(b, u), Entries(l, u), clock, now);
    if u == t {
      assert Messages(p, t) == Retained(Messages(b, t), now);
    } else {
      assert Messages(p, u) == Messages(b, u);
      forall i | 0 <= i < |Entries(l, u)| - |Messages(b, u)| ensures !Visible(Entries(l, u), i, now) {
        assert !Visible(Entries(l, u), i, clock);
      }
    }
  }

  lemma PruneReads(b: BusState, l: Log, t: Topic, k: (Subscriber, Topic), now: int)
    requires Reads(b, l, k)
    ensures Reads(PruneOp(b, t, now), l, k)
  {
    var p := PruneOp(b, t, now);
    if t in b.messages {
      RetainedIsShorter(b.messages[t], now);
      assert k.1 != t ==> Messages(p, k.1) == Messages(b, k.1);
      assert k.1 == t ==> Messages(p, k.1) == Retained(b.messages[t], now);
    }
  }

  ghost function Clock(clock: int, e: Event): int {
    if e.Unsubscribe? then clock else e.now
  }

  lemma AppendTopicRefines(ms: seq<BusMessage>, log: seq<BusMessage>, m: BusMessage, clock: int)
    requires Sorted(log, clock) && Suffix(ms, log, clock) && clock <= m.sentAt
    ensures Sorted(log + [m], m.sentAt) && Suffix(ms + [m], log + [m], m.sentAt)
  {
    forall i | 0 <= i < |log| - |ms| ensures !Visible(log + [m], i, m.sentAt) {
      assert !Visible(log, i, clock);
    }
  }

  lemma AppendedTopicRefines(b: BusState, l: Log, clock: int, m: BusMessage, now: int, u: Topic)
    requires TopicRefines(b, l, u, clock) && clock <= m.sentAt
    ensures TopicRefines(Appended(b, m), LogApply(l, Publish(m, now)).0, u, m.sentAt)
  {
    if u == m.topic {
      AppendTopicRefines(Messages(b, u), Entries(l, u), m, clock);
    } else {
      LaterTopicRefines(b, l, u, clock, m.sentAt);
    }
  }

  lemma PublishTopicRefines(b: BusState, l: Log, clock: int, m: BusMessage, now: int, u: Topic)
    requires TopicRefines(b, l, u, clock) && clock <= m.sentAt <= now
    ensures TopicRefines(PublishOp(b, m, now), LogApply(l, Publish(m, now)).0, u, now)
  {
    AppendedTopicRefines(b, l, clock, m, now, u);
    PruneTopicRefines(Appended(b, m), LogApply(l, Publish(m, now)).0, m.topic, u, m.sentAt, now);
  }

  /** Both sides make the same progress, topic by topic. */
  lemma StepTopicRefines(b: BusState, l: Log, clock: int, e: Event, u: Topic)
    requires Valid(b) && TopicRefines(b, l, u, clock) && Ordered(clock, [e])
    ensures TopicRefines(Apply(b, e).0, LogApply(l, e).0, u, Clock(clock, e))
  {
    match e
    case Subscribe(s, t, now) =>
      PruneTopicRefines(b, l, t, u, clock, now);
      SubscribeShape(b, s, t, now);
      SameTopic(PruneOp(b, t, now), SubscribeOp(b, s, t, now), l, LogApply(l, e).0, u, now);
    case Unsubscribe(s, t) =>
      SameTopic(b, UnsubscribeOp(b, s, t), l, LogApply(l, e).0, u, clock);
    case Publish(m, now) =>
      PublishTopicRefines(b, l, clock, m, now, u);
    case Poll(s, t, now) =>
      LaterTopicRefines(b, l, u, clock, now);
      PruneTopicRefines(b, l, t, u, clock, now);
      var c := if Subscribed(b, s, t) then PruneOp(b, t, now) else b;
      SameTopic(c, PollOp(b, s, t, now).0, l, LogApply(l, e).0, u, now);
  }

  lemma SameTopic(b: BusState, b': BusState, l: Log, l': Log, u: Topic, clock: int)
    requires TopicRefines(b, l, u, clock) && b'.messages == b.messages && l'.entries == l.entries
    ensures TopicRefines(b', l', u, clock)
  {
  }

  lemma LaterTopicRefines(b: BusState, l: Log, u: Topic, clock: int, now: int)
    requires TopicRefines(b, l, u, clock) && clock <= now
    ensures TopicRefines(b, l, u, now)
  {
    forall i | 0 <= i < |Entries(l, u)| - |Messages(b, u)| ensures !Visible(Entries(l, u), i, now) {
      assert !Visible(Entries(l, u), i, clock);
    }
  }

  lemma KnownReaderStays(b: BusState, l: Log, e: Event, k: (Subscriber, Topic))
    requires e.Subscribe? && Reads(b, l, k)
    ensures Reads(SubscribeOp(b, e.s, e.t, e.now), LogApply(l, e).0, k)
  {
    PruneReads(b, l, e.t, k, e.now);
    SubscribeShape(b, e.s, e.t, e.now);
  }

  lemma NewReaderStartsAtEnd(b: BusState, l: Log, e: Event, k: (Subscriber, Topic))
    requires e.Subscribe? && k == (e.s, e.t) && k !in l.cursors && k !in b.offsets
    requires |Messages(b, e.t)| <= |Entries(l, e.t)|
    ensures Reads(SubscribeOp(b, e.s, e.t, e.now), LogApply(l, e).0, k)
  {
    SubscribeShape(b, e.s, e.t, e.now);
    if e.t in b.messages {
      RetainedIsShorter(b.messages[e.t], e.now);
    }
  }

  lemma PublishReads(b: BusState, l: Log, e: Event, k: (Subscriber, Topic))
    requires e.Publish? && Reads(b, l, k)
    ensures Reads(PublishOp(b, e.m, e.now), LogApply(l, e).0, k)
  {
    var c := Appended(b, e.m);
    assert Reads(c, LogApply(l, e).0, k);
    PruneReads(c, LogApply(l, e).0, e.m.topic, k, e.now);
  }

  lemma PollReads(b: BusState, l: Log, e: Event, k: (Subscriber, Topic))
    requires Valid(b) && e.Poll? && Reads(b, l, k) && b.offsets.Keys == l.cursors.Keys
    ensures Reads(PollOp(b, e.s, e.t, e.now).0, LogApply(l, e).0, k)
  {
    PruneReads(b, l, e.t, k, e.now);
    var q := (e.s, e.t);
    assert q in b.offsets <==> Subscribed(b, q.0, q.1);
    var p, r := PruneOp(b, e.t, e.now), PollOp(b, e.s, e.t, e.now).0;
    assert Subscribed(b, e.s, e.t) ==> r.messages == p.messages;
    assert Subscribed(b, e.s, e.t) && k != q ==> r.offsets[k] == p.offsets[k];
  }

  /** Both sides move every reader the same way. */
  lemma StepReads(b: BusState, l: Log, e: Event, k: (Subscriber, Topic))
    requires Valid(b) && (k in l.cursors ==> Reads(b, l, k)) && b.offsets.Keys == l.cursors.Keys
    requires |Messages(b, k.1)| <= |Entries(l, k.1)|
    requires k in LogApply(l, e).0.cursors
    ensures Reads(Apply(b, e).0, LogApply(l, e).0, k)
  {
    match e
    case Subscribe(s, t, now) =>
      if k in l.cursors {
        KnownReaderStays(b, l, e, k);
      } else {
        NewReaderStartsAtEnd(b, l, e, k);
      }
    case Unsubscribe(s, t) =>
      assert Apply(b, e).0.messages == b.messages && LogApply(l, e).0.entries == l.entries;
    case Publish(m, now) => PublishReads(b, l, e, k);
    case Poll(s, t, now) => PollReads(b, l, e, k);
  }

  lemma StepRefines(b: BusState, l: Log, clock: int, e: Event)
    requires Refines(b, l, clock) && Ordered(clock, [e])
    ensures Refines(Apply(b, e).0, LogApply(l, e).0, Clock(clock, e))
  {
    EveryStepKeepsValid(b, e);
    var b', l' := Apply(b, e).0, LogApply(l, e).0;
    forall u ensures TopicRefines(b', l', u, Clock(clock, e)) {
      StepTopicRefines(b, l, clock, e, u);
    }
    forall k | k in l'.cursors ensures Reads(b', l', k) {
      assert TopicRefines(b, l, k.1, clock);
      StepReads(b, l, e, k);
    }
    SameReaders(b, l, e);
  }

  lemma SameReaders(b: BusState, l: Log, e: Event)
    requires Valid(b) && b.offsets.Keys == l.cursors.Keys
    ensures Apply(b, e).0.offsets.Keys == LogApply(l, e).0.cursors.Keys
  {
    if e.Poll? {
      PruneKeepsValid(b, e.t, e.now);
      assert (e.s, e.t) in b.offsets <==> Subscribed(b, (e.s, e.t).0, (e.s, e.t).1);
    } else if e.Subscribe? {
      PruneKeepsValid(b, e.t, e.now);
    }
  }

  lemma PollSlices(b: BusState, s: Subscriber, t: Topic, now: int)
    requires Valid(b) && Subscribed(b, s, t)
    ensures var p := PruneOp(b, t, now);
            && (s, t) in p.offsets && p.offsets[(s, t)] <= |Messages(p, t)|
            && PollOp(b, s, t, now).1 == Messages(p, t)[p.offsets[(s, t)]..]
  {
    PruneKeepsValid(b, t, now);
    var k, p := (s, t), PruneOp(b, t, now);
    assert Subscribed(p, k.0, k.1) && p.offsets[k] <= |Messages(p, k.1)|;
  }

  lemma SliceOfSuffix(log: seq<BusMessage>, base: nat, c: nat)
    requires base <= |log| && c <= |log|
    ensures log[base..][SaturatingSub(c, base)..] == log[Max(c, base)..]
  {
  }

  /** Reading the visible suffix `ms` from where the cursor falls is reading the log's visible entries from it. */
  lemma SuffixFromCursor(ms: seq<BusMessage>, log: seq<BusMessage>, c: nat, now: int)
    requires |ms| <= |log| && ms == log[|log| - |ms|..] && c <= |log|
    requires forall i :: 0 <= i < |log| ==> (Visible(log, i, now) <==> |log| - |ms| <= i)
    ensures SaturatingSub(c, |log| - |ms|) <= |ms|
    ensures ms[SaturatingSub(c, |log| - |ms|)..] == At(log, VisibleFrom(log, c, now))
  {
    VisibleSuffix(log, |log| - |ms|, c, now);
    SliceOfSuffix(log, |log| - |ms|, c);
  }

  /** A poll hands over exactly the log's visible entries from the reader's cursor on. */
  lemma PollAgrees(b: BusState, l: Log, clock: int, s: Subscriber, t: Topic, now: int)
    requires Valid(b) && Subscribed(b, s, t) && clock <= now
    requires TopicRefines(b, l, t, clock) && Reads(b, l, (s, t))
    ensures PollOp(b, s, t, now).1 == At(Entries(l, t), VisibleFrom(Entries(l, t), l.cursors[(s, t)], now))
  {
    PruneTopicRefines(b, l, t, t, clock, now);
    PruneReads(b, l, t, (s, t), now);
    PollSlices(b, s, t, now);
    SuffixFromCursor(Messages(PruneOp(b, t, now), t), Entries(l, t), l.cursors[(s, t)], now);
  }

  lemma PollOutput(b: BusState, l: Log, clock: int, e: Event)
    requires Refines(b, l, clock) && e.Poll? && clock <= e.now
    ensures Apply(b, e).1 == At(Entries(l, e.t), LogApply(l, e).1)
  {
    var k := (e.s, e.t);
    assert k in b.offsets <==> Subscribed(b, k.0, k.1);
    if k in l.cursors {
      assert TopicRefines(b, l, e.t, clock) && Reads(b, l, k);
      PollAgrees(b, l, clock, e.s, e.t, e.now);
    }
  }

  lemma OrderedStep(clock: int, es: seq<Event>)
    requires Ordered(clock, es) && es != []
    ensures Ordered(clock, [es[0]]) && Ordered(Clock(clock, es[0]), es[1..])
  {
  }

  /** While the clock does not run backwards, the bus answers every poll exactly as the unbounded log does. */
  lemma {:induction false} BusRefinesLog(b: BusState, l: Log, clock: int, es: seq<Event>)
    requires Refines(b, l, clock) && Ordered(clock, es)
    ensures Outputs(b, es) == LogOutputs(l, es)
    decreases |es|
  {
    if es != [] {
      var e := es[0];
      EveryStepKeepsValid(b, e);
      OrderedStep(clock, es);
      StepRefines(b, l, clock, e);
      if e.Poll? {
        PollOutput(b, l, clock, e);
      }
      BusRefinesLog(Apply(b, e).0, LogApply(l, e).0, Clock(clock, e), es[1..]);
    }
  }

  lemma FreshBusRefinesLog(clock: int, es: seq<Event>)
    requires Ordered(clock, es)
    ensures Valid(EMPTY_BUS) && Outputs(EMPTY_BUS, es) == LogOutputs(EMPTY_LOG, es)
  {
    BusRefinesLog(EMPTY_BUS, EMPTY_LOG, clock, es);
  }

  // ---------------------------------------------------------------- what a reader gets

  /** Positions delivered to reader `s` of topic `t` over a run. */
  function Delivered(l: Log, es: seq<Event>, s: Subscriber, t: Topic): seq<nat>
    decreases |es|
  {
    if es == [] then []
    else
      var (l', positions) := LogApply(l, es[0]);
      (if es[0].Poll? && es[0].s == s && es[0].t == t then positions else []) + Delivered(l', es[1..], s, t)
  }

  function LogAfter(l: Log, es: seq<Event>): Log
    decreases |es|
  {
    if es == [] then l else LogAfter(LogApply(l, es[0]).0, es[1..])
  }

  ghost predicate Increasing(ps: seq<nat>, lo: nat, hi: nat) {
    && (forall i, j :: 0 <= i < j < |ps| ==> ps[i] < ps[j])
    && (forall i :: 0 <= i < |ps| ==> lo <= ps[i] < hi)
  }

  lemma {:induction false} VisibleFromExact(log: seq<BusMessage>, c: nat, now: int)
    requires c <= |log|
    ensures Increasing(VisibleFrom(log, c, now), c, |log|)
    ensures forall p: nat :: p in VisibleFrom(log, c, now) <==> c <= p && Visible(log, p, now)
    decreases |log| - c
  {
    if c < |log| {
      VisibleFromExact(log, c + 1, now);
    }
  }

  /** The first poll of the run to reach position `p` found it expired or pushed out by newer messages. */
  ghost predicate Missed(l: Log, es: seq<Event>, s: Subscriber, t: Topic, p: nat)
    decreases |es|
  {
    && es != []
    && (s, t) in l.cursors && l.cursors[(s, t)] <= p
    && if es[0].Poll? && es[0].s == s && es[0].t == t && p < |Entries(l, t)|
       then !Visible(Entries(l, t), p, es[0].now)
       else Missed(LogApply(l, es[0]).0, es[1..], s, t, p)
  }

  /** The log holds everything a run published, in order, and nothing else. */
  lemma {:induction false} LogHoldsAll(l: Log, es: seq<Event>, t: Topic)
    ensures Entries(LogAfter(l, es), t) == Entries(l, t) + Published(es, t)
    decreases |es|
  {
    if es != [] {
      var l' := LogApply(l, es[0]).0;
      LogHoldsAll(l', es[1..], t);
      if es[0].Publish? && es[0].m.topic == t {
        assert Entries(l', t) == Entries(l, t) + [es[0].m];
        assert Entries(l, t) + ([es[0].m] + Published(es[1..], t)) == (Entries(l, t) + [es[0].m]) + Published(es[1..], t);
      } else {
        assert Entries(l', t) == Entries(l, t);
      }
    }
  }

  /** Positions readers may see: at most an hour old, and among the newest thousand. */
  lemma VisibleMeans(log: seq<BusMessage>, i: nat, now: int)
    requires i < |log|
    ensures Visible(log, i, now) <==> now - log[i].sentAt <= 3_600_000_000_000 && |log| - i <= 1000
  {
  }

  /** What the log and the positions handed over must satisfy when reader `(s, t)` started at cursor `c`. */
  ghost predicate Accounted(c: nat, end: Log, delivered: seq<nat>, s: Subscriber, t: Topic) {
    && (s, t) in end.cursors && c <= end.cursors[(s, t)] <= |Entries(end, t)|
    && Increasing(delivered, c, end.cursors[(s, t)])
  }

  lemma IncreasingConcat(a: seq<nat>, b: seq<nat>, lo: nat, mid: nat, hi: nat)
    requires Increasing(a, lo, mid) && Increasing(b, mid, hi) && lo <= mid <= hi
    ensures Increasing(a + b, lo, hi)
  {
  }

  /** The two records of a run, from its first step on. */
  lemma FirstDelivery(l: Log, es: seq<Event>, s: Subscriber, t: Topic)
    requires es != [] && (s, t) in l.cursors && l.cursors[(s, t)] <= |Entries(l, t)| && es[0] != Unsubscribe(s, t)
    ensures var (l', positions) := LogApply(l, es[0]);
            && LogAfter(l, es) == LogAfter(l', es[1..]) && Entries(l, t) <= Entries(l', t) && (s, t) in l'.cursors
            && (if es[0].Poll? && es[0].s == s && es[0].t == t
                then && l'.cursors[(s, t)] == |Entries(l, t)| == |Entries(l', t)|
                     && positions == VisibleFrom(Entries(l, t), l.cursors[(s, t)], es[0].now)
                     && Delivered(l, es, s, t) == positions + Delivered(l', es[1..], s, t)
                else && l'.cursors[(s, t)] == l.cursors[(s, t)]
                     && Delivered(l, es, s, t) == Delivered(l', es[1..], s, t))
  {
  }

  lemma FirstMiss(l: Log, es: seq<Event>, s: Subscriber, t: Topic, p: nat)
    requires es != [] && (s, t) in l.cursors && l.cursors[(s, t)] <= p
    ensures Missed(l, es, s, t, p) <==>
              if es[0].Poll? && es[0].s == s && es[0].t == t && p < |Entries(l, t)|
              then !Visible(Entries(l, t), p, es[0].now)
              else Missed(LogApply(l, es[0]).0, es[1..], s, t, p)
  {
  }

  /**
   A subscription's deliveries are in order and without repetition, all published since it began, and a message
   behind the cursor is left out exactly when it had expired or been pushed out by the first poll to reach it.
   */
  lemma {:induction false} DeliveriesAreAccounted(l: Log, es: seq<Event>, s: Subscriber, t: Topic)
    requires (s, t) in l.cursors && l.cursors[(s, t)] <= |Entries(l, t)|
    requires forall i :: 0 <= i < |es| ==> es[i] != Unsubscribe(s, t)
    ensures var end := LogAfter(l, es);
            && Entries(l, t) <= Entries(end, t)
            && Accounted(l.cursors[(s, t)], end, Delivered(l, es, s, t), s, t)
            && (forall p: nat :: l.cursors[(s, t)] <= p < end.cursors[(s, t)] ==>
                  (p in Delivered(l, es, s, t) <==> !Missed(l, es, s, t, p)))
    decreases |es|
  {
    if es != [] {
      var e, c := es[0], l.cursors[(s, t)];
      assert e != Unsubscribe(s, t);
      FirstDelivery(l, es, s, t);
      var (l', positions) := LogApply(l, e);
      DeliveriesAreAccounted(l', es[1..], s, t);
      var end, rest := LogAfter(l, es), Delivered(l', es[1..], s, t);
      if e.Poll? && e.s == s && e.t == t {
        VisibleFromExact(Entries(l, t), c, e.now);
        IncreasingConcat(positions, rest, c, l'.cursors[(s, t)], end.cursors[(s, t)]);
      }
      forall p: nat | c <= p < end.cursors[(s, t)] ensures p in Delivered(l, es, s, t) <==> !Missed(l, es, s, t, p) {
        FirstMiss(l, es, s, t, p);
      }
    }
  }

  /** Everything the polls of reader `s` on topic `t` returned over a run, in order. */
  function Received(b: BusState, es: seq<Event>, s: Subscriber, t: Topic): seq<BusMessage>
    requires Valid(b)
    decreases |es|
  {
    if es == [] then []
    else
      EveryStepKeepsValid(b, es[0]);
      var (b', out) := Apply(b, es[0]);
      (if es[0].Poll? && es[0].s == s && es[0].t == t then out else []) + Received(b', es[1..], s, t)
  }

  lemma AtConcat(log: seq<BusMessage>, longer: seq<BusMessage>, a: seq<nat>, b: seq<nat>)
    requires log <= longer && forall i :: 0 <= i < |a| ==> a[i] < |log|
    ensures At(longer, a + b) == At(log, a) + At(longer, b)
  {
  }

  lemma PollIsDelivered(b: BusState, l: Log, clock: int, e: Event, longer: seq<BusMessage>, rest: seq<nat>)
    requires Refines(b, l, clock) && e.Poll? && clock <= e.now && Entries(l, e.t) <= longer
    ensures Apply(b, e).1 + At(longer, rest) == At(longer, LogApply(l, e).1 + rest)
  {
    var k, log := (e.s, e.t), Entries(l, e.t);
    PollOutput(b, l, clock, e);
    if k in l.cursors {
      assert Reads(b, l, k);
      VisibleFromExact(log, l.cursors[k], e.now);
    }
    AtConcat(log, longer, LogApply(l, e).1, rest);
  }

  /** The two readings of a run, from its first step on; the log only grows. */
  lemma FirstStep(b: BusState, l: Log, es: seq<Event>, s: Subscriber, t: Topic)
    requires Valid(b) && es != []
    ensures var (b', out) := Apply(b, es[0]);
            var (l', positions) := LogApply(l, es[0]);
            && Valid(b') && Entries(l, t) <= Entries(l', t) && LogAfter(l, es) == LogAfter(l', es[1..])
            && if es[0].Poll? && es[0].s == s && es[0].t == t
               then Received(b, es, s, t) == out + Received(b', es[1..], s, t)
                    && Delivered(l, es, s, t) == positions + Delivered(l', es[1..], s, t)
               else Received(b, es, s, t) == Received(b', es[1..], s, t)
                    && Delivered(l, es, s, t) == Delivered(l', es[1..], s, t)
  {
    EveryStepKeepsValid(b, es[0]);
  }

  /** What a reader of the bus received is the log at the positions delivered. */
  lemma {:induction false} ReceivedIsDelivered(b: BusState, l: Log, clock: int, es: seq<Event>, s: Subscriber, t: Topic)
    requires Refines(b, l, clock) && Ordered(clock, es)
    ensures Entries(l, t) <= Entries(LogAfter(l, es), t)
    ensures Received(b, es, s, t) == At(Entries(LogAfter(l, es), t), Delivered(l, es, s, t))
    decreases |es|
  {
    if es != [] {
      var e := es[0];
      OrderedStep(clock, es);
      StepRefines(b, l, clock, e);
      var b', l' := Apply(b, e).0, LogApply(l, e).0;
      ReceivedIsDelivered(b', l', Clock(clock, e), es[1..], s, t);
      FirstStep(b, l, es, s, t);
      if e.Poll? && e.s == s && e.t == t {
        PollIsDelivered(b, l, clock, e, Entries(LogAfter(l, es), t), Delivered(l', es[1..], s, t));
      }
    }
  }

  function BusAfter(b: BusState, es: seq<Event>): BusState
    requires Valid(b)
    decreases |es|
  {
    if es == [] then b
    else
      EveryStepKeepsValid(b, es[0]);
      BusAfter(Apply(b, es[0]).0, es[1..])
  }

  /** Whatever the clock did, every run leaves a valid bus. */
  lemma {:induction false} EveryRunKeepsValid(b: BusState, es: seq<Event>)
    requires Valid(b)
    ensures Valid(BusAfter(b, es))
    decreases |es|
  {
    if es != [] {
      EveryStepKeepsValid(b, es[0]);
      EveryRunKeepsValid(Apply(b, es[0]).0, es[1..]);
    }
  }

  // ---------------------------------------------------------------- nothing is skipped, under any clock

  /** What the bus holds of topic `t` before the offset of reader `s`. */
  function Behind(b: BusState, s: Subscriber, t: Topic): seq<BusMessage> {
    if (s, t) in b.offsets && b.offsets[(s, t)] <= |Messages(b, t)| then Messages(b, t)[..b.offsets[(s, t)]] else []
  }

  lemma OffsetInRange(b: BusState, s: Subscriber, t: Topic)
    requires Consistent(b) && (s, t) in b.offsets
    ensures b.offsets[(s, t)] <= |Messages(b, t)|
  {
    assert b.offsets[(s, t)] <= |Messages(b, (s, t).1)|;
  }

  /** Pruning moves no message behind an offset that was not there before. */
  lemma PruneBehind(b: BusState, u: Topic, now: int, s: Subscriber, t: Topic)
    requires Consistent(b) && (s, t) in b.offsets
    ensures (s, t) in PruneOp(b, u, now).offsets
    ensures forall m :: m in Behind(PruneOp(b, u, now), s, t) ==> m in Behind(b, s, t)
  {
    var p := PruneOp(b, u, now);
    OffsetInRange(b, s, t);
    if u == t && t in b.messages {
      var off, kept := b.offsets[(s, t)], Retained(b.messages[t], now);
      var split := RetainedSplits(b.messages[t], off, now);
      assert Messages(p, t) == kept;
      var shifted := p.offsets[(s, t)];
      forall m | m in kept[..shifted] ensures m in Behind(b, s, t) {
        assert kept[..shifted] == kept[..split][..shifted];
        assert m in kept[..split];
      }
    } else {
      assert Messages(p, t) == Messages(b, t);
    }
  }

  lemma PollShape(b: BusState, s: Subscriber, t: Topic, now: int)
    requires Valid(b) && Subscribed(b, s, t)
    ensures var p, r := PruneOp(b, t, now), PollOp(b, s, t, now).0;
            && r.messages == p.messages
            && r.offsets == if t in p.messages then p.offsets[(s, t) := |p.messages[t]|] else p.offsets
  {
  }

  lemma OwnPollBehind(b: BusState, s: Subscriber, t: Topic, now: int)
    requires Valid(b) && Subscribed(b, s, t)
    ensures (s, t) in PollOp(b, s, t, now).0.offsets
    ensures forall m :: m in Behind(PollOp(b, s, t, now).0, s, t) ==> m in Behind(b, s, t) || m in PollOp(b, s, t, now).1
  {
    var k, p := (s, t), PruneOp(b, t, now);
    assert k in b.offsets <==> Subscribed(b, k.0, k.1);
    PruneBehind(b, t, now, s, t);
    PollSlices(b, s, t, now);
    PollShape(b, s, t, now);
    assert Messages(p, t) == Behind(p, s, t) + PollOp(b, s, t, now).1;
  }

  lemma PollBehind(b: BusState, e: Event, s: Subscriber, t: Topic)
    requires Valid(b) && e.Poll? && (s, t) in b.offsets
    ensures (s, t) in PollOp(b, e.s, e.t, e.now).0.offsets
    ensures forall m :: m in Behind(PollOp(b, e.s, e.t, e.now).0, s, t) ==>
              m in Behind(b, s, t) || (e.s == s && e.t == t && m in PollOp(b, e.s, e.t, e.now).1)
  {
    if Subscribed(b, e.s, e.t) {
      if e.s == s && e.t == t {
        OwnPollBehind(b, s, t, e.now);
      } else {
        PruneBehind(b, e.t, e.now, s, t);
        PollShape(b, e.s, e.t, e.now);
        var p, r := PruneOp(b, e.t, e.now), PollOp(b, e.s, e.t, e.now).0;
        assert r.offsets[(s, t)] == p.offsets[(s, t)];
      }
    }
  }

  lemma PublishBehind(b: BusState, m: BusMessage, now: int, s: Subscriber, t: Topic)
    requires Valid(b) && (s, t) in b.offsets
    ensures (s, t) in PublishOp(b, m, now).offsets
    ensures forall x :: x in Behind(PublishOp(b, m, now), s, t) ==> x in Behind(b, s, t)
  {
    AppendKeepsConsistent(b, m);
    OffsetInRange(b, s, t);
    var c := Appended(b, m);
    assert Behind(c, s, t) == Behind(b, s, t);
    PruneBehind(c, m.topic, now, s, t);
  }

  lemma SubscribeBehind(b: BusState, e: Event, s: Subscriber, t: Topic)
    requires Valid(b) && e.Subscribe? && (s, t) in b.offsets
    ensures (s, t) in SubscribeOp(b, e.s, e.t, e.now).offsets
    ensures forall m :: m in Behind(SubscribeOp(b, e.s, e.t, e.now), s, t) ==> m in Behind(b, s, t)
  {
    PruneBehind(b, e.t, e.now, s, t);
    SubscribeShape(b, e.s, e.t, e.now);
    assert Behind(SubscribeOp(b, e.s, e.t, e.now), s, t) == Behind(PruneOp(b, e.t, e.now), s, t);
  }

  /** A step puts a message behind a reader's offset only by handing it to that reader. */
  lemma StepBehind(b: BusState, e: Event, s: Subscriber, t: Topic)
    requires Valid(b) && (s, t) in b.offsets && e != Unsubscribe(s, t)
    ensures (s, t) in Apply(b, e).0.offsets
    ensures forall m :: m in Behind(Apply(b, e).0, s, t) ==>
              m in Behind(b, s, t) || (e.Poll? && e.s == s && e.t == t && m in Apply(b, e).1)
  {
    match e
    case Subscribe(_, _, _) => SubscribeBehind(b, e, s, t);
    case Unsubscribe(s', t') => assert Behind(UnsubscribeOp(b, s', t'), s, t) == Behind(b, s, t);
    case Publish(m, now) => PublishBehind(b, m, now, s, t);
    case Poll(_, _, _) => PollBehind(b, e, s, t);
  }

  /**
   Over every run, whatever the clock did, no message the bus still holds is skipped: one that stands before a
   reader's offset stood there already when the run began, or was handed to that reader.
   */
  lemma {:induction false} NothingIsSkipped(b: BusState, es: seq<Event>, s: Subscriber, t: Topic)
    requires Valid(b) && Subscribed(b, s, t)
    requires forall i :: 0 <= i < |es| ==> es[i] != Unsubscribe(s, t)
    ensures var end := BusAfter(b, es);
            && Valid(end) && (s, t) in end.offsets && end.offsets[(s, t)] <= |Messages(end, t)|
            && forall m :: m in Messages(end, t)[..end.offsets[(s, t)]] ==>
                 m in Behind(b, s, t) || m in Received(b, es, s, t)
    decreases |es|
  {
    var k := (s, t);
    assert k in b.offsets <==> Subscribed(b, k.0, k.1);
    if es == [] {
      OffsetInRange(b, s, t);
    } else {
      var b' := Apply(b, es[0]).0;
      assert es[0] != Unsubscribe(s, t);
      EveryStepKeepsValid(b, es[0]);
      StepBehind(b, es[0], s, t);
      assert k in b'.offsets <==> Subscribed(b', k.0, k.1);
      NothingIsSkipped(b', es[1..], s, t);
      FirstStep(b, EMPTY_LOG, es, s, t);
    }
  }

  lemma SubscribedIsValid(before: seq<Event>, s: Subscriber, t: Topic, now: int)
    ensures Valid(BusAfter(EMPTY_BUS, before))
    ensures var b := SubscribeOp(BusAfter(EMPTY_BUS, before), s, t, now); Valid(b) && Subscribed(b, s, t)
  {
    EveryRunKeepsValid(EMPTY_BUS, before);
    SubscribeKeepsValid(BusAfter(EMPTY_BUS, before), s, t, now);
    SubscribeShape(BusAfter(EMPTY_BUS, before), s, t, now);
  }

  /** What the bus holds of topic `t` from the offset of reader `s` on. */
  function Ahead(b: BusState, s: Subscriber, t: Topic): seq<BusMessage> {
    if (s, t) in b.offsets && b.offsets[(s, t)] <= |Messages(b, t)| then Messages(b, t)[b.offsets[(s, t)]..] else []
  }

  lemma BehindThenAhead(b: BusState, s: Subscriber, t: Topic)
    requires (s, t) in b.offsets && b.offsets[(s, t)] <= |Messages(b, t)|
    ensures Messages(b, t) == Behind(b, s, t) + Ahead(b, s, t)
  {
  }

  /** A poll leaves nothing ahead of its reader. */
  lemma PollReadsAll(b: BusState, s: Subscriber, t: Topic, now: int)
    requires Valid(b) && Subscribed(b, s, t)
    ensures var p := PollOp(b, s, t, now).0;
            Subscribed(p, s, t) && (s, t) in p.offsets && p.offsets[(s, t)] == |Messages(p, t)| && Ahead(p, s, t) == []
  {
    var k := (s, t);
    PruneKeepsValid(b, t, now);
    assert k in b.offsets <==> Subscribed(b, k.0, k.1);
    var p := PruneOp(b, t, now);
    if t !in p.messages {
      EmptyTopicHasZeroOffsets(p, s, t);
    }
  }

  /** A message young enough that comes last is kept, and stays last. */
  lemma LastIsRetained(ms: seq<BusMessage>, m: BusMessage, now: int)
    requires now - m.sentAt <= 3_600_000_000_000
    ensures var r := Retained(ms + [m], now); r != [] && r[|r| - 1] == m
  {
    FilterConcat(FreshAt(now), ms, [m]);
    FilterSingle(FreshAt(now), m);
  }

  lemma PublishShape(b: BusState, m: BusMessage, now: int)
    ensures var n, ms := PublishOp(b, m, now), Messages(b, m.topic) + [m];
            && |Retained(ms, now)| <= |ms|
            && Messages(n, m.topic) == Retained(ms, now) && n.subscriptions == b.subscriptions
            && n.offsets == Shift(b.offsets, m.topic, |ms| - |Retained(ms, now)|)
  {
    RetainedIsShorter(Messages(b, m.topic) + [m], now);
  }

  lemma PublishedIsLast(b: BusState, s: Subscriber, m: BusMessage, now: int)
    requires Valid(b) && Subscribed(b, s, m.topic) && now - m.sentAt <= 3_600_000_000_000
    ensures var n, k := PublishOp(b, m, now), (s, m.topic);
            && Valid(n) && Subscribed(n, s, m.topic)
            && k in n.offsets && n.offsets[k] < |Messages(n, m.topic)|
            && Messages(n, m.topic)[|Messages(n, m.topic)| - 1] == m
  {
    var k := (s, m.topic);
    assert k in b.offsets <==> Subscribed(b, k.0, k.1);
    OffsetInRange(b, s, m.topic);
    AppendKeepsConsistent(b, m);
    PruneKeepsValid(Appended(b, m), m.topic, now);
    LastIsRetained(Messages(b, m.topic), m, now);
    PublishShape(b, m, now);
  }

  lemma LastIsPolled(b: BusState, s: Subscriber, t: Topic, m: BusMessage, now: int)
    requires Valid(b) && Subscribed(b, s, t) && (s, t) in b.offsets && b.offsets[(s, t)] < |Messages(b, t)|
    requires Messages(b, t)[|Messages(b, t)| - 1] == m && now - m.sentAt <= 3_600_000_000_000
    ensures var out := PollOp(b, s, t, now).1; out != [] && out[|out| - 1] == m
  {
    var seen := PollNeverSkips(b, s, t, now);
    var ms, off := Messages(b, t), b.offsets[(s, t)];
    assert ms[off..] == ms[off..|ms| - 1] + [m];
    LastIsRetained(ms[off..|ms| - 1], m, now);
  }

  /** A message published to a topic is what the next poll of each of its subscribers ends with, within the hour. */
  lemma PublishedIsPolled(b: BusState, s: Subscriber, m: BusMessage, now: int, later: int)
    requires Valid(b) && Subscribed(b, s, m.topic)
    requires now - m.sentAt <= 3_600_000_000_000 && later - m.sentAt <= 3_600_000_000_000
    ensures Valid(PublishOp(b, m, now))
    ensures var out := PollOp(PublishOp(b, m, now), s, m.topic, later).1; out != [] && out[|out| - 1] == m
  {
    PublishedIsLast(b, s, m, now);
    LastIsPolled(PublishOp(b, m, now), s, m.topic, m, later);
  }

  /** So whatever the bus holds that was not behind the reader at the start was received, or is still ahead of it. */
  lemma HeldIsReceivedOrAhead(b: BusState, es: seq<Event>, s: Subscriber, t: Topic, m: BusMessage)
    requires Valid(b) && Subscribed(b, s, t)
    requires forall i :: 0 <= i < |es| ==> es[i] != Unsubscribe(s, t)
    requires m in Messages(BusAfter(b, es), t) && m !in Behind(b, s, t)
    ensures m in Received(b, es, s, t) || m in Ahead(BusAfter(b, es), s, t)
  {
    NothingIsSkipped(b, es, s, t);
    BehindThenAhead(BusAfter(b, es), s, t);
  }

  // ---------------------------------------------------------------- first deliveries come in order, under any clock

  /** What a run publishes on topic `t`. */
  function Published(es: seq<Event>, t: Topic): seq<BusMessage> {
    if es == [] then []
    else if es[0].Publish? && es[0].m.topic == t then [es[0].m] + Published(es[1..], t)
    else Published(es[1..], t)
  }

  function NotIn(ms: seq<BusMessage>, known: set<BusMessage>): seq<BusMessage> {
    if ms == [] then []
    else if ms[0] in known then NotIn(ms[1..], known)
    else [ms[0]] + NotIn(ms[1..], known)
  }

  /** What reader `s` of topic `t` receives over a run that it neither knew nor had received before. */
  function FirstReceived(b: BusState, es: seq<Event>, s: Subscriber, t: Topic, known: set<BusMessage>): seq<BusMessage>
    requires Valid(b)
    decreases |es|
  {
    if es == [] then []
    else
      EveryStepKeepsValid(b, es[0]);
      var (b', out) := Apply(b, es[0]);
      if es[0].Poll? && es[0].s == s && es[0].t == t
      then NotIn(out, known) + FirstReceived(b', es[1..], s, t, known + set m | m in out)
      else FirstReceived(b', es[1..], s, t, known)
  }

  ghost predicate Distinct(log: seq<BusMessage>) {
    forall i, j :: 0 <= i < j < |log| ==> log[i] != log[j]
  }

  /** Of positions in order, those that pass: again in order, and holding the messages that pass. */
  lemma {:induction false} FreshPositions(log: seq<BusMessage>, hs: seq<nat>, n: nat, now: int) returns (ps: seq<nat>)
    requires Increasing(hs, 0, n) && n <= |log|
    ensures Increasing(ps, 0, n) && At(log, ps) == Filter(FreshAt(now), At(log, hs))
    ensures forall p :: p in ps ==> p in hs
  {
    if hs == [] {
      ps := [];
    } else {
      var ms, rest := At(log, hs), hs[1..];
      assert ms[0] == log[hs[0]] && ms[1..] == At(log, rest);
      var qs := FreshPositions(log, rest, n, now);
      if Fresh(log[hs[0]], now) {
        ps := [hs[0]] + qs;
        assert At(log, ps) == [log[hs[0]]] + At(log, qs);
        assert forall k :: 0 <= k < |qs| ==> qs[k] in rest;
      } else {
        ps := qs;
      }
    }
  }

  lemma RetainedPositions(log: seq<BusMessage>, hs: seq<nat>, n: nat, now: int) returns (ps: seq<nat>)
    requires Increasing(hs, 0, n) && n <= |log|
    ensures Increasing(ps, 0, n) && At(log, ps) == Retained(At(log, hs), now)
    ensures forall p :: p in ps ==> p in hs
  {
    var fs := FreshPositions(log, hs, n, now);
    var cut := if |fs| > MAX_MESSAGES then |fs| - MAX_MESSAGES else 0;
    ps := fs[cut..];
    assert At(log, ps) == At(log, fs)[cut..];
  }

  /** What a step makes of a topic's messages before it prunes them, and whether it does. */
  lemma StepMessages(b: BusState, e: Event, t: Topic) returns (base: seq<BusMessage>, now: int, prunes: bool)
    requires Valid(b)
    ensures base == if e.Publish? && e.m.topic == t then Messages(b, t) + [e.m] else Messages(b, t)
    ensures Messages(Apply(b, e).0, t) == if prunes then Retained(base, now) else base
    ensures e.Poll? && e.t == t && Subscribed(b, e.s, e.t) ==> prunes && now == e.now
  {
    base := if e.Publish? && e.m.topic == t then Messages(b, t) + [e.m] else Messages(b, t);
    now := if e.Unsubscribe? then 0 else e.now;
    match e
    case Subscribe(s, u, _) =>
      SubscribeShape(b, s, u, now);
      prunes := u == t && t in b.messages;
    case Unsubscribe(_, _) => prunes := false;
    case Publish(m, _) => prunes := m.topic == t;
    case Poll(s, u, _) =>
      prunes := u == t && Subscribed(b, s, u);
      assert Retained([], now) == [];
  }

  lemma PositionsAfter(log: seq<BusMessage>, hs: seq<nat>, n: nat, appends: bool, prunes: bool, now: int)
      returns (ps: seq<nat>, n': nat)
    requires Increasing(hs, 0, n) && n <= |log| && (appends ==> n < |log|)
    ensures n' == (if appends then n + 1 else n) && Increasing(ps, 0, n')
    ensures var base := if appends then At(log, hs) + [log[n]] else At(log, hs);
            At(log, ps) == if prunes then Retained(base, now) else base
    ensures forall p :: p in ps ==> p in hs || p == n
  {
    n', ps := n, hs;
    if appends {
      n', ps := n + 1, hs + [n];
      assert At(log, ps) == At(log, hs) + [log[n]];
    }
    if prunes {
      ps := RetainedPositions(log, ps, n', now);
    }
  }

  /** Whoever subscribes to, publishes on or polls a topic leaves it with nothing older than an hour. */
  lemma EveryVisitPrunes(b: BusState, e: Event, m: BusMessage)
    requires Valid(b) && !e.Unsubscribe? && (e.Poll? ==> Subscribed(b, e.s, e.t))
    ensures var t := if e.Publish? then e.m.topic else e.t;
            m in Messages(Apply(b, e).0, t) ==> e.now - m.sentAt <= 3_600_000_000_000
  {
    var t := if e.Publish? then e.m.topic else e.t;
    var base := if e.Publish? then Messages(b, t) + [e.m] else Messages(b, t);
    RetainedMeans(base, e.now);
    if e.Subscribe? {
      SubscribeShape(b, e.s, t, e.now);
    }
  }

  /** The bus goes on holding, in order, messages of the log, which a publication makes one longer. */
  lemma StepHeld(b: BusState, e: Event, t: Topic, log: seq<BusMessage>, n: nat, hs: seq<nat>) returns (ps: seq<nat>, n': nat)
    requires Valid(b) && n <= |log| && Increasing(hs, 0, n) && Messages(b, t) == At(log, hs)
    requires e.Publish? && e.m.topic == t ==> n < |log| && log[n] == e.m
    ensures n' == (if e.Publish? && e.m.topic == t then n + 1 else n) && n' <= |log|
    ensures Increasing(ps, 0, n') && Messages(Apply(b, e).0, t) == At(log, ps)
    ensures forall p :: p in ps ==> p in hs || p == n
  {
    var base, now, prunes := StepMessages(b, e, t);
    ps, n' := PositionsAfter(log, hs, n, e.Publish? && e.m.topic == t, prunes, now);
  }

  /**
   Reader `(s, t)` after its last poll at log length `c`, with the log now `n` long and the bus holding positions `hs`:
   all it knows lies before `c`, and it knows all that is held from there and all behind its offset.
   */
  ghost predicate Tracks(b: BusState, s: Subscriber, t: Topic, log: seq<BusMessage>, n: nat, c: nat, hs: seq<nat>,
                         known: set<BusMessage>) {
    && c <= n <= |log| && Increasing(hs, 0, n) && Messages(b, t) == At(log, hs) && (s, t) in b.offsets
    && (forall m :: m in known ==> m in log[..c])
    && (forall p :: p in hs && p < c ==> log[p] in known)
    && (forall m :: m in Behind(b, s, t) ==> m in known)
  }

  lemma OtherStepTracks(b: BusState, e: Event, s: Subscriber, t: Topic, log: seq<BusMessage>, n: nat, c: nat, hs: seq<nat>,
                        known: set<BusMessage>) returns (hs': seq<nat>, n': nat)
    requires Valid(b) && Tracks(b, s, t, log, n, c, hs, known) && e != Unsubscribe(s, t)
    requires !(e.Poll? && e.s == s && e.t == t)
    requires e.Publish? && e.m.topic == t ==> n < |log| && log[n] == e.m
    ensures n' == if e.Publish? && e.m.topic == t then n + 1 else n
    ensures Tracks(Apply(b, e).0, s, t, log, n', c, hs', known)
  {
    hs', n' := StepHeld(b, e, t, log, n, hs);
    StepBehind(b, e, s, t);
  }

  /** Of the positions from `c` on nothing is known; of those before, all that is held. */
  lemma KnownIffBefore(log: seq<BusMessage>, hs: seq<nat>, n: nat, c: nat, known: set<BusMessage>, p: nat)
    requires Distinct(log) && c <= n <= |log| && Increasing(hs, 0, n) && p in hs
    requires forall m :: m in known ==> m in log[..c]
    requires forall q :: q in hs && q < c ==> log[q] in known
    ensures p < n && (log[p] in known <==> p < c)
  {
  }

  lemma AtCons(log: seq<BusMessage>, p: nat, rest: seq<nat>)
    requires p < |log|
    ensures At(log, [p] + rest) == [log[p]] + At(log, rest)
  {
  }

  lemma NotInCons(m: BusMessage, rest: seq<BusMessage>, known: set<BusMessage>)
    ensures NotIn([m] + rest, known) == if m in known then NotIn(rest, known) else [m] + NotIn(rest, known)
  {
    assert ([m] + rest)[0] == m && ([m] + rest)[1..] == rest;
  }

  lemma IncreasingCons(hs: seq<nat>, ps: seq<nat>, c: nat, n: nat)
    requires hs != [] && Increasing(hs, 0, n) && Increasing(ps, c, n) && hs[0] >= c
    requires forall k :: 0 <= k < |ps| ==> ps[k] in hs[1..]
    ensures Increasing([hs[0]] + ps, c, n)
  {
    forall k | 0 <= k < |ps| ensures hs[0] < ps[k] {
      var i :| 0 <= i < |hs[1..]| && hs[1..][i] == ps[k];
    }
  }

  lemma {:induction false} NewAreAhead(log: seq<BusMessage>, hs: seq<nat>, n: nat, c: nat, known: set<BusMessage>)
      returns (ps: seq<nat>)
    requires c <= n <= |log| && Increasing(hs, 0, n)
    requires forall k :: 0 <= k < |hs| ==> (log[hs[k]] in known <==> hs[k] < c)
    ensures Increasing(ps, c, n) && NotIn(At(log, hs), known) == At(log, ps)
    ensures forall k :: 0 <= k < |ps| ==> ps[k] in hs
  {
    if hs == [] {
      ps := [];
    } else {
      var rest, p := hs[1..], hs[0];
      assert hs == [p] + rest;
      AtCons(log, p, rest);
      NotInCons(log[p], At(log, rest), known);
      ps := NewAreAhead(log, rest, n, c, known);
      if p >= c {
        IncreasingCons(hs, ps, c, n);
        AtCons(log, p, ps);
        ps := [p] + ps;
      }
    }
  }

  /** A poll returns what the bus then holds, from a place before which nothing new stands. */
  lemma PollHeld(b: BusState, e: Event, s: Subscriber, t: Topic, log: seq<BusMessage>, n: nat, hs: seq<nat>)
      returns (ps: seq<nat>, off: nat)
    requires Valid(b) && e.Poll? && e.s == s && e.t == t && (s, t) in b.offsets
    requires n <= |log| && Increasing(hs, 0, n) && Messages(b, t) == At(log, hs)
    ensures Increasing(ps, 0, n) && Messages(Apply(b, e).0, t) == At(log, ps) && (forall p :: p in ps ==> p in hs)
    ensures off <= |ps| && Apply(b, e).1 == At(log, ps[off..])
    ensures forall i :: 0 <= i < off ==> log[ps[i]] in Behind(b, s, t)
  {
    var k, p := (s, t), PruneOp(b, t, e.now);
    assert k in b.offsets <==> Subscribed(b, k.0, k.1);
    PollSlices(b, s, t, e.now);
    PruneBehind(b, t, e.now, s, t);
    off := p.offsets[k];
    ps := RetainedPositions(log, hs, n, e.now);
    assert Retained([], e.now) == [];
    assert Messages(p, t) == At(log, ps);
    assert At(log, ps)[off..] == At(log, ps[off..]);
    forall i | 0 <= i < off ensures log[ps[i]] in Behind(b, s, t) {
      assert Behind(p, s, t)[i] == log[ps[i]];
    }
  }

  lemma PolledIsKnown(log: seq<BusMessage>, hs: seq<nat>, off: nat, n: nat, c: nat, known: set<BusMessage>,
                      out: seq<BusMessage>)
    requires c <= n <= |log| && Increasing(hs, 0, n) && off <= |hs| && out == At(log, hs[off..])
    requires forall m :: m in known ==> m in log[..c]
    requires forall i :: 0 <= i < off ==> log[hs[i]] in known
    ensures forall q :: q in hs ==> log[q] in known + set m | m in out
    ensures forall m :: m in known + (set m | m in out) ==> m in log[..n]
  {
    forall q | q in hs ensures log[q] in known + set m | m in out {
      var i :| 0 <= i < |hs| && hs[i] == q;
      assert i >= off ==> out[i - off] == log[q];
    }
    assert log[..c] == log[..n][..c];
    forall m | m in out ensures m in log[..n] {
      var i :| 0 <= i < |out| && out[i] == m;
      assert m == log[..n][hs[off + i]];
    }
  }

  /** A poll leaves its reader knowing all that is held, and what is new to it comes in order. */
  lemma OwnPollTracks(b: BusState, e: Event, s: Subscriber, t: Topic, log: seq<BusMessage>, n: nat, c: nat, hs: seq<nat>,
                      known: set<BusMessage>) returns (hs': seq<nat>, ps: seq<nat>)
    requires Valid(b) && Tracks(b, s, t, log, n, c, hs, known) && Distinct(log) && e.Poll? && e.s == s && e.t == t
    ensures Tracks(Apply(b, e).0, s, t, log, n, n, hs', known + set m | m in Apply(b, e).1)
    ensures Increasing(ps, c, n) && NotIn(Apply(b, e).1, known) == At(log, ps)
  {
    var off;
    hs', off := PollHeld(b, e, s, t, log, n, hs);
    var out := Apply(b, e).1;
    StepBehind(b, e, s, t);
    PolledIsKnown(log, hs', off, n, c, known, out);
    forall k | 0 <= k < |hs'[off..]| ensures log[hs'[off..][k]] in known <==> hs'[off..][k] < c {
      assert hs'[off..][k] == hs'[off + k];
      KnownIffBefore(log, hs', n, c, known, hs'[off + k]);
    }
    ps := NewAreAhead(log, hs'[off..], n, c, known);
  }

  lemma {:induction false} FirstTimesFrom(b: BusState, es: seq<Event>, s: Subscriber, t: Topic, log: seq<BusMessage>,
                                          n: nat, c: nat, hs: seq<nat>, known: set<BusMessage>) returns (ps: seq<nat>)
    requires Valid(b) && Tracks(b, s, t, log, n, c, hs, known) && Distinct(log) && log[n..] == Published(es, t)
    requires forall i :: 0 <= i < |es| ==> es[i] != Unsubscribe(s, t)
    ensures Increasing(ps, c, |log|) && FirstReceived(b, es, s, t, known) == At(log, ps)
    decreases |es|
  {
    if es == [] {
      ps := [];
    } else {
      var e := es[0];
      assert e != Unsubscribe(s, t);
      EveryStepKeepsValid(b, e);
      var out := Apply(b, e).1;
      if e.Poll? && e.s == s && e.t == t {
        var hs', qs := OwnPollTracks(b, e, s, t, log, n, c, hs, known);
        var rest := FirstTimesFrom(Apply(b, e).0, es[1..], s, t, log, n, n, hs', known + set m | m in out);
        IncreasingConcat(qs, rest, c, n, |log|);
        ps := qs + rest;
        AtConcat(log, log, qs, rest);
      } else {
        if e.Publish? && e.m.topic == t {
          assert log[n..][0] == e.m && log[n..][1..] == log[n + 1..];
        }
        var hs', n' := OtherStepTracks(b, e, s, t, log, n, c, hs, known);
        ps := FirstTimesFrom(Apply(b, e).0, es[1..], s, t, log, n', c, hs', known);
      }
    }
  }

  /**
   Under any clock, what a reader receives for the first time comes in the order of publication: it is the log of all
   that was held or published, at increasing positions from the reader's offset on.  Messages are told apart by id.
   */
  lemma FirstTimesInOrder(b: BusState, es: seq<Event>, s: Subscriber, t: Topic) returns (ps: seq<nat>)
    requires Valid(b) && Subscribed(b, s, t)
    requires forall i :: 0 <= i < |es| ==> es[i] != Unsubscribe(s, t)
    requires Distinct(Messages(b, t) + Published(es, t))
    ensures (s, t) in b.offsets && b.offsets[(s, t)] <= |Messages(b, t)|
    ensures var log := Messages(b, t) + Published(es, t);
            && Increasing(ps, b.offsets[(s, t)], |log|)
            && FirstReceived(b, es, s, t, set m | m in Behind(b, s, t)) == At(log, ps)
  {
    var k, ms := (s, t), Messages(b, t);
    assert k in b.offsets <==> Subscribed(b, k.0, k.1);
    OffsetInRange(b, s, t);
    var log, off := ms + Published(es, t), b.offsets[k];
    var hs := seq(|ms|, i => i);
    assert At(log, hs) == ms;
    assert log[..off] == Behind(b, s, t) == ms[..off];
    forall p | p in hs && p < off ensures log[p] in Behind(b, s, t) {
      assert log[p] == ms[..off][p];
    }
    assert log[|ms|..] == Published(es, t);
    ps := FirstTimesFrom(b, es, s, t, log, |ms|, off, hs, set m | m in Behind(b, s, t));
  }

  // ---------------------------------------------------------------- a subscription with a forward clock

  lemma {:induction false} RunRefines(b: BusState, l: Log, clock: int, es: seq<Event>, more: seq<Event>)
      returns (later: int)
    requires Refines(b, l, clock) && Ordered(clock, es + more)
    ensures Refines(BusAfter(b, es), LogAfter(l, es), later) && Ordered(later, more)
    decreases |es|
  {
    if es == [] {
      assert es + more == more;
      later := clock;
    } else {
      assert (es + more)[0] == es[0] && (es + more)[1..] == es[1..] + more;
      assert Ordered(clock, [es[0]]);
      StepRefines(b, l, clock, es[0]);
      later := RunRefines(Apply(b, es[0]).0, LogApply(l, es[0]).0, Clock(clock, es[0]), es[1..], more);
    }
  }

  /**
   The life of a subscription on the bus itself, after any run that left `s` unsubscribed from `t`.  The polls
   return, in order and each once, messages published after the subscription; one the reader has got past is
   missing exactly when it was over an hour old or outside the newest thousand at the first poll to reach it.
   */
  lemma SubscriptionIsAccounted(clock: int, before: seq<Event>, s: Subscriber, t: Topic, now: int, es: seq<Event>)
      returns (delivered: seq<nat>)
    requires Ordered(clock, before + ([Subscribe(s, t, now)] + es))
    requires !Subscribed(BusAfter(EMPTY_BUS, before), s, t)
    requires forall i :: 0 <= i < |es| ==> es[i] != Unsubscribe(s, t)
    ensures var was := LogAfter(EMPTY_LOG, before);
            var start := LogApply(was, Subscribe(s, t, now)).0;
            var end := LogAfter(start, es);
            var b := BusAfter(EMPTY_BUS, before);
            && Valid(b)
            && Received(b, [Subscribe(s, t, now)] + es, s, t) == At(Entries(end, t), delivered)
            && Accounted(|Entries(was, t)|, end, delivered, s, t)
            && (forall p: nat :: |Entries(was, t)| <= p < end.cursors[(s, t)] ==>
                  (p in delivered <==> !Missed(start, es, s, t, p)))
  {
    var e := Subscribe(s, t, now);
    var later := RunRefines(EMPTY_BUS, EMPTY_LOG, clock, before, [e] + es);
    var b, l := BusAfter(EMPTY_BUS, before), LogAfter(EMPTY_LOG, before);
    var k := (s, t);
    assert k in b.offsets <==> Subscribed(b, k.0, k.1);
    assert ([e] + es)[1..] == es;
    ReceivedIsDelivered(b, l, later, [e] + es, s, t);
    delivered := Delivered(l, [e] + es, s, t);
    assert delivered == Delivered(LogApply(l, e).0, es, s, t);
    DeliveriesAreAccounted(LogApply(l, e).0, es, s, t);
  }

  // ---------------------------------------------------------------- the bus object

  class AcpBus {
    var messages: map<Topic, seq<BusMessage>>
    var subscriptions: map<Topic, set<Subscriber>>
    var readOffsets: map<(Subscriber, Topic), nat>

    ghost function State(): BusState
      reads this
    {
      BusState(messages, subscriptions, readOffsets)
    }

    constructor ()
      ensures State() == EMPTY_BUS && Valid(State())
    {
      messages, subscriptions, readOffsets := map[], map[], map[];
    }

    method PruneTopic(t: Topic, now: int)
      modifies this`messages, this`readOffsets
      ensures State() == PruneOp(old(State()), t, now)
    {
      if t !in messages {
        return;
      }
      var ms := messages[t];
      var kept := RetainFresh(ms, now);
      var ttlRemoved := |ms| - |kept|;
      var capRemoved := 0;
      if |kept| > MAX_MESSAGES {
        capRemoved := |kept| - MAX_MESSAGES;
        kept := kept[capRemoved..];
      }
      var removed: nat := ttlRemoved + capRemoved;
      RetainedIsShorter(ms, now);
      assert kept == Retained(ms, now) && removed == |ms| - |kept|;
      if removed > 0 {
        ShiftOffsets(t, removed);
      }
      assert readOffsets == Shift(old(readOffsets), t, removed);
      if kept == [] {
        messages := messages - {t};
      } else {
        messages := messages[t := kept];
      }
    }

    static method RetainFresh(ms: seq<BusMessage>, now: int) returns (kept: seq<BusMessage>)
      ensures kept == Filter(FreshAt(now), ms) && |kept| <= |ms|
    {
      kept := [];
      var i := 0;
      while i < |ms|
        invariant 0 <= i <= |ms|
        invariant kept == Filter(FreshAt(now), ms[..i])
      {
        FilterConcat(FreshAt(now), ms[..i], [ms[i]]);
        assert ms[..i + 1] == ms[..i] + [ms[i]];
        if now - ms[i].sentAt <= TTL {
          kept := kept + [ms[i]];
        }
        i := i + 1;
      }
      assert ms[..i] == ms;
      FilterMembers(FreshAt(now), ms);
    }

    method ShiftOffsets(t: Topic, removed: nat)
      modifies this`readOffsets
      ensures readOffsets == Shift(old(readOffsets), t, removed)
    {
      var todo := readOffsets.Keys;
      while todo != {}
        invariant todo <= readOffsets.Keys == old(readOffsets).Keys
        invariant forall k :: k in readOffsets ==>
          readOffsets[k] == if k in todo then old(readOffsets)[k] else Shift(old(readOffsets), t, removed)[k]
        decreases |todo|
      {
        var k :| k in todo;
        todo := todo - {k};
        if k.1 == t {
          readOffsets := readOffsets[k := SaturatingSub(readOffsets[k], removed)];
        }
      }
    }

    method Subscribe(s: Subscriber, t: Topic, now: int)
      requires Valid(State())
      modifies this
      ensures Valid(State()) && State() == SubscribeOp(old(State()), s, t, now)
    {
      EveryStepKeepsValid(State(), Event.Subscribe(s, t, now));
      var subs: set<Subscriber> := {};
      if t in subscriptions {
        subs := subscriptions[t];
      }
      subscriptions := subscriptions[t := subs + {s}];
      PruneTopic(t, now);
      var length := if t in messages then |messages[t]| else 0;
      if (s, t) !in readOffsets {
        readOffsets := readOffsets[(s, t) := length];
      }
    }

    method Unsubscribe(s: Subscriber, t: Topic)
      requires Valid(State())
      modifies this
      ensures Valid(State()) && State() == UnsubscribeOp(old(State()), s, t)
    {
      EveryStepKeepsValid(State(), Event.Unsubscribe(s, t));
      if t in subscriptions {
        var rest := subscriptions[t] - {s};
        subscriptions := subscriptions[t := rest];
        if rest == {} {
          subscriptions := subscriptions - {t};
        }
      }
      readOffsets := readOffsets - {(s, t)};
    }

    method Publish(m: BusMessage, now: int)
      requires Valid(State())
      modifies this
      ensures Valid(State()) && State() == PublishOp(old(State()), m, now)
    {
      EveryStepKeepsValid(State(), Event.Publish(m, now));
      var ms := [];
      if m.topic in messages {
        ms := messages[m.topic];
      }
      messages := messages[m.topic := ms + [m]];
      PruneTopic(m.topic, now);
    }

    method Poll(s: Subscriber, t: Topic, now: int) returns (pending: seq<BusMessage>)
      requires Valid(State())
      modifies this
      ensures Valid(State()) && (State(), pending) == PollOp(old(State()), s, t, now)
    {
      if t !in subscriptions || s !in subscriptions[t] {
        return [];
      }
      PollKeepsValid(State(), s, t, now);
      PollSlices(State(), s, t, now);
      PruneTopic(t, now);
      if t in messages {
        var offset: int := if (s, t) in readOffsets then readOffsets[(s, t)] else 0;
        pending := messages[t][offset..];
        readOffsets := readOffsets[(s, t) := |messages[t]|];
      } else {
        pending := [];
      }
    }
  }
}

/**
 The agent's conversation context: the turn limit, token-based pruning, and heuristic summarising.
 */
module Context {
  import opened Common
  import opened Conversation

  // ---------------------------------------------------------------- the turn limit

  function UserCount(ms: seq<Message>): nat {
    if ms == [] then 0 else (if IsUser(ms[0]) then 1 else 0) + UserCount(ms[1..])
  }

  lemma {:induction false} UserCountSnoc(ms: seq<Message>, i: nat)
    requires i < |ms|
    ensures UserCount(ms[..i + 1]) == UserCount(ms[..i]) + (if IsUser(ms[i]) then 1 else 0)
  {
    if i == 0 {
      assert ms[..1] == [ms[0]] && ms[..1][1..] == [] && ms[..0] == [];
    } else {
      assert ms[..i + 1][1..] == ms[1..][..i] && ms[..i][1..] == ms[1..][..i - 1];
      UserCountSnoc(ms[1..], i - 1);
    }
  }

  function OldestUser(ms: seq<Message>): (p: nat)
    requires UserCount(ms) > 0
    ensures p < |ms| && IsUser(ms[p]) && forall k :: 0 <= k < p ==> !IsUser(ms[k])
  {
    if IsUser(ms[0]) then 0 else 1 + OldestUser(ms[1..])
  }

  /** One round: the oldest user message goes, and with it an assistant message directly behind it. */
  function RemoveOldestTurn(ms: seq<Message>): seq<Message>
    requires UserCount(ms) > 0
  {
    var p := OldestUser(ms);
    if p + 1 < |ms| && ms[p + 1].role == Assistant then ms[..p] + ms[p + 2..] else ms[..p] + ms[p + 1..]
  }

  /** `k` rounds at once, in one pass from the left. */
  function DropTurns(ms: seq<Message>, k: nat): seq<Message> {
    if k == 0 || ms == [] then ms
    else if !IsUser(ms[0]) then [ms[0]] + DropTurns(ms[1..], k)
    else if |ms| > 1 && ms[1].role == Assistant then DropTurns(ms[2..], k - 1)
    else DropTurns(ms[1..], k - 1)
  }

  function Excess(ms: seq<Message>, max: nat): nat {
    SaturatingSub(UserCount(ms), max)
  }

  /** A round leaves alone what stands before the oldest user message. */
  lemma RoundSkipsFirst(ms: seq<Message>)
    requires UserCount(ms) > 0 && !IsUser(ms[0])
    ensures RemoveOldestTurn(ms) == [ms[0]] + RemoveOldestTurn(ms[1..])
  {
    var rest := ms[1..];
    var p := OldestUser(rest);
    assert ms == [ms[0]] + rest && OldestUser(ms) == p + 1;
    if p + 1 < |rest| && rest[p + 1].role == Assistant {
      CutBehindFirst(ms[0], rest, p, p + 2);
    } else {
      CutBehindFirst(ms[0], rest, p, p + 1);
    }
  }

  lemma CutBehindFirst(m: Message, rest: seq<Message>, p: nat, q: nat)
    requires p <= q <= |rest|
    ensures ([m] + rest)[..p + 1] + ([m] + rest)[q + 1..] == [m] + (rest[..p] + rest[q..])
  {
  }

  lemma RoundAtFront(ms: seq<Message>)
    requires ms != [] && IsUser(ms[0])
    ensures RemoveOldestTurn(ms) == if |ms| > 1 && ms[1].role == Assistant then ms[2..] else ms[1..]
    ensures UserCount(RemoveOldestTurn(ms)) == UserCount(ms) - 1
  {
    assert OldestUser(ms) == 0;
    assert |ms| > 1 ==> ms[1..][0] == ms[1] && ms[1..][1..] == ms[2..];
  }

  /** A round and a pass for the rest are one pass. */
  lemma {:induction false} RoundsAreOnePass(ms: seq<Message>, k: nat)
    requires UserCount(ms) > 0 && k > 0
    ensures UserCount(RemoveOldestTurn(ms)) == UserCount(ms) - 1
    ensures DropTurns(RemoveOldestTurn(ms), k - 1) == DropTurns(ms, k)
    decreases |ms|
  {
    if IsUser(ms[0]) {
      RoundAtFront(ms);
    } else {
      RoundsAreOnePass(ms[1..], k);
      RoundSkipsFirst(ms);
      assert RemoveOldestTurn(ms)[1..] == RemoveOldestTurn(ms[1..]);
    }
  }

  /** A round as the loop does it: one removal, then perhaps another at the same place. */
  lemma RoundByRemovals(ms: seq<Message>, p: nat, once: seq<Message>)
    requires UserCount(ms) > 0 && p == OldestUser(ms) && once == RemoveAt(ms, p)
    ensures RemoveOldestTurn(ms) == if p < |once| && once[p].role == Assistant then RemoveAt(once, p) else once
  {
    assert p < |once| ==> once[p] == ms[p + 1];
  }

  /** A round takes the list one user message nearer to the limit, and changes nothing about where it ends. */
  lemma RoundTowardsLimit(ms: seq<Message>, max: nat, next: seq<Message>)
    requires UserCount(ms) > max && next == RemoveOldestTurn(ms)
    ensures UserCount(next) == UserCount(ms) - 1
    ensures DropTurns(next, Excess(next, max)) == DropTurns(ms, Excess(ms, max))
  {
    var k := Excess(ms, max);
    RoundsAreOnePass(ms, k);
    assert Excess(next, max) == k - 1;
  }

  /** Removed: one of the first `k` user messages, or an assistant message directly behind one of them. */
  predicate Dropped(ms: seq<Message>, k: nat, i: nat)
    requires i < |ms|
  {
    || (IsUser(ms[i]) && UserCount(ms[..i]) < k)
    || (ms[i].role == Assistant && i > 0 && IsUser(ms[i - 1]) && UserCount(ms[..i - 1]) < k)
  }

  function KeptFrom(ms: seq<Message>, k: nat, i: nat): seq<Message>
    requires i <= |ms|
    decreases |ms| - i
  {
    if i == |ms| then []
    else if Dropped(ms, k, i) then KeptFrom(ms, k, i + 1)
    else [ms[i]] + KeptFrom(ms, k, i + 1)
  }

  lemma DropTurnsAt(ms: seq<Message>, i: nat, k: nat)
    requires i < |ms|
    ensures DropTurns(ms[i..], k) ==
            if k == 0 || !IsUser(ms[i]) then [ms[i]] + DropTurns(ms[i + 1..], k)
            else if i + 1 < |ms| && ms[i + 1].role == Assistant then DropTurns(ms[i + 2..], k - 1)
            else DropTurns(ms[i + 1..], k - 1)
  {
    var rest := ms[i..];
    assert rest == [ms[i]] + ms[i + 1..] && rest[1..] == ms[i + 1..];
    assert |rest| > 1 ==> rest[1] == ms[i + 1] && rest[2..] == ms[i + 2..];
  }

  lemma {:induction false} OnePassIsFilter(ms: seq<Message>, k: nat, i: nat)
    requires i <= |ms|
    requires i < |ms| && ms[i].role == Assistant ==> !Dropped(ms, k, i)
    ensures KeptFrom(ms, k, i) == DropTurns(ms[i..], SaturatingSub(k, UserCount(ms[..i])))
    decreases |ms| - i
  {
    if i < |ms| {
      var u := UserCount(ms[..i]);
      UserCountSnoc(ms, i);
      DropTurnsAt(ms, i, SaturatingSub(k, u));
      if IsUser(ms[i]) && u < k && i + 1 < |ms| && ms[i + 1].role == Assistant {
        UserCountSnoc(ms, i + 1);
        assert Dropped(ms, k, i + 1);
        OnePassIsFilter(ms, k, i + 2);
      } else {
        OnePassIsFilter(ms, k, i + 1);
      }
    }
  }

  function KeptPositions(ms: seq<Message>, k: nat): set<nat> {
    set i: nat | i < |ms| && !Dropped(ms, k, i)
  }

  lemma {:induction false} KeptIsPick(ms: seq<Message>, k: nat, i: nat)
    requires i <= |ms|
    ensures Pick(ms, KeptPositions(ms, k), i) + KeptFrom(ms, k, i) == Pick(ms, KeptPositions(ms, k), |ms|)
    decreases |ms| - i
  {
    if i < |ms| {
      KeptIsPick(ms, k, i + 1);
      var p := Pick(ms, KeptPositions(ms, k), i);
      assert p + ([ms[i]] + KeptFrom(ms, k, i + 1)) == (p + [ms[i]]) + KeptFrom(ms, k, i + 1);
    }
  }

  lemma WholePassIsFilter(ms: seq<Message>, k: nat)
    ensures DropTurns(ms, k) == KeptFrom(ms, k, 0)
  {
    OnePassIsFilter(ms, k, 0);
    assert ms[0..] == ms && ms[..0] == [];
  }

  lemma WholeListIsPick(ms: seq<Message>, k: nat)
    ensures KeptFrom(ms, k, 0) == Pick(ms, KeptPositions(ms, k), |ms|)
  {
    KeptIsPick(ms, k, 0);
    assert [] + KeptFrom(ms, k, 0) == KeptFrom(ms, k, 0);
  }

  lemma {:induction false} UserCountSplit(ms: seq<Message>, i: nat)
    requires i <= |ms|
    ensures UserCount(ms) == UserCount(ms[..i]) + UserCount(ms[i..])
  {
    if i == 0 {
      assert ms[..0] == [] && ms[0..] == ms;
    } else {
      assert ms[..i][1..] == ms[1..][..i - 1] && ms[i..] == ms[1..][i - 1..] && ms[..i][0] == ms[0];
      UserCountSplit(ms[1..], i - 1);
    }
  }

  lemma UsersBehind(ms: seq<Message>, i: nat)
    requires i < |ms| && IsUser(ms[i])
    ensures UserCount(ms) == UserCount(ms[..i]) + 1 + UserCount(ms[i + 1..])
  {
    UserCountSplit(ms, i);
    assert ms[i..][0] == ms[i] && ms[i..][1..] == ms[i + 1..];
  }

  /** Told by what comes behind: gone are the user messages with `max` or more of their kind behind them, and the
      assistant messages directly behind such a one. */
  ghost predicate GoesByLimit(ms: seq<Message>, max: nat, i: nat)
    requires i < |ms|
  {
    || (ms[i].role == User && UserCount(ms[i + 1..]) >= max)
    || (ms[i].role == Assistant && i > 0 && ms[i - 1].role == User && UserCount(ms[i..]) >= max)
  }

  ghost function LastTurns(ms: seq<Message>, max: nat): set<nat> {
    set i: nat | i < |ms| && !GoesByLimit(ms, max, i)
  }

  lemma DroppedGoes(ms: seq<Message>, max: nat, i: nat)
    requires i < |ms|
    ensures Dropped(ms, Excess(ms, max), i) <==> GoesByLimit(ms, max, i)
  {
    if IsUser(ms[i]) {
      UsersBehind(ms, i);
    }
    if i > 0 && IsUser(ms[i - 1]) {
      UsersBehind(ms, i - 1);
    }
  }

  /** The turn limit as a filter: which messages stay is read off the original list. */
  lemma LimitTurnsIsFilter(ms: seq<Message>, max: nat)
    ensures KeptPositions(ms, Excess(ms, max)) == LastTurns(ms, max)
    ensures DropTurns(ms, Excess(ms, max)) == Pick(ms, LastTurns(ms, max), |ms|)
  {
    WholePassIsFilter(ms, Excess(ms, max));
    WholeListIsPick(ms, Excess(ms, max));
    forall i: nat | i < |ms| ensures i in KeptPositions(ms, Excess(ms, max)) <==> i in LastTurns(ms, max) {
      DroppedGoes(ms, max, i);
    }
  }

  lemma {:induction false} UserCountIsUsers(ms: seq<Message>)
    ensures UserCount(ms) == |Filter(IsUser, ms)|
  {
    if ms != [] {
      UserCountIsUsers(ms[1..]);
    }
  }

  lemma FilterCons(m: Message, rest: seq<Message>)
    ensures Filter(IsUser, [m] + rest) == if IsUser(m) then [m] + Filter(IsUser, rest) else Filter(IsUser, rest)
  {
    assert ([m] + rest)[0] == m && ([m] + rest)[1..] == rest;
  }

  /** A pass takes the first `k` user messages away and leaves the others. */
  lemma {:induction false} DropTurnsUsers(ms: seq<Message>, k: nat)
    requires k <= UserCount(ms)
    ensures |Filter(IsUser, ms)| == UserCount(ms)
    ensures Filter(IsUser, DropTurns(ms, k)) == Filter(IsUser, ms)[k..]
    decreases |ms|
  {
    UserCountIsUsers(ms);
    if k > 0 && ms != [] {
      var rest := ms[1..];
      assert ms == [ms[0]] + rest;
      FilterCons(ms[0], rest);
      if !IsUser(ms[0]) {
        DropTurnsUsers(rest, k);
        FilterCons(ms[0], DropTurns(rest, k));
      } else if |ms| > 1 && ms[1].role == Assistant {
        assert rest == [ms[1]] + ms[2..] && rest[1..] == ms[2..];
        FilterCons(ms[1], ms[2..]);
        DropTurnsUsers(ms[2..], k - 1);
      } else {
        DropTurnsUsers(rest, k - 1);
      }
    }
  }

  /** A history within the limit is left alone; of any other exactly the last `max` user messages stay. */
  lemma LimitTurnsMeans(ms: seq<Message>, max: nat)
    ensures UserCount(ms) == |Filter(IsUser, ms)|
    ensures UserCount(ms) <= max ==> DropTurns(ms, Excess(ms, max)) == ms
    ensures UserCount(ms) > max ==>
              Filter(IsUser, DropTurns(ms, Excess(ms, max))) == Filter(IsUser, ms)[UserCount(ms) - max..]
  {
    DropTurnsUsers(ms, Excess(ms, max));
  }

  /** Every tool result whose call the limit drops has the id of a call of the message it then stands behind. */
  ghost predicate AllAdopted(ms: seq<Message>, k: nat) {
    forall j: nat, t: nat :: Owns(ms, j, t) && Dropped(ms, k, j) ==> Adopted(ms, KeptPositions(ms, k), j, t)
  }

  /** User message `u`, among the first `k`, is answered by an assistant message that has a tool result behind it. */
  ghost predicate ExposedAt(ms: seq<Message>, k: nat, u: nat) {
    && u + 2 < |ms| && IsUser(ms[u]) && UserCount(ms[..u]) < k
    && ms[u + 1].role == Assistant && IsTool(ms[u + 2])
  }

  ghost predicate Exposed(ms: seq<Message>, k: nat) {
    exists u: nat :: ExposedAt(ms, k, u)
  }

  /** The turn limit keeps a paired history paired exactly when every result it strands happens to be adopted. */
  lemma LimitTurnsPairedIff(ms: seq<Message>, max: nat)
    requires Paired(ms)
    ensures Paired(DropTurns(ms, Excess(ms, max))) <==> AllAdopted(ms, Excess(ms, max))
  {
    var k := Excess(ms, max);
    var keep := KeptPositions(ms, k);
    LimitTurnsIsFilter(ms, max);
    PickStaysPairedIff(ms, keep);
    forall j: nat, t: nat | Owns(ms, j, t) ensures t in keep && (j in keep <==> !Dropped(ms, k, j)) {
    }
  }

  /** Seen in the list: it does if no turn it drops has tool results. */
  lemma UnexposedIsAdopted(ms: seq<Message>, k: nat)
    requires Paired(ms) && !Exposed(ms, k)
    ensures AllAdopted(ms, k)
  {
    forall j: nat, t: nat | Owns(ms, j, t) ensures !Dropped(ms, k, j) {
      OwnerOfDroppedIsExposed(ms, k, j, t);
    }
  }

  lemma OwnerOfDroppedIsExposed(ms: seq<Message>, k: nat, j: nat, t: nat)
    requires Paired(ms) && Owns(ms, j, t)
    ensures Dropped(ms, k, j) ==> Exposed(ms, k)
  {
    var c := PairedMeans(ms, t);
    assert c == j;
    if Dropped(ms, k, j) {
      assert ExposedAt(ms, k, j - 1);
    }
  }

  lemma ExposedIsDropped(ms: seq<Message>, k: nat, u: nat)
    requires ExposedAt(ms, k, u)
    ensures Owns(ms, u + 1, u + 2) && Dropped(ms, k, u + 1)
  {
  }

  /** And, where call ids are not reused, only then. */
  lemma ExposedIsNotAdopted(ms: seq<Message>, k: nat)
    requires Paired(ms) && DistinctCalls(ms) && Exposed(ms, k)
    ensures !AllAdopted(ms, k)
  {
    var u: nat :| ExposedAt(ms, k, u);
    ExposedIsDropped(ms, k, u);
    DistinctCallsAdoptNone(ms, KeptPositions(ms, k), u + 1, u + 2);
  }

  /** So the promise to remove calls and results together fails: a paired history comes out unpaired. */
  lemma LimitTurnsCanStrand()
    ensures var ms := [Message(User, "q", None, None, None), Message(Assistant, "", None, Some(["c"]), None),
                       Message(Tool, "r", None, None, Some("c")), Message(User, "p", None, None, None)];
            Paired(ms) && !Paired(DropTurns(ms, Excess(ms, 1)))
  {
    var u, a := Message(User, "q", None, None, None), Message(Assistant, "", None, Some(["c"]), None);
    var t, v := Message(Tool, "r", None, None, Some("c")), Message(User, "p", None, None, None);
    var ms := [u, a, t, v];
    assert ms[1..] == [a, t, v] && [a, t, v][1..] == [t, v] && [t, v][1..] == [v];
    assert PairedFrom({"c"}, [t, v]);
    assert [v][1..] == [] && UserCount([v]) == 1 && UserCount([t, v]) == 1 && UserCount([a, t, v]) == 1;
    assert Excess(ms, 1) == 1;
    assert ms[2..] == [t, v];
    assert DropTurns(ms, 1) == [t, v];
  }

  // ---------------------------------------------------------------- pruning

  /** Ids of the calls that have a result in the list. */
  function AnsweredIds(ms: seq<Message>): set<string> {
    set i | 0 <= i < |ms| && IsTool(ms[i]) && ms[i].toolCallId.Some? :: ms[i].toolCallId.value
  }

  predicate HasAnswered(m: Message, ids: set<string>) {
    exists id :: id in CallIds(m) && id in ids
  }

  /** What pruning must not touch. */
  predicate Protected(m: Message, ids: set<string>) {
    IsTool(m) || HasAnswered(m, ids)
  }

  function ProtectedBy(ids: set<string>): Message -> bool {
    (m: Message) => Protected(m, ids)
  }

  predicate HasToolCalls(ms: seq<Message>) {
    exists i :: 0 <= i < |ms| && ms[i].toolCalls.Some?
  }

  /** Tool results of the calls `ids` standing at the front of `ms`. */
  function LeadingResults(ms: seq<Message>, ids: set<string>): nat {
    if ms != [] && IsTool(ms[0]) && ms[0].toolCallId.Some? && ms[0].toolCallId.value in ids
    then 1 + LeadingResults(ms[1..], ids) else 0
  }

  function GroupSize(ms: seq<Message>, i: nat): (n: nat)
    requires i < |ms|
  {
    1 + LeadingResults(ms[i + 1..], CallIds(ms[i]))
  }

  /** An assistant message with calls, none of them answered, that is not all there is. */
  predicate IsGroup(ms: seq<Message>, ids: set<string>, i: nat)
    requires i < |ms|
  {
    && ms[i].role == Assistant && ms[i].toolCalls.Some? && ms[i].toolCalls.value != []
    && !HasAnswered(ms[i], ids)
    && GroupSize(ms, i) < |ms|
  }

  predicate IsPrunable(ms: seq<Message>, ids: set<string>, i: nat)
    requires i < |ms|
  {
    && i < |ms| - 1
    && !(i == 0 && IsUser(ms[0]) && HasToolCalls(ms))
    && !Protected(ms[i], ids)
  }

  function FirstGroup(ms: seq<Message>, ids: set<string>, i: nat): (r: Option<nat>)
    requires i <= |ms|
    ensures r.Some? ==> i <= r.value < |ms| && IsGroup(ms, ids, r.value)
    ensures forall j :: i <= j < (if r.Some? then r.value else |ms|) ==> !IsGroup(ms, ids, j)
    decreases |ms| - i
  {
    if i == |ms| then None else if IsGroup(ms, ids, i) then Some(i) else FirstGroup(ms, ids, i + 1)
  }

  function FirstPrunable(ms: seq<Message>, ids: set<string>, i: nat): (r: Option<nat>)
    requires i <= |ms|
    ensures r.Some? ==> i <= r.value < |ms| && IsPrunable(ms, ids, r.value)
    ensures forall j :: i <= j < (if r.Some? then r.value else |ms|) ==> !IsPrunable(ms, ids, j)
    decreases |ms| - i
  {
    if i == |ms| then None else if IsPrunable(ms, ids, i) then Some(i) else FirstPrunable(ms, ids, i + 1)
  }

  /** The message a round of pruning removes. */
  function Victim(ms: seq<Message>, ids: set<string>): (v: Option<nat>)
    ensures v.Some? ==> v.value < |ms| && !Protected(ms[v.value], ids) && |ms| > 1
  {
    var g := FirstGroup(ms, ids, 0);
    if g.Some? then g else FirstPrunable(ms, ids, 0)
  }

  function Prune(ms: seq<Message>, ids: set<string>, room: int): seq<Message>
    decreases |ms|
  {
    if TotalTokens(ms) <= room || |ms| <= 1 || Victim(ms, ids).None? then ms
    else Prune(RemoveAt(ms, Victim(ms, ids).value), ids, room)
  }

  lemma ResultsAreAnswers(ms: seq<Message>)
    ensures forall k :: 0 <= k < |ms| && IsTool(ms[k]) && ms[k].toolCallId.Some? ==>
              ms[k].toolCallId.value in AnsweredIds(ms)
  {
  }

  lemma NothingRemovable(ms: seq<Message>, ids: set<string>)
    requires Victim(ms, ids).None?
    ensures forall i :: 0 <= i < |ms| - 1 ==> Protected(ms[i], ids) || (i == 0 && IsUser(ms[0]) && HasToolCalls(ms))
  {
    forall i | 0 <= i < |ms| - 1 ensures Protected(ms[i], ids) || (i == 0 && IsUser(ms[0]) && HasToolCalls(ms)) {
      assert !IsPrunable(ms, ids, i);
    }
  }

  /** The "whole group" that pruning looks for is always the assistant message alone. */
  lemma GroupIsOneMessage(ms: seq<Message>, ids: set<string>, i: nat)
    requires i < |ms| && AnsweredIds(ms) <= ids && !HasAnswered(ms[i], ids)
    ensures GroupSize(ms, i) == 1
  {
    var rest := ms[i + 1..];
    assert rest != [] ==> rest[0] == ms[i + 1];
    ResultsAreAnswers(ms);
  }

  lemma AnsweredIdsRemoveAt(ms: seq<Message>, i: nat)
    requires i < |ms| && !IsTool(ms[i])
    ensures AnsweredIds(RemoveAt(ms, i)) == AnsweredIds(ms)
  {
    var r := RemoveAt(ms, i);
    forall id | id in AnsweredIds(ms) ensures id in AnsweredIds(r) {
      var k :| 0 <= k < |ms| && IsTool(ms[k]) && ms[k].toolCallId == Some(id);
      assert r[if k < i then k else k - 1] == ms[k];
    }
    forall id | id in AnsweredIds(r) ensures id in AnsweredIds(ms) {
      var k :| 0 <= k < |r| && IsTool(r[k]) && r[k].toolCallId == Some(id);
      assert ms[if k < i then k else k + 1] == r[k];
    }
  }

  /** Taking out a message none of whose calls is answered separates no result from its call. */
  lemma RemoveUnansweredIsPaired(ms: seq<Message>, i: nat)
    requires Paired(ms) && i < |ms| && !Protected(ms[i], AnsweredIds(ms))
    ensures Paired(RemoveAt(ms, i))
  {
    var a, m, b := ms[..i], ms[i], ms[i + 1..];
    assert ms == a + ([m] + b);
    PairedConcat({}, a, [m] + b);
    assert ([m] + b)[0] == m && ([m] + b)[1..] == b;
    ResultsAreAnswers(ms);
    assert b != [] ==> b[0] == ms[i + 1];
    PairedAnyStart(CallIds(m), OpenAfter({}, a), b);
    PairedConcat({}, a, b);
  }

  /**
   Pruning terminates with a subsequence that has every tool result and every answered call of the input, keeps
   pairing, never empties the list, and stays over the limit only when one message is left or every message but
   the last is protected (the opening request counting as such while tool calls are about).
   */
  lemma {:induction false} PruneIsSafe(ms: seq<Message>, ids: set<string>, room: int)
    requires ids == AnsweredIds(ms)
    ensures var r := Prune(ms, ids, room);
            && IsSubsequence(r, ms)
            && Filter(ProtectedBy(ids), r) == Filter(ProtectedBy(ids), ms)
            && (ms != [] ==> r != [])
            && (Paired(ms) ==> Paired(r))
            && AnsweredIds(r) == ids
            && (TotalTokens(r) > room && |r| > 1 ==>
                  forall i :: 0 <= i < |r| - 1 ==>
                    Protected(r[i], ids) || (i == 0 && IsUser(r[0]) && HasToolCalls(r)))
    decreases |ms|
  {
    if TotalTokens(ms) <= room || |ms| <= 1 || Victim(ms, ids).None? {
      SubsequenceReflexive(ms);
      if Victim(ms, ids).None? {
        NothingRemovable(ms, ids);
      }
    } else {
      var v := Victim(ms, ids).value;
      var n := RemoveAt(ms, v);
      AnsweredIdsRemoveAt(ms, v);
      PruneIsSafe(n, ids, room);
      SubsequenceOfRemoveAt(Prune(n, ids, room), ms, v);
      FilterRemoveAt(ProtectedBy(ids), ms, v);
      if Paired(ms) {
        RemoveUnansweredIsPaired(ms, v);
      }
    }
  }

  /** A last message that is not waiting for tool results. */
  ghost predicate EndsSettled(ms: seq<Message>, ids: set<string>) {
    ms != [] && (var last := ms[|ms| - 1]; last.role != Assistant || CallIds(last) == {} || HasAnswered(last, ids))
  }

  lemma VictimIsNotLast(ms: seq<Message>, ids: set<string>)
    requires EndsSettled(ms, ids) && Victim(ms, ids).Some?
    ensures Victim(ms, ids).value < |ms| - 1
  {
    var v := Victim(ms, ids).value;
    assert IsGroup(ms, ids, v) ==> ms[v].toolCalls.value[0] in CallIds(ms[v]);
  }

  /** Pruning removes the newest message only if it is an assistant message whose calls have no result yet. */
  lemma {:induction false} PruneKeepsLast(ms: seq<Message>, ids: set<string>, room: int)
    requires EndsSettled(ms, ids)
    ensures var r := Prune(ms, ids, room); r != [] && r[|r| - 1] == ms[|ms| - 1]
    decreases |ms|
  {
    if TotalTokens(ms) > room && |ms| > 1 && Victim(ms, ids).Some? {
      VictimIsNotLast(ms, ids);
      PruneKeepsLast(RemoveAt(ms, Victim(ms, ids).value), ids, room);
    }
  }

  // ---------------------------------------------------------------- what pruning does, seen from outside

  /** An assistant message one of whose calls has a result in the list. */
  ghost predicate IsAnswered(ms: seq<Message>, i: nat)
    requires i < |ms|
  {
    && ms[i].role == Assistant && ms[i].toolCalls.Some?
    && exists t :: 0 <= t < |ms| && ms[t].role == Tool && ms[t].toolCallId.Some?
                   && ms[t].toolCallId.value in ms[i].toolCalls.value
  }

  /** An assistant message with calls, none of which has a result. */
  ghost predicate IsWaiting(ms: seq<Message>, i: nat)
    requires i < |ms|
  {
    ms[i].role == Assistant && ms[i].toolCalls.Some? && ms[i].toolCalls.value != [] && !IsAnswered(ms, i)
  }

  /** A tool result, a call with a result, or the opening request of a list with calls. */
  ghost predicate MustStay(ms: seq<Message>, i: nat)
    requires i < |ms|
  {
    || ms[i].role == Tool
    || IsAnswered(ms, i)
    || (i == 0 && ms[0].role == User && exists k :: 0 <= k < |ms| && ms[k].toolCalls.Some?)
  }

  lemma AnsweredMeans(ms: seq<Message>, i: nat)
    requires i < |ms|
    ensures HasAnswered(ms[i], AnsweredIds(ms)) <==> IsAnswered(ms, i)
  {
    if HasAnswered(ms[i], AnsweredIds(ms)) {
      var id :| id in CallIds(ms[i]) && id in AnsweredIds(ms);
      var t :| 0 <= t < |ms| && IsTool(ms[t]) && ms[t].toolCallId.Some? && ms[t].toolCallId.value == id;
      assert ms[t].toolCallId.value in ms[i].toolCalls.value;
    }
    if IsAnswered(ms, i) {
      var t :| 0 <= t < |ms| && ms[t].role == Tool && ms[t].toolCallId.Some?
               && ms[t].toolCallId.value in ms[i].toolCalls.value;
      assert ms[t].toolCallId.value in CallIds(ms[i]) && ms[t].toolCallId.value in AnsweredIds(ms);
    }
  }

  lemma GroupMeans(ms: seq<Message>, i: nat)
    requires i < |ms| && |ms| > 1
    ensures IsGroup(ms, AnsweredIds(ms), i) <==> IsWaiting(ms, i)
  {
    AnsweredMeans(ms, i);
    if IsWaiting(ms, i) {
      GroupIsOneMessage(ms, AnsweredIds(ms), i);
    }
  }

  lemma PrunableMeans(ms: seq<Message>, i: nat)
    requires i < |ms|
    ensures IsPrunable(ms, AnsweredIds(ms), i) <==> i < |ms| - 1 && !MustStay(ms, i)
  {
    AnsweredMeans(ms, i);
  }

  /**
   Which message a round removes: the first assistant message waiting for results; or, if there is none, the first
   message before the last that need not stay; or, if there is none either, nothing.
   */
  lemma VictimMeans(ms: seq<Message>)
    requires |ms| > 1
    ensures var v := Victim(ms, AnsweredIds(ms));
            && (v.None? <==> (forall i: nat :: i < |ms| ==> !IsWaiting(ms, i))
                             && (forall i: nat :: i < |ms| - 1 ==> MustStay(ms, i)))
            && (v.Some? && IsWaiting(ms, v.value) ==> forall j: nat :: j < v.value ==> !IsWaiting(ms, j))
            && (v.Some? && !IsWaiting(ms, v.value) ==>
                  && (forall i: nat :: i < |ms| ==> !IsWaiting(ms, i))
                  && v.value < |ms| - 1 && !MustStay(ms, v.value)
                  && (forall j: nat :: j < v.value ==> MustStay(ms, j)))
  {
    forall i: nat | i < |ms|
      ensures IsGroup(ms, AnsweredIds(ms), i) <==> IsWaiting(ms, i)
      ensures IsPrunable(ms, AnsweredIds(ms), i) <==> i < |ms| - 1 && !MustStay(ms, i)
    {
      GroupMeans(ms, i);
      PrunableMeans(ms, i);
    }
  }

  /**
   Pruning removes nothing needlessly: a list that fits is left alone, and otherwise what is left, together with the
   message removed last, did not fit.
   */
  lemma {:induction false} PruneOnlyWhenNeeded(ms: seq<Message>, ids: set<string>, room: int)
      returns (before: seq<Message>, v: nat)
    ensures TotalTokens(ms) <= room ==> Prune(ms, ids, room) == ms
    ensures Prune(ms, ids, room) != ms ==>
              && v < |before| && Prune(ms, ids, room) == RemoveAt(before, v)
              && TotalTokens(before) > room && IsSubsequence(before, ms)
    decreases |ms|
  {
    before, v := ms, 0;
    SubsequenceReflexive(ms);
    if TotalTokens(ms) > room && |ms| > 1 && Victim(ms, ids).Some? {
      var first := Victim(ms, ids).value;
      var rest := RemoveAt(ms, first);
      if Prune(rest, ids, room) == rest {
        v := first;
      } else {
        before, v := PruneOnlyWhenNeeded(rest, ids, room);
        SubsequenceOfRemoveAt(before, ms, first);
      }
    }
  }

  /** Within the room, or one message, or nothing left that may be removed. */
  ghost predicate Settled(ms: seq<Message>, room: int) {
    || TotalTokens(ms) <= room
    || |ms| <= 1
    || ((forall i: nat :: i < |ms| ==> !IsWaiting(ms, i)) && (forall i: nat :: i < |ms| - 1 ==> MustStay(ms, i)))
  }

  /** So pruning ends. */
  lemma {:induction false} PruneEnds(ms: seq<Message>, room: int)
    ensures Settled(Prune(ms, AnsweredIds(ms), room), room)
    decreases |ms|
  {
    var ids := AnsweredIds(ms);
    if TotalTokens(ms) > room && |ms| > 1 {
      VictimMeans(ms);
      if Victim(ms, ids).Some? {
        var rest := RemoveAt(ms, Victim(ms, ids).value);
        AnsweredIdsRemoveAt(ms, Victim(ms, ids).value);
        PruneEnds(rest, room);
        assert Prune(ms, ids, room) == Prune(rest, ids, room);
      } else {
        assert Prune(ms, ids, room) == ms;
      }
    }
  }

  lemma {:induction false} UserCountRemoveAt(ms: seq<Message>, i: nat)
    requires i < |ms|
    ensures UserCount(RemoveAt(ms, i)) <= UserCount(ms)
  {
    var r := RemoveAt(ms, i);
    if i == 0 {
      assert r == ms[1..];
    } else {
      assert r[0] == ms[0] && r[1..] == RemoveAt(ms[1..], i - 1);
      UserCountRemoveAt(ms[1..], i - 1);
    }
  }

  lemma {:induction false} PruneAddsNoUsers(ms: seq<Message>, ids: set<string>, room: int)
    ensures UserCount(Prune(ms, ids, room)) <= UserCount(ms)
    decreases |ms|
  {
    if TotalTokens(ms) > room && |ms| > 1 && Victim(ms, ids).Some? {
      var v := Victim(ms, ids).value;
      UserCountRemoveAt(ms, v);
      PruneAddsNoUsers(RemoveAt(ms, v), ids, room);
    }
  }

  /** The opening request of a list with an answered call is never pruned. */
  lemma {:induction false} OpeningRequestStays(ms: seq<Message>, room: int)
    requires ms != [] && ms[0].role == User && exists i: nat :: i < |ms| && IsAnswered(ms, i)
    ensures var r := Prune(ms, AnsweredIds(ms), room); r != [] && r[0] == ms[0]
    decreases |ms|
  {
    if TotalTokens(ms) > room && |ms| > 1 && Victim(ms, AnsweredIds(ms)).Some? {
      VictimMeans(ms);
      var v := Victim(ms, AnsweredIds(ms)).value;
      var i: nat :| i < |ms| && IsAnswered(ms, i);
      assert ms[i].toolCalls.Some?;
      assert MustStay(ms, 0) && !IsWaiting(ms, 0);
      AnsweredIdsRemoveAt(ms, v);
      AnsweredMeans(ms, i);
      var rest, k := RemoveAt(ms, v), if i < v then i else i - 1;
      assert rest[k] == ms[i];
      AnsweredMeans(rest, k);
      OpeningRequestStays(rest, room);
    }
  }

  // ---------------------------------------------------------------- the context

  function Limited(maxTurns: Option<nat>, ms: seq<Message>): seq<Message> {
    if maxTurns.None? then ms else DropTurns(ms, Excess(ms, maxTurns.value))
  }

  function Fitted(maxTurns: Option<nat>, room: int, ms: seq<Message>): seq<Message> {
    Prune(Limited(maxTurns, ms), AnsweredIds(Limited(maxTurns, ms)), room)
  }

  /** The history after a batch; an empty one changes nothing. */
  function Added(maxTurns: Option<nat>, room: int, ms: seq<Message>, batch: seq<Message>): seq<Message> {
    if batch == [] then ms else Fitted(maxTurns, room, ms + batch)
  }

  /** What holds after messages were added: both limits kept, and nothing lost that fitted. */
  lemma AddedMeans(maxTurns: Option<nat>, room: int, ms: seq<Message>, batch: seq<Message>)
    requires batch != []
    ensures var r := Added(maxTurns, room, ms, batch);
            && (maxTurns.Some? ==> UserCount(r) <= maxTurns.value)
            && Settled(r, room)
            && ((maxTurns.Some? ==> UserCount(ms + batch) <= maxTurns.value) && TotalTokens(ms + batch) <= room
                ==> r == ms + batch)
  {
    var limited := Limited(maxTurns, ms + batch);
    if maxTurns.Some? {
      LimitTurnsMeans(ms + batch, maxTurns.value);
      LimitTurnsMeans(limited, maxTurns.value);
    }
    PruneAddsNoUsers(limited, AnsweredIds(limited), room);
    PruneEnds(limited, room);
    var before, v := PruneOnlyWhenNeeded(limited, AnsweredIds(limited), room);
  }

  class ConversationContext {
    const systemPrompt: string
    const maxTokens: nat
    const maxTurns: Option<nat>
    var messages: seq<Message>
    var tokenCount: nat

    /** The running count is the true count. */
    ghost predicate Valid()
      reads this
    {
      tokenCount == TotalTokens(messages)
    }

    /** Tokens left for messages beside the system prompt. */
    function Room(): int {
      maxTokens - |systemPrompt| / 4
    }

    constructor (systemPrompt: string, maxTokens: nat, maxTurns: Option<nat>)
      ensures Valid() && messages == []
      ensures this.systemPrompt == systemPrompt && this.maxTokens == maxTokens && this.maxTurns == maxTurns
    {
      this.systemPrompt, this.maxTokens, this.maxTurns := systemPrompt, maxTokens, maxTurns;
      messages, tokenCount := [], 0;
    }

    /** The count the limit is compared with. */
    function TokenCount(): nat
      reads this
    {
      tokenCount + |systemPrompt| / 4
    }

    method AddMessage(message: Message)
      requires Valid()
      modifies this
      ensures Valid() && messages == Added(maxTurns, Room(), old(messages), [message])
      ensures maxTurns.Some? ==> UserCount(messages) <= maxTurns.value
      ensures Settled(messages, maxTokens - |systemPrompt| / 4)
      ensures (maxTurns.Some? ==> UserCount(old(messages) + [message]) <= maxTurns.value)
              && TotalTokens(old(messages) + [message]) + |systemPrompt| / 4 <= maxTokens
              ==> messages == old(messages) + [message]
    {
      AddedMeans(maxTurns, Room(), messages, [message]);
      TotalTokensConcat(messages, [message]);
      tokenCount := tokenCount + |message.content| / 4;
      messages := messages + [message];
      LimitTurns();
      PruneIfNeeded();
    }

    method AddBatch(batch: seq<Message>)
      requires Valid()
      modifies this
      ensures Valid() && messages == Added(maxTurns, Room(), old(messages), batch)
      ensures batch == [] ==> messages == old(messages)
      ensures batch != [] ==>
                (maxTurns.Some? ==> UserCount(messages) <= maxTurns.value) && Settled(messages, maxTokens - |systemPrompt| / 4)
      ensures (maxTurns.Some? ==> UserCount(old(messages) + batch) <= maxTurns.value)
              && TotalTokens(old(messages) + batch) + |systemPrompt| / 4 <= maxTokens
              ==> messages == old(messages) + batch
    {
      if batch == [] {
        assert messages + batch == messages;
        return;
      }
      AddedMeans(maxTurns, Room(), messages, batch);
      var i := 0;
      while i < |batch|
        invariant 0 <= i <= |batch|
        invariant messages == old(messages)
        invariant tokenCount == TotalTokens(messages) + TotalTokens(batch[..i])
      {
        assert batch[..i + 1] == batch[..i] + [batch[i]];
        TotalTokensConcat(batch[..i], [batch[i]]);
        tokenCount := tokenCount + |batch[i].content| / 4;
        i := i + 1;
      }
      assert batch[..i] == batch;
      TotalTokensConcat(messages, batch);
      messages := messages + batch;
      LimitTurns();
      PruneIfNeeded();
    }

    method Clear()
      modifies this
      ensures Valid() && messages == []
    {
      messages := [];
      tokenCount := 0;
    }

    method ReplaceMessages(ms: seq<Message>)
      modifies this
      ensures Valid() && messages == ms
    {
      messages := ms;
      tokenCount := 0;
      var i := 0;
      while i < |ms|
        invariant 0 <= i <= |ms| && messages == ms
        invariant tokenCount == TotalTokens(ms[..i])
      {
        assert ms[..i + 1] == ms[..i] + [ms[i]];
        TotalTokensConcat(ms[..i], [ms[i]]);
        tokenCount := tokenCount + |ms[i].content| / 4;
        i := i + 1;
      }
      assert ms[..i] == ms;
    }

    /** Remove one message, keeping the count; the subtraction never has to stop at zero. */
    method Remove(i: nat)
      requires Valid() && i < |messages|
      modifies this
      ensures Valid() && messages == RemoveAt(old(messages), i)
      ensures tokenCount == old(tokenCount) - Tokens(old(messages)[i])
    {
      TotalTokensRemoveAt(messages, i);
      var removed := messages[i];
      messages := messages[..i] + messages[i + 1..];
      tokenCount := SaturatingSub(tokenCount, |removed.content| / 4);
    }

    method LimitTurns()
      requires Valid()
      modifies this
      ensures Valid() && messages == Limited(maxTurns, old(messages))
      ensures maxTurns.None? ==> messages == old(messages)
      ensures maxTurns.Some? ==>
                var max, was := maxTurns.value, old(messages);
                && (UserCount(was) <= max ==> messages == was)
                && messages == Pick(was, LastTurns(was, max), |was|)
    {
      if maxTurns.None? {
        return;
      }
      var max := maxTurns.value;
      LimitTurnsIsFilter(messages, max);
      LimitTurnsMeans(messages, max);
      while UserCount(messages) > max
        invariant Valid()
        invariant DropTurns(messages, Excess(messages, max)) == DropTurns(old(messages), Excess(old(messages), max))
        decreases UserCount(messages)
      {
        ghost var before := messages;
        var p := OldestUser(messages);
        Remove(p);
        ghost var once := messages;
        if p < |messages| && messages[p].role == Assistant {
          Remove(p);
        }
        RoundByRemovals(before, p, once);
        RoundTowardsLimit(before, max, messages);
      }
    }

    method PruneIfNeeded()
      requires Valid()
      modifies this
      ensures Valid() && messages == Prune(old(messages), AnsweredIds(old(messages)), Room())
      ensures TotalTokens(old(messages)) + |systemPrompt| / 4 <= maxTokens ==> messages == old(messages)
      ensures Settled(messages, maxTokens - |systemPrompt| / 4)
    {
      PruneEnds(messages, Room());
      var ids := AnsweredIds(messages);
      while TokenCount() > maxTokens && |messages| > 1
        invariant Valid() && AnsweredIds(messages) == ids
        invariant Prune(messages, ids, Room()) == Prune(old(messages), ids, Room())
        decreases |messages|
      {
        ghost var before := messages;
        var group := FindPrunableToolGroup(ids);
        if group.Some? {
          var (start, count) := group.value;
          GroupIsOneMessage(messages, ids, start);
          var k := 0;
          while k < count
            invariant 0 <= k <= count == 1
            invariant Valid() && messages == if k == 0 then before else RemoveAt(before, start)
          {
            Remove(start);
            k := k + 1;
          }
          AnsweredIdsRemoveAt(before, start);
        } else {
          var index := FindPrunableMessage(ids);
          if index.None? {
            return;
          }
          Remove(index.value);
          AnsweredIdsRemoveAt(before, index.value);
        }
      }
    }

    method FindPrunableToolGroup(ids: set<string>) returns (r: Option<(nat, nat)>)
      ensures r.Some? <==> FirstGroup(messages, ids, 0).Some?
      ensures r.Some? ==> r.value.0 == FirstGroup(messages, ids, 0).value
                          && r.value.1 == GroupSize(messages, r.value.0)
    {
      var i := 0;
      while i < |messages|
        invariant 0 <= i <= |messages|
        invariant FirstGroup(messages, ids, i) == FirstGroup(messages, ids, 0)
      {
        var m := messages[i];
        if m.role == Assistant && m.toolCalls.Some? && m.toolCalls.value != []
           && !(exists id :: id in m.toolCalls.value && id in ids)
        {
          var size := 1;
          var k := i + 1;
          while k < |messages| && IsTool(messages[k]) && messages[k].toolCallId.Some?
                && messages[k].toolCallId.value in m.toolCalls.value
            invariant i < k <= |messages| && size == k - i
            invariant size + LeadingResults(messages[k..], CallIds(m)) == GroupSize(messages, i)
          {
            assert messages[k..][0] == messages[k] && messages[k..][1..] == messages[k + 1..];
            size := size + 1;
            k := k + 1;
          }
          assert k < |messages| ==> messages[k..][0] == messages[k];
          assert size == GroupSize(messages, i);
          if size < |messages| {
            return Some((i, size));
          }
        }
        i := i + 1;
      }
      return None;
    }

    method FindPrunableMessage(ids: set<string>) returns (r: Option<nat>)
      requires |messages| > 0
      ensures r == FirstPrunable(messages, ids, 0)
    {
      var i := 0;
      while i < |messages| - 1
        invariant 0 <= i <= |messages| - 1
        invariant FirstPrunable(messages, ids, i) == FirstPrunable(messages, ids, 0)
      {
        var m := messages[i];
        var hasToolCalls := HasToolCalls(messages);
        if i == 0 && m.role == User && hasToolCalls {
        } else if m.role == Assistant && m.toolCalls.Some? && exists id :: id in m.toolCalls.value && id in ids {
        } else if m.role == Tool {
        } else {
          return Some(i);
        }
        i := i + 1;
      }
      assert FirstPrunable(messages, ids, |messages|).None?;
      return None;
    }

    /** `text` stands for the digest of the section that is replaced. */
    method Summarize(text: string)
      requires Valid()
      modifies this
      ensures Valid()
      ensures messages == if |old(messages)| <= 7 then old(messages)
                          else ReplaceMiddle(old(messages), 2, 4, SummaryOf(text))
      ensures |old(messages)| > 7 ==>
                exists a: nat, b: nat :: CutAt(old(messages), 2, 4, a, b) && Summarizes(old(messages), a, b, text, messages)
      ensures Paired(old(messages)) ==> Paired(messages)
    {
      var n := |messages|;
      if n <= 7 {
        return;
      }
      var start, end := SnapBoundaries(messages, 2, n - 4);
      ReplaceBetween(messages, 2, 4, SummaryOf(text));
      assert CutAt(messages, 2, 4, start, end);
      if Paired(messages) {
        ReplaceMiddleIsPaired(messages, 2, 4, SummaryOf(text));
      }
      if end <= start {
        return;
      }
      ReplaceMessages(messages[..start] + [SummaryOf(text)] + messages[end..]);
    }
  }

  function SummaryOf(text: string): Message {
    Message(System, text, Some("compaction_summary"), None, None)
  }

  // ---------------------------------------------------------------- a growing history

  /** The history after a series of batches. */
  function Grown(maxTurns: Option<nat>, room: int, ms: seq<Message>, batches: seq<seq<Message>>): seq<Message>
    decreases |batches|
  {
    if batches == [] then ms else Grown(maxTurns, room, Added(maxTurns, room, ms, batches[0]), batches[1..])
  }

  /** At no batch does the turn limit strand a result. */
  ghost predicate NeverStrands(maxTurns: Option<nat>, room: int, ms: seq<Message>, batches: seq<seq<Message>>)
    decreases |batches|
  {
    maxTurns.None? || batches == [] ||
    ( AllAdopted(ms + batches[0], Excess(ms + batches[0], maxTurns.value))
      && NeverStrands(maxTurns, room, Added(maxTurns, room, ms, batches[0]), batches[1..]))
  }

  lemma BatchStaysPaired(maxTurns: Option<nat>, room: int, ms: seq<Message>, batch: seq<Message>)
    requires Paired(ms) && Paired(batch)
    requires maxTurns.Some? ==> AllAdopted(ms + batch, Excess(ms + batch, maxTurns.value))
    ensures Paired(Added(maxTurns, room, ms, batch))
  {
    PairedAnyStart({}, OpenAfter({}, ms), batch);
    PairedConcat({}, ms, batch);
    if maxTurns.Some? {
      LimitTurnsPairedIff(ms + batch, maxTurns.value);
    }
    var limited := Limited(maxTurns, ms + batch);
    PruneIsSafe(limited, AnsweredIds(limited), room);
  }

  /**
   A history that grows by batches each of which holds its calls with their results never separates the two:
   without a turn limit always, and with one as long as no turn it drops strands a result.
   */
  lemma {:induction false} BatchesStayPaired(maxTurns: Option<nat>, room: int, ms: seq<Message>, batches: seq<seq<Message>>)
    requires Paired(ms) && NeverStrands(maxTurns, room, ms, batches)
    requires forall i :: 0 <= i < |batches| ==> Paired(batches[i])
    ensures Paired(Grown(maxTurns, room, ms, batches))
    decreases |batches|
  {
    if batches != [] {
      BatchStaysPaired(maxTurns, room, ms, batches[0]);
      BatchesStayPaired(maxTurns, room, Added(maxTurns, room, ms, batches[0]), batches[1..]);
    }
  }
}

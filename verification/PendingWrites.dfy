/**
 Counting writes in flight, and waiting for them to finish.

 Any number of guards and waiters run side by side; each step below is one atomic operation of one of them.  The
 notifier wakes every waiter that enrolled before the notification, so it is modelled by the number of
 notifications so far: a waiter remembers the number it saw when it enrolled.
 */
module PendingWrites {
  import opened Common

  type GuardId = nat
  type WaiterId = nat

  /** Where a waiter stands in its loop. */
  datatype Waiter =
    | Looking
    | Enrolling
    | LookingAgain(seen: nat)
    | Parked(seen: nat)
    | Expired
    | Returned(idle: bool)

  /** `notifying` are droppers that brought the count to zero and have yet to notify. */
  datatype State = State(
    inFlight: nat,
    guards: set<GuardId>,
    notifying: set<GuardId>,
    notified: nat,
    waiters: map<WaiterId, Waiter>)

  const START := State(0, {}, {}, 0, map[])

  datatype Step =
    | Take(g: GuardId)
    | Drop(g: GuardId)
    | Notify(g: GuardId)
    | Arrive(w: WaiterId)
    | Look(w: WaiterId)
    | Enroll(w: WaiterId)
    | LookAgain(w: WaiterId)
    | Wake(w: WaiterId)
    | Expire(w: WaiterId)
    | LookLast(w: WaiterId)

  predicate Enabled(s: State, e: Step) {
    match e
    case Take(g) => g !in s.guards && g !in s.notifying
    case Drop(g) => g in s.guards
    case Notify(g) => g in s.notifying
    case Arrive(w) => w !in s.waiters
    case Look(w) => w in s.waiters && s.waiters[w].Looking?
    case Enroll(w) => w in s.waiters && s.waiters[w].Enrolling?
    case LookAgain(w) => w in s.waiters && s.waiters[w].LookingAgain?
    case Wake(w) => w in s.waiters && s.waiters[w].Parked? && s.waiters[w].seen != s.notified
    case Expire(w) => w in s.waiters && s.waiters[w].Parked?
    case LookLast(w) => w in s.waiters && s.waiters[w].Expired?
  }

  function Move(s: State, w: WaiterId, to: Waiter): State {
    s.(waiters := s.waiters[w := to])
  }

  function Apply(s: State, e: Step): State
    requires Enabled(s, e)
  {
    match e
    case Take(g) => s.(inFlight := s.inFlight + 1, guards := s.guards + {g})
    case Drop(g) =>
      s.(inFlight := SaturatingSub(s.inFlight, 1), guards := s.guards - {g},
         notifying := if s.inFlight == 1 then s.notifying + {g} else s.notifying)
    case Notify(g) => s.(notifying := s.notifying - {g}, notified := s.notified + 1)
    case Arrive(w) => Move(s, w, Looking)
    case Look(w) => Move(s, w, if s.inFlight == 0 then Returned(true) else Enrolling)
    case Enroll(w) => Move(s, w, LookingAgain(s.notified))
    case LookAgain(w) => Move(s, w, if s.inFlight == 0 then Returned(true) else Parked(s.waiters[w].seen))
    case Wake(w) => Move(s, w, Looking)
    case Expire(w) => Move(s, w, Expired)
    case LookLast(w) => Move(s, w, Returned(s.inFlight == 0))
  }

  predicate IsRun(s: State, es: seq<Step>)
    decreases |es|
  {
    es == [] || (Enabled(s, es[0]) && IsRun(Apply(s, es[0]), es[1..]))
  }

  function Run(s: State, es: seq<Step>): State
    requires IsRun(s, es)
    decreases |es|
  {
    if es == [] then s else Run(Apply(s, es[0]), es[1..])
  }

  // ---------------------------------------------------------------- the invariant

  /** A parked waiter nobody has signalled: something is in flight, or a dropper is about to notify. */
  ghost predicate WillHear(s: State, w: WaiterId)
    requires w in s.waiters
  {
    match s.waiters[w]
    case LookingAgain(seen) => seen <= s.notified
    case Parked(seen) => seen <= s.notified && (seen == s.notified ==> s.inFlight > 0 || s.notifying != {})
    case _ => true
  }

  ghost predicate Inv(s: State) {
    && s.inFlight == |s.guards|
    && (forall w :: w in s.waiters ==> WillHear(s, w))
  }

  lemma StepKeepsInv(s: State, e: Step)
    requires Inv(s) && Enabled(s, e)
    ensures Inv(Apply(s, e))
  {
    var n := Apply(s, e);
    forall w | w in n.waiters ensures WillHear(n, w) {
      if w in s.waiters {
        assert WillHear(s, w);
      }
      if e.Drop? && s.inFlight == 1 {
        assert e.g in n.notifying;
      }
    }
  }

  /** However the steps interleave, the count is the number of live guards and no wake-up is lost. */
  lemma {:induction false} EveryRunKeepsInv(s: State, es: seq<Step>)
    requires Inv(s) && IsRun(s, es)
    ensures Inv(Run(s, es))
    decreases |es|
  {
    if es != [] {
      StepKeepsInv(s, es[0]);
      EveryRunKeepsInv(Apply(s, es[0]), es[1..]);
    }
  }

  /** Only the guard dropped last has a notification to send, and every guard can be taken and dropped. */
  lemma LastDropNotifies(s: State, g: GuardId)
    requires Inv(s) && g !in s.notifying
    ensures g !in s.guards ==> Enabled(s, Take(g)) && Apply(s, Take(g)).inFlight == s.inFlight + 1
    ensures g in s.guards ==> Enabled(s, Drop(g)) && Apply(s, Drop(g)).inFlight == s.inFlight - 1
    ensures g in s.guards ==> (g in Apply(s, Drop(g)).notifying <==> s.guards == {g})
  {
    if g in s.guards {
      assert s.guards == (s.guards - {g}) + {g};
      assert |s.guards - {g}| == 0 <==> s.guards - {g} == {};
    }
  }

  // ---------------------------------------------------------------- what waiting achieves

  /**
   Once nothing is in flight and every notification has been sent, each waiter still in its loop gets out by its
   own steps alone, at most two of them, and reports idle: it is not left to its timeout.
   */
  lemma QuietWaiterReturns(es: seq<Step>, w: WaiterId) returns (own: seq<Step>)
    requires IsRun(START, es)
    requires var s := Run(START, es);
             s.inFlight == 0 && s.notifying == {} && w in s.waiters && !s.waiters[w].Returned?
    ensures |own| <= 2 && forall i :: 0 <= i < |own| ==>
              own[i] in {Look(w), Enroll(w), LookAgain(w), Wake(w), LookLast(w)}
    ensures IsRun(Run(START, es), own)
    ensures w in Run(Run(START, es), own).waiters && Run(Run(START, es), own).waiters[w] == Returned(true)
  {
    var s := Run(START, es);
    EveryRunKeepsInv(START, es);
    assert WillHear(s, w);
    match s.waiters[w] {
      case Looking =>
        own := [Look(w)];
        OneStep(s, Look(w));
      case Enrolling =>
        own := [Enroll(w), LookAgain(w)];
        TwoSteps(s, Enroll(w), LookAgain(w));
      case LookingAgain(_) =>
        own := [LookAgain(w)];
        OneStep(s, LookAgain(w));
      case Parked(_) =>
        own := [Wake(w), Look(w)];
        TwoSteps(s, Wake(w), Look(w));
      case Expired =>
        own := [LookLast(w)];
        OneStep(s, LookLast(w));
    }
  }

  lemma OneStep(s: State, e: Step)
    requires Enabled(s, e)
    ensures IsRun(s, [e]) && Run(s, [e]) == Apply(s, e)
  {
    assert [e][1..] == [];
  }

  lemma TwoSteps(s: State, e: Step, f: Step)
    requires Enabled(s, e) && Enabled(Apply(s, e), f)
    ensures IsRun(s, [e, f]) && Run(s, [e, f]) == Apply(Apply(s, e), f)
  {
    assert [e, f][1..] == [f];
    OneStep(Apply(s, e), f);
  }

  /** The state in which step `k` of a run is taken. */
  function Before(s: State, es: seq<Step>, k: nat): State
    requires IsRun(s, es) && k < |es|
    decreases k
  {
    if k == 0 then s else Before(Apply(s, es[0]), es[1..], k - 1)
  }

  /**
   `wait_idle` says true only if at one of the waiter's own looks no write was in flight and no guard was alive;
   and false only if at its last look some were.
   */
  lemma {:induction false} ReturnedWasObserved(s: State, es: seq<Step>, w: WaiterId) returns (k: nat)
    requires Inv(s) && IsRun(s, es)
    requires w in s.waiters ==> !s.waiters[w].Returned?
    requires var end := Run(s, es); w in end.waiters && end.waiters[w].Returned?
    ensures k < |es| && es[k] in {Look(w), LookAgain(w), LookLast(w)}
    ensures var at := Before(s, es, k);
            Run(s, es).waiters[w].idle <==> at.inFlight == 0
    ensures Run(s, es).waiters[w].idle <==> Before(s, es, k).guards == {}
    decreases |es|
  {
    var n := Apply(s, es[0]);
    StepKeepsInv(s, es[0]);
    if w in n.waiters && n.waiters[w].Returned? {
      k := 0;
      ReturnedStays(n, es[1..], w);
      assert s.inFlight == |s.guards|;
    } else {
      var j := ReturnedWasObserved(n, es[1..], w);
      k := j + 1;
      assert es[1..][j] == es[k];
    }
  }

  lemma {:induction false} ReturnedStays(s: State, es: seq<Step>, w: WaiterId)
    requires IsRun(s, es) && w in s.waiters && s.waiters[w].Returned?
    ensures w in Run(s, es).waiters && Run(s, es).waiters[w] == s.waiters[w]
    decreases |es|
  {
    if es != [] {
      ReturnedStays(Apply(s, es[0]), es[1..], w);
    }
  }
}

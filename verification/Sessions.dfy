/**
 The control plane's router and its per-session actors.

 The router takes commands one by one and passes each execution to the actor of its session, over a queue of
 bounded length.  Each actor works through its queue alone, resetting its controller before and after every
 execution.  A `World` is the state of all of them; each `Action` is one atomic step of one of them, so a run is
 any interleaving.
 */
module Sessions {
  import opened Common
  import opened Controller

  type SessionId = string
  /** One execution request with its reply channel. */
  type Request = nat

  const QUEUE_CAPACITY: nat := 256

  datatype Job = Execute(r: Request) | Stop

  /** Where an actor stands: between two resets the agent runs; each reset wipes steers, then notices. */
  datatype Phase =
    | Waiting
    | Received(r: Request)
    | Clearing(r: Request)
    | Running(r: Request)
    | Returned(r: Request)
    | ClearingAfter(r: Request)
    | Answering(r: Request)
    | Ended

  /** Something said to a session, and the execution it was said during. */
  datatype Remark = Remark(text: string, during: Option<Request>)

  datatype Session = Session(
    queue: seq<Job>,
    phase: Phase,
    state: RuntimeState,
    steers: Mailbox<Remark>,
    notices: Mailbox<Remark>,
    finished: seq<Request>)

  const NEW_SESSION := Session([], Waiting, Idle, EmptyBox(), EmptyBox(), [])

  datatype Router = Routing | Stopping(todo: set<SessionId>, current: Option<SessionId>) | Down

  /** `dispatched`, `answered`, `refused` and `heard` record what happened. */
  datatype World = World(
    router: Router,
    sessions: map<SessionId, Session>,
    dispatched: map<SessionId, seq<Request>>,
    issued: set<Request>,
    answered: seq<Request>,
    refused: set<Request>,
    heard: seq<(Request, Remark)>)

  const START := World(Routing, map[], map[], {}, [], {}, [])

  datatype Action =
    | Dispatch(id: SessionId, r: Request)
    | Refuse(r: Request)
    | Control(id: SessionId, c: Command)
    | BeginShutdown
    | ShutdownCancel(id: SessionId)
    | ShutdownSend(id: SessionId)
    | EndShutdown
    | Receive(id: SessionId)
    | ClearSteers(id: SessionId)
    | ClearNotices(id: SessionId)
    | AgentReturns(id: SessionId)
    | Answer(id: SessionId)
    | SaySteer(id: SessionId, text: string)
    | SayNote(id: SessionId, text: string)
    | HearSteers(id: SessionId)
    | HearNotices(id: SessionId)

  // ---------------------------------------------------------------- steps

  function Current(p: Phase): seq<Request> {
    if p.Waiting? || p.Ended? then [] else [p.r]
  }

  function During(p: Phase): Option<Request> {
    if p.Waiting? || p.Ended? then None else Some(p.r)
  }

  function Requests(q: seq<Job>): seq<Request> {
    if q == [] then [] else if q[0].Execute? then [q[0].r] + Requests(q[1..]) else Requests(q[1..])
  }

  /** While a reset is under way the run state is locked. */
  predicate Unlocked(s: Session) {
    !s.phase.Clearing? && !s.phase.ClearingAfter?
  }

  function Lookup(w: World, id: SessionId): Session {
    if id in w.sessions then w.sessions[id] else NEW_SESSION
  }

  function Set(w: World, id: SessionId, s: Session): World {
    w.(sessions := w.sessions[id := s])
  }

  predicate Enabled(w: World, a: Action) {
    match a
    case Dispatch(id, r) => w.router == Routing && r !in w.issued && |Lookup(w, id).queue| < QUEUE_CAPACITY
    case Refuse(r) => w.router == Routing && r !in w.issued
    case Control(id, c) => w.router == Routing && (id in w.sessions ==> Unlocked(w.sessions[id]))
    case BeginShutdown => w.router == Routing
    case ShutdownCancel(id) =>
      w.router.Stopping? && w.router.current == None && id in w.router.todo && id in w.sessions
      && Unlocked(w.sessions[id])
    case ShutdownSend(id) =>
      w.router.Stopping? && w.router.current == Some(id) && id in w.sessions
      && |w.sessions[id].queue| < QUEUE_CAPACITY
    case EndShutdown => w.router == Stopping({}, None)
    case Receive(id) => id in w.sessions && w.sessions[id].phase == Waiting && w.sessions[id].queue != []
    case ClearSteers(id) => id in w.sessions && (w.sessions[id].phase.Received? || w.sessions[id].phase.Returned?)
    case ClearNotices(id) => id in w.sessions && !Unlocked(w.sessions[id])
    case AgentReturns(id) => id in w.sessions && w.sessions[id].phase.Running?
    case Answer(id) => id in w.sessions && w.sessions[id].phase.Answering?
    case SaySteer(id, _) => id in w.sessions
    case SayNote(id, _) => id in w.sessions
    case HearSteers(id) => id in w.sessions && w.sessions[id].phase.Running?
    case HearNotices(id) => id in w.sessions && w.sessions[id].phase.Running?
  }

  /** What an action of its own session does to that session. */
  function SessionStep(s: Session, a: Action): Session {
    match a
    case Dispatch(_, r) => s.(queue := s.queue + [Execute(r)])
    case Control(_, c) => s.(state := Commanded(s.state, c))
    case ShutdownCancel(_) => s.(state := Cancelled)
    case ShutdownSend(_) => s.(queue := s.queue + [Stop])
    case Receive(_) =>
      if s.queue == [] then s
      else s.(queue := s.queue[1..], phase := if s.queue[0].Execute? then Received(s.queue[0].r) else Ended)
    case ClearSteers(_) =>
      s.(state := Idle, steers := EmptyBox(),
         phase := if s.phase.Received? then Clearing(s.phase.r)
                  else if s.phase.Returned? then ClearingAfter(s.phase.r) else s.phase)
    case ClearNotices(_) =>
      s.(notices := EmptyBox(),
         phase := if s.phase.Clearing? then Phase.Running(s.phase.r)
                  else if s.phase.ClearingAfter? then Answering(s.phase.r) else s.phase)
    case AgentReturns(_) => s.(phase := if s.phase.Running? then Returned(s.phase.r) else s.phase)
    case Answer(_) => s.(phase := Waiting, finished := s.finished + Current(s.phase))
    case SaySteer(_, text) => s.(steers := PutIn(s.steers, Remark(text, During(s.phase))))
    case SayNote(_, text) => s.(notices := PutIn(s.notices, Remark(text, During(s.phase))))
    case HearSteers(_) => s.(steers := TakeOut(s.steers))
    case HearNotices(_) => s.(notices := TakeOut(s.notices))
    case _ => s
  }

  function Told(r: Request, remarks: seq<Remark>): seq<(Request, Remark)> {
    seq(|remarks|, i requires 0 <= i < |remarks| => (r, remarks[i]))
  }

  function Dispatched(w: World, id: SessionId): seq<Request> {
    if id in w.dispatched then w.dispatched[id] else []
  }

  function Apply(w: World, a: Action): World
    requires Enabled(w, a)
  {
    match a
    case Dispatch(id, r) =>
      Set(w, id, SessionStep(Lookup(w, id), a))
      .(dispatched := w.dispatched[id := Dispatched(w, id) + [r]], issued := w.issued + {r})
    case Refuse(r) => w.(issued := w.issued + {r}, refused := w.refused + {r}, answered := w.answered + [r])
    case Control(id, c) => if id in w.sessions then Set(w, id, SessionStep(w.sessions[id], a)) else w
    case BeginShutdown => w.(router := Stopping(w.sessions.Keys, None))
    case ShutdownCancel(id) =>
      Set(w, id, SessionStep(w.sessions[id], a)).(router := w.router.(current := Some(id)))
    case ShutdownSend(id) =>
      Set(w, id, SessionStep(w.sessions[id], a)).(router := Stopping(w.router.todo - {id}, None))
    case EndShutdown => w.(router := Down)
    case Answer(id) =>
      Set(w, id, SessionStep(w.sessions[id], a)).(answered := w.answered + Current(w.sessions[id].phase))
    case HearSteers(id) =>
      var s := w.sessions[id];
      Set(w, id, SessionStep(s, a)).(heard := w.heard + Told(s.phase.r, s.steers.pending))
    case HearNotices(id) =>
      var s := w.sessions[id];
      Set(w, id, SessionStep(s, a)).(heard := w.heard + Told(s.phase.r, s.notices.pending))
    case _ => Set(w, a.id, SessionStep(w.sessions[a.id], a))
  }

  predicate IsRun(w: World, acts: seq<Action>)
    decreases |acts|
  {
    acts == [] || (Enabled(w, acts[0]) && IsRun(Apply(w, acts[0]), acts[1..]))
  }

  function Run(w: World, acts: seq<Action>): World
    requires IsRun(w, acts)
    decreases |acts|
  {
    if acts == [] then w else Run(Apply(w, acts[0]), acts[1..])
  }

  // ---------------------------------------------------------------- one session

  /** The stop order, if it has come, is the last in the queue; an ended actor has nothing queued. */
  ghost predicate StopIsLast(s: Session) {
    && (forall i :: 0 <= i < |s.queue| - 1 ==> s.queue[i].Execute?)
    && (s.phase.Ended? ==> s.queue == [])
  }

  predicate ToldToStop(s: Session) {
    s.phase.Ended? || (s.queue != [] && s.queue[|s.queue| - 1].Stop?)
  }

  ghost predicate AllDuring(remarks: seq<Remark>, r: Request) {
    forall i :: 0 <= i < |remarks| ==> remarks[i].during == Some(r)
  }

  /** From the wipe on, everything waiting to be heard was said during the current execution. */
  ghost predicate OnlyCurrent(s: Session) {
    && Balanced(s.steers) && Balanced(s.notices)
    && (s.phase.Clearing? || s.phase.Running? || s.phase.Returned? ==> AllDuring(s.steers.pending, s.phase.r))
    && (s.phase.Running? || s.phase.Returned? || s.phase.ClearingAfter? ==> AllDuring(s.notices.pending, s.phase.r))
  }

  /** Finished, then the one at work, then the queued: that is what was dispatched, in order. */
  ghost predicate InOrder(s: Session, dispatched: seq<Request>) {
    dispatched == s.finished + Current(s.phase) + Requests(s.queue)
  }

  ghost predicate SessionOk(s: Session, dispatched: seq<Request>) {
    StopIsLast(s) && OnlyCurrent(s) && InOrder(s, dispatched) && |s.queue| <= QUEUE_CAPACITY
  }

  lemma {:induction false} RequestsSnoc(q: seq<Job>, j: Job)
    ensures Requests(q + [j]) == if j.Execute? then Requests(q) + [j.r] else Requests(q)
  {
    if q == [] {
      assert (q + [j])[0] == j && (q + [j])[1..] == [];
    } else {
      assert (q + [j])[0] == q[0] && (q + [j])[1..] == q[1..] + [j];
      RequestsSnoc(q[1..], j);
    }
  }

  lemma Regroup(a: seq<Request>, b: seq<Request>, c: seq<Request>, r: Request)
    ensures (a + b + c) + [r] == a + b + (c + [r])
  {
  }

  lemma QueueingKeepsOrder(s: Session, d: seq<Request>, j: Job)
    requires SessionOk(s, d) && !ToldToStop(s) && |s.queue| < QUEUE_CAPACITY
    ensures SessionOk(s.(queue := s.queue + [j]), if j.Execute? then d + [j.r] else d)
  {
    var n := s.(queue := s.queue + [j]);
    RequestsSnoc(s.queue, j);
    if j.Execute? {
      Regroup(s.finished, Current(s.phase), Requests(s.queue), j.r);
      assert InOrder(n, d + [j.r]);
    } else {
      assert InOrder(n, d);
    }
    assert StopIsLast(n);
    assert OnlyCurrent(n);
  }

  lemma ReceivingKeepsOrder(s: Session, d: seq<Request>, a: Action)
    requires SessionOk(s, d) && a.Receive? && s.phase == Waiting && s.queue != []
    ensures SessionOk(SessionStep(s, a), d)
  {
    var n := SessionStep(s, a);
    assert forall i :: 0 <= i < |n.queue| ==> n.queue[i] == s.queue[i + 1];
    assert s.queue[0].Execute? ==> Requests(s.queue) == [s.queue[0].r] + Requests(n.queue);
    assert s.queue[0].Stop? ==> n.queue == [];
  }

  lemma AnsweringKeepsOrder(s: Session, d: seq<Request>, a: Action)
    requires SessionOk(s, d) && a.Answer? && s.phase.Answering?
    ensures SessionOk(SessionStep(s, a), d)
  {
    assert (s.finished + Current(s.phase)) + [] == s.finished + Current(s.phase);
  }

  lemma MailKeepsBalance(b: Mailbox<Remark>, m: Remark)
    requires Balanced(b)
    ensures Balanced(PutIn(b, m)) && Balanced(TakeOut(b))
  {
    assert b.taken + (b.pending + [m]) == (b.taken + b.pending) + [m];
    assert (b.taken + b.pending) + [] == b.taken + b.pending;
  }

  /** Speaking to a session and listening within it keep its mail straight. */
  lemma MailKeepsOk(s: Session, d: seq<Request>, a: Action)
    requires SessionOk(s, d) && (a.SaySteer? || a.SayNote? || a.HearSteers? || a.HearNotices?)
    ensures SessionOk(SessionStep(s, a), d)
  {
    var m := Remark(if a.SaySteer? || a.SayNote? then a.text else "", During(s.phase));
    MailKeepsBalance(s.steers, m);
    MailKeepsBalance(s.notices, m);
  }

  /** The actor's own steps, and what others do to it, keep its order and its mail straight. */
  lemma OwnStepKeepsOk(s: Session, d: seq<Request>, a: Action)
    requires SessionOk(s, d)
    requires !a.Dispatch? && !a.ShutdownSend?
    requires a.Receive? ==> s.phase == Waiting && s.queue != []
    requires a.ClearSteers? ==> s.phase.Received? || s.phase.Returned?
    requires a.ClearNotices? ==> !Unlocked(s)
    requires a.AgentReturns? ==> s.phase.Running?
    requires a.Answer? ==> s.phase.Answering?
    ensures SessionOk(SessionStep(s, a), d)
  {
    if a.Receive? {
      ReceivingKeepsOrder(s, d, a);
    } else if a.Answer? {
      AnsweringKeepsOrder(s, d, a);
    } else if a.SaySteer? || a.SayNote? || a.HearSteers? || a.HearNotices? {
      MailKeepsOk(s, d, a);
    }
  }

  // ---------------------------------------------------------------- all sessions

  /** A session has been told to stop only after the router stopped dispatching and had its turn. */
  ghost predicate StopOnlyAtShutdown(w: World, id: SessionId)
    requires id in w.sessions
  {
    ToldToStop(w.sessions[id]) ==> StopSent(w, id)
  }

  /** Those sessions the shutdown is done with. */
  predicate StopSent(w: World, id: SessionId) {
    w.router == Down || (w.router.Stopping? && id !in w.router.todo)
  }

  ghost predicate RouterShape(w: World) {
    && w.sessions.Keys == w.dispatched.Keys
    && (w.router.Stopping? ==> w.router.todo <= w.sessions.Keys)
    && (w.router.Stopping? && w.router.current.Some? ==> w.router.current.value in w.router.todo)
  }

  ghost predicate RouterOk(w: World) {
    RouterShape(w) && forall id :: id in w.sessions && StopSent(w, id) ==> ToldToStop(w.sessions[id])
  }

  ghost predicate SessionsOk(w: World) {
    forall id :: id in w.sessions ==>
      && id in w.dispatched
      && SessionOk(w.sessions[id], w.dispatched[id])
      && StopOnlyAtShutdown(w, id)
  }

  ghost predicate HeardOk(w: World) {
    forall i :: 0 <= i < |w.heard| ==> w.heard[i].1.during == Some(w.heard[i].0)
  }

  ghost predicate Inv(w: World) {
    RouterOk(w) && SessionsOk(w) && HeardOk(w)
  }

  /** No step reaches into two sessions: whichever it is, the others are left alone. */
  lemma StepTouchesOneSession(w: World, a: Action, other: SessionId)
    requires Enabled(w, a)
    requires !a.Refuse? && !a.BeginShutdown? && !a.EndShutdown? ==> a.id != other
    ensures other in w.sessions <==> other in Apply(w, a).sessions
    ensures other in w.sessions ==> Apply(w, a).sessions[other] == w.sessions[other]
    ensures Dispatched(Apply(w, a), other) == Dispatched(w, other)
  {
  }

  predicate IsGlobal(a: Action) {
    a.Refuse? || a.BeginShutdown? || a.EndShutdown?
  }

  /** What a step makes of the session it concerns. */
  lemma StepOnItsSession(w: World, a: Action)
    requires Inv(w) && Enabled(w, a) && !IsGlobal(a) && (a.Control? ==> a.id in w.sessions)
    ensures var n := Apply(w, a);
            && a.id in n.sessions && a.id in n.dispatched
            && n.sessions[a.id] == SessionStep(Lookup(w, a.id), a)
            && SessionOk(n.sessions[a.id], n.dispatched[a.id])
            && StopOnlyAtShutdown(n, a.id)
  {
    var s, d := Lookup(w, a.id), Dispatched(w, a.id);
    assert SessionOk(s, d);
    assert a.id in w.sessions ==> StopOnlyAtShutdown(w, a.id);
    if a.Dispatch? {
      QueueingKeepsOrder(s, d, Execute(a.r));
    } else if a.ShutdownSend? {
      QueueingKeepsOrder(s, d, Stop);
    } else {
      OwnStepKeepsOk(s, d, a);
      StopOrderStands(s, a);
    }
  }

  /** Only the router gives the stop order, and nothing takes it back. */
  lemma StopOrderStands(s: Session, a: Action)
    requires StopIsLast(s) && !a.Dispatch? && !a.ShutdownSend?
    requires a.Receive? ==> s.phase == Waiting && s.queue != []
    requires a.ClearSteers? ==> s.phase.Received? || s.phase.Returned?
    requires a.ClearNotices? ==> !Unlocked(s)
    requires a.AgentReturns? ==> s.phase.Running?
    requires a.Answer? ==> s.phase.Answering?
    ensures ToldToStop(SessionStep(s, a)) <==> ToldToStop(s)
  {
    if a.Receive? {
      var n := SessionStep(s, a);
      assert n.queue != [] ==> n.queue[|n.queue| - 1] == s.queue[|s.queue| - 1];
      assert n.queue == [] ==> |s.queue| == 1;
    }
  }

  lemma StepKeepsSessions(w: World, a: Action)
    requires Inv(w) && Enabled(w, a)
    ensures SessionsOk(Apply(w, a))
  {
    var n := Apply(w, a);
    forall id | id in n.sessions
      ensures id in n.dispatched && SessionOk(n.sessions[id], n.dispatched[id]) && StopOnlyAtShutdown(n, id)
    {
      if !IsGlobal(a) && a.id == id && (a.Control? ==> a.id in w.sessions) {
        StepOnItsSession(w, a);
      } else {
        assert id in w.sessions && n.sessions[id] == w.sessions[id] && n.dispatched[id] == w.dispatched[id];
        assert StopOnlyAtShutdown(w, id);
      }
    }
  }

  /** A session told to stop stays told. */
  lemma StopOrderStaysGiven(w: World, a: Action, id: SessionId)
    requires Inv(w) && Enabled(w, a) && id in w.sessions && ToldToStop(w.sessions[id])
    ensures id in Apply(w, a).sessions && ToldToStop(Apply(w, a).sessions[id])
  {
    assert SessionOk(w.sessions[id], w.dispatched[id]) && StopOnlyAtShutdown(w, id);
    if !IsGlobal(a) && a.id == id && !a.ShutdownSend? && !a.Dispatch? {
      StopOrderStands(w.sessions[id], a);
    }
  }

  lemma StepKeepsRouterShape(w: World, a: Action)
    requires RouterShape(w) && Enabled(w, a)
    ensures RouterShape(Apply(w, a))
  {
  }

  /** The shutdown is done with a session only by sending it the stop order. */
  lemma StopSentBefore(w: World, a: Action, id: SessionId)
    requires RouterShape(w) && Enabled(w, a) && id in Apply(w, a).sessions && StopSent(Apply(w, a), id)
    ensures a == ShutdownSend(id) || (id in w.sessions && StopSent(w, id))
  {
  }

  lemma StepKeepsRouter(w: World, a: Action)
    requires Inv(w) && Enabled(w, a)
    ensures RouterOk(Apply(w, a))
  {
    var n := Apply(w, a);
    StepKeepsRouterShape(w, a);
    forall id | id in n.sessions && StopSent(n, id) ensures ToldToStop(n.sessions[id]) {
      StopSentBefore(w, a, id);
      if a == ShutdownSend(id) {
        assert n.sessions[id].queue == w.sessions[id].queue + [Stop];
      } else {
        StopOrderStaysGiven(w, a, id);
      }
    }
  }

  lemma StepKeepsHeard(w: World, a: Action)
    requires Inv(w) && Enabled(w, a)
    ensures HeardOk(Apply(w, a))
  {
    if a.HearSteers? || a.HearNotices? {
      var s := w.sessions[a.id];
      assert SessionOk(s, w.dispatched[a.id]);
      assert AllDuring(if a.HearSteers? then s.steers.pending else s.notices.pending, s.phase.r);
    }
  }

  lemma StepKeepsInv(w: World, a: Action)
    requires Inv(w) && Enabled(w, a)
    ensures Inv(Apply(w, a))
  {
    StepKeepsSessions(w, a);
    StepKeepsRouter(w, a);
    StepKeepsHeard(w, a);
  }

  lemma {:induction false} EveryRunKeepsInv(w: World, acts: seq<Action>)
    requires Inv(w) && IsRun(w, acts)
    ensures Inv(Run(w, acts))
    decreases |acts|
  {
    if acts != [] {
      StepKeepsInv(w, acts[0]);
      EveryRunKeepsInv(Apply(w, acts[0]), acts[1..]);
    }
  }

  // ---------------------------------------------------------------- what every run guarantees

  /**
   In every state of every run each session has finished, is working on and has queued exactly the requests
   dispatched to it, in that order; and an actor that has ended has finished them all.
   */
  lemma DispatchOrder(acts: seq<Action>, id: SessionId)
    requires IsRun(START, acts) && id in Run(START, acts).sessions
    ensures var w := Run(START, acts);
            && id in w.dispatched
            && w.dispatched[id] == w.sessions[id].finished + Current(w.sessions[id].phase) + Requests(w.sessions[id].queue)
            && (w.sessions[id].phase.Ended? ==> w.router != Routing && w.sessions[id].finished == w.dispatched[id])
  {
    EveryRunKeepsInv(START, acts);
    var w := Run(START, acts);
    assert SessionOk(w.sessions[id], w.dispatched[id]) && StopOnlyAtShutdown(w, id);
  }

  /** Whatever a turn hears, as a steer or as a note, was said during that very turn. */
  lemma HeardInItsOwnTurn(acts: seq<Action>, i: nat)
    requires IsRun(START, acts) && i < |Run(START, acts).heard|
    ensures Run(START, acts).heard[i].1.during == Some(Run(START, acts).heard[i].0)
  {
    EveryRunKeepsInv(START, acts);
  }

  // ---------------------------------------------------------------- answers

  ghost predicate Finished(w: World, r: Request) {
    exists id :: id in w.sessions && r in w.sessions[id].finished
  }

  ghost predicate NoRepeats(rs: seq<Request>) {
    forall i, j :: 0 <= i < j < |rs| ==> rs[i] != rs[j]
  }

  /** Requests are told apart by where they went: each to one session, or refused. */
  ghost predicate Separate(w: World) {
    && (forall id :: id in w.dispatched ==> NoRepeats(w.dispatched[id]))
    && (forall id, r :: id in w.dispatched && r in w.dispatched[id] ==> r in w.issued && r !in w.refused)
    && (forall id, id', r :: id in w.dispatched && id' in w.dispatched && r in w.dispatched[id] && r in w.dispatched[id']
                             ==> id == id')
    && w.refused <= w.issued
  }

  /** Answered once each: exactly the refused and the finished. */
  ghost predicate AnswersOk(w: World) {
    && NoRepeats(w.answered)
    && (forall r :: r in w.answered <==> r in w.refused || Finished(w, r))
  }

  lemma RecordsUnchanged(w: World, a: Action)
    requires Enabled(w, a) && !a.Dispatch? && !a.Refuse?
    ensures var n := Apply(w, a); n.dispatched == w.dispatched && n.issued == w.issued && n.refused == w.refused
    ensures !a.Answer? ==> Apply(w, a).answered == w.answered
  {
  }

  lemma DispatchKeepsSeparate(w: World, a: Action)
    requires Enabled(w, a) && a.Dispatch? && Separate(w)
    ensures Separate(Apply(w, a))
  {
    var n, d := Apply(w, a), Dispatched(w, a.id);
    assert n.dispatched[a.id] == d + [a.r] && a.r !in d;
    forall id, r | id in n.dispatched && r in n.dispatched[id] ensures r in n.issued && r !in n.refused {
      assert id != a.id ==> r in w.dispatched[id];
    }
    forall id | id in n.dispatched ensures NoRepeats(n.dispatched[id]) {
      assert id != a.id ==> NoRepeats(w.dispatched[id]);
    }
  }

  lemma StepKeepsSeparate(w: World, a: Action)
    requires Enabled(w, a) && Separate(w)
    ensures Separate(Apply(w, a))
  {
    if a.Dispatch? {
      DispatchKeepsSeparate(w, a);
    } else if !a.Refuse? {
      RecordsUnchanged(w, a);
    }
  }

  /** Only answering adds to what a session has finished. */
  lemma FinishedGrows(w: World, a: Action, id: SessionId)
    requires Enabled(w, a)
    ensures id in w.sessions ==> id in Apply(w, a).sessions
    ensures Lookup(Apply(w, a), id).finished
            == Lookup(w, id).finished + (if a.Answer? && a.id == id then Current(w.sessions[id].phase) else [])
  {
  }

  lemma FinishedAfter(w: World, a: Action, n: World, r: Request)
    requires Enabled(w, a) && n == Apply(w, a)
    ensures Finished(n, r) <==> Finished(w, r) || (a.Answer? && r in Current(w.sessions[a.id].phase))
  {
    if id :| id in w.sessions && r in w.sessions[id].finished {
      FinishedGrows(w, a, id);
      assert r in Lookup(n, id).finished;
    } else if a.Answer? && r in Current(w.sessions[a.id].phase) {
      FinishedGrows(w, a, a.id);
      assert r in Lookup(n, a.id).finished;
    } else if id :| id in n.sessions && r in n.sessions[id].finished {
      FinishedGrows(w, a, id);
    }
  }

  /** The request being answered has not been answered before. */
  lemma CurrentIsNew(w: World, id: SessionId)
    requires Inv(w) && Separate(w) && AnswersOk(w) && id in w.sessions && w.sessions[id].phase.Answering?
    ensures w.sessions[id].phase.r !in w.answered
  {
    var s, r := w.sessions[id], w.sessions[id].phase.r;
    var d := w.dispatched[id];
    assert SessionOk(s, d);
    assert d[|s.finished|] == r;
    assert r in d;
    forall other | other in w.sessions ensures r !in w.sessions[other].finished {
      assert SessionOk(w.sessions[other], w.dispatched[other]);
      var f := w.sessions[other].finished;
      assert forall k :: 0 <= k < |f| ==> w.dispatched[other][k] == f[k];
      if other == id {
        assert NoRepeats(d);
      } else {
        assert r !in w.dispatched[other];
      }
    }
    assert !Finished(w, r);
  }

  lemma StepKeepsAnswers(w: World, a: Action, n: World)
    requires Inv(w) && Enabled(w, a) && Separate(w) && AnswersOk(w) && n == Apply(w, a)
    ensures AnswersOk(n)
  {
    if a.Answer? {
      CurrentIsNew(w, a.id);
      RecordsUnchanged(w, a);
    } else if a.Refuse? {
      NotYetIssued(w, a.r);
    } else if !a.Dispatch? {
      RecordsUnchanged(w, a);
    }
    forall r ensures r in n.answered <==> r in n.refused || Finished(n, r) {
      FinishedAfter(w, a, n, r);
      assert r in w.answered <==> r in w.refused || Finished(w, r);
    }
  }

  lemma NotYetIssued(w: World, r: Request)
    requires Inv(w) && Separate(w) && AnswersOk(w) && r !in w.issued
    ensures r !in w.answered
  {
    forall id | id in w.sessions ensures r !in w.sessions[id].finished {
      assert SessionOk(w.sessions[id], w.dispatched[id]);
      assert forall k :: 0 <= k < |w.sessions[id].finished| ==> w.dispatched[id][k] == w.sessions[id].finished[k];
      assert r !in w.dispatched[id];
    }
  }

  lemma {:induction false} AnswersOverRuns(w: World, acts: seq<Action>)
    requires Inv(w) && Separate(w) && AnswersOk(w) && IsRun(w, acts)
    ensures Separate(Run(w, acts)) && AnswersOk(Run(w, acts))
    decreases |acts|
  {
    if acts != [] {
      StepKeepsInv(w, acts[0]);
      StepKeepsSeparate(w, acts[0]);
      StepKeepsAnswers(w, acts[0], Apply(w, acts[0]));
      AnswersOverRuns(Apply(w, acts[0]), acts[1..]);
    }
  }

  /** Every request is answered at most once: the finished and the refused have been, no other has. */
  lemma AnsweredAtMostOnce(acts: seq<Action>)
    requires IsRun(START, acts)
    ensures var w := Run(START, acts);
            NoRepeats(w.answered) && forall r :: r in w.answered <==> r in w.refused || Finished(w, r)
  {
    AnswersOverRuns(START, acts);
  }

  // ---------------------------------------------------------------- shutdown completes

  function PhaseWork(p: Phase): nat {
    match p
    case Ended => 0
    case Waiting => 1
    case Answering(_) => 2
    case ClearingAfter(_) => 3
    case Returned(_) => 4
    case Running(_) => 5
    case Clearing(_) => 6
    case Received(_) => 7
  }

  function Work(s: Session): nat {
    8 * |s.queue| + PhaseWork(s.phase)
  }

  /** The step an actor takes next by itself. */
  function NextAction(s: Session, id: SessionId): Action {
    match s.phase
    case Waiting => Receive(id)
    case Received(_) => ClearSteers(id)
    case Clearing(_) => ClearNotices(id)
    case Running(_) => AgentReturns(id)
    case Returned(_) => ClearSteers(id)
    case ClearingAfter(_) => ClearNotices(id)
    case Answering(_) => Answer(id)
    case Ended => Receive(id)
  }

  lemma NextActionWorks(s: Session, id: SessionId)
    requires !s.phase.Ended? && (s.phase.Waiting? ==> s.queue != [])
    ensures Work(SessionStep(s, NextAction(s, id))) < Work(s)
  {
  }

  /** Once the router is down, an actor that has not ended always has a step of its own, and it brings it nearer. */
  lemma ActorHasAStep(w: World, id: SessionId)
    requires Inv(w) && w.router == Down && id in w.sessions && !w.sessions[id].phase.Ended?
    ensures var a := NextAction(w.sessions[id], id);
            && Enabled(w, a)
            && Apply(w, a).router == Down && Apply(w, a).dispatched == w.dispatched && id in Apply(w, a).sessions
            && Work(Apply(w, a).sessions[id]) < Work(w.sessions[id])
  {
    assert ToldToStop(w.sessions[id]);
    NextActionWorks(w.sessions[id], id);
  }

  /** So, as long as agent calls return, each actor ends, having finished everything dispatched to it. */
  lemma {:induction false} ShutdownCompletes(w: World, id: SessionId) returns (own: seq<Action>)
    requires Inv(w) && w.router == Down && id in w.sessions
    ensures IsRun(w, own)
    ensures var e := Run(w, own);
            && id in e.sessions && e.sessions[id].phase.Ended?
            && id in e.dispatched && e.dispatched == w.dispatched && e.sessions[id].finished == w.dispatched[id]
    decreases Work(w.sessions[id])
  {
    if w.sessions[id].phase.Ended? {
      own := [];
      assert SessionOk(w.sessions[id], w.dispatched[id]);
    } else {
      ActorHasAStep(w, id);
      var a := NextAction(w.sessions[id], id);
      StepKeepsInv(w, a);
      var rest := ShutdownCompletes(Apply(w, a), id);
      own := [a] + rest;
      assert own[1..] == rest;
    }
  }

  /** A step the actor of session `id` takes in its own loop. */
  predicate IsOwn(a: Action, id: SessionId) {
    (a.Receive? || a.ClearSteers? || a.ClearNotices? || a.AgentReturns? || a.Answer?) && a.id == id
  }

  function OwnSteps(acts: seq<Action>, id: SessionId): nat {
    if acts == [] then 0 else (if IsOwn(acts[0], id) then 1 else 0) + OwnSteps(acts[1..], id)
  }

  lemma OwnStepUsesUpWork(s: Session, a: Action)
    requires a.Receive? ==> s.phase == Waiting && s.queue != []
    requires a.ClearSteers? ==> s.phase.Received? || s.phase.Returned?
    requires a.ClearNotices? ==> !Unlocked(s)
    requires a.AgentReturns? ==> s.phase.Running?
    requires a.Answer? ==> s.phase.Answering?
    requires a.Receive? || a.ClearSteers? || a.ClearNotices? || a.AgentReturns? || a.Answer?
    ensures Work(SessionStep(s, a)) < Work(s)
  {
  }

  lemma MailIsNoWork(s: Session, a: Action)
    requires a.SaySteer? || a.SayNote? || a.HearSteers? || a.HearNotices?
    ensures Work(SessionStep(s, a)) == Work(s)
  {
  }

  lemma RouterStaysDown(w: World, a: Action)
    requires w.router == Down && Enabled(w, a)
    ensures a.Receive? || a.ClearSteers? || a.ClearNotices? || a.AgentReturns? || a.Answer?
            || a.SaySteer? || a.SayNote? || a.HearSteers? || a.HearNotices?
    ensures Apply(w, a).router == Down && Apply(w, a).dispatched == w.dispatched
    ensures a.id in w.sessions && Apply(w, a).sessions == w.sessions[a.id := SessionStep(w.sessions[a.id], a)]
  {
  }

  /** After shutdown an actor's own steps use up its work, and nobody else's steps add to it. */
  lemma StepUsesUpWork(w: World, a: Action, id: SessionId)
    requires w.router == Down && id in w.sessions && Enabled(w, a)
    ensures var n := Apply(w, a);
            && n.router == Down && n.dispatched == w.dispatched && id in n.sessions
            && Work(n.sessions[id]) + (if IsOwn(a, id) then 1 else 0) <= Work(w.sessions[id])
  {
    RouterStaysDown(w, a);
    if IsOwn(a, id) {
      OwnStepUsesUpWork(w.sessions[id], a);
    } else if a.id == id {
      MailIsNoWork(w.sessions[id], a);
    }
  }

  /**
   Every run after shutdown: the actor takes no more own steps than its work; as long as it has not ended its next
   step is enabled; and once it has ended, as it has when its work is used up, it has finished all it was given.
   */
  lemma {:induction false} EveryRunShutsDown(w: World, acts: seq<Action>, id: SessionId)
    requires Inv(w) && w.router == Down && id in w.sessions && IsRun(w, acts)
    ensures var e := Run(w, acts);
            && Inv(e) && e.dispatched == w.dispatched && id in e.sessions && id in e.dispatched
            && OwnSteps(acts, id) + Work(e.sessions[id]) <= Work(w.sessions[id])
            && (!e.sessions[id].phase.Ended? ==> Enabled(e, NextAction(e.sessions[id], id)))
            && (e.sessions[id].phase.Ended? ==> e.sessions[id].finished == w.dispatched[id])
            && (OwnSteps(acts, id) == Work(w.sessions[id]) ==> e.sessions[id].phase.Ended?)
    decreases |acts|
  {
    if acts == [] {
      assert SessionOk(w.sessions[id], w.dispatched[id]);
      if !w.sessions[id].phase.Ended? {
        ActorHasAStep(w, id);
      }
    } else {
      StepKeepsInv(w, acts[0]);
      StepUsesUpWork(w, acts[0], id);
      EveryRunShutsDown(Apply(w, acts[0]), acts[1..], id);
    }
  }

  // ---------------------------------------------------------------- the router gets down

  predicate IsShutdownStep(a: Action) {
    || a.ShutdownCancel? || a.ShutdownSend? || a.EndShutdown?
    || a.Receive? || a.ClearSteers? || a.ClearNotices? || a.AgentReturns? || a.Answer?
  }

  /** An actor with something to do takes a step of its own, which concerns nobody else. */
  lemma ActorCanStep(w: World, id: SessionId)
    requires id in w.sessions && !w.sessions[id].phase.Ended?
    requires w.sessions[id].phase.Waiting? ==> w.sessions[id].queue != []
    ensures var a := NextAction(w.sessions[id], id);
            && Enabled(w, a) && IsOwn(a, id)
            && Apply(w, a).router == w.router
            && Apply(w, a).sessions == w.sessions[id := SessionStep(w.sessions[id], a)]
            && Work(SessionStep(w.sessions[id], a)) < Work(w.sessions[id])
  {
    OwnStepUsesUpWork(w.sessions[id], NextAction(w.sessions[id], id));
  }

  lemma Prepend(w: World, a: Action, rest: seq<Action>)
    requires Enabled(w, a) && IsRun(Apply(w, a), rest)
    ensures IsRun(w, [a] + rest) && Run(w, [a] + rest) == Run(Apply(w, a), rest)
  {
    assert ([a] + rest)[0] == a && ([a] + rest)[1..] == rest;
  }

  /** A session whose run state is locked by a reset frees it with its next step. */
  lemma UnlocksItself(w: World, id: SessionId)
    requires id in w.sessions && !Unlocked(w.sessions[id])
    ensures Enabled(w, ClearNotices(id))
    ensures var n := Apply(w, ClearNotices(id));
            n.router == w.router && n.sessions.Keys == w.sessions.Keys && Unlocked(n.sessions[id])
  {
  }

  /** By steps of router and actors alone, `acts` take the world to one whose router is `to`. */
  ghost predicate Leads(w: World, acts: seq<Action>, to: Router) {
    && IsRun(w, acts) && (forall i :: 0 <= i < |acts| ==> IsShutdownStep(acts[i]))
    && Inv(Run(w, acts)) && Run(w, acts).router == to
  }

  lemma StepLeads(w: World, a: Action, n: World, rest: seq<Action>, to: Router)
    requires Inv(w) && Enabled(w, a) && n == Apply(w, a) && IsShutdownStep(a) && Leads(n, rest, to)
    ensures Leads(w, [a] + rest, to)
  {
    Prepend(w, a, rest);
  }

  lemma NextInv(w: World, a: Action, n: World)
    requires Inv(w) && Enabled(w, a) && n == Apply(w, a)
    ensures Inv(n)
  {
    StepKeepsInv(w, a);
  }

  lemma StaysPut(w: World)
    requires Inv(w)
    ensures Leads(w, [], w.router)
  {
  }

  lemma LastStepLeads(w: World, a: Action, n: World)
    requires Inv(w) && Enabled(w, a) && n == Apply(w, a) && IsShutdownStep(a)
    ensures Leads(w, [a], n.router)
  {
    NextInv(w, a, n);
    StaysPut(n);
    StepLeads(w, a, n, [], n.router);
    assert [a] + [] == [a];
  }

  lemma RunsLead(w: World, a: seq<Action>, mid: Router, b: seq<Action>, to: Router)
    requires Leads(w, a, mid) && Leads(Run(w, a), b, to)
    ensures Leads(w, a + b, to)
  {
    RunConcat(w, a, b);
  }

  /** With the session at hand the router is done once its queue has room, which the actor sees to. */
  lemma {:induction false} SendStop(w: World, id: SessionId) returns (acts: seq<Action>)
    requires Inv(w) && w.router.Stopping? && w.router.current == Some(id) && id in w.sessions
    ensures Leads(w, acts, Stopping(w.router.todo - {id}, None))
    decreases Work(w.sessions[id])
  {
    if |w.sessions[id].queue| < QUEUE_CAPACITY {
      LastStepLeads(w, ShutdownSend(id), Apply(w, ShutdownSend(id)));
      acts := [ShutdownSend(id)];
    } else {
      assert SessionOk(w.sessions[id], w.dispatched[id]);
      ActorCanStep(w, id);
      var a := NextAction(w.sessions[id], id);
      StepKeepsInv(w, a);
      var rest := SendStop(Apply(w, a), id);
      StepLeads(w, a, Apply(w, a), rest, Stopping(w.router.todo - {id}, None));
      acts := [a] + rest;
    }
  }

  /** Cancelling the next session waits at most for a reset to end. */
  lemma CancelNext(w: World, id: SessionId) returns (acts: seq<Action>)
    requires Inv(w) && w.router.Stopping? && w.router.current == None && id in w.router.todo && id in w.sessions
    ensures Leads(w, acts, Stopping(w.router.todo, Some(id)))
  {
    if Unlocked(w.sessions[id]) {
      LastStepLeads(w, ShutdownCancel(id), Apply(w, ShutdownCancel(id)));
      acts := [ShutdownCancel(id)];
    } else {
      UnlocksItself(w, id);
      StepKeepsInv(w, ClearNotices(id));
      var u := Apply(w, ClearNotices(id));
      LastStepLeads(u, ShutdownCancel(id), Apply(u, ShutdownCancel(id)));
      StepLeads(w, ClearNotices(id), u, [ShutdownCancel(id)], Stopping(w.router.todo, Some(id)));
      acts := [ClearNotices(id)] + [ShutdownCancel(id)];
    }
  }

  lemma {:induction false} RunConcat(w: World, a: seq<Action>, b: seq<Action>)
    requires IsRun(w, a) && IsRun(Run(w, a), b)
    ensures IsRun(w, a + b) && Run(w, a + b) == Run(Run(w, a), b)
    decreases |a|
  {
    if a == [] {
      assert a + b == b;
    } else {
      assert (a + b)[0] == a[0] && (a + b)[1..] == a[1..] + b;
      RunConcat(Apply(w, a[0]), a[1..], b);
    }
  }

  /**
   From every reachable state of a shutdown the router gets down by its own and the actors' steps alone: it is never
   stuck for good on a lock or on a full queue.
   */
  lemma {:induction false} RouterGetsDown(w: World) returns (acts: seq<Action>)
    requires Inv(w) && w.router.Stopping?
    ensures Leads(w, acts, Down)
    decreases |w.router.todo|, if w.router.current.Some? then 0 else 1
  {
    var todo := w.router.todo;
    if w.router.current.Some? {
      var id := w.router.current.value;
      assert RouterShape(w);
      var first := SendStop(w, id);
      var rest := RouterGetsDown(Run(w, first));
      RunsLead(w, first, Stopping(todo - {id}, None), rest, Down);
      acts := first + rest;
    } else if todo != {} {
      var id :| id in todo;
      assert RouterShape(w);
      var first := CancelNext(w, id);
      var rest := RouterGetsDown(Run(w, first));
      RunsLead(w, first, Stopping(todo, Some(id)), rest, Down);
      acts := first + rest;
    } else {
      LastStepLeads(w, EndShutdown, Apply(w, EndShutdown));
      acts := [EndShutdown];
    }
  }

  // ---------------------------------------------------------------- the records are what happened

  /** The requests a run dispatches to session `id`, in order. */
  function DispatchesTo(acts: seq<Action>, id: SessionId): seq<Request> {
    if acts == [] then []
    else if acts[0].Dispatch? && acts[0].id == id then [acts[0].r] + DispatchesTo(acts[1..], id)
    else DispatchesTo(acts[1..], id)
  }

  lemma {:induction false} DispatchedAre(w: World, acts: seq<Action>, id: SessionId)
    requires IsRun(w, acts)
    ensures Dispatched(Run(w, acts), id) == Dispatched(w, id) + DispatchesTo(acts, id)
    decreases |acts|
  {
    if acts != [] {
      DispatchedAre(Apply(w, acts[0]), acts[1..], id);
      if acts[0].Dispatch? && acts[0].id == id {
        assert Dispatched(Apply(w, acts[0]), id) == Dispatched(w, id) + [acts[0].r];
        assert Dispatched(w, id) + ([acts[0].r] + DispatchesTo(acts[1..], id))
            == (Dispatched(w, id) + [acts[0].r]) + DispatchesTo(acts[1..], id);
      } else {
        assert Dispatched(Apply(w, acts[0]), id) == Dispatched(w, id);
      }
    }
  }

  /**
   What every run comes to, told by its actions alone: the requests dispatched to a session are those it has finished,
   the one it works on and those it has queued, in the order of their dispatch.
   */
  lemma SessionsDoWhatIsDispatched(acts: seq<Action>, id: SessionId)
    requires IsRun(START, acts)
    ensures var w := Run(START, acts);
            DispatchesTo(acts, id) ==
              if id in w.sessions
              then w.sessions[id].finished + Current(w.sessions[id].phase) + Requests(w.sessions[id].queue)
              else []
  {
    DispatchedAre(START, acts, id);
    EveryRunKeepsInv(START, acts);
    var w := Run(START, acts);
    assert [] + DispatchesTo(acts, id) == DispatchesTo(acts, id);
    if id in w.sessions {
      DispatchOrder(acts, id);
    } else {
      assert id !in w.dispatched;
    }
  }

  /** A routing router takes any new request for a session with room among its 256 places, and any control command for a
      session that is not just resetting. */
  lemma RouterTakesWork(w: World, id: SessionId, r: Request, c: Command)
    requires w.router == Routing && r !in w.issued
    ensures (id !in w.sessions || |w.sessions[id].queue| < 256) ==> Enabled(w, Dispatch(id, r))
    ensures Enabled(w, Refuse(r)) && Enabled(w, BeginShutdown)
    ensures (id in w.sessions && !w.sessions[id].phase.Clearing? && !w.sessions[id].phase.ClearingAfter?) ==>
              Enabled(w, Control(id, c)) && Apply(w, Control(id, c)).sessions[id].state == Commanded(w.sessions[id].state, c)
  {
  }

  /** The shutdown cancels each session and then sends it the stop order, behind everything queued; it visits them all. */
  lemma ShutdownMeans(w: World, id: SessionId)
    ensures w.router == Routing ==> Apply(w, BeginShutdown).router == Stopping(w.sessions.Keys, None)
    ensures Enabled(w, ShutdownCancel(id)) ==>
              var n := Apply(w, ShutdownCancel(id));
              n.sessions[id] == w.sessions[id].(state := Cancelled) && n.router == Stopping(w.router.todo, Some(id))
    ensures Enabled(w, ShutdownSend(id)) ==>
              var n := Apply(w, ShutdownSend(id));
              && n.sessions[id] == w.sessions[id].(queue := w.sessions[id].queue + [Stop])
              && n.router == Stopping(w.router.todo - {id}, None)
  {
  }

  /** An execution is bracketed by resets: work is begun, and answered, only from a reset that has wiped both mailboxes. */
  lemma TurnIsBracketed(w: World, a: Action, id: SessionId)
    requires Enabled(w, a) && id in w.sessions
    ensures var s, n := w.sessions[id], Apply(w, a).sessions[id];
            && (n.phase.Running? && n.phase != s.phase ==> s.phase == Clearing(n.phase.r) && n.notices == EmptyBox())
            && (n.phase.Clearing? && n.phase != s.phase ==>
                  s.phase == Received(n.phase.r) && n.steers == EmptyBox() && n.state == Idle)
            && (n.phase.Returned? && n.phase != s.phase ==> s.phase == Phase.Running(n.phase.r))
            && (n.phase.ClearingAfter? && n.phase != s.phase ==>
                  s.phase == Returned(n.phase.r) && n.steers == EmptyBox() && n.state == Idle)
            && (n.phase.Answering? && n.phase != s.phase ==>
                  s.phase == ClearingAfter(n.phase.r) && n.notices == EmptyBox())
            && (n.phase.Waiting? && n.phase != s.phase ==>
                  s.phase.Answering? && n.finished == s.finished + [s.phase.r]
                  && Apply(w, a).answered == w.answered + [s.phase.r])
            && (n.phase.Received? && n.phase != s.phase ==>
                  s.phase == Waiting && s.queue != [] && s.queue[0] == Execute(n.phase.r) && n.queue == s.queue[1..])
            && (n.phase.Ended? && n.phase != s.phase ==> s.phase == Waiting && s.queue != [] && s.queue[0] == Stop)
  {
  }

  // ---------------------------------------------------------------- run states

  /** While it resets, before and after every execution, a session is idle. */
  ghost predicate ResetIsIdle(w: World) {
    forall id :: id in w.sessions && !Unlocked(w.sessions[id]) ==> w.sessions[id].state == Idle
  }

  lemma {:induction false} EveryTurnStartsIdle(w: World, acts: seq<Action>)
    requires ResetIsIdle(w) && IsRun(w, acts)
    ensures ResetIsIdle(Run(w, acts))
    decreases |acts|
  {
    if acts != [] {
      EveryTurnStartsIdle(Apply(w, acts[0]), acts[1..]);
    }
  }

  /** A cancelled turn stays cancelled until the reset behind it, unless somebody steps it. */
  lemma {:induction false} CancelledTurn(w: World, acts: seq<Action>, id: SessionId)
    requires IsRun(w, acts) && id in w.sessions && w.sessions[id].state == Cancelled
    requires forall i :: 0 <= i < |acts| ==> acts[i] != ClearSteers(id) && acts[i] != Control(id, Step)
    ensures id in Run(w, acts).sessions && Run(w, acts).sessions[id].state == Cancelled
    decreases |acts|
  {
    if acts != [] {
      var a := acts[0];
      assert a != ClearSteers(id) && a != Control(id, Step);
      assert id in Apply(w, a).sessions && Apply(w, a).sessions[id].state == Cancelled;
      CancelledTurn(Apply(w, a), acts[1..], id);
    }
  }

  // ---------------------------------------------------------------- nothing said is lost within a turn

  /** The remark waits in the session's mailbox, or some turn has heard it. */
  ghost predicate SteerKept(w: World, id: SessionId, m: Remark) {
    || (id in w.sessions && m in w.sessions[id].steers.pending)
    || exists i :: 0 <= i < |w.heard| && w.heard[i].1 == m
  }

  ghost predicate NoteKept(w: World, id: SessionId, m: Remark) {
    || (id in w.sessions && m in w.sessions[id].notices.pending)
    || exists i :: 0 <= i < |w.heard| && w.heard[i].1 == m
  }

  lemma HeardGrows(w: World, a: Action, m: Remark)
    requires Enabled(w, a) && exists i :: 0 <= i < |w.heard| && w.heard[i].1 == m
    ensures exists i :: 0 <= i < |Apply(w, a).heard| && Apply(w, a).heard[i].1 == m
  {
    var i :| 0 <= i < |w.heard| && w.heard[i].1 == m;
    assert Apply(w, a).heard[i] == w.heard[i];
  }

  lemma AllAreHeard(w: World, a: Action, m: Remark)
    requires Enabled(w, a)
    requires (a.HearSteers? && m in w.sessions[a.id].steers.pending)
             || (a.HearNotices? && m in w.sessions[a.id].notices.pending)
    ensures exists i :: 0 <= i < |Apply(w, a).heard| && Apply(w, a).heard[i].1 == m
  {
    var box := if a.HearSteers? then w.sessions[a.id].steers.pending else w.sessions[a.id].notices.pending;
    var k :| 0 <= k < |box| && box[k] == m;
    assert Apply(w, a).heard[|w.heard| + k].1 == m;
  }

  lemma StepKeepsSteer(w: World, a: Action, id: SessionId, m: Remark)
    requires Enabled(w, a) && SteerKept(w, id, m) && a != ClearSteers(id)
    ensures SteerKept(Apply(w, a), id, m)
  {
    if exists i :: 0 <= i < |w.heard| && w.heard[i].1 == m {
      HeardGrows(w, a, m);
    } else if a == HearSteers(id) {
      AllAreHeard(w, a, m);
    }
  }

  lemma StepKeepsNote(w: World, a: Action, id: SessionId, m: Remark)
    requires Enabled(w, a) && NoteKept(w, id, m) && a != ClearNotices(id)
    ensures NoteKept(Apply(w, a), id, m)
  {
    if exists i :: 0 <= i < |w.heard| && w.heard[i].1 == m {
      HeardGrows(w, a, m);
    } else if a == HearNotices(id) {
      AllAreHeard(w, a, m);
    }
  }

  /** A steer is heard, or still waits, as long as no reset wipes it. */
  lemma {:induction false} SteerIsKept(w: World, acts: seq<Action>, id: SessionId, m: Remark)
    requires IsRun(w, acts) && SteerKept(w, id, m) && forall i :: 0 <= i < |acts| ==> acts[i] != ClearSteers(id)
    ensures SteerKept(Run(w, acts), id, m)
    decreases |acts|
  {
    if acts != [] {
      assert acts[0] != ClearSteers(id);
      StepKeepsSteer(w, acts[0], id, m);
      SteerIsKept(Apply(w, acts[0]), acts[1..], id, m);
    }
  }

  lemma {:induction false} NoteIsKept(w: World, acts: seq<Action>, id: SessionId, m: Remark)
    requires IsRun(w, acts) && NoteKept(w, id, m) && forall i :: 0 <= i < |acts| ==> acts[i] != ClearNotices(id)
    ensures NoteKept(Run(w, acts), id, m)
    decreases |acts|
  {
    if acts != [] {
      assert acts[0] != ClearNotices(id);
      StepKeepsNote(w, acts[0], id, m);
      NoteIsKept(Apply(w, acts[0]), acts[1..], id, m);
    }
  }

  /**
   Said and heard: a steer or a note said to a session at work carries that turn's name, and is heard or still waits
   until the reset that ends the turn.
   */
  lemma SaidIsHeardOrWaits(w: World, id: SessionId, text: string, r: Request, acts: seq<Action>)
    requires id in w.sessions && w.sessions[id].phase == Phase.Running(r)
    requires forall i :: 0 <= i < |acts| ==> acts[i] != ClearSteers(id) && acts[i] != ClearNotices(id)
    ensures IsRun(w, [SaySteer(id, text)] + acts) ==>
              SteerKept(Run(w, [SaySteer(id, text)] + acts), id, Remark(text, Some(r)))
    ensures IsRun(w, [SayNote(id, text)] + acts) ==>
              NoteKept(Run(w, [SayNote(id, text)] + acts), id, Remark(text, Some(r)))
  {
    var m, a, b := Remark(text, Some(r)), SaySteer(id, text), SayNote(id, text);
    assert ([a] + acts)[1..] == acts && ([b] + acts)[1..] == acts;
    if IsRun(w, [a] + acts) {
      assert m in Apply(w, a).sessions[id].steers.pending;
      SteerIsKept(Apply(w, a), acts, id, m);
    }
    if IsRun(w, [b] + acts) {
      assert m in Apply(w, b).sessions[id].notices.pending;
      NoteIsKept(Apply(w, b), acts, id, m);
    }
  }
}

/**
 The execution controller of one session: its run state, and the two mailboxes a turn reads while it runs.
 */
module Controller {
  datatype RuntimeState = Idle | Running | Paused | Stepping | Cancelled

  // ---------------------------------------------------------------- mailboxes

  /** A mailbox, with what was put in and what was taken out since it was last wiped. */
  datatype Mailbox<T> = Mailbox(pending: seq<T>, put: seq<T>, taken: seq<T>)

  function EmptyBox<T>(): Mailbox<T> {
    Mailbox([], [], [])
  }

  function PutIn<T>(b: Mailbox<T>, m: T): Mailbox<T> {
    Mailbox(b.pending + [m], b.put + [m], b.taken)
  }

  function TakeOut<T>(b: Mailbox<T>): Mailbox<T> {
    Mailbox([], b.put, b.taken + b.pending)
  }

  datatype BoxStep<T> = Put(m: T) | Take | Wipe

  function BoxApply<T>(b: Mailbox<T>, e: BoxStep<T>): Mailbox<T> {
    match e
    case Put(m) => PutIn(b, m)
    case Take => TakeOut(b)
    case Wipe => EmptyBox()
  }

  function BoxRun<T>(b: Mailbox<T>, es: seq<BoxStep<T>>): Mailbox<T>
    decreases |es|
  {
    if es == [] then b else BoxRun(BoxApply(b, es[0]), es[1..])
  }

  /** Messages put in since the last wipe of a run. */
  function PutSince<T>(es: seq<BoxStep<T>>): seq<T> {
    if es == [] then []
    else match es[|es| - 1]
      case Put(m) => PutSince(es[..|es| - 1]) + [m]
      case Take => PutSince(es[..|es| - 1])
      case Wipe => []
  }

  ghost predicate Balanced<T>(b: Mailbox<T>) {
    b.taken + b.pending == b.put
  }

  lemma {:induction false} BoxRunSnoc<T>(b: Mailbox<T>, es: seq<BoxStep<T>>, e: BoxStep<T>)
    ensures BoxRun(b, es + [e]) == BoxApply(BoxRun(b, es), e)
    decreases |es|
  {
    if es == [] {
      assert ([] + [e])[0] == e && ([] + [e])[1..] == [];
    } else {
      assert (es + [e])[0] == es[0] && (es + [e])[1..] == es[1..] + [e];
      BoxRunSnoc(BoxApply(b, es[0]), es[1..], e);
    }
  }

  /**
   However pushes, drains and resets interleave: what was drained, followed by what is pending, is exactly what was
   pushed since the last reset, so every message is handed over at most once and in order.
   */
  lemma {:induction false} DrainedThenPending<T>(es: seq<BoxStep<T>>)
    ensures var b := BoxRun(EmptyBox<T>(), es);
            b.taken + b.pending == PutSince(es) && b.put == PutSince(es)
  {
    if es != [] {
      var init, last := es[..|es| - 1], es[|es| - 1];
      DrainedThenPending(init);
      assert es == init + [last];
      BoxRunSnoc(EmptyBox<T>(), init, last);
      var b := BoxRun(EmptyBox<T>(), init);
      match last {
        case Put(m) => assert b.taken + (b.pending + [m]) == (b.taken + b.pending) + [m];
        case Take => assert (b.taken + b.pending) + [] == b.taken + b.pending;
        case Wipe => assert BoxRun(EmptyBox<T>(), es) == EmptyBox();
      }
    }
  }

  // ---------------------------------------------------------------- run states

  datatype Command = Pause | Resume | Step | Cancel

  /** What an operator's command does to the run state. */
  function Commanded(s: RuntimeState, c: Command): RuntimeState {
    match c
    case Pause => if s == Running || s == Idle then Paused else s
    case Resume => if s == Paused || s == Stepping then Running else s
    case Step => Stepping
    case Cancel => Cancelled
  }

  /** Pausing is for a run that goes on or has not begun, and resuming undoes it; cancelling and stepping always work. */
  lemma CommandsMean(s: RuntimeState)
    ensures Commanded(s, Pause) == Paused <==> s == Running || s == Idle || s == Paused
    ensures Commanded(s, Resume) == Running <==> s == Paused || s == Stepping || s == Running
    ensures s == Running || s == Idle ==> Commanded(Commanded(s, Pause), Resume) == Running
    ensures Commanded(s, Pause) != Paused ==> Commanded(s, Pause) == s
    ensures Commanded(s, Resume) != Running ==> Commanded(s, Resume) == s
    ensures Commanded(s, Cancel) == Cancelled && Commanded(s, Step) == Stepping
  {
  }

  function CommandedAll(s: RuntimeState, cs: seq<Command>): RuntimeState
    decreases |cs|
  {
    if cs == [] then s else CommandedAll(Commanded(s, cs[0]), cs[1..])
  }

  /** A cancelled run stays cancelled, whatever pauses and resumes follow, until somebody steps it. */
  lemma {:induction false} CancelStands(cs: seq<Command>)
    ensures CommandedAll(Cancelled, cs) == Cancelled || exists i :: 0 <= i < |cs| && cs[i] == Step
    decreases |cs|
  {
    if cs != [] && cs[0] != Step {
      CancelStands(cs[1..]);
      if i :| 0 <= i < |cs[1..]| && cs[1..][i] == Step {
        assert cs[i + 1] == Step;
      }
    } else if cs != [] {
      assert cs[0] == Step;
    }
  }

  class ExecutionController {
    var state: RuntimeState
    var iteration: nat
    var steers: seq<string>
    var notices: seq<string>
    ghost var steerBox: Mailbox<string>
    ghost var noticeBox: Mailbox<string>

    ghost predicate Valid()
      reads this
    {
      && steerBox.pending == steers && Balanced(steerBox)
      && noticeBox.pending == notices && Balanced(noticeBox)
    }

    constructor ()
      ensures Valid() && state == Idle && iteration == 0 && steerBox == noticeBox == EmptyBox()
    {
      state, iteration, steers, notices := Idle, 0, [], [];
      steerBox, noticeBox := EmptyBox(), EmptyBox();
    }

    method Command(c: Command)
      requires Valid()
      modifies this`state
      ensures Valid() && state == Commanded(old(state), c)
    {
      match c {
        case Pause =>
          if state == Running || state == Idle {
            state := Paused;
          }
        case Resume =>
          if state == Paused || state == Stepping {
            state := Running;
          }
        case Step => state := Stepping;
        case Cancel => state := Cancelled;
      }
    }

    method Reset()
      requires Valid()
      modifies this
      ensures Valid() && state == Idle && iteration == 0
      ensures steerBox == EmptyBox() && noticeBox == EmptyBox()
    {
      state := Idle;
      var dropped := DrainSteers();
      dropped := DrainNotices();
      steerBox, noticeBox := EmptyBox(), EmptyBox();
      iteration := 0;
    }

    /** A steer never changes the run state: a cancelled turn stays cancelled. */
    method Steer(message: string)
      requires Valid()
      modifies this`steers, this`steerBox
      ensures Valid() && steerBox == PutIn(old(steerBox), message)
    {
      steers := steers + [message];
      assert steerBox.taken + (steerBox.pending + [message]) == (steerBox.taken + steerBox.pending) + [message];
      steerBox := PutIn(steerBox, message);
    }

    method DrainSteers() returns (taken: seq<string>)
      requires Valid()
      modifies this`steers, this`steerBox
      ensures Valid() && taken == old(steers) && steers == [] && steerBox == TakeOut(old(steerBox))
    {
      taken, steers := steers, [];
      assert (steerBox.taken + steerBox.pending) + [] == steerBox.taken + steerBox.pending;
      steerBox := TakeOut(steerBox);
    }

    method Note(message: string)
      requires Valid()
      modifies this`notices, this`noticeBox
      ensures Valid() && noticeBox == PutIn(old(noticeBox), message)
    {
      notices := notices + [message];
      assert noticeBox.taken + (noticeBox.pending + [message]) == (noticeBox.taken + noticeBox.pending) + [message];
      noticeBox := PutIn(noticeBox, message);
    }

    method DrainNotices() returns (taken: seq<string>)
      requires Valid()
      modifies this`notices, this`noticeBox
      ensures Valid() && taken == old(notices) && notices == [] && noticeBox == TakeOut(old(noticeBox))
    {
      taken, notices := notices, [];
      assert (noticeBox.taken + noticeBox.pending) + [] == noticeBox.taken + noticeBox.pending;
      noticeBox := TakeOut(noticeBox);
    }
  }
}

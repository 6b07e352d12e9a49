/**
 * The session state machine as a whole: `SessionStateBase.handleEvent`
 * and `handleRequest` route each event to the handler the current state
 * overrides, the base class throws for the rest, and the errors a state
 * does not handle itself send the session to InternalErrorState.
 * `OrchestratedSession` keeps the current state between events.
 */
module Fsm {
  import opened Wrappers
  import opened Sip
  import opened Stack
  import opened Handlers
  import opened Context
  import opened Registry
  import opened StateBase
  import InitialState
  import Chaining
  import Waiting
  import Ongoing
  import Ending
  import EndState
  import ErrorState

  // ---------------------------------------------------------------------
  // Which state handles what, and where a state may lead
  // ---------------------------------------------------------------------

  /** The request methods `handleRequest` routes to a handler of the state; any other method is refused with 405. */
  predicate Routed(m: Method)
  {
    m.INVITE? || m.ACK? || m.BYE? || m.PRACK? || m.CANCEL? || m.OPTIONS? || m.INFO?
  }

  /**
   * The request handlers each state overrides; for every other method the
   * base class throws UnsupportedOperationException. No state handles
   * OPTIONS, and InternalErrorState handles its events itself.
   */
  predicate Handles(st: State, m: Method)
  {
    match m
    case INVITE => st.Initial? || st.Chaining? || st.SessionEnding?
    case ACK => st.Chaining? || st.WaitingForImScf? || st.SessionOngoing? || st.End?
    case BYE => st.Chaining? || st.WaitingForImScf? || st.SessionOngoing? || st.SessionEnding?
    case PRACK => st.Chaining? || st.WaitingForImScf?
    case CANCEL => st.Chaining? || st.WaitingForImScf?
    case INFO => st.Chaining? || st.WaitingForImScf? || st.SessionOngoing?
    case _ => false
  }

  /**
   * The states an event may lead to from `st`: the same state or
   * InternalErrorState from anywhere, and otherwise only forward through
   * the call's life: the initial INVITE starts chaining (or ends at once),
   * chaining reaches the IM-SCF, the ACKs make the call ongoing, a BYE ends
   * it, and an AS may start a new leg while the call ends. Only the
   * waiting state may change its own data.
   */
  predicate Follows(st: State, next: State)
  {
    || next == st
    || next == InternalError
    || match st
       case Initial => next == Chaining || next == End
       case Chaining => next == NEW_WAITING
       case WaitingForImScf(_, _) => next.WaitingForImScf? || next == Chaining || next == SessionOngoing
       case SessionOngoing => next == SessionEnding
       case SessionEnding => next == Chaining || next == NEW_WAITING
       case InternalError => false
       case End => false
  }

  /** Each state of `run` follows the one before it. */
  ghost predicate Run(run: seq<State>)
  {
    forall i :: 0 < i < |run| ==> Follows(run[i - 1], run[i])
  }

  /** No state but the initial one leads back to it. */
  lemma {:induction false} NeverInitialAgain(run: seq<State>, k: nat)
    requires Run(run) && |run| > 0 && run[0] != Initial && k < |run|
    ensures run[k] != Initial
  {
    if k > 0 {
      NeverInitialAgain(run, k - 1);
      assert Follows(run[k - 1], run[k]);
    }
  }

  /** Once in InternalErrorState, a session never leaves it. */
  lemma {:induction false} InternalErrorIsFinal(run: seq<State>, j: nat, k: nat)
    requires Run(run) && j <= k < |run| && run[j] == InternalError
    ensures run[k] == InternalError
  {
    if k > j {
      InternalErrorIsFinal(run, j, k - 1);
      assert Follows(run[k - 1], run[k]);
    }
  }

  /** Once in EndState, a session stays there unless an error takes it to InternalErrorState. */
  lemma {:induction false} EndIsFinal(run: seq<State>, j: nat, k: nat)
    requires Run(run) && j <= k < |run| && run[j] == End
    ensures run[k] == End || run[k] == InternalError
  {
    if k > j {
      EndIsFinal(run, j, k - 1);
      assert Follows(run[k - 1], run[k]);
    }
  }

  /**
   * A session that started in the initial state is ongoing only after it
   * waited for the IM-SCF: the call is established only once the ACKs went
   * round.
   */
  lemma {:induction false} OngoingAfterWaiting(run: seq<State>, k: nat)
    requires Run(run) && |run| > 0 && run[0] == Initial && k < |run| && run[k] == SessionOngoing
    ensures exists j :: 0 <= j < k && run[j].WaitingForImScf?
  {
    assert k > 0;
    assert Follows(run[k - 1], run[k]);
    if run[k - 1].WaitingForImScf? {
    } else {
      assert run[k - 1] == SessionOngoing;
      OngoingAfterWaiting(run, k - 1);
    }
  }

  /** A session that started in the initial state is ending only after it was ongoing. */
  lemma {:induction false} EndingAfterOngoing(run: seq<State>, k: nat)
    requires Run(run) && |run| > 0 && run[0] == Initial && k < |run| && run[k] == SessionEnding
    ensures exists j :: 0 <= j < k && run[j] == SessionOngoing
  {
    assert k > 0;
    assert Follows(run[k - 1], run[k]);
    if run[k - 1] == SessionOngoing {
    } else {
      assert run[k - 1] == SessionEnding;
      EndingAfterOngoing(run, k - 1);
    }
  }

  // ---------------------------------------------------------------------
  // Requests
  // ---------------------------------------------------------------------

  /** `handleInvite` of the state, once the INVITE was preprocessed. */
  method OnInvite(ctx: SessionContext, st: State, req: Request, net: Net) returns (step: Step)
    requires Inv(ctx)
    modifies ctx, ctx.handlers, ctx.ruleset.applications, net, net.sequence
    ensures Inv(ctx) && old(net.log) <= net.log
    ensures forall x :: x in ctx.handlers && x !in old(ctx.handlers) ==> fresh(x)
    ensures step.Next? ==> Follows(st, step.state)
    ensures !Handles(st, INVITE) ==> step == Raise(RuntimeFault) && net.log == old(net.log)
  {
    match st {
      case Initial =>
        step := InitialState.HandleInvite(ctx, req, net);
      case Chaining =>
        step := Chaining.HandleInvite(ctx, req, net);
      case SessionEnding =>
        step := Ending.HandleInvite(ctx, req, net);
      case _ =>
        step := Raise(RuntimeFault);
    }
  }

  /** `handleAck` of the state. */
  method OnAck(ctx: SessionContext, st: State, ev: Event, net: Net) returns (step: Step)
    requires Inv(ctx) && ev.RequestEvent?
    modifies ctx.handlers`handlerState, net`log
    ensures Inv(ctx) && old(net.log) <= net.log
    ensures step.Next? ==> Follows(st, step.state)
    ensures !Handles(st, ACK) ==> step == Raise(RuntimeFault) && net.log == old(net.log)
    ensures st.Chaining? || st.End? ==> step == Next(st) && net.log == old(net.log)
  {
    match st {
      case Chaining =>
        step := Next(Chaining);
      case WaitingForImScf(_, _) =>
        step := Waiting.ForwardAck(ctx, ev, st, net);
      case SessionOngoing =>
        step := Ongoing.HandleAck(ctx, ev, net);
      case End =>
        step := EndState.HandleAck(ctx, ev);
      case _ =>
        step := Raise(RuntimeFault);
    }
  }

  /** `handleBye` of the state. */
  method OnBye(ctx: SessionContext, st: State, ev: Event, net: Net) returns (step: Step)
    requires Inv(ctx) && ev.RequestEvent?
    modifies ctx`byeInitiatedByCallingParty, ctx`currentHandler, ctx.handlers`handlerState
    modifies ctx.handlers`lastServerTransaction, ctx.handlers`lastIncomingRequest, net`log
    ensures Inv(ctx) && old(net.log) <= net.log
    ensures step.Next? ==> Follows(st, step.state)
    ensures !Handles(st, BYE) ==> step == Raise(RuntimeFault) && net.log == old(net.log)
  {
    if st.SessionOngoing? {
      step := Ongoing.HandleBye(ctx, ev, net);
    } else if st.SessionEnding? {
      step := Ending.HandleBye(ctx, ev, net);
    } else if st.Chaining? || st.WaitingForImScf? {
      var sender := Chaining.Sender(ctx, ev);
      if sender.None? {
        return Raise(RuntimeFault);
      }
      ctx.Listed(sender.value);
      step := Chaining.ByeOnNext(ctx, ev, sender.value, st, net);
    } else {
      step := Raise(RuntimeFault);
    }
  }

  /** `handlePrack` of the state: chaining and waiting pass the PRACK on. */
  method OnPrack(ctx: SessionContext, st: State, ev: Event, net: Net) returns (step: Step)
    requires Inv(ctx) && ev.RequestEvent?
    modifies ctx.handlers`pendingReliableResponse, ctx.handlers`lastPrackServerTransaction
    modifies ctx.handlers`lastIncomingPrackRequest, ctx.handlers`lastInfoServerTransaction
    modifies ctx.handlers`lastIncomingInfoRequest, net`log
    ensures Inv(ctx) && old(net.log) <= net.log
    ensures step.Next? ==> step == Next(st)
    ensures !Handles(st, PRACK) ==> step == Raise(RuntimeFault) && net.log == old(net.log)
  {
    if !(st.Chaining? || st.WaitingForImScf?) {
      return Raise(RuntimeFault);
    }
    var sender := Chaining.Sender(ctx, ev);
    if sender.None? {
      return Raise(RuntimeFault);
    }
    ctx.Listed(sender.value);
    step := Chaining.PrackOnNext(ctx, ev, sender.value, st, net);
  }

  /** `handleCancel` of the state, once the CANCEL was answered. */
  method OnCancel(ctx: SessionContext, st: State, ev: Event, net: Net) returns (step: Step)
    requires Inv(ctx) && ev.RequestEvent?
    modifies ctx, ctx.handlers, ctx.ruleset.applications, net`log
    ensures Inv(ctx) && old(net.log) <= net.log
    ensures forall x :: x in ctx.handlers && x !in old(ctx.handlers) ==> fresh(x)
    ensures step.Next? ==> Follows(st, step.state)
    ensures !Handles(st, CANCEL) ==> step == Raise(RuntimeFault) && net.log == old(net.log)
  {
    if !(st.Chaining? || st.WaitingForImScf?) {
      return Raise(RuntimeFault);
    }
    var sender := Chaining.Sender(ctx, ev);
    if sender.None? {
      return Raise(RuntimeFault);
    }
    ctx.Listed(sender.value);
    step := Chaining.CancelOnNext(ctx, sender.value, st, net);
  }

  /** `handleInfo` of the state: chaining, waiting and ongoing pass the INFO on. */
  method OnInfo(ctx: SessionContext, st: State, ev: Event, net: Net) returns (step: Step)
    requires Inv(ctx) && ev.RequestEvent?
    modifies ctx.handlers`specialInfoSender, ctx.handlers`lastInfoServerTransaction
    modifies ctx.handlers`lastIncomingInfoRequest, ctx.handlers`lastPrackServerTransaction
    modifies ctx.handlers`lastIncomingPrackRequest, net`log
    ensures Inv(ctx) && old(net.log) <= net.log
    ensures step.Next? ==> step == Next(st)
    ensures !Handles(st, INFO) ==> step == Raise(RuntimeFault) && net.log == old(net.log)
  {
    if !(st.Chaining? || st.WaitingForImScf? || st.SessionOngoing?) {
      return Raise(RuntimeFault);
    }
    step := HandleCommonInfoLogic(ctx, ev, st, net);
  }

  /** An INVITE: preprocessed, dropped when it is a retransmission, and otherwise handled by the state. */
  method InviteRequest(ctx: SessionContext, st: State, ev: Event, net: Net) returns (step: Step)
    requires Inv(ctx) && ev.RequestEvent?
    modifies ctx, ctx.handlers, ctx.ruleset.applications, net, net.sequence
    ensures Inv(ctx) && old(net.log) <= net.log
    ensures forall x :: x in ctx.handlers && x !in old(ctx.handlers) ==> fresh(x)
    ensures step.Next? ==> Follows(st, step.state)
    ensures old(IsRetransmission(ctx, ev.req)) ==> step == Next(st) && net.log == old(net.log)
    ensures !Handles(st, INVITE) ==> step.Raise? || step == Next(st)
  {
    var proceed, err := PreprocessInvite(ctx, ev.req, net);
    if err.Some? {
      return Raise(err.value);
    }
    if !proceed {
      return Next(st);
    }
    step := OnInvite(ctx, st, ev.req, net);
  }

  /** A CANCEL: answered with 200 on its own transaction first, then handled by the state. */
  method CancelRequest(ctx: SessionContext, st: State, ev: Event, net: Net) returns (step: Step)
    requires Inv(ctx) && ev.RequestEvent?
    modifies ctx, ctx.handlers, ctx.ruleset.applications, net`log
    ensures Inv(ctx) && old(net.log) <= net.log
    ensures forall x :: x in ctx.handlers && x !in old(ctx.handlers) ==> fresh(x)
    ensures step.Next? ==> Follows(st, step.state)
    ensures old(net.log) + Accepted(net.broken, ServerTxLink(ev.stx), Resp(OK, "")) <= net.log
    ensures !Handles(st, CANCEL) ==> step == Raise(RuntimeFault)
  {
    var err := SendOkToCancel(ev.stx, net);
    if err.Some? {
      return Raise(err.value);
    }
    step := OnCancel(ctx, st, ev, net);
  }

  /**
   * `handleRequest`: an INVITE is preprocessed first, and a retransmission
   * is dropped; a CANCEL is answered with 200 before its handler runs; a
   * method outside those routed is refused with a stateless 405 and the
   * state stays. A routed method the state has no handler for is an
   * UnsupportedOperationException.
   */
  method HandleRequest(ctx: SessionContext, st: State, ev: Event, net: Net) returns (step: Step)
    requires Inv(ctx) && ev.RequestEvent?
    modifies ctx, ctx.handlers, ctx.ruleset.applications, net, net.sequence
    ensures Inv(ctx) && old(net.log) <= net.log
    ensures forall x :: x in ctx.handlers && x !in old(ctx.handlers) ==> fresh(x)
    ensures step.Next? ==> Follows(st, step.state)
    ensures var m := ev.req.meth;
      Routed(m) && !m.INVITE? && !m.CANCEL? && !Handles(st, m) ==>
        step == Raise(RuntimeFault) && net.log == old(net.log)
    ensures !Routed(ev.req.meth) ==>
      && step == Next(st)
      && net.log == old(net.log) + Accepted(net.broken, Stateless, Resp(METHOD_NOT_ALLOWED, METHOD_NOT_SUPPORTED))
    ensures ev.req.meth.INVITE? && old(IsRetransmission(ctx, ev.req)) ==> step == Next(st) && net.log == old(net.log)
    ensures ev.req.meth.INVITE? && !Handles(st, INVITE) ==> step.Raise? || step == Next(st)
    ensures ev.req.meth.CANCEL? ==> old(net.log) + Accepted(net.broken, ServerTxLink(ev.stx), Resp(OK, "")) <= net.log
    ensures ev.req.meth.CANCEL? && !Handles(st, CANCEL) ==> step == Raise(RuntimeFault)
  {
    match ev.req.meth {
      case INVITE =>
        step := InviteRequest(ctx, st, ev, net);
      case ACK =>
        step := OnAck(ctx, st, ev, net);
      case BYE =>
        step := OnBye(ctx, st, ev, net);
      case PRACK =>
        step := OnPrack(ctx, st, ev, net);
      case CANCEL =>
        step := CancelRequest(ctx, st, ev, net);
      case OPTIONS =>
        step := Raise(RuntimeFault);
      case INFO =>
        step := OnInfo(ctx, st, ev, net);
      case _ =>
        SendImmediateErrorResponse(METHOD_NOT_ALLOWED, METHOD_NOT_SUPPORTED, net);
        step := Next(st);
    }
  }

  /** The reason phrase of the 405 to an unsupported method. */
  const METHOD_NOT_SUPPORTED := "Method not supported"

  // ---------------------------------------------------------------------
  // Responses and timeouts
  // ---------------------------------------------------------------------

  /** `handleResponse` of the state; the initial and the error state have none. */
  method OnResponse(ctx: SessionContext, st: State, ev: Event, net: Net) returns (step: Step)
    requires Inv(ctx) && ev.ResponseEvent?
    modifies ctx, ctx.handlers, ctx.ruleset.applications, net, net.sequence
    ensures Inv(ctx) && old(net.log) <= net.log
    ensures forall x :: x in ctx.handlers && x !in old(ctx.handlers) ==> fresh(x)
    ensures step.Next? ==> Follows(st, step.state)
    ensures st.Initial? || st.InternalError? ==> step == Raise(RuntimeFault) && net.log == old(net.log)
  {
    match st {
      case Chaining =>
        step := Chaining.HandleResponse(ctx, ev, net);
      case WaitingForImScf(_, _) =>
        step := Waiting.HandleResponse(ctx, ev, st, net);
      case SessionOngoing =>
        step := Ongoing.HandleResponse(ctx, ev, net);
      case SessionEnding =>
        step := Ending.HandleResponse(ctx, ev, net);
      case End =>
        step := EndState.HandleResponse(ctx, ev, net);
      case _ =>
        step := Raise(RuntimeFault);
    }
  }

  /** `processTimeout` of the state; the initial, ongoing and error states have none. */
  method OnTimeout<S>(ctx: SessionContext, st: State, ev: Event, net: Net, reg: SessionManager<S>) returns (step: Step)
    requires Inv(ctx) && ev.TimeoutEvent?
    modifies ctx, ctx.handlers, ctx.ruleset.applications, net, net.sequence, reg
    ensures Inv(ctx) && old(net.log) <= net.log
    ensures forall x :: x in ctx.handlers && x !in old(ctx.handlers) ==> fresh(x)
    ensures step.Next? ==> Follows(st, step.state)
    ensures st.Initial? || st.SessionOngoing? || st.InternalError? ==>
      step == Raise(RuntimeFault) && net.log == old(net.log) && reg.sessions == old(reg.sessions)
    ensures st.End? ==> step == Next(End) && net.log == old(net.log)
  {
    match st {
      case Chaining =>
        step := Chaining.ProcessTimeout(ctx, ev, net, reg);
      case WaitingForImScf(_, _) =>
        step := Waiting.ProcessTimeout(ctx, ev, st, net, reg);
      case SessionEnding =>
        step := Ending.ProcessTimeout(ctx, ev, net);
      case End =>
        step := EndState.ProcessTimeout(ctx, ev);
      case _ =>
        step := Raise(RuntimeFault);
    }
  }

  // ---------------------------------------------------------------------
  // handleEvent
  // ---------------------------------------------------------------------

  /** A request, with SendResponseError and UnrecoverableError caught into the internal error handling. */
  method OnRequestEvent<S>(ctx: SessionContext, st: State, ev: Event, net: Net, reg: SessionManager<S>) returns (step: Step)
    requires Inv(ctx) && ev.RequestEvent?
    modifies ctx, ctx.handlers, ctx.ruleset.applications, net, net.sequence, reg
    ensures Inv(ctx) && old(net.log) <= net.log
    ensures step.Next? ==> Follows(st, step.state)
    ensures step.Raise? ==> step.fault != SendResponseError && step.fault != UnrecoverableError
    ensures !Routed(ev.req.meth) ==> step == Next(st)
  {
    ghost var h0 := ctx.handlers;
    step := HandleRequest(ctx, st, ev, net);
    if step == Raise(SendResponseError) || step == Raise(UnrecoverableError) {
      forall i | 0 <= i < |ctx.handlers|
        ensures ctx.handlers[i] in h0 || fresh(ctx.handlers[i])
      {
      }
      step := HandleInternalError(ctx, false, net, reg);
    }
  }

  /** A response, with every exception caught into the internal error handling. */
  method OnResponseEvent<S>(ctx: SessionContext, st: State, ev: Event, net: Net, reg: SessionManager<S>) returns (step: Step)
    requires Inv(ctx) && ev.ResponseEvent?
    modifies ctx, ctx.handlers, ctx.ruleset.applications, net, net.sequence, reg
    ensures Inv(ctx) && old(net.log) <= net.log
    ensures step.Next? ==> Follows(st, step.state)
    ensures step.Raise? ==> step.fault == RuntimeFault
    ensures st.Initial? ==> step == Next(InternalError) || step == Raise(RuntimeFault)
  {
    ghost var h0 := ctx.handlers;
    step := OnResponse(ctx, st, ev, net);
    if step.Raise? {
      forall i | 0 <= i < |ctx.handlers|
        ensures ctx.handlers[i] in h0 || fresh(ctx.handlers[i])
      {
      }
      step := HandleInternalError(ctx, false, net, reg);
    }
  }

  /** A timeout, with SendResponseError and UnexpectedSipMessageError caught into the internal error handling. */
  method OnTimeoutEvent<S>(ctx: SessionContext, st: State, ev: Event, net: Net, reg: SessionManager<S>) returns (step: Step)
    requires Inv(ctx) && ev.TimeoutEvent?
    modifies ctx, ctx.handlers, ctx.ruleset.applications, net, net.sequence, reg
    ensures Inv(ctx) && old(net.log) <= net.log
    ensures step.Next? ==> Follows(st, step.state)
    ensures step.Raise? ==> step.fault != SendResponseError && step.fault != UnexpectedSipMessageError
    ensures st.End? ==> step == Next(End) && net.log == old(net.log)
  {
    ghost var h0 := ctx.handlers;
    step := OnTimeout(ctx, st, ev, net, reg);
    if step == Raise(SendResponseError) || step == Raise(UnexpectedSipMessageError) {
      forall i | 0 <= i < |ctx.handlers|
        ensures ctx.handlers[i] in h0 || fresh(ctx.handlers[i])
      {
      }
      step := HandleInternalError(ctx, false, net, reg);
    }
  }

  /**
   * `handleEvent`: InternalErrorState handles every event itself. In the
   * other states a request, response or timeout goes to the state's
   * handler; the end of a dialog is counted off in any state, the session
   * leaving the registry with its last dialog, and the state stays; any
   * other event is an UnsupportedOperationException.
   */
  method HandleEvent<S>(ctx: SessionContext, st: State, ev: Event, net: Net, reg: SessionManager<S>) returns (step: Step)
    requires Inv(ctx)
    modifies ctx, ctx.handlers, ctx.ruleset.applications, net, net.sequence, reg
    ensures Inv(ctx) && old(net.log) <= net.log
    ensures step.Next? ==> Follows(st, step.state)
    ensures st == InternalError ==> step == Next(InternalError) || step == Raise(RuntimeFault)
    ensures st != InternalError && ev.RequestEvent? && step.Raise? ==>
      step.fault != SendResponseError && step.fault != UnrecoverableError
    ensures st != InternalError && ev.ResponseEvent? && step.Raise? ==> step.fault == RuntimeFault
    ensures st != InternalError && ev.TimeoutEvent? && step.Raise? ==>
      step.fault != SendResponseError && step.fault != UnexpectedSipMessageError
    ensures st != InternalError && (ev.DialogTimeoutEvent? || ev.DialogTerminatedEvent?) ==>
      var d := if ev.DialogTimeoutEvent? then ev.timedOutDialog else ev.terminatedDialog;
      && step == Next(st) && net.log == old(net.log)
      && ctx.pendingDialogs == old(ctx.pendingDialogs) - {d}
      && reg.sessions == if old(ctx.pendingDialogs) == {d} then old(reg.sessions) - {ctx.key} else old(reg.sessions)
    ensures st != InternalError && ev.OtherEvent? ==> step == Raise(RuntimeFault) && net.log == old(net.log)
  {
    if st == InternalError {
      step := ErrorState.HandleEvent(ctx, ev, net, reg);
      return;
    }
    match ev {
      case RequestEvent(_, _, _, _) =>
        step := OnRequestEvent(ctx, st, ev, net, reg);
      case ResponseEvent(_, _, _, _) =>
        step := OnResponseEvent(ctx, st, ev, net, reg);
      case TimeoutEvent(_, _, _, _) =>
        step := OnTimeoutEvent(ctx, st, ev, net, reg);
      case DialogTimeoutEvent(d, _) =>
        var _ := CheckAndRemoveSession(ctx, d, reg);
        step := Next(st);
      case DialogTerminatedEvent(d, _) =>
        var _ := CheckAndRemoveSession(ctx, d, reg);
        step := Next(st);
      case OtherEvent =>
        step := Raise(RuntimeFault);
    }
  }

  // ---------------------------------------------------------------------
  // The session
  // ---------------------------------------------------------------------

  /**
   * `OrchestratedSession`: the session context and the current state,
   * InitialState at first. `history` is the states the session has been
   * in, oldest first.
   */
  class OrchestratedSession<S> {
    const ctx: SessionContext
    var state: State
    ghost var history: seq<State>

    /** The history is a run of the state machine from the initial state, ending in the current state. */
    ghost predicate Tracked()
      reads this
    {
      |history| > 0 && history[0] == Initial && Last(history) == state && Run(history)
    }

    constructor(ctx: SessionContext)
      ensures this.ctx == ctx && state == Initial && history == [Initial] && Tracked()
    {
      this.ctx := ctx;
      state := Initial;
      history := [Initial];
    }

    /**
     * `handleNextEvent`: the current state handles the event, and the
     * state it returns becomes current; when it returns none the session
     * is over and the state stays, as it does when an exception escapes.
     */
    method HandleNextEvent(ev: Event, net: Net, reg: SessionManager<S>) returns (step: Step)
      requires Inv(ctx) && Tracked()
      modifies this, ctx, ctx.handlers, ctx.ruleset.applications, net, net.sequence, reg
      ensures Inv(ctx) && Tracked() && old(net.log) <= net.log
      ensures state == if step.Next? then step.state else old(state)
      ensures history == old(history) + [state]
      ensures Follows(old(state), state)
    {
      step := HandleEvent(ctx, state, ev, net, reg);
      var next := if step.Next? then step.state else state;
      history := history + [next];
      state := next;
    }
  }

  /** A session is ongoing only after it waited for the IM-SCF, and ending only after it was ongoing. */
  lemma SessionOrder<S>(s: OrchestratedSession<S>)
    requires s.Tracked()
    ensures s.state != Initial ==> exists j :: 0 <= j < |s.history| - 1 && s.history[j] == Initial
    ensures s.state == SessionOngoing ==> exists j :: 0 <= j < |s.history| && s.history[j].WaitingForImScf?
    ensures s.state == SessionEnding ==> exists j :: 0 <= j < |s.history| && s.history[j] == SessionOngoing
  {
    var k := |s.history| - 1;
    if s.state == SessionOngoing {
      OngoingAfterWaiting(s.history, k);
    }
    if s.state == SessionEnding {
      EndingAfterOngoing(s.history, k);
    }
  }
}

/**
 * What every state of an orchestrated session shares (`SessionStateBase`):
 * the states and the outcome of a step, error teardown and the internal-error
 * entry, dialog bookkeeping, INVITE preprocessing and retransmission
 * detection, the INFO relay, and the "respond back" patterns the states use
 * when a leg fails or is cancelled.
 *
 * A step works on the session context `ctx`, the SIP stack `net` and the
 * session registry `reg`. A Java exception that leaves a step is
 * `Raise(fault)`; a null reference the Java code dereferences is
 * `RuntimeFault`.
 */
module StateBase {
  import opened Wrappers
  import opened Sip
  import opened Stack
  import opened Config
  import opened Handlers
  import opened Context
  import opened Registry

  /** The session states; only WaitingForImScf carries data, its two ACK flags. */
  datatype State =
    | Initial
    | Chaining
    | WaitingForImScf(ackReceivedFromImScf: bool, ackSentToImScf: bool)
    | SessionOngoing
    | SessionEnding
    | InternalError
    | End

  /** A fresh WaitingForImScfState: no ACK received or sent yet. */
  const NEW_WAITING := WaitingForImScf(false, false)

  /** The outcome of a step: the next state, no state (the session is gone), or an exception. */
  datatype Step = Next(state: State) | Finished | Raise(fault: Fault)

  /** `st`, unless a send failed with `err`. */
  function Then(err: Option<Fault>, st: State): (s: Step)
    ensures s.Raise? <==> err.Some?
    ensures err.None? ==> s == Next(st)
  {
    if err.Some? then Raise(err.value) else Next(st)
  }

  /** What holds of a session context between steps. */
  ghost predicate Inv(ctx: SessionContext)
    reads ctx`handlers, ctx`imScfHandlerB, ctx`currentHandler, ctx.handlers`next, ctx.handlers`prev, ctx.handlers`specialInfoSender
    reads ctx.ruleset`applications, ctx.ruleset.applications`endpoints, ctx.ruleset.applications`lastEndpointIndex
  {
    ctx.Valid() && RulesetReady(ctx.ruleset)
  }

  /** `setHandlerState`: only the state of `h` changes. */
  method Mark(ctx: SessionContext, h: Handler, s: HandlerState)
    requires Inv(ctx)
    modifies h`handlerState
    ensures Inv(ctx) && h.handlerState == s
  {
    h.handlerState := s;
  }

  /** `h` has been sent its INVITE: it is INVITED and its outgoing dialog is pending. */
  method Engage(ctx: SessionContext, h: Handler)
    requires Inv(ctx) && h.outgoingDialog.Some?
    modifies ctx`pendingDialogs, h`handlerState
    ensures Inv(ctx) && h.handlerState == INVITED
    ensures ctx.pendingDialogs == old(ctx.pendingDialogs) + {h.outgoingDialog.value}
  {
    h.handlerState := INVITED;
    ctx.AddDialog(h.outgoingDialog.value);
  }

  /** The request `h` received and its server transaction are kept on `h`, to be answered later. */
  method KeepRequest(ctx: SessionContext, h: Handler, stx: Option<TxId>, req: Request)
    requires Inv(ctx)
    modifies h`lastServerTransaction, h`lastIncomingRequest
    ensures Inv(ctx) && h.lastServerTransaction == stx && h.lastIncomingRequest == Some(req)
  {
    h.lastServerTransaction := stx;
    h.lastIncomingRequest := Some(req);
  }

  /** `setReliableResponseProcessing`: a reliable 183 is on its way back and its PRACK on its way forward. */
  method SetReliableProcessing(ctx: SessionContext, on: bool)
    requires Inv(ctx)
    modifies ctx`reliableResponseProcessing
    ensures Inv(ctx) && ctx.reliableResponseProcessing == on
  {
    ctx.reliableResponseProcessing := on;
  }

  /** `setLastSessionProgressResponse`: `h` remembers the 183 it sent. */
  method KeepProgress(ctx: SessionContext, h: Handler, resp: Response)
    requires Inv(ctx)
    modifies h`lastSessionProgressResponse
    ensures Inv(ctx) && h.lastSessionProgressResponse == Some(resp)
  {
    h.lastSessionProgressResponse := Some(resp);
  }

  /** `forwardReliableProvisionalResponse` on `p`: at most one reliable response waits for its PRACK. */
  method PassReliable(ctx: SessionContext, p: Handler, resp: Response, net: Net) returns (err: Option<Fault>)
    requires Inv(ctx)
    modifies net`log, p`pendingReliableResponse
    ensures Inv(ctx)
    ensures old(p.pendingReliableResponse) ==> err.None? && net.log == old(net.log) && p.pendingReliableResponse
    ensures !old(p.pendingReliableResponse) ==>
      var link := DialogLink(p.incomingDialog);
      && net.log == old(net.log) + Accepted(net.broken, link, Resp(resp.status, ""))
      && err == ResponseFault(Outcome(net.broken, link))
      && p.pendingReliableResponse == err.None?
  {
    err := p.ForwardReliableProvisionalResponse(resp, net);
  }

  /** `forwardPrackResponse` on `p`: the answer goes back on `p`'s pending PRACK transaction. */
  method PassPrackResponse(ctx: SessionContext, p: Handler, resp: Response, net: Net) returns (err: Option<Fault>)
    requires Inv(ctx)
    modifies net`log, p`lastPrackServerTransaction, p`lastIncomingPrackRequest
    ensures Inv(ctx)
    ensures var link := ServerTxLink(old(p.lastPrackServerTransaction));
      && net.log == old(net.log) + Accepted(net.broken, link, Resp(resp.status, ""))
      && err == ResponseFault(Outcome(net.broken, link))
  {
    err := p.ForwardPrackResponse(resp, net);
  }

  /**
   * The dialogs handler that application data refers to: the handler with
   * that id among the session's handlers. None stands for a null wrapper or
   * handler, which the Java code dereferences.
   */
  function HandlerOf(ctx: SessionContext, app: Option<AppData>): (r: Option<Handler>)
    reads ctx`handlers
    ensures r.Some? <==> app.Some? && app.value.handler.Some? && app.value.handler.value < |ctx.handlers|
    ensures r.Some? ==> r.value == ctx.handlers[app.value.handler.value]
  {
    if app.Some? && app.value.handler.Some? && app.value.handler.value < |ctx.handlers|
    then Some(ctx.handlers[app.value.handler.value])
    else None
  }

  function Last<T>(s: seq<T>): T
    requires |s| > 0
  {
    s[|s| - 1]
  }

  // ---------------------------------------------------------------------
  // Error teardown
  // ---------------------------------------------------------------------

  /** What error teardown does to one leg. */
  datatype Teardown = Leave | MarkToCancel | CancelLeg | ByeLeg

  /**
   * The teardown rule of `disconnectAllDialogsOnError`, as its comments and
   * log lines describe it: a leg with a provisional response is cancelled,
   * an early or confirmed dialog gets a BYE, a leg that was invited but has
   * not answered yet is marked SET_TO_CANCEL so that its first response
   * releases it, and every other leg is left alone.
   */
  function TeardownOf(s: HandlerState): Teardown
  {
    match s
    case PROVISIONAL => CancelLeg
    case SESSION_PROGRESS_REPORTED | SESSION_PROGRESS_CONFIRMED | ANSWERED => ByeLeg
    case INVITED => MarkToCancel
    case _ => Leave
  }

  /** The rule as the code has it: an INVITED leg is only logged as marked, and keeps its state. */
  function TeardownAsWritten(s: HandlerState): Teardown
  {
    if s == INVITED then Leave else TeardownOf(s)
  }

  /** A leg's state after the teardown `t`. */
  function TornDown(s: HandlerState, t: Teardown): HandlerState
  {
    match t
    case Leave => s
    case MarkToCancel => SET_TO_CANCEL
    case CancelLeg | ByeLeg => TERMINATED
  }

  /** How a response to a leg that is waiting to be cancelled releases it. */
  datatype Release = NoRelease | ReleaseByCancel | ReleaseByBye

  /**
   * A leg in SET_TO_CANCEL is released by the first response it sends: a
   * provisional one is answered by CANCEL and every final one below 420 by
   * BYE, whatever its class (a 3xx or a 404 included); from 420 up nothing
   * is sent.
   */
  function ReleaseOnResponse(s: HandlerState, status: int): Release
  {
    if s != SET_TO_CANCEL then NoRelease
    else if status < OK then ReleaseByCancel
    else if status < BAD_EXTENSION then ReleaseByBye
    else NoRelease
  }

  /** A leg the broker has invited and not yet released. */
  predicate Engaged(s: HandlerState)
  {
    s == INVITED || s == PROVISIONAL || s == SESSION_PROGRESS_REPORTED
    || s == SESSION_PROGRESS_CONFIRMED || s == ANSWERED
  }

  /**
   * With the teardown rule every engaged leg is released: at once, by CANCEL
   * or BYE, or, when it has not answered yet, by its first response below 420;
   * legs that are not engaged are left as they are.
   */
  lemma TeardownReleases(s: HandlerState, status: int)
    ensures Engaged(s) ==>
      || TornDown(s, TeardownOf(s)) == TERMINATED
      || (TornDown(s, TeardownOf(s)) == SET_TO_CANCEL
          && (status < BAD_EXTENSION ==> ReleaseOnResponse(SET_TO_CANCEL, status) != NoRelease))
    ensures !Engaged(s) ==> TornDown(s, TeardownOf(s)) == s
  {
  }

  /**
   * As written, an INVITED leg keeps its state through teardown, and the 200
   * OK it sends later releases nothing: its dialog is never closed.
   */
  lemma InvitedLegLeftOpen()
    ensures Engaged(INVITED)
    ensures TornDown(INVITED, TeardownAsWritten(INVITED)) == INVITED
    ensures ReleaseOnResponse(TornDown(INVITED, TeardownAsWritten(INVITED)), OK) == NoRelease
  {
  }

  /** Applies the teardown rule to one leg: CANCEL or BYE and TERMINATED, a mark, or nothing. */
  method TearDownLeg(h: Handler, net: Net) returns (err: Option<Fault>)
    modifies net`log, h`handlerState
    ensures h.handlerState == TornDown(old(h.handlerState), TeardownOf(old(h.handlerState)))
    ensures err.Some? ==> err == Some(RuntimeFault)
    ensures TeardownOf(old(h.handlerState)) == CancelLeg ==>
      net.log == old(net.log) + Accepted(net.broken, ClientTxLink(h.lastClientTransaction), Req(CANCEL))
      && (err.Some? <==> h.lastClientTransaction.None?)
    ensures TeardownOf(old(h.handlerState)) == ByeLeg ==>
      net.log == old(net.log) + Accepted(net.broken, DialogLink(h.outgoingDialog), Req(BYE))
      && (err.Some? <==> h.outgoingDialog.None?)
    ensures TeardownOf(old(h.handlerState)) in {Leave, MarkToCancel} ==> err.None? && net.log == old(net.log)
  {
    match TeardownOf(h.handlerState)
    case Leave =>
      err := None;
    case MarkToCancel =>
      h.handlerState := SET_TO_CANCEL;
      err := None;
    case CancelLeg =>
      err := h.SendTerminatingCancel(net);
    case ByeLeg =>
      err := h.SendTerminatingBye(net);
  }

  /** Every leg behind A has been torn down from the states it had in `states`. */
  ghost predicate AllTornDown(c: seq<Handler>, states: seq<HandlerState>)
    requires |c| == |states|
    reads set k | 0 <= k < |c| :: c[k]
  {
    forall k :: 0 < k < |c| ==> c[k].handlerState == TornDown(states[k], TeardownOf(states[k]))
  }

  function StatesOf(c: seq<Handler>): (s: seq<HandlerState>)
    reads set k | 0 <= k < |c| :: c[k]
    ensures |s| == |c| && forall k :: 0 <= k < |c| ==> s[k] == c[k].handlerState
  {
    if c == [] then [] else StatesOf(c[..|c| - 1]) + [c[|c| - 1].handlerState]
  }

  /**
   * The walk of `disconnectAllDialogsOnError`: from the handler after A up
   * to the next IM-SCF leg, each leg is torn down; the IM-SCF leg the walk
   * stops at is returned. A null handler is a NullPointerException; a walk
   * longer than the number of handlers stops the same way. On a well-formed
   * chain the walk tears down every AS and stops at B.
   */
  method WalkLegs(ctx: SessionContext, net: Net) returns (err: Option<Fault>, h: Handler?)
    requires ctx.Valid()
    modifies ctx.handlers`handlerState, net`log
    ensures err.Some? ==> err == Some(RuntimeFault)
    ensures err.None? ==> h != null && ctx.Has(h)
    ensures old(net.log) <= net.log
    ensures old(ctx.Chained()) && err.None? ==>
      var c := ctx.chain;
      && h == c[|c| - 1]
      && (forall j :: 0 < j < |c| - 1 ==> c[j].handlerState == TornDown(old(c[j].handlerState), TeardownOf(old(c[j].handlerState))))
      && c[|c| - 1].handlerState == old(c[|c| - 1].handlerState)
    ensures old(ctx.Chained()) ==> ctx.imScfHandlerA.handlerState == old(ctx.imScfHandlerA.handlerState)
  {
    ghost var chained := ctx.Chained();
    ghost var c := ctx.chain;
    ghost var s0 := StatesOf(c);
    if chained {
      ctx.ChainFits();
    }
    ctx.Around(ctx.imScfHandlerA);
    h := ctx.imScfHandlerA.next;
    ghost var first := 0;
    assert chained ==> ctx.Step(c[first], c[first + 1]);
    var fuel: nat := |ctx.handlers|;
    ghost var k := 1;
    while true
      invariant h != null ==> ctx.Has(h)
      invariant old(net.log) <= net.log
      invariant chained ==> ctx.Chained() && 1 <= k < |c| - 1 && h == c[k] && fuel + k + 1 >= |c|
      invariant chained ==> forall j :: 0 < j < k ==> c[j].handlerState == TornDown(s0[j], TeardownOf(s0[j]))
      invariant chained ==> forall j :: 0 <= j < |c| && (j == 0 || k <= j) ==> c[j].handlerState == s0[j]
      decreases fuel
    {
      if h == null {
        return Some(RuntimeFault), h;
      }
      var nh;
      err, nh := WalkStep(ctx, h, net, k);
      if err.Some? {
        return;
      }
      h := nh;
      if h == null {
        return Some(RuntimeFault), h;
      }
      if h.IsImScf() {
        break;
      }
      if fuel == 0 {
        return Some(RuntimeFault), h;
      }
      fuel := fuel - 1;
      k := k + 1;
    }
  }

  /**
   * One leg of the walk: `h` is torn down and the walk goes on to the
   * handler after it. On a well-formed chain where `h` is the `k`th leg,
   * that is the next leg, and no other leg is `h`.
   */
  method WalkStep(ctx: SessionContext, h: Handler, net: Net, ghost k: nat) returns (err: Option<Fault>, nh: Handler?)
    requires ctx.Valid() && ctx.Has(h)
    modifies h`handlerState, net`log
    ensures old(net.log) <= net.log
    ensures err.Some? ==> err == Some(RuntimeFault)
    ensures h.handlerState == TornDown(old(h.handlerState), TeardownOf(old(h.handlerState)))
    ensures err.None? ==> nh == h.next && (nh != null ==> ctx.Has(nh))
    ensures ctx.Chained() && 0 < k < |ctx.chain| - 1 && h == ctx.chain[k] ==>
      && (err.None? ==> nh == ctx.chain[k + 1])
      && forall j :: 0 <= j < |ctx.chain| && j != k ==> ctx.chain[j] != h
  {
    if ctx.Chained() && 0 < k < |ctx.chain| - 1 && h == ctx.chain[k] {
      ctx.Apart(ctx.chain, k);
      assert ctx.Step(ctx.chain[k], ctx.chain[k + 1]);
    }
    nh := null;
    err := TearDownLeg(h, net);
    if err.Some? {
      return;
    }
    ctx.Around(h);
    nh := h.next;
  }

  /**
   * `disconnectAllDialogsOnError`: the walk, then the B leg by the same rule
   * (a CANCEL for it goes through the leg the walk stopped at). On a
   * well-formed chain every leg behind A ends in its torn-down state, and A
   * keeps its own.
   */
  method DisconnectAllDialogsOnError(ctx: SessionContext, net: Net) returns (err: Option<Fault>)
    requires ctx.Valid()
    modifies ctx.handlers`handlerState, net`log
    ensures err.Some? ==> err == Some(RuntimeFault)
    ensures old(ctx.Chained()) && err.None? ==> AllTornDown(ctx.chain, old(StatesOf(ctx.chain)))
    ensures old(ctx.Chained()) ==> ctx.imScfHandlerA.handlerState == old(ctx.imScfHandlerA.handlerState)
    ensures old(net.log) <= net.log
  {
    ghost var chained := ctx.Chained();
    ghost var c := ctx.chain;
    var h;
    err, h := WalkLegs(ctx, net);
    if err.Some? {
      return;
    }
    var b := ctx.imScfHandlerB;
    assert ctx.imScfHandlerA.role != b.role;
    assert chained ==> c[0] == ctx.imScfHandlerA && c[|c| - 1] == b;
    match TeardownOf(b.handlerState)
    case ByeLeg =>
      err := b.SendTerminatingBye(net);
    case CancelLeg =>
      err := h.SendTerminatingCancel(net);
    case MarkToCancel =>
      b.handlerState := SET_TO_CANCEL;
      err := None;
    case Leave =>
      err := None;
  }

  /**
   * `handleInternalError`: every dialog is torn down; with `removeSession`
   * the session also leaves the registry and no state follows, otherwise
   * the session goes on in InternalErrorState until its last dialog ends.
   * An exception from the teardown escapes, with the registry untouched.
   */
  method HandleInternalError<S>(ctx: SessionContext, removeSession: bool, net: Net, reg: SessionManager<S>)
    returns (step: Step)
    requires ctx.Valid()
    modifies ctx.handlers`handlerState, net`log, reg
    ensures step.Raise? ==> step == Raise(RuntimeFault) && reg.sessions == old(reg.sessions)
    ensures !step.Raise? && removeSession ==> step == Finished && reg.sessions == old(reg.sessions) - {ctx.key}
    ensures !step.Raise? && !removeSession ==> step == Next(InternalError) && reg.sessions == old(reg.sessions)
    ensures old(ctx.Chained()) && !step.Raise? ==> AllTornDown(ctx.chain, old(StatesOf(ctx.chain)))
    ensures old(net.log) <= net.log
  {
    var err := DisconnectAllDialogsOnError(ctx, net);
    if err.Some? {
      return Raise(err.value);
    }
    if removeSession {
      reg.Remove(ctx.key);
      return Finished;
    }
    step := Next(InternalError);
  }

  // ---------------------------------------------------------------------
  // Dialog bookkeeping
  // ---------------------------------------------------------------------

  /**
   * `checkAndRemoveSession`: the dialog no longer counts as pending; when it
   * was the last pending one the session leaves the registry. A dialog that
   * was not pending changes nothing.
   */
  method CheckAndRemoveSession<S>(ctx: SessionContext, d: DialogId, reg: SessionManager<S>) returns (last: bool)
    modifies ctx`pendingDialogs, reg
    ensures last <==> old(ctx.pendingDialogs) == {d}
    ensures ctx.pendingDialogs == old(ctx.pendingDialogs) - {d}
    ensures reg.sessions == if last then old(reg.sessions) - {ctx.key} else old(reg.sessions)
  {
    var removed := ctx.RemoveDialog(d);
    if removed && |ctx.pendingDialogs| == 0 {
      reg.Remove(ctx.key);
      last := true;
    } else {
      last := false;
      assert removed ==> d in ctx.pendingDialogs + {d};
    }
  }

  // ---------------------------------------------------------------------
  // Responding back along the chain
  // ---------------------------------------------------------------------

  /** The newest packet in `log` is a response with `status` on the server transaction `tx`. */
  ghost predicate RespondedOn(tx: Option<TxId>, status: int, log: seq<Packet>)
  {
    |log| > 0 && Last(log) == Packet(ServerTxLink(tx), Resp(status, ""))
  }

  /**
   * After `checkAndApplyRollback(h)`: the handlers of an IM-SCF leg's session
   * are as they were; behind an AS, fresh handlers follow, appended after
   * the existing ones.
   */
  ghost predicate RolledBack(ctx: SessionContext, h: Handler, h0: seq<Handler>)
    reads ctx`handlers, h`next
  {
    && |h0| <= |ctx.handlers| && ctx.handlers[..|h0|] == h0
    && (h.role.ImScf? ==> ctx.handlers == h0)
    && (h.role.As? ==> |ctx.handlers| > |h0| && h.next == ctx.handlers[|h0|])
  }

  /**
   * The chain `c1` holds nothing of `c0`'s time that was not in `c0`: each of
   * its handlers was in `c0` or was created later (its id is at least `n0`,
   * the number of handlers then).
   */
  ghost predicate Narrowed(c0: seq<Handler>, n0: nat, c1: seq<Handler>)
  {
    forall h :: h in c1 ==> h in c0 || h.id >= n0
  }

  /**
   * `setCurrentHandler(h)` followed by `checkAndApplyRollback(h)`: `h` is the
   * leg that takes the call back. A null `h` is dereferenced by the check.
   */
  method Retreat(ctx: SessionContext, h: Handler?) returns (err: Option<Fault>)
    requires Inv(ctx) && (h != null ==> ctx.Has(h))
    modifies ctx`currentHandler, ctx`handlers, ctx`imScfHandlerB, ctx`chain, ctx.handlers`next
    modifies ctx.ruleset.applications`lastEndpointIndex
    ensures Inv(ctx) && ctx.currentHandler == h
    ensures old(ctx.handlers) <= ctx.handlers
    ensures forall x :: x in ctx.handlers && x !in old(ctx.handlers) ==> fresh(x)
    ensures err == if h == null then Some(RuntimeFault) else None
    ensures h != null ==> RolledBack(ctx, h, old(ctx.handlers))
    ensures h != null && h.role.ImScf? ==> h.next == old(h.next)
    ensures h != null && old(ctx.Chained()) && h in old(ctx.chain) ==>
      ctx.Chained() && Narrowed(old(ctx.chain), |old(ctx.handlers)|, ctx.chain)
  {
    ctx.SetCurrentHandler(h);
    if h == null {
      return Some(RuntimeFault);
    }
    if !h.IsImScf() {
      ghost var n0 := |ctx.handlers|;
      ctx.RollbackAsHandlers(h);
      forall x | x in ctx.handlers[n0..]
        ensures x.id >= n0
      {
        var j :| n0 <= j < |ctx.handlers| && ctx.handlers[j] == x;
      }
      forall x | x in ctx.handlers && x !in old(ctx.handlers)
        ensures fresh(x)
      {
        var j :| 0 <= j < |ctx.handlers| && ctx.handlers[j] == x;
        if j >= n0 {
          assert x in ctx.handlers[n0..];
        }
      }
    }
    err := None;
  }

  /**
   * `sendNewResponseBack`: a new response with `status` to the last request
   * `h` received goes back through `h`; when that request has been answered
   * already (none is stored), nothing is sent.
   */
  method SendNewResponseBack(ctx: SessionContext, h: Handler, status: int, net: Net) returns (err: Option<Fault>)
    requires Inv(ctx)
    modifies net`log, h`lastServerTransaction, h`lastIncomingRequest, h`lastInfoServerTransaction,
             h`lastIncomingInfoRequest, h`lastPrackServerTransaction, h`lastIncomingPrackRequest
    ensures Inv(ctx) && old(net.log) <= net.log
    ensures err.Some? ==> err == Some(SendResponseError) || err == Some(RuntimeFault)
    ensures old(h.lastIncomingRequest).None? || (h.role.As? && old(h.lastServerTransaction).None?) ==>
      err.None? && net.log == old(net.log)
    ensures old(h.lastIncomingRequest).Some? && (h.role.ImScf? || old(h.lastServerTransaction).Some?) && err.None? ==>
      RespondedOn(old(h.lastServerTransaction), status, net.log)
      && (status >= OK ==> h.lastServerTransaction.None? && h.lastIncomingRequest.None?)
  {
    if h.lastIncomingRequest.Some? {
      var resp := Response(status, h.lastIncomingRequest.value.meth, None, [], []);
      err := h.ForwardResponse(resp, net);
    } else {
      err := None;
    }
  }

  /**
   * The "respond back" pattern: `h` takes the call back (`Retreat`) and is
   * sent a new response with `status` (`sendNewResponseBack`).
   */
  method RespondBack(ctx: SessionContext, h: Handler?, status: int, net: Net) returns (err: Option<Fault>)
    requires Inv(ctx) && (h != null ==> ctx.Has(h))
    modifies ctx`currentHandler, ctx`handlers, ctx`imScfHandlerB, ctx`chain, ctx.handlers`next
    modifies ctx.handlers`lastServerTransaction, ctx.handlers`lastIncomingRequest
    modifies ctx.handlers`lastInfoServerTransaction, ctx.handlers`lastIncomingInfoRequest
    modifies ctx.handlers`lastPrackServerTransaction, ctx.handlers`lastIncomingPrackRequest
    modifies ctx.ruleset.applications`lastEndpointIndex, net`log
    ensures Inv(ctx) && ctx.currentHandler == h && old(net.log) <= net.log
    ensures forall x :: x in ctx.handlers && x !in old(ctx.handlers) ==> fresh(x)
    ensures old(ctx.handlers) <= ctx.handlers
    ensures h == null ==> err == Some(RuntimeFault) && net.log == old(net.log)
    ensures h != null ==> RolledBack(ctx, h, old(ctx.handlers))
    ensures h != null && h.role.ImScf? ==> h.next == old(h.next)
    ensures h != null && old(ctx.Chained()) && h in old(ctx.chain) ==>
      ctx.Chained() && Narrowed(old(ctx.chain), |old(ctx.handlers)|, ctx.chain)
    ensures err.Some? ==> err == Some(SendResponseError) || err == Some(RuntimeFault)
    ensures h != null && err.None? ==>
      old(h.lastIncomingRequest).Some? && (h.role.ImScf? || old(h.lastServerTransaction).Some?) ==>
        RespondedOn(old(h.lastServerTransaction), status, net.log)
  {
    err := Retreat(ctx, h);
    if err.Some? {
      return;
    }
    err := SendNewResponseBack(ctx, h, status, net);
  }

  /**
   * `forwardErrorResponseBack` after `Retreat`: `h` takes the call back and
   * the response received from the leg after it is passed back through it.
   */
  method ForwardBack(ctx: SessionContext, h: Handler?, resp: Response, net: Net) returns (err: Option<Fault>)
    requires Inv(ctx) && (h != null ==> ctx.Has(h))
    modifies ctx`currentHandler, ctx`handlers, ctx`imScfHandlerB, ctx`chain, ctx.handlers`next
    modifies ctx.handlers`lastServerTransaction, ctx.handlers`lastIncomingRequest
    modifies ctx.handlers`lastInfoServerTransaction, ctx.handlers`lastIncomingInfoRequest
    modifies ctx.handlers`lastPrackServerTransaction, ctx.handlers`lastIncomingPrackRequest
    modifies ctx.ruleset.applications`lastEndpointIndex, net`log
    ensures Inv(ctx) && ctx.currentHandler == h && old(net.log) <= net.log
    ensures forall x :: x in ctx.handlers && x !in old(ctx.handlers) ==> fresh(x)
    ensures old(ctx.handlers) <= ctx.handlers
    ensures h == null ==> err == Some(RuntimeFault) && net.log == old(net.log)
    ensures h != null ==> RolledBack(ctx, h, old(ctx.handlers))
    ensures h != null && h.role.ImScf? ==> h.next == old(h.next)
    ensures h != null && old(ctx.Chained()) && h in old(ctx.chain) ==>
      ctx.Chained() && Narrowed(old(ctx.chain), |old(ctx.handlers)|, ctx.chain)
    ensures err.Some? ==> err == Some(SendResponseError) || err == Some(RuntimeFault)
    ensures h != null && (h.role.ImScf? || old(h.lastServerTransaction).Some?) && err.None? ==>
      RespondedOn(old(h.lastServerTransaction), resp.status, net.log)
  {
    err := Retreat(ctx, h);
    if err.Some? {
      return;
    }
    err := PassBack(h, resp, net);
  }

  /** `h.forwardResponse`, seen from a caller that needs only the faults and the last packet. */
  method PassBack(h: Handler, resp: Response, net: Net) returns (err: Option<Fault>)
    modifies net`log, h`lastServerTransaction, h`lastIncomingRequest
    modifies h`lastInfoServerTransaction, h`lastIncomingInfoRequest
    modifies h`lastPrackServerTransaction, h`lastIncomingPrackRequest
    ensures old(net.log) <= net.log
    ensures err.Some? ==> err == Some(SendResponseError) || err == Some(RuntimeFault)
    ensures (h.role.ImScf? || old(h.lastServerTransaction).Some?) && err.None? ==>
      RespondedOn(old(h.lastServerTransaction), resp.status, net.log)
  {
    err := h.ForwardResponse(resp, net);
  }

  /**
   * `postponedCancel`: the previous leg cancelled while `r` was being
   * invited, and `r` has now answered with `status`. A provisional answer is
   * met with the CANCEL (the state stays `st`); any final answer below 420,
   * whatever its class, gets a BYE (`CloseAnsweredLeg`); from 420 up
   * `r`'s INVITE failed by itself (`CloseFailedLeg`). Either way the
   * previous leg then takes the call back with 487.
   */
  method PostponedCancel(ctx: SessionContext, status: int, r: Handler, st: State, net: Net) returns (step: Step)
    requires Inv(ctx) && ctx.Has(r)
    modifies ctx`currentHandler, ctx`handlers, ctx`imScfHandlerB, ctx`chain, ctx.handlers`next
    modifies r`handlerState, ctx.handlers`lastServerTransaction, ctx.handlers`lastIncomingRequest
    modifies ctx.handlers`lastInfoServerTransaction, ctx.handlers`lastIncomingInfoRequest
    modifies ctx.handlers`lastPrackServerTransaction, ctx.handlers`lastIncomingPrackRequest
    modifies ctx.ruleset.applications`lastEndpointIndex, net`log
    ensures Inv(ctx) && old(net.log) <= net.log && old(ctx.handlers) <= ctx.handlers
    ensures forall x :: x in ctx.handlers && x !in old(ctx.handlers) ==> fresh(x)
    ensures step.Next? ==> step == Next(if status < OK then st else Chaining)
    ensures status < OK ==>
      var link := ClientTxLink(old(r.lastClientTransaction));
      && net.log == old(net.log) + Accepted(net.broken, link, Req(CANCEL))
      && step == Then(RequestFault(Outcome(net.broken, link)), st)
    ensures OK <= status < BAD_EXTENSION ==> Answered(ctx, r, old(r.prev), old(r.outgoingDialog), old(net.log), net, step)
    ensures status >= BAD_EXTENSION ==> Failed(ctx, r, old(r.prev), old(net.log), net, step)
    ensures status >= OK && old(r.prev) != null && step.Next? ==>
      var p := old(r.prev);
      old(p.lastIncomingRequest).Some? && (p.role.ImScf? || old(p.lastServerTransaction).Some?) ==>
        RespondedOn(old(p.lastServerTransaction), REQUEST_TERMINATED, net.log)
  {
    if status < OK {
      var err := r.SendCancel(net);
      return Then(err, st);
    } else if status < BAD_EXTENSION {
      step := CloseAnsweredLeg(ctx, r, net);
    } else {
      step := CloseFailedLeg(ctx, r, net);
    }
  }

  /** After `CloseAnsweredLeg`: the BYE went out first; when it was accepted, `r` is TERMINATING and `p` current. */
  ghost predicate Answered(ctx: SessionContext, r: Handler, p: Handler?, d: Option<DialogId>, log0: seq<Packet>, net: Net,
                           step: Step)
    reads ctx, r, net
  {
    var link := DialogLink(d);
    var fault := RequestFault(Outcome(net.broken, link));
    && log0 + Accepted(net.broken, link, Req(BYE)) <= net.log
    && (fault.Some? ==> step == Raise(fault.value))
    && (fault.None? ==> r.handlerState == TERMINATING && ctx.currentHandler == p)
  }

  /** After `CloseFailedLeg`: `p` is current; a null `p` raises before anything is sent, otherwise `r` is TERMINATED. */
  ghost predicate Failed(ctx: SessionContext, r: Handler, p: Handler?, log0: seq<Packet>, net: Net, step: Step)
    reads ctx, r, net
  {
    && ctx.currentHandler == p
    && (p == null ==> step == Raise(RuntimeFault) && net.log == log0)
    && (p != null ==> r.handlerState == TERMINATED)
  }

  /** The branch of `postponedCancel` for a final answer below 420: BYE, TERMINATING, 487 back. */
  method CloseAnsweredLeg(ctx: SessionContext, r: Handler, net: Net) returns (step: Step)
    requires Inv(ctx) && ctx.Has(r)
    modifies ctx`currentHandler, ctx`handlers, ctx`imScfHandlerB, ctx`chain, ctx.handlers`next
    modifies r`handlerState, ctx.handlers`lastServerTransaction, ctx.handlers`lastIncomingRequest
    modifies ctx.handlers`lastInfoServerTransaction, ctx.handlers`lastIncomingInfoRequest
    modifies ctx.handlers`lastPrackServerTransaction, ctx.handlers`lastIncomingPrackRequest
    modifies ctx.ruleset.applications`lastEndpointIndex, net`log
    ensures Inv(ctx) && old(net.log) <= net.log && old(ctx.handlers) <= ctx.handlers
    ensures forall x :: x in ctx.handlers && x !in old(ctx.handlers) ==> fresh(x)
    ensures step.Next? ==> step == Next(Chaining)
    ensures Answered(ctx, r, old(r.prev), old(r.outgoingDialog), old(net.log), net, step)
    ensures old(r.prev) != null && step.Next? ==>
      var p := old(r.prev);
      old(p.lastIncomingRequest).Some? && (p.role.ImScf? || old(p.lastServerTransaction).Some?) ==>
        RespondedOn(old(p.lastServerTransaction), REQUEST_TERMINATED, net.log)
  {
    var p := r.prev;
    ctx.Around(r);
    var err := r.SendBye(net);
    if err.Some? {
      return Raise(err.value);
    }
    r.handlerState := TERMINATING;
    err := RespondBack(ctx, p, REQUEST_TERMINATED, net);
    step := Then(err, Chaining);
  }

  /** The branch of `postponedCancel` from 420 up: the previous leg takes the call back, `r` is TERMINATED, 487 back. */
  method CloseFailedLeg(ctx: SessionContext, r: Handler, net: Net) returns (step: Step)
    requires Inv(ctx) && ctx.Has(r)
    modifies ctx`currentHandler, ctx`handlers, ctx`imScfHandlerB, ctx`chain, ctx.handlers`next
    modifies r`handlerState, ctx.handlers`lastServerTransaction, ctx.handlers`lastIncomingRequest
    modifies ctx.handlers`lastInfoServerTransaction, ctx.handlers`lastIncomingInfoRequest
    modifies ctx.handlers`lastPrackServerTransaction, ctx.handlers`lastIncomingPrackRequest
    modifies ctx.ruleset.applications`lastEndpointIndex, net`log
    ensures Inv(ctx) && old(net.log) <= net.log && old(ctx.handlers) <= ctx.handlers
    ensures forall x :: x in ctx.handlers && x !in old(ctx.handlers) ==> fresh(x)
    ensures step.Next? ==> step == Next(Chaining)
    ensures Failed(ctx, r, old(r.prev), old(net.log), net, step)
    ensures old(r.prev) != null && step.Next? ==>
      var p := old(r.prev);
      old(p.lastIncomingRequest).Some? && (p.role.ImScf? || old(p.lastServerTransaction).Some?) ==>
        RespondedOn(old(p.lastServerTransaction), REQUEST_TERMINATED, net.log)
  {
    var p := r.prev;
    ctx.Around(r);
    if p == null {
      // the rollback check dereferences the missing handler before r changes state
      ctx.SetCurrentHandler(null);
      return Raise(RuntimeFault);
    }
    r.handlerState := TERMINATED;
    var err := Retreat(ctx, p);
    err := SendNewResponseBack(ctx, p, REQUEST_TERMINATED, net);
    step := Then(err, Chaining);
  }

  // ---------------------------------------------------------------------
  // Requests common to all states
  // ---------------------------------------------------------------------

  /** The header that marks an INFO as special (sent straight between the IM-SCF legs). */
  const X_FCI := "x-fci"
  /** The header an AS sets on a 183 to take the session over. */
  const X_AS := "x-as"
  /** The option tag of a reliable provisional response (section 3 of RFC 3262). */
  const TAG_100_REL := "100rel"
  const REQUIRE := "Require"
  const REASON := "Reason"

  /** `c` in lower case, for the ASCII letters. */
  function LowerAscii(c: char): (l: char)
    ensures 'A' <= c <= 'Z' ==> 'a' <= l <= 'z'
    ensures !('A' <= c <= 'Z') ==> l == c
  {
    if 'A' <= c <= 'Z' then (c as int + 32) as char else c
  }

  /** `String.equalsIgnoreCase` over ASCII letters. */
  predicate EqualsIgnoreCase(x: string, y: string)
  {
    |x| == |y| && forall i :: 0 <= i < |x| ==> LowerAscii(x[i]) == LowerAscii(y[i])
  }

  /** A provisional response that asks for a PRACK: its Require header names `100rel`, in any letter case. */
  predicate IsReliable(resp: Response)
  {
    var r := HeaderValue(resp.headers, REQUIRE);
    r.Some? && EqualsIgnoreCase(r.value, TAG_100_REL)
  }

  /** A 183 without a take-over by its AS: no x-as header, or one whose value is "false". */
  predicate IsRegular(resp: Response)
  {
    var x := HeaderValue(resp.headers, X_AS);
    x.None? || x.value == "false"
  }

  /** `checkInviteAlreadyProcessed`: the INVITE's last Via is the one stored for its Call-ID. */
  predicate InviteAlreadyProcessed(stored: map<string, Via>, req: Request)
  {
    req.callId in stored && |req.vias| > 0 && stored[req.callId] == Last(req.vias)
  }

  /**
   * The retransmission test of `preprocessInviteRequest`: before A's
   * incoming dialog exists, an INVITE with the Call-ID of A's last request;
   * afterwards, one whose last Via is stored for its Call-ID.
   */
  predicate IsRetransmission(ctx: SessionContext, req: Request)
    reads ctx, ctx.imScfHandlerA
  {
    var a := ctx.imScfHandlerA;
    if a.incomingDialog.None? then a.lastIncomingRequest.Some? && a.lastIncomingRequest.value.callId == req.callId
    else InviteAlreadyProcessed(ctx.initialInviteVias, req)
  }

  /** The leg an incoming INVITE arrives on: A before A's incoming dialog exists, the current handler afterwards. */
  function InvitedLeg(ctx: SessionContext): Handler?
    reads ctx, ctx.imScfHandlerA
  {
    if ctx.imScfHandlerA.incomingDialog.None? then ctx.imScfHandlerA else ctx.currentHandler
  }

  /**
   * `preprocessInviteRequest`: a retransmission is dropped. Otherwise the
   * INVITE gets a server transaction and dialog, which are recorded on the
   * leg it arrived on together with the request, the dialog counts as
   * pending, the INVITE is the session's last incoming INVITE, and 100
   * Trying is sent (a failure to send it is ignored). A stack refusal of the
   * transaction is an UnrecoverableError; a missing current handler is a
   * NullPointerException. Once an INVITE was taken, a copy of it with the
   * stored last Via is a retransmission.
   */
  method PreprocessInvite(ctx: SessionContext, req: Request, net: Net) returns (proceed: bool, err: Option<Fault>)
    requires ctx.Valid()
    modifies ctx`pendingDialogs, ctx`lastIncomingInvite, ctx.handlers`lastIncomingRequest
    modifies ctx.handlers`incomingDialog, ctx.handlers`lastServerTransaction, net`log, net`lastId
    ensures proceed ==> err.None?
    ensures !proceed ==> net.log == old(net.log) && ctx.pendingDialogs == old(ctx.pendingDialogs)
                         && ctx.lastIncomingInvite == old(ctx.lastIncomingInvite)
    ensures old(IsRetransmission(ctx, req)) ==> !proceed && err.None?
    ensures !old(IsRetransmission(ctx, req)) ==>
      var h := old(InvitedLeg(ctx));
      && (h == null ==> err == Some(RuntimeFault))
      && (h != null && NewServerTx(req.callId) in net.broken ==> err == Some(UnrecoverableError))
      && (h != null && NewServerTx(req.callId) !in net.broken ==>
            var tx, d := old(net.lastId) + 1, old(net.lastId) + 2;
            && proceed
            && h.lastIncomingRequest == Some(req) && h.incomingDialog == Some(d) && h.lastServerTransaction == Some(tx)
            && ctx.pendingDialogs == old(ctx.pendingDialogs) + {d} && ctx.lastIncomingInvite == Some(req)
            && net.log == old(net.log) + Accepted(net.broken, OnServerTx(tx), Resp(TRYING, "")))
    ensures proceed && InviteAlreadyProcessed(ctx.initialInviteVias, req) ==> IsRetransmission(ctx, req)
  {
    if IsRetransmission(ctx, req) {
      return false, None;
    }
    var h := InvitedLeg(ctx);
    if h == null {
      return false, Some(RuntimeFault);
    }
    var r := net.NewServerTransaction(req.callId);
    if r.None? {
      return false, Some(UnrecoverableError);
    }
    var (tx, d) := r.value;
    h.lastIncomingRequest := Some(req);
    h.incomingDialog := Some(d);
    h.lastServerTransaction := Some(tx);
    ctx.AddDialog(d);
    ctx.lastIncomingInvite := Some(req);
    var _ := net.Send(OnServerTx(tx), Resp(TRYING, ""));
    proceed, err := true, None;
  }

  /** `sendOkToCancel`: 200 OK on the CANCEL's server transaction; stack errors are ignored, a missing transaction is not. */
  method SendOkToCancel(stx: Option<TxId>, net: Net) returns (err: Option<Fault>)
    modifies net`log
    ensures net.log == old(net.log) + Accepted(net.broken, ServerTxLink(stx), Resp(OK, ""))
    ensures err == if stx.None? then Some(RuntimeFault) else None
  {
    var r := net.Send(ServerTxLink(stx), Resp(OK, ""));
    err := if r == NullRef then Some(RuntimeFault) else None;
  }

  /** `sendImmediateErrorResponse`: a stateless response with `status` and `phrase`; stack errors are ignored. */
  method SendImmediateErrorResponse(status: int, phrase: string, net: Net)
    modifies net`log
    ensures net.log == old(net.log) + Accepted(net.broken, Stateless, Resp(status, phrase))
  {
    var _ := net.Send(Stateless, Resp(status, phrase));
  }

  /**
   * `sendRequestBack` and `sendRequestForward`: the request goes out on the
   * given dialog of `h` (its incoming one going back, its outgoing one going
   * forward); when it was accepted, `h` remembers `special` as the sender
   * its answer goes to.
   */
  method SendRequestOn(ctx: SessionContext, h: Handler, meth: Method, dialog: Option<DialogId>, special: Handler?,
                       net: Net) returns (err: Option<Fault>)
    requires ctx.Valid() && ctx.Has(h) && (special == null || ctx.Has(special))
    modifies net`log, h`specialInfoSender
    ensures ctx.Valid()
    ensures net.log == old(net.log) + Accepted(net.broken, DialogLink(dialog), Req(meth))
    ensures err == RequestFault(Outcome(net.broken, DialogLink(dialog)))
    ensures h.specialInfoSender == if err.None? then special else old(h.specialInfoSender)
  {
    label L:
    err := h.SendRequestOnDialog(meth, dialog, special, net);
    forall i | 0 <= i < |ctx.handlers|
      ensures ctx.Closed(ctx.handlers, ctx.handlers[i])
    {
      assert old@L(ctx.Closed(ctx.handlers, ctx.handlers[i]));
    }
  }

  // ---------------------------------------------------------------------
  // INFO relay
  // ---------------------------------------------------------------------

  /** A relay target: a handler reached back on its incoming dialog, or forward on its outgoing one. */
  datatype Hop = Back(to: Handler) | Forward(to: Handler)

  function HopDialog(hop: Hop): Option<DialogId>
    reads hop.to
  {
    if hop.Back? then hop.to.incomingDialog else hop.to.outgoingDialog
  }

  /**
   * Where `handleCommonInfoLogic` relays an INFO from `s`: a special INFO
   * goes straight to A when it came on `s`'s outgoing dialog and to B
   * otherwise; an ordinary one goes one handler back or forward. None is a
   * missing neighbour.
   */
  function InfoHop(ctx: SessionContext, s: Handler, special: bool, fromOutgoing: bool): Option<Hop>
    reads ctx, s
  {
    if special then Some(if fromOutgoing then Back(ctx.imScfHandlerA) else Forward(ctx.imScfHandlerB))
    else if fromOutgoing then (if s.prev == null then None else Some(Back(s.prev)))
    else if s.next == null then None
    else Some(Forward(s.next))
  }

  /**
   * `handleCommonInfoLogic`: the INFO's transaction is stored on its sender,
   * then the INFO is relayed as `InfoHop` says, remembering the sender on
   * the target for a special INFO. Forward to a TERMINATED handler, the
   * sender's pending requests are answered with 481 instead. The state does
   * not change.
   */
  method HandleCommonInfoLogic(ctx: SessionContext, ev: Event, st: State, net: Net) returns (step: Step)
    requires ctx.Valid() && ev.RequestEvent?
    modifies ctx.handlers`specialInfoSender, ctx.handlers`lastInfoServerTransaction
    modifies ctx.handlers`lastIncomingInfoRequest, ctx.handlers`lastPrackServerTransaction
    modifies ctx.handlers`lastIncomingPrackRequest, net`log
    ensures ctx.Valid()
    ensures step.Next? ==> step == Next(st)
    ensures step.Raise? ==> step.fault == UnrecoverableError || step.fault == RuntimeFault
    ensures ev.dialog.None? || HandlerOf(ctx, ev.app).None? ==> step == Raise(RuntimeFault) && net.log == old(net.log)
    ensures ev.dialog.Some? && HandlerOf(ctx, ev.app).Some? ==>
      var s := HandlerOf(ctx, ev.app).value;
      var special := HeaderIsTrue(ev.req.headers, X_FCI);
      var hop := old(InfoHop(ctx, s, special, ev.dialog == s.outgoingDialog));
      && (hop.None? ==> step == Raise(RuntimeFault) && net.log == old(net.log))
      && (hop.Some? && hop.value.Forward? && hop.value.to.handlerState == TERMINATED ==>
            old(net.log) + Accepted(net.broken, ServerTxLink(ev.stx), Resp(CALL_OR_TRANSACTION_DOES_NOT_EXIST, ""))
              <= net.log)
      && (hop.Some? && !(hop.value.Forward? && hop.value.to.handlerState == TERMINATED) ==>
            var link := DialogLink(HopDialog(hop.value));
            && net.log == old(net.log) + Accepted(net.broken, link, Req(INFO))
            && step == Then(RequestFault(Outcome(net.broken, link)), st)
            && s.lastInfoServerTransaction == ev.stx && s.lastIncomingInfoRequest == Some(ev.req)
            && (step.Next? ==> hop.value.to.specialInfoSender == if special then s else null))
  {
    if ev.dialog.None? {
      return Raise(RuntimeFault);
    }
    var w := HandlerOf(ctx, ev.app);
    if w.None? {
      return Raise(RuntimeFault);
    }
    var s := w.value;
    ctx.Listed(s);
    s.lastInfoServerTransaction := ev.stx;
    s.lastIncomingInfoRequest := Some(ev.req);
    step := RelayInfo(ctx, s, HeaderIsTrue(ev.req.headers, X_FCI), ev.dialog == s.outgoingDialog, st, net);
  }

  /** The relay half of `handleCommonInfoLogic`, once the INFO is stored on its sender `s`. */
  method RelayInfo(ctx: SessionContext, s: Handler, special: bool, fromOutgoing: bool, st: State, net: Net)
    returns (step: Step)
    requires ctx.Valid() && ctx.Has(s) && s.lastIncomingInfoRequest.Some?
    modifies ctx.handlers`specialInfoSender, ctx.handlers`lastInfoServerTransaction
    modifies ctx.handlers`lastIncomingInfoRequest, ctx.handlers`lastPrackServerTransaction
    modifies ctx.handlers`lastIncomingPrackRequest, net`log
    ensures ctx.Valid()
    ensures step.Next? ==> step == Next(st)
    ensures step.Raise? ==> step.fault == UnrecoverableError || step.fault == RuntimeFault
    ensures var hop := old(InfoHop(ctx, s, special, fromOutgoing));
      && (hop.None? ==> step == Raise(RuntimeFault) && net.log == old(net.log))
      && (hop.Some? && hop.value.Forward? && hop.value.to.handlerState == TERMINATED ==>
            var link := ServerTxLink(old(s.lastInfoServerTransaction));
            old(net.log) + Accepted(net.broken, link, Resp(CALL_OR_TRANSACTION_DOES_NOT_EXIST, "")) <= net.log)
      && (hop.Some? && !(hop.value.Forward? && hop.value.to.handlerState == TERMINATED) ==>
            var link := DialogLink(HopDialog(hop.value));
            && net.log == old(net.log) + Accepted(net.broken, link, Req(INFO))
            && step == Then(RequestFault(Outcome(net.broken, link)), st)
            && s.lastInfoServerTransaction == old(s.lastInfoServerTransaction)
            && s.lastIncomingInfoRequest == old(s.lastIncomingInfoRequest)
            && (step.Next? ==> hop.value.to.specialInfoSender == if special then s else null))
  {
    ctx.Around(s);
    var hop := InfoHop(ctx, s, special, fromOutgoing);
    if hop.None? {
      return Raise(RuntimeFault);
    }
    var t := hop.value.to;
    var err;
    if hop.value.Forward? && t.handlerState == TERMINATED {
      err := s.RespondToPendingRequests(net);
    } else {
      err := SendRequestOn(ctx, t, INFO, HopDialog(hop.value), if special then s else null, net);
    }
    step := Then(err, st);
  }

  /**
   * Where `processInfoResponse` passes an INFO answer that arrived through
   * `h` on `dialog`: to the special INFO sender `h` remembers; otherwise on
   * to the next handler when it came on `h`'s incoming dialog, back to the
   * previous one when not.
   */
  function InfoAnswerTarget(h: Handler, dialog: Option<DialogId>): Handler?
    reads h
  {
    if h.specialInfoSender != null then h.specialInfoSender
    else if dialog == h.incomingDialog then h.next
    else h.prev
  }

  /**
   * `processInfoResponse`: the answer goes to `InfoAnswerTarget` on its
   * pending INFO transaction, and a remembered special sender is
   * forgotten. A missing wrapper or target is a NullPointerException.
   */
  method ProcessInfoResponse(ctx: SessionContext, ev: Event, net: Net) returns (err: Option<Fault>)
    requires Inv(ctx) && ev.ResponseEvent?
    modifies ctx.handlers`specialInfoSender, ctx.handlers`lastInfoServerTransaction
    modifies ctx.handlers`lastIncomingInfoRequest, net`log
    ensures Inv(ctx)
    ensures HandlerOf(ctx, ev.app).None? ==> err == Some(RuntimeFault) && net.log == old(net.log)
    ensures HandlerOf(ctx, ev.app).Some? ==>
      var h := HandlerOf(ctx, ev.app).value;
      var t := old(InfoAnswerTarget(h, ev.dialog));
      && (old(h.specialInfoSender) != null ==> h.specialInfoSender == null)
      && (t == null ==> err == Some(RuntimeFault) && net.log == old(net.log))
      && (t != null ==>
            var link := ServerTxLink(old(t.lastInfoServerTransaction));
            && net.log == old(net.log) + Accepted(net.broken, link, Resp(ev.resp.status, ""))
            && err == ResponseFault(Outcome(net.broken, link)))
  {
    var w := HandlerOf(ctx, ev.app);
    if w.None? {
      return Some(RuntimeFault);
    }
    var h := w.value;
    ctx.Listed(h);
    ctx.Around(h);
    var t: Handler?;
    if h.specialInfoSender != null {
      t := h.specialInfoSender;
      ctx.SetSpecialInfoSender(h, null);
    } else if ev.dialog == h.incomingDialog {
      t := h.next;
    } else {
      t := h.prev;
    }
    if t == null {
      return Some(RuntimeFault);
    }
    err := t.ForwardInfoResponse(ev.resp, net);
  }

  /**
   * An ordinary INFO relayed one hop along a well-formed chain is answered
   * back to its sender: its answer comes through the hop's target on the
   * dialog the INFO used, and `InfoAnswerTarget` names the sender, provided
   * the target remembers no special sender and its two dialogs differ.
   */
  lemma {:induction false} InfoAnswerReturns(ctx: SessionContext, i: nat, fromOutgoing: bool)
    requires ctx.Chained() && i < |ctx.chain|
    requires fromOutgoing ==> 0 < i
    requires !fromOutgoing ==> i < |ctx.chain| - 1
    ensures var hop := InfoHop(ctx, ctx.chain[i], false, fromOutgoing);
      && hop.Some?
      && hop.value.to == (if fromOutgoing then ctx.chain[i - 1] else ctx.chain[i + 1])
      && (hop.value.to.specialInfoSender == null && hop.value.to.incomingDialog != hop.value.to.outgoingDialog ==>
            InfoAnswerTarget(hop.value.to, HopDialog(hop.value)) == ctx.chain[i])
  {
    var c := ctx.chain;
    if fromOutgoing {
      var j := i - 1;
      assert ctx.Step(c[j], c[j + 1]);
    } else {
      assert ctx.Step(c[i], c[i + 1]);
    }
  }
}

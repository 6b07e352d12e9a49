/**
 * `InternalErrorState`: after an internal error the legs have been torn
 * down, and the session only waits for its dialogs to end. It never leaves
 * this state; the only messages it still sends release a leg that was
 * marked SET_TO_CANCEL, as soon as that leg answers.
 */
module ErrorState {
  import opened Wrappers
  import opened Sip
  import opened Stack
  import opened Handlers
  import opened Context
  import opened StateBase
  import opened Registry

  /**
   * `handleEvent`, which this state overrides whole: an ended or timed-out
   * dialog, and the dialog of a client INVITE that timed out, stop being
   * pending (`checkAndRemoveSession`); a response from a leg in
   * SET_TO_CANCEL releases it as `ReleaseOnResponse` says, with a CANCEL or
   * a BYE whose stack error is swallowed. Everything else is ignored. A
   * missing handler, dialog or transaction is a NullPointerException.
   */
  method HandleEvent<S>(ctx: SessionContext, ev: Event, net: Net, reg: SessionManager<S>) returns (step: Step)
    requires ctx.Valid()
    modifies ctx`pendingDialogs, reg, net`log
    ensures step == Next(InternalError) || step == Raise(RuntimeFault)
    ensures !ev.ResponseEvent? ==> net.log == old(net.log)
    ensures !(ev.DialogTimeoutEvent? || ev.DialogTerminatedEvent? || ev.TimeoutEvent?) ==>
      ctx.pendingDialogs == old(ctx.pendingDialogs) && reg.sessions == old(reg.sessions)
    ensures ev.DialogTimeoutEvent? || ev.DialogTerminatedEvent? ==>
      var d := if ev.DialogTimeoutEvent? then ev.timedOutDialog else ev.terminatedDialog;
      && step == Next(InternalError)
      && ctx.pendingDialogs == old(ctx.pendingDialogs) - {d}
      && reg.sessions == if old(ctx.pendingDialogs) == {d} then old(reg.sessions) - {ctx.key} else old(reg.sessions)
    ensures ev.TimeoutEvent? && (ev.isServer || ev.meth != INVITE) ==>
      step == Next(InternalError) && ctx.pendingDialogs == old(ctx.pendingDialogs) && reg.sessions == old(reg.sessions)
    ensures ev.TimeoutEvent? && !ev.isServer && ev.meth == INVITE && ev.dialog.None? ==>
      step == Raise(RuntimeFault) && ctx.pendingDialogs == old(ctx.pendingDialogs) && reg.sessions == old(reg.sessions)
    ensures ev.TimeoutEvent? && !ev.isServer && ev.meth == INVITE && ev.dialog.Some? ==>
      var d := ev.dialog.value;
      && step == Next(InternalError)
      && ctx.pendingDialogs == old(ctx.pendingDialogs) - {d}
      && reg.sessions == if old(ctx.pendingDialogs) == {d} then old(reg.sessions) - {ctx.key} else old(reg.sessions)
    ensures ev.ResponseEvent? && HandlerOf(ctx, ev.app).None? ==> step == Raise(RuntimeFault) && net.log == old(net.log)
    ensures ev.ResponseEvent? && HandlerOf(ctx, ev.app).Some? ==>
      var h := HandlerOf(ctx, ev.app).value;
      match ReleaseOnResponse(h.handlerState, ev.resp.status)
      case NoRelease => step == Next(InternalError) && net.log == old(net.log)
      case ReleaseByCancel =>
        var link := ClientTxLink(h.lastClientTransaction);
        && net.log == old(net.log) + Accepted(net.broken, link, Req(CANCEL))
        && step == (if link == Missing then Raise(RuntimeFault) else Next(InternalError))
      case ReleaseByBye =>
        var link := DialogLink(h.outgoingDialog);
        && net.log == old(net.log) + Accepted(net.broken, link, Req(BYE))
        && step == (if link == Missing then Raise(RuntimeFault) else Next(InternalError))
  {
    match ev
    case DialogTimeoutEvent(d, _) =>
      var _ := CheckAndRemoveSession(ctx, d, reg);
      step := Next(InternalError);
    case DialogTerminatedEvent(d, _) =>
      var _ := CheckAndRemoveSession(ctx, d, reg);
      step := Next(InternalError);
    case TimeoutEvent(isServer, meth, dialog, _) =>
      if isServer || meth != INVITE {
        return Next(InternalError);
      }
      if dialog.None? {
        return Raise(RuntimeFault);
      }
      var _ := CheckAndRemoveSession(ctx, dialog.value, reg);
      step := Next(InternalError);
    case ResponseEvent(resp, _, _, app) =>
      step := Release(ctx, HandlerOf(ctx, app), resp.status, net);
    case RequestEvent(_, _, _, _) =>
      step := Next(InternalError);
    case OtherEvent =>
      step := Next(InternalError);
  }

  /** The response branch: a postponed CANCEL or BYE, where only a missing transaction or dialog escapes. */
  method Release(ctx: SessionContext, found: Option<Handler>, status: int, net: Net) returns (step: Step)
    modifies net`log
    ensures found.None? ==> step == Raise(RuntimeFault) && net.log == old(net.log)
    ensures found.Some? ==>
      var h := found.value;
      match ReleaseOnResponse(h.handlerState, status)
      case NoRelease => step == Next(InternalError) && net.log == old(net.log)
      case ReleaseByCancel =>
        var link := ClientTxLink(h.lastClientTransaction);
        && net.log == old(net.log) + Accepted(net.broken, link, Req(CANCEL))
        && step == (if link == Missing then Raise(RuntimeFault) else Next(InternalError))
      case ReleaseByBye =>
        var link := DialogLink(h.outgoingDialog);
        && net.log == old(net.log) + Accepted(net.broken, link, Req(BYE))
        && step == (if link == Missing then Raise(RuntimeFault) else Next(InternalError))
  {
    if found.None? {
      return Raise(RuntimeFault);
    }
    var h := found.value;
    var err: Option<Fault> := None;
    match ReleaseOnResponse(h.handlerState, status) {
      case NoRelease =>
      case ReleaseByCancel =>
        err := h.SendCancel(net);
      case ReleaseByBye =>
        err := h.SendBye(net);
    }
    // an UnrecoverableError is only logged
    step := if err == Some(RuntimeFault) then Raise(RuntimeFault) else Next(InternalError);
  }
}

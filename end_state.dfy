/**
 * `EndState`: the session is over and waits for its dialogs to end. ACKs
 * and timeouts are ignored, and a late response is still passed back to
 * the leg before the one that sent it, which is TERMINATED from then on.
 */
module EndState {
  import opened Wrappers
  import opened Sip
  import opened Stack
  import opened Handlers
  import opened Context
  import opened StateBase

  /** `handleAck`: nothing to do. */
  method HandleAck(ctx: SessionContext, ev: Event) returns (step: Step)
    requires Inv(ctx) && ev.RequestEvent?
    ensures step == Next(End)
  {
    step := Next(End);
  }

  /** `processTimeout`: nothing to do until the dialogs end. */
  method ProcessTimeout(ctx: SessionContext, ev: Event) returns (step: Step)
    requires Inv(ctx) && ev.TimeoutEvent?
    ensures step == Next(End)
  {
    step := Next(End);
  }

  /**
   * `handleResponse`: the responding leg `r` becomes TERMINATED and the
   * response goes back to the leg before it, as when a B leg's 487 makes
   * its way back to the leg that cancelled. A missing `r` or leg before it
   * is a NullPointerException, the latter after `r` was marked.
   */
  method HandleResponse(ctx: SessionContext, ev: Event, net: Net) returns (step: Step)
    requires Inv(ctx) && ev.ResponseEvent?
    modifies ctx.handlers`handlerState, net`log, ctx.handlers`lastServerTransaction, ctx.handlers`lastIncomingRequest
    modifies ctx.handlers`lastInfoServerTransaction, ctx.handlers`lastIncomingInfoRequest
    modifies ctx.handlers`lastPrackServerTransaction, ctx.handlers`lastIncomingPrackRequest
    ensures Inv(ctx) && old(net.log) <= net.log
    ensures step.Next? ==> step == Next(End)
    ensures step.Raise? ==> step.fault == RuntimeFault || step.fault == SendResponseError
    ensures HandlerOf(ctx, ev.app).None? ==> step == Raise(RuntimeFault) && net.log == old(net.log)
    ensures HandlerOf(ctx, ev.app).Some? ==>
      var r := HandlerOf(ctx, ev.app).value;
      var p := old(r.prev);
      && r.handlerState == TERMINATED
      && (p == null ==> step == Raise(RuntimeFault) && net.log == old(net.log))
      && (p != null && step.Next? && (p.role.ImScf? || old(p.lastServerTransaction).Some?) ==>
            RespondedOn(old(p.lastServerTransaction), ev.resp.status, net.log))
  {
    var found := HandlerOf(ctx, ev.app);
    if found.None? {
      return Raise(RuntimeFault);
    }
    var r := found.value;
    ctx.Listed(r);
    ctx.Around(r);
    var p := r.prev;
    Mark(ctx, r, TERMINATED);
    if p == null {
      return Raise(RuntimeFault);
    }
    var err := PassBack(p, ev.resp, net);
    step := Then(err, End);
  }
}

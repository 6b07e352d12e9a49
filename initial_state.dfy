/**
 * `InitialState`: the IM-SCF's INVITE has been taken (preprocessing gave
 * the A leg its server transaction and sent 100 Trying) and goes on to the
 * first AS of the chain.
 */
module InitialState {
  import opened Wrappers
  import opened Sip
  import opened Stack
  import opened Handlers
  import opened Context
  import opened StateBase
  import Chaining

  /** The phrase of the 500 sent when the first INVITE cannot go out; the exception's message follows it. */
  const SERVICE_BROKER_ERROR := "ServiceBroker error: "

  /**
   * `handleInvite` and `sendFirstASRequest`: the first AS becomes current
   * and is INVITED, its outgoing dialog pending, and the session is
   * chaining. When the stack refuses the INVITE the IM-SCF gets a
   * stateless 500 instead and the session ends.
   */
  method HandleInvite(ctx: SessionContext, req: Request, net: Net) returns (step: Step)
    requires Inv(ctx)
    modifies ctx`currentHandler, ctx`pendingDialogs, net`log, net`lastId, net.sequence
    modifies ctx.firstAsHandler`lastOutgoingInvite, ctx.firstAsHandler`lastClientTransaction
    modifies ctx.firstAsHandler`outgoingDialog, ctx.firstAsHandler`handlerState
    ensures Inv(ctx) && ctx.currentHandler == ctx.firstAsHandler && old(net.log) <= net.log
    ensures step == Next(Chaining) || step == Next(End)
    ensures var first := ctx.firstAsHandler;
      Chaining.InviteAccepted(net, first, req) ==>
        && step == Next(Chaining)
        && first.handlerState == INVITED && first.outgoingDialog.Some?
        && ctx.pendingDialogs == old(ctx.pendingDialogs) + {first.outgoingDialog.value}
        && first.lastOutgoingInvite.Some? && first.lastOutgoingInvite.value.meth == INVITE
        && |net.log| > 0 && Last(net.log).msg == Invite(first.lastOutgoingInvite.value)
    ensures !Chaining.InviteAccepted(net, ctx.firstAsHandler, req) ==>
      && step == Next(End)
      && ctx.firstAsHandler.handlerState == old(ctx.firstAsHandler.handlerState)
      && ctx.pendingDialogs == old(ctx.pendingDialogs)
      && net.log == old(net.log) + Accepted(net.broken, Stateless, Resp(SERVER_INTERNAL_ERROR, SERVICE_BROKER_ERROR))
  {
    var first := ctx.firstAsHandler;
    ctx.SetCurrentHandler(first);
    var err := first.ProcessOutgoingInvite(req, net);
    if err.Some? {
      SendImmediateErrorResponse(SERVER_INTERNAL_ERROR, SERVICE_BROKER_ERROR, net);
      return Next(End);
    }
    Engage(ctx, first);
    step := Next(Chaining);
  }
}

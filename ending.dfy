/**
 * `SessionEndingState`: one end hung up and the BYE travels along the
 * chain, one leg at a time, in the direction SessionOngoingState recorded;
 * each 200 to a BYE travels back the other way. An AS may also start a new
 * call leg here with an INVITE, which sends the session back to chaining.
 */
module Ending {
  import opened Wrappers
  import opened Sip
  import opened Stack
  import opened Handlers
  import opened Context
  import opened StateBase
  import Chaining

  /**
   * `handleBye`: `s` keeps the BYE and its transaction, and the BYE goes on
   * one leg in the recorded direction: forwards on the next leg's outgoing
   * dialog when the calling side hung up, otherwise backwards on the
   * previous leg's incoming dialog, that leg becoming current first.
   */
  method HandleBye(ctx: SessionContext, ev: Event, net: Net) returns (step: Step)
    requires Inv(ctx) && ev.RequestEvent?
    modifies ctx`currentHandler, ctx.handlers`lastServerTransaction, ctx.handlers`lastIncomingRequest, net`log
    ensures Inv(ctx)
    ensures step.Next? ==> step == Next(SessionEnding)
    ensures Chaining.Sender(ctx, ev).None? ==> step == Raise(RuntimeFault) && net.log == old(net.log)
    ensures Chaining.Sender(ctx, ev).Some? ==>
      var s := Chaining.Sender(ctx, ev).value;
      var forwards := ctx.byeInitiatedByCallingParty;
      var t := if forwards then old(s.next) else old(s.prev);
      && s.lastServerTransaction == ev.stx && s.lastIncomingRequest == Some(ev.req)
      && (t == null ==> step == Raise(RuntimeFault) && net.log == old(net.log))
      && (t != null ==>
            var link := DialogLink(if forwards then t.outgoingDialog else t.incomingDialog);
            && net.log == old(net.log) + Accepted(net.broken, link, Req(BYE))
            && step == Then(RequestFault(Outcome(net.broken, link)), SessionEnding)
            && ctx.currentHandler == if forwards then old(ctx.currentHandler) else t)
  {
    var sender := Chaining.Sender(ctx, ev);
    if sender.None? {
      return Raise(RuntimeFault);
    }
    var s := sender.value;
    ctx.Listed(s);
    ctx.Around(s);
    var forwards := ctx.byeInitiatedByCallingParty;
    var t := if forwards then s.next else s.prev;
    KeepRequest(ctx, s, ev.stx, ev.req);
    if t == null {
      return Raise(RuntimeFault);
    }
    if !forwards {
      ctx.SetCurrentHandler(t);
    }
    var err := t.ForwardBye(if forwards then t.outgoingDialog else t.incomingDialog, net);
    step := Then(err, SessionEnding);
  }

  /**
   * `handleResponse` and `processResponseOK`: only a 200 is expected, and
   * it goes one leg back against the recorded direction: to the leg before
   * `r` when the calling side hung up (that leg then becoming current),
   * otherwise to the leg after `r`. Any other status is a SendResponseError.
   */
  method HandleResponse(ctx: SessionContext, ev: Event, net: Net) returns (step: Step)
    requires Inv(ctx) && ev.ResponseEvent?
    modifies ctx`currentHandler, net`log, ctx.handlers`lastServerTransaction, ctx.handlers`lastIncomingRequest
    modifies ctx.handlers`lastInfoServerTransaction, ctx.handlers`lastIncomingInfoRequest
    modifies ctx.handlers`lastPrackServerTransaction, ctx.handlers`lastIncomingPrackRequest
    ensures Inv(ctx) && old(net.log) <= net.log
    ensures step.Next? ==> step == Next(SessionEnding)
    ensures ev.resp.status != OK ==> step == Raise(SendResponseError) && net.log == old(net.log)
    ensures ev.resp.status == OK && HandlerOf(ctx, ev.app).None? ==> step == Raise(RuntimeFault) && net.log == old(net.log)
    ensures ev.resp.status == OK && HandlerOf(ctx, ev.app).Some? ==>
      var r := HandlerOf(ctx, ev.app).value;
      var back := ctx.byeInitiatedByCallingParty;
      var t := if back then old(r.prev) else old(r.next);
      && (t == null ==> step == Raise(RuntimeFault) && net.log == old(net.log))
      && (t != null && step.Next? ==>
            Chaining.Delivered(t, Chaining.Relay(ev.resp), old(t.lastIncomingRequest), old(t.lastServerTransaction), net.log))
      && ctx.currentHandler == if back && step.Next? then t else old(ctx.currentHandler)
  {
    if ev.resp.status != OK {
      return Raise(SendResponseError);
    }
    var found := HandlerOf(ctx, ev.app);
    if found.None? {
      return Raise(RuntimeFault);
    }
    var r := found.value;
    ctx.Listed(r);
    ctx.Around(r);
    var back := ctx.byeInitiatedByCallingParty;
    var t := if back then r.prev else r.next;
    if t == null {
      return Raise(RuntimeFault);
    }
    var err := Chaining.ReplyBack(ctx, t, Chaining.Relay(ev.resp), net);
    if err.Some? {
      return Raise(err.value);
    }
    if back {
      ctx.SetCurrentHandler(t);
    }
    step := Next(SessionEnding);
  }

  /**
   * The new call leg is under way: `nx` is current and INVITED, and its
   * outgoing dialog has joined the pending ones; the session waits for the
   * IM-SCF when `nx` is the B leg, and goes on chaining otherwise.
   */
  ghost predicate Started(ctx: SessionContext, nx: Handler, pending0: set<DialogId>, step: Step)
    reads ctx, nx
  {
    && ctx.currentHandler == nx && nx.handlerState == INVITED && nx.outgoingDialog.Some?
    && ctx.pendingDialogs == pending0 + {nx.outgoingDialog.value}
    && step == Next(if nx.IsImScf() then NEW_WAITING else Chaining)
  }

  /**
   * `handleInvite`: an AS that received the BYE may start a new call leg.
   * The current handler takes the call back (`checkAndApplyRollback`), and
   * the INVITE is handled as in ChainingState, without preprocessing it
   * again: it goes to the leg after the current one, which behind an AS is
   * the first of the fresh handlers the rollback appended. A missing current
   * handler is a NullPointerException.
   */
  method HandleInvite(ctx: SessionContext, req: Request, net: Net) returns (step: Step)
    requires Inv(ctx)
    modifies ctx, ctx.handlers, ctx.ruleset.applications, net, net.sequence
    ensures Inv(ctx) && old(net.log) <= net.log && old(ctx.handlers) <= ctx.handlers
    ensures forall x :: x in ctx.handlers && x !in old(ctx.handlers) ==> fresh(x)
    ensures step.Next? ==> step.state == Chaining || step.state == NEW_WAITING
    ensures old(ctx.currentHandler) == null ==> step == Raise(RuntimeFault) && net.log == old(net.log)
    ensures old(ctx.currentHandler) != null ==> ctx.handlers[..|old(ctx.handlers)|] == old(ctx.handlers)
    ensures old(ctx.currentHandler) != null && old(ctx.currentHandler.role.As?) ==>
      && |ctx.handlers| > |old(ctx.handlers)|
      && var nx := ctx.handlers[|old(ctx.handlers)|];
         Chaining.InviteAccepted(net, nx, req) ==> Started(ctx, nx, old(ctx.pendingDialogs), step)
    ensures old(ctx.currentHandler) != null && old(ctx.currentHandler.role.ImScf?) && old(ctx.currentHandler.next) != null ==>
      var nx := old(ctx.currentHandler.next);
      Chaining.InviteAccepted(net, nx, req) ==> Started(ctx, nx, old(ctx.pendingDialogs), step)
  {
    var cur := ctx.currentHandler;
    ghost var h0 := ctx.handlers;
    var err := Retreat(ctx, cur);
    if err.Some? {
      return Raise(err.value);
    }
    forall i | 0 <= i < |ctx.handlers|
      ensures ctx.handlers[i] in h0 || fresh(ctx.handlers[i])
    {
    }
    ghost var h1 := ctx.handlers;
    step := Chaining.HandleInvite(ctx, req, net);
    assert ctx.handlers[..|h0|] == h1[..|h0|];
  }

  /**
   * `processTimeout`: a server transaction timing out is a
   * SendResponseError. When a forwarded BYE times out, the leg that sent
   * the BYE to the broker (before `r` when the calling side hung up, after
   * it otherwise) gets a 200 of the broker's own for its last request; the
   * response needs that request. Other client timeouts change nothing.
   */
  method ProcessTimeout(ctx: SessionContext, ev: Event, net: Net) returns (step: Step)
    requires Inv(ctx) && ev.TimeoutEvent?
    modifies net`log
    ensures step.Next? ==> step == Next(SessionEnding)
    ensures ev.isServer ==> step == Raise(SendResponseError) && net.log == old(net.log)
    ensures !ev.isServer && ev.meth != BYE ==> step == Next(SessionEnding) && net.log == old(net.log)
    ensures !ev.isServer && ev.meth == BYE ==>
      var r := HandlerOf(ctx, ev.app);
      var t := if r.None? then null else if ctx.byeInitiatedByCallingParty then r.value.prev else r.value.next;
      && (t == null || t.lastIncomingRequest.None? ==> step == Raise(RuntimeFault) && net.log == old(net.log))
      && (t != null && t.lastIncomingRequest.Some? ==>
            var link := ServerTxLink(t.lastServerTransaction);
            && net.log == old(net.log) + Accepted(net.broken, link, Resp(OK, ""))
            && step == Then(ResponseFault(Outcome(net.broken, link)), SessionEnding))
  {
    if ev.isServer {
      return Raise(SendResponseError);
    }
    if ev.meth != BYE {
      return Next(SessionEnding);
    }
    var found := HandlerOf(ctx, ev.app);
    if found.None? {
      return Raise(RuntimeFault);
    }
    var r := found.value;
    var t := if ctx.byeInitiatedByCallingParty then r.prev else r.next;
    if t == null || t.lastIncomingRequest.None? {
      return Raise(RuntimeFault);
    }
    var err := t.SendNewResponse(OK, net);
    step := Then(err, SessionEnding);
  }
}

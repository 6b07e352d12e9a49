/**
 * `SessionOngoingState`: the call is established along the whole chain.
 * A BYE from either end starts the teardown, and the direction it came from
 * is recorded for SessionEndingState; late ACKs and INFO answers are passed
 * on, and any other response is unexpected.
 */
module Ongoing {
  import opened Wrappers
  import opened Sip
  import opened Stack
  import opened Handlers
  import opened Context
  import opened StateBase
  import Chaining

  /** `setByeInitiatedByCallingParty`. */
  method RecordByeDirection(ctx: SessionContext, fromCaller: bool)
    requires Inv(ctx)
    modifies ctx`byeInitiatedByCallingParty
    ensures Inv(ctx) && ctx.byeInitiatedByCallingParty == fromCaller
  {
    ctx.byeInitiatedByCallingParty := fromCaller;
  }

  /**
   * `handleBye`: the BYE from `s` arrived on `s`'s incoming dialog (the
   * calling side hung up) or on its outgoing one (the called side did).
   * The direction is recorded, `s` keeps the BYE and its transaction, and
   * the BYE goes on one leg in that direction: forwards on the next leg's
   * outgoing dialog, or backwards on the previous leg's incoming dialog,
   * that leg then being current. The session is ending.
   */
  method HandleBye(ctx: SessionContext, ev: Event, net: Net) returns (step: Step)
    requires Inv(ctx) && ev.RequestEvent?
    modifies ctx`byeInitiatedByCallingParty, ctx`currentHandler
    modifies ctx.handlers`lastServerTransaction, ctx.handlers`lastIncomingRequest, net`log
    ensures Inv(ctx)
    ensures Chaining.Sender(ctx, ev).None? ==> step == Raise(RuntimeFault) && net.log == old(net.log)
    ensures Chaining.Sender(ctx, ev).Some? ==>
      var s := Chaining.Sender(ctx, ev).value;
      var fromCaller := ev.dialog == old(s.incomingDialog);
      var t := if fromCaller then old(s.next) else old(s.prev);
      && ctx.byeInitiatedByCallingParty == fromCaller
      && s.lastServerTransaction == ev.stx && s.lastIncomingRequest == Some(ev.req)
      && (t == null ==> step == Raise(RuntimeFault) && net.log == old(net.log))
      && (t != null ==>
            var link := DialogLink(if fromCaller then t.outgoingDialog else t.incomingDialog);
            && net.log == old(net.log) + Accepted(net.broken, link, Req(BYE))
            && step == Then(RequestFault(Outcome(net.broken, link)), SessionEnding)
            && ctx.currentHandler == if !fromCaller && step.Next? then t else old(ctx.currentHandler))
  {
    var sender := Chaining.Sender(ctx, ev);
    if sender.None? {
      return Raise(RuntimeFault);
    }
    var s := sender.value;
    ctx.Listed(s);
    ctx.Around(s);
    var fromCaller := ev.dialog == s.incomingDialog;
    var t := if fromCaller then s.next else s.prev;
    RecordByeDirection(ctx, fromCaller);
    KeepRequest(ctx, s, ev.stx, ev.req);
    if t == null {
      return Raise(RuntimeFault);
    }
    var err := t.ForwardBye(if fromCaller then t.outgoingDialog else t.incomingDialog, net);
    if err.Some? {
      return Raise(err.value);
    }
    if !fromCaller {
      ctx.SetCurrentHandler(t);
    }
    step := Next(SessionEnding);
  }

  /**
   * `handleResponse`: only the 200 to an INFO is expected, and it is
   * relayed by `processInfoResponse`; anything else is an
   * UnexpectedSipMessageError.
   */
  method HandleResponse(ctx: SessionContext, ev: Event, net: Net) returns (step: Step)
    requires Inv(ctx) && ev.ResponseEvent?
    modifies ctx.handlers`specialInfoSender, ctx.handlers`lastInfoServerTransaction
    modifies ctx.handlers`lastIncomingInfoRequest, net`log
    ensures Inv(ctx)
    ensures !(ev.resp.status == OK && ev.resp.cseqMethod == INFO) ==>
      step == Raise(UnexpectedSipMessageError) && net.log == old(net.log)
    ensures ev.resp.status == OK && ev.resp.cseqMethod == INFO ==>
      var r := old(HandlerOf(ctx, ev.app));
      var t := if r.None? then null else old(InfoAnswerTarget(r.value, ev.dialog));
      && (t == null ==> step == Raise(RuntimeFault) && net.log == old(net.log))
      && (t != null ==>
            var link := ServerTxLink(old(t.lastInfoServerTransaction));
            && net.log == old(net.log) + Accepted(net.broken, link, Resp(ev.resp.status, ""))
            && step == Then(ResponseFault(Outcome(net.broken, link)), SessionOngoing))
  {
    if ev.resp.status != OK || ev.resp.cseqMethod != INFO {
      return Raise(UnexpectedSipMessageError);
    }
    var err := ProcessInfoResponse(ctx, ev, net);
    step := Then(err, SessionOngoing);
  }

  /**
   * `handleAck`: a late ACK from `s` goes on to the leg after it, as in
   * WaitingForImScfState but without changing that leg's state, unless that
   * leg is ACKED already.
   */
  method HandleAck(ctx: SessionContext, ev: Event, net: Net) returns (step: Step)
    requires Inv(ctx) && ev.RequestEvent?
    modifies net`log
    ensures step.Next? ==> step == Next(SessionOngoing)
    ensures Chaining.Sender(ctx, ev).None? ==> step == Raise(RuntimeFault) && net.log == old(net.log)
    ensures Chaining.Sender(ctx, ev).Some? ==>
      var n := Chaining.Sender(ctx, ev).value.next;
      && (n == null ==> step == Raise(RuntimeFault) && net.log == old(net.log))
      && (n != null && n.handlerState == ACKED ==> step == Next(SessionOngoing) && net.log == old(net.log))
      && (n != null && n.handlerState != ACKED && n.lastOutgoingInvite.None? ==>
            step == Raise(RuntimeFault) && net.log == old(net.log))
      && (n != null && n.handlerState != ACKED && n.lastOutgoingInvite.Some? ==>
            var link := DialogLink(n.outgoingDialog);
            && net.log == old(net.log) + Accepted(net.broken, link, Ack(n.lastOutgoingInvite.value.cseq))
            && step == Then(RequestFault(Outcome(net.broken, link)), SessionOngoing))
  {
    var sender := Chaining.Sender(ctx, ev);
    if sender.None? {
      return Raise(RuntimeFault);
    }
    var n := sender.value.next;
    if n == null {
      return Raise(RuntimeFault);
    }
    if n.handlerState == ACKED {
      return Next(SessionOngoing);
    }
    var err := n.SendAck(net);
    step := Then(err, SessionOngoing);
  }
}

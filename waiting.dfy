/**
 * `WaitingForImScfState`: the INVITE has reached the IM-SCF B leg and the
 * session waits for its answer. Responses are passed back along the chain
 * (an error from the IM-SCF ends the B leg), ACKs are passed forwards, and
 * once an ACK came from the IM-SCF and one went to it the session is
 * ongoing. The state carries the two ACK flags; CANCEL, BYE and PRACK are
 * handled as in ChainingState (`Chaining.CancelOnNext`, `ByeOnNext`,
 * `PrackOnNext`).
 */
module Waiting {
  import opened Wrappers
  import opened Sip
  import opened Stack
  import opened Config
  import opened Handlers
  import opened Context
  import opened Registry
  import opened StateBase
  import Chaining

  // ---------------------------------------------------------------------
  // ACK flags
  // ---------------------------------------------------------------------

  /**
   * The state after an ACK passed from a leg to the next one: the flags
   * record an ACK received from an IM-SCF leg and one sent to an IM-SCF
   * leg, and with both recorded the session is ongoing.
   */
  function AckNoted(w: State, fromImScf: bool, toImScf: bool): (r: State)
    requires w.WaitingForImScf?
    ensures r == SessionOngoing <==>
      (w.ackReceivedFromImScf || fromImScf) && (w.ackSentToImScf || toImScf)
    ensures r != SessionOngoing ==>
      r == WaitingForImScf(w.ackReceivedFromImScf || fromImScf, w.ackSentToImScf || toImScf)
  {
    var received := w.ackReceivedFromImScf || fromImScf;
    var sent := w.ackSentToImScf || toImScf;
    if received && sent then SessionOngoing else WaitingForImScf(received, sent)
  }

  /**
   * The state after a series of ACK hops, each given as (from an IM-SCF
   * leg, to an IM-SCF leg), taken while the session is still waiting.
   */
  function AcksFrom(w: State, hops: seq<(bool, bool)>): State
    requires w.WaitingForImScf?
    decreases |hops|
  {
    if |hops| == 0 then w
    else
      var w' := AckNoted(w, hops[0].0, hops[0].1);
      if w' == SessionOngoing then SessionOngoing else AcksFrom(w', hops[1..])
  }

  /**
   * The session becomes ongoing exactly when, among the flags already set
   * and the hops, some ACK came from an IM-SCF leg and some ACK went to one,
   * in whichever order; otherwise it is still waiting. (A waiting state
   * never has both flags set.)
   */
  lemma {:induction false} AcksReachOngoing(w: State, hops: seq<(bool, bool)>)
    requires w.WaitingForImScf? && !(w.ackReceivedFromImScf && w.ackSentToImScf)
    ensures AcksFrom(w, hops) == SessionOngoing <==>
      && (w.ackReceivedFromImScf || exists i :: 0 <= i < |hops| && hops[i].0)
      && (w.ackSentToImScf || exists i :: 0 <= i < |hops| && hops[i].1)
    ensures AcksFrom(w, hops) != SessionOngoing ==> AcksFrom(w, hops).WaitingForImScf?
    decreases |hops|
  {
    if |hops| > 0 {
      var w' := AckNoted(w, hops[0].0, hops[0].1);
      if w' == SessionOngoing {
        assert (w.ackReceivedFromImScf || hops[0].0) && (w.ackSentToImScf || hops[0].1);
      } else {
        var rest := hops[1..];
        AcksReachOngoing(w', rest);
        if exists i :: 0 <= i < |hops| && hops[i].0 {
          var i :| 0 <= i < |hops| && hops[i].0;
          if i > 0 { assert rest[i - 1].0; }
        }
        if exists i :: 0 <= i < |hops| && hops[i].1 {
          var i :| 0 <= i < |hops| && hops[i].1;
          if i > 0 { assert rest[i - 1].1; }
        }
        if exists i :: 0 <= i < |rest| && rest[i].0 {
          var i :| 0 <= i < |rest| && rest[i].0;
          assert hops[i + 1].0;
        }
        if exists i :: 0 <= i < |rest| && rest[i].1 {
          var i :| 0 <= i < |rest| && rest[i].1;
          assert hops[i + 1].1;
        }
      }
    }
  }

  /**
   * `forwardAckToNextAs`: the ACK from `s` goes to the leg after it, on
   * that leg's outgoing dialog with the CSeq number of the INVITE it was
   * sent; that leg is then ACKED and the flags note whether the ACK came
   * from or went to an IM-SCF leg.
   */
  method ForwardAck(ctx: SessionContext, ev: Event, w: State, net: Net) returns (step: Step)
    requires Inv(ctx) && ev.RequestEvent? && w.WaitingForImScf?
    modifies ctx.handlers`handlerState, net`log
    ensures Inv(ctx)
    ensures Chaining.Sender(ctx, ev).None? ==> step == Raise(RuntimeFault) && net.log == old(net.log)
    ensures Chaining.Sender(ctx, ev).Some? ==>
      var s := Chaining.Sender(ctx, ev).value;
      var n := old(s.next);
      && (n == null || n.lastOutgoingInvite.None? ==> step == Raise(RuntimeFault) && net.log == old(net.log))
      && (n != null && n.lastOutgoingInvite.Some? ==>
            var link := DialogLink(n.outgoingDialog);
            var fault := RequestFault(Outcome(net.broken, link));
            && net.log == old(net.log) + Accepted(net.broken, link, Ack(n.lastOutgoingInvite.value.cseq))
            && (fault.Some? ==> step == Raise(fault.value))
            && (fault.None? ==> n.handlerState == ACKED && step == Next(AckNoted(w, s.IsImScf(), n.IsImScf()))))
  {
    var sender := Chaining.Sender(ctx, ev);
    if sender.None? {
      return Raise(RuntimeFault);
    }
    var s := sender.value;
    ctx.Listed(s);
    ctx.Around(s);
    var n := s.next;
    if n == null {
      return Raise(RuntimeFault);
    }
    var err := n.SendAck(net);
    if err.Some? {
      return Raise(err.value);
    }
    Mark(ctx, n, ACKED);
    step := Next(AckNoted(w, s.IsImScf(), n.IsImScf()));
  }

  // ---------------------------------------------------------------------
  // Responses
  // ---------------------------------------------------------------------

  /** How `handleResponse` treats a response in this state, in the order the tests are made. */
  datatype Reaction =
    | Ignore       // the answer to a CANCEL, or a leg already TERMINATED
    | Postpone     // a leg marked SET_TO_CANCEL: `postponedCancel`
    | Answer       // 200 OK: `processResponseOK`
    | GoBack       // a Reason header or an error response: the leg before takes the call back
    | Progress     // 183 Session Progress: `processResponseSessionProgress`
    | Trying       // 100 Trying
    | PassBack     // another provisional response, passed back
    | Drop         // any other status: nothing happens

  /**
   * The reaction to `resp` from a leg in state `s`. Every error response
   * that is not ignored or postponed goes back; there is no ruleset here.
   */
  function WaitingReaction(resp: Response, s: HandlerState): (re: Reaction)
    ensures re == Ignore <==> resp.cseqMethod == CANCEL || s == TERMINATED
    ensures re == Postpone <==> resp.cseqMethod != CANCEL && s == SET_TO_CANCEL
    ensures resp.status >= MULTIPLE_CHOICES && re != Ignore && re != Postpone ==> re == GoBack
    ensures re == GoBack ==> resp.status >= MULTIPLE_CHOICES || HeaderValue(resp.headers, REASON).Some?
    ensures re == Progress || re == Trying || re == PassBack ==> TRYING <= resp.status < OK
  {
    if resp.cseqMethod == CANCEL then Ignore
    else if s == SET_TO_CANCEL then Postpone
    else if s == TERMINATED then Ignore
    else if resp.status == OK then Answer
    else if HeaderValue(resp.headers, REASON).Some? || resp.status >= MULTIPLE_CHOICES then GoBack
    else if resp.status == SESSION_PROGRESS then Progress
    else if resp.status == TRYING then Trying
    else if TRYING < resp.status < OK then PassBack
    else Drop
  }

  /**
   * The two states agree on what is ignored, postponed and answered; where
   * ChainingState ends a leg, by a Reason header or by the ruleset, this
   * state always sends the response back.
   */
  lemma ReactionsAgree(resp: Response, s: HandlerState)
    ensures WaitingReaction(resp, s) == Ignore <==> Chaining.ChainingReaction(resp, s) == Chaining.Ignore
    ensures WaitingReaction(resp, s) == Postpone <==> Chaining.ChainingReaction(resp, s) == Chaining.Postpone
    ensures WaitingReaction(resp, s) == Answer <==> Chaining.ChainingReaction(resp, s) == Chaining.Answer
    ensures Chaining.ChainingReaction(resp, s) in {Chaining.StopBack, Chaining.ByPolicy} ==> WaitingReaction(resp, s) == GoBack
  {
  }

  /**
   * `handleResponse` in this state: the responding leg `r` is found from
   * the client transaction and `WaitingReaction` decides. A 100 Trying
   * makes `r` PROVISIONAL; an error from a leg (the IM-SCF B leg, which
   * then has no outgoing dialog) goes back to the leg before it, which
   * takes the call back, and the session is chaining again.
   */
  method HandleResponse(ctx: SessionContext, ev: Event, w: State, net: Net) returns (step: Step)
    requires Inv(ctx) && ev.ResponseEvent? && w.WaitingForImScf?
    modifies ctx, ctx.handlers, ctx.ruleset.applications, net, net.sequence
    ensures Inv(ctx) && old(net.log) <= net.log && old(ctx.handlers) <= ctx.handlers
    ensures forall x :: x in ctx.handlers && x !in old(ctx.handlers) ==> fresh(x)
    ensures step.Next? ==> step.state == w || step.state == Chaining
    ensures old(HandlerOf(ctx, ev.app)).None? ==> step == Raise(RuntimeFault) && net.log == old(net.log)
    ensures old(HandlerOf(ctx, ev.app)).Some? ==>
      var r := old(HandlerOf(ctx, ev.app)).value;
      var re := old(WaitingReaction(ev.resp, r.handlerState));
      && (re == Ignore || re == Drop ==> step == Next(w) && net.log == old(net.log) && r.handlerState == old(r.handlerState))
      && (re == Postpone && ev.resp.status < OK ==>
            var link := ClientTxLink(old(r.lastClientTransaction));
            && net.log == old(net.log) + Accepted(net.broken, link, Req(CANCEL))
            && step == Then(RequestFault(Outcome(net.broken, link)), w))
      && (re == Trying ==> step == Next(w) && net.log == old(net.log) && r.handlerState == PROVISIONAL)
      && (re == GoBack ==>
            var p := old(r.prev);
            && old(ctx.imScfHandlerB).outgoingDialog.None? && ctx.currentHandler == p
            && (p == null ==> step == Raise(RuntimeFault))
            && (step.Next? ==> step == Next(Chaining))
            && (p != null && step.Next? ==>
                  Chaining.Delivered(p, Chaining.Relay(ev.resp), old(p.lastIncomingRequest), old(p.lastServerTransaction), net.log)))
      && (re == PassBack ==>
            var p := old(r.prev);
            && (p == null ==> step == Raise(RuntimeFault) && net.log == old(net.log))
            && (step.Next? ==> step == Next(w) && r.handlerState == PROVISIONAL)
            && (p != null && step.Next? ==>
                  Chaining.Delivered(p, Chaining.Relay(ev.resp), old(p.lastIncomingRequest), old(p.lastServerTransaction), net.log)))
  {
    var found := HandlerOf(ctx, ev.app);
    if found.None? {
      return Raise(RuntimeFault);
    }
    var r := found.value;
    ctx.Listed(r);
    match WaitingReaction(ev.resp, r.handlerState)
    case Ignore =>
      step := Next(w);
    case Drop =>
      step := Next(w);
    case Postpone =>
      step := PostponedCancel(ctx, ev.resp.status, r, w, net);
    case Answer =>
      step := ProcessResponseOK(ctx, ev, r, w, net);
    case GoBack =>
      step := ImScfFailed(ctx, ev.resp, r, net);
    case Progress =>
      step := ProcessSessionProgress(ctx, ev.resp, r, w, net);
    case Trying =>
      Mark(ctx, r, PROVISIONAL);
      step := Next(w);
    case PassBack =>
      step := PassProvisional(ctx, ev.resp, r, w, net);
  }

  /** `setOutgoingDialog(null)` on the IM-SCF B leg. */
  method ForgetImScfDialog(ctx: SessionContext)
    requires Inv(ctx)
    modifies ctx.imScfHandlerB`outgoingDialog
    ensures Inv(ctx) && ctx.imScfHandlerB.outgoingDialog.None?
  {
    ctx.imScfHandlerB.outgoingDialog := None;
  }

  /**
   * An error response, or one with a Reason header: the IM-SCF B leg loses
   * its outgoing dialog, and the leg before `r` takes the call back and is
   * passed the response.
   */
  method ImScfFailed(ctx: SessionContext, resp: Response, r: Handler, net: Net) returns (step: Step)
    requires Inv(ctx) && ctx.Has(r)
    modifies ctx`currentHandler, ctx`handlers, ctx`imScfHandlerB, ctx`chain, ctx.handlers`next, ctx.imScfHandlerB`outgoingDialog
    modifies ctx.handlers`lastServerTransaction, ctx.handlers`lastIncomingRequest
    modifies ctx.handlers`lastInfoServerTransaction, ctx.handlers`lastIncomingInfoRequest
    modifies ctx.handlers`lastPrackServerTransaction, ctx.handlers`lastIncomingPrackRequest
    modifies ctx.ruleset.applications`lastEndpointIndex, net`log
    ensures Inv(ctx) && old(net.log) <= net.log && old(ctx.handlers) <= ctx.handlers
    ensures forall x :: x in ctx.handlers && x !in old(ctx.handlers) ==> fresh(x)
    ensures old(ctx.imScfHandlerB).outgoingDialog.None?
    ensures var p := old(r.prev);
      && ctx.currentHandler == p
      && (p == null ==> step == Raise(RuntimeFault))
      && (p != null ==> RolledBack(ctx, p, old(ctx.handlers)))
      && (step.Next? ==> step == Next(Chaining))
      && (p != null && step.Next? ==>
            Chaining.Delivered(p, Chaining.Relay(resp), old(p.lastIncomingRequest), old(p.lastServerTransaction), net.log))
  {
    ctx.Around(r);
    var p := r.prev;
    ForgetImScfDialog(ctx);
    var err := ForwardBack(ctx, p, resp, net);
    step := Then(err, Chaining);
  }

  /** A provisional response other than 100 and 183 goes back to the leg before `r`; then `r` is PROVISIONAL. */
  method PassProvisional(ctx: SessionContext, resp: Response, r: Handler, w: State, net: Net) returns (step: Step)
    requires Inv(ctx) && ctx.Has(r)
    modifies r`handlerState, net`log, ctx.handlers`lastServerTransaction, ctx.handlers`lastIncomingRequest
    modifies ctx.handlers`lastInfoServerTransaction, ctx.handlers`lastIncomingInfoRequest
    modifies ctx.handlers`lastPrackServerTransaction, ctx.handlers`lastIncomingPrackRequest
    ensures Inv(ctx) && old(net.log) <= net.log
    ensures old(r.prev) == null ==> step == Raise(RuntimeFault) && net.log == old(net.log)
    ensures step.Next? ==> step == Next(w) && r.handlerState == PROVISIONAL
    ensures old(r.prev) != null && step.Next? ==>
      var p := old(r.prev);
      Chaining.Delivered(p, Chaining.Relay(resp), old(p.lastIncomingRequest), old(p.lastServerTransaction), net.log)
  {
    ctx.Around(r);
    var p := r.prev;
    if p == null {
      return Raise(RuntimeFault);
    }
    var err := Chaining.ReplyBack(ctx, p, Chaining.Relay(resp), net);
    if err.Some? {
      return Raise(err.value);
    }
    Mark(ctx, r, PROVISIONAL);
    step := Next(w);
  }

  /**
   * `processResponseOK` in this state: an INVITE's 200 makes `r` ANSWERED
   * and goes back; a PRACK's always goes back, and reaching an IM-SCF leg
   * ends the reliable relay; an INFO's is relayed by `processInfoResponse`;
   * a BYE's as in ChainingState; a CANCEL's, or any other, needs nothing.
   */
  method ProcessResponseOK(ctx: SessionContext, ev: Event, r: Handler, w: State, net: Net) returns (step: Step)
    requires Inv(ctx) && ctx.Has(r) && ev.ResponseEvent? && HandlerOf(ctx, ev.app) == Some(r)
    modifies ctx`reliableResponseProcessing, ctx.handlers`handlerState, ctx.handlers`specialInfoSender, net`log
    modifies ctx.handlers`lastServerTransaction, ctx.handlers`lastIncomingRequest
    modifies ctx.handlers`lastInfoServerTransaction, ctx.handlers`lastIncomingInfoRequest
    modifies ctx.handlers`lastPrackServerTransaction, ctx.handlers`lastIncomingPrackRequest
    ensures Inv(ctx) && old(net.log) <= net.log
    ensures step.Next? ==> step == Next(w)
    ensures ev.resp.cseqMethod == INVITE ==>
      var p := old(r.prev);
      && r.handlerState == ANSWERED
      && (p == null ==> step == Raise(RuntimeFault) && net.log == old(net.log))
      && (p != null && step.Next? ==>
            Chaining.Delivered(p, Chaining.Relay(ev.resp), old(p.lastIncomingRequest), old(p.lastServerTransaction), net.log))
    ensures ev.resp.cseqMethod == PRACK ==>
      var p := old(r.prev);
      && (p == null ==> step == Raise(RuntimeFault) && net.log == old(net.log))
      && (p != null ==>
            var link := ServerTxLink(old(p.lastPrackServerTransaction));
            && net.log == old(net.log) + Accepted(net.broken, link, Resp(ev.resp.status, ""))
            && step == Then(ResponseFault(Outcome(net.broken, link)), w)
            && ctx.reliableResponseProcessing == (old(ctx.reliableResponseProcessing) && !(step.Next? && p.IsImScf())))
    ensures ev.resp.cseqMethod == INFO ==>
      var t := old(InfoAnswerTarget(r, ev.dialog));
      && (t == null ==> step == Raise(RuntimeFault) && net.log == old(net.log))
      && (t != null ==>
            var link := ServerTxLink(old(t.lastInfoServerTransaction));
            && net.log == old(net.log) + Accepted(net.broken, link, Resp(ev.resp.status, ""))
            && step == Then(ResponseFault(Outcome(net.broken, link)), w))
    ensures ev.resp.cseqMethod !in {INVITE, PRACK, INFO, BYE} ==> step == Next(w) && net.log == old(net.log)
  {
    ctx.Around(r);
    match ev.resp.cseqMethod
    case INVITE =>
      var p := r.prev;
      Mark(ctx, r, ANSWERED);
      if p == null {
        return Raise(RuntimeFault);
      }
      var err := Chaining.ReplyBack(ctx, p, Chaining.Relay(ev.resp), net);
      step := Then(err, w);
    case PRACK =>
      step := PrackAnswered(ctx, ev.resp, r, w, net);
    case INFO =>
      var err := ProcessInfoResponse(ctx, ev, net);
      step := Then(err, w);
    case BYE =>
      step := Chaining.ByeAnswered(ctx, ev, r, w, net);
    case _ =>
      step := Next(w);
  }

  /** The 200 to a PRACK goes back to the leg before `r`; when that leg is an IM-SCF leg, the reliable relay is over. */
  method PrackAnswered(ctx: SessionContext, resp: Response, r: Handler, w: State, net: Net) returns (step: Step)
    requires Inv(ctx) && ctx.Has(r)
    modifies ctx`reliableResponseProcessing, net`log
    modifies ctx.handlers`lastPrackServerTransaction, ctx.handlers`lastIncomingPrackRequest
    ensures Inv(ctx)
    ensures old(r.prev) == null ==> step == Raise(RuntimeFault) && net.log == old(net.log)
    ensures old(r.prev) != null ==>
      var p := old(r.prev);
      var link := ServerTxLink(old(p.lastPrackServerTransaction));
      && net.log == old(net.log) + Accepted(net.broken, link, Resp(resp.status, ""))
      && step == Then(ResponseFault(Outcome(net.broken, link)), w)
      && ctx.reliableResponseProcessing == (old(ctx.reliableResponseProcessing) && !(step.Next? && p.IsImScf()))
  {
    ctx.Around(r);
    var p := r.prev;
    if p == null {
      return Raise(RuntimeFault);
    }
    var err := PassPrackResponse(ctx, p, resp, net);
    if err.Some? {
      return Raise(err.value);
    }
    if p.IsImScf() {
      SetReliableProcessing(ctx, false);
    }
    step := Next(w);
  }

  /**
   * `processResponseSessionProgress` in this state: `r` is PROVISIONAL. An
   * IM-SCF cannot take the session over, so a 183 with an x-as header other
   * than "false" is a SendResponseError. A reliable 183 goes back through
   * `forwardReliableProvisionalResponse`, turns the reliable relay on and
   * is remembered by `r`; an unreliable one simply goes back.
   */
  method ProcessSessionProgress(ctx: SessionContext, resp: Response, r: Handler, w: State, net: Net) returns (step: Step)
    requires Inv(ctx) && ctx.Has(r)
    modifies ctx`reliableResponseProcessing, r`handlerState, r`lastSessionProgressResponse, net`log
    modifies ctx.handlers`pendingReliableResponse, ctx.handlers`lastServerTransaction, ctx.handlers`lastIncomingRequest
    modifies ctx.handlers`lastInfoServerTransaction, ctx.handlers`lastIncomingInfoRequest
    modifies ctx.handlers`lastPrackServerTransaction, ctx.handlers`lastIncomingPrackRequest
    ensures Inv(ctx) && old(net.log) <= net.log && r.handlerState == PROVISIONAL
    ensures step.Next? ==> step == Next(w)
    ensures !IsRegular(resp) ==> step == Raise(SendResponseError) && net.log == old(net.log)
    ensures IsRegular(resp) && old(r.prev) == null ==> step == Raise(RuntimeFault) && net.log == old(net.log)
    ensures IsRegular(resp) && old(r.prev) != null && IsReliable(resp) ==>
      var p := old(r.prev);
      var link := DialogLink(p.incomingDialog);
      && (old(p.pendingReliableResponse) ==> net.log == old(net.log))
      && (!old(p.pendingReliableResponse) ==>
            && net.log == old(net.log) + Accepted(net.broken, link, Resp(resp.status, ""))
            && step == Then(ResponseFault(Outcome(net.broken, link)), w))
      && (step.Next? ==> ctx.reliableResponseProcessing && r.lastSessionProgressResponse == Some(resp))
    ensures IsRegular(resp) && old(r.prev) != null && !IsReliable(resp) && step.Next? ==>
      var p := old(r.prev);
      Chaining.Delivered(p, Chaining.Relay(resp), old(p.lastIncomingRequest), old(p.lastServerTransaction), net.log)
  {
    ctx.Around(r);
    var p := r.prev;
    Mark(ctx, r, PROVISIONAL);
    if !IsRegular(resp) {
      return Raise(SendResponseError);
    }
    if p == null {
      return Raise(RuntimeFault);
    }
    if IsReliable(resp) {
      var err := PassReliable(ctx, p, resp, net);
      if err.Some? {
        return Raise(err.value);
      }
      SetReliableProcessing(ctx, true);
      KeepProgress(ctx, r, resp);
      step := Next(w);
    } else {
      var err := Chaining.ReplyBack(ctx, p, Chaining.Relay(resp), net);
      step := Then(err, w);
    }
  }

  // ---------------------------------------------------------------------
  // Timeouts
  // ---------------------------------------------------------------------

  /**
   * `processTimeout` in this state: a server transaction timing out is a
   * SendResponseError, and a client transaction other than an INVITE's
   * changes nothing. A timed-out INVITE's dialog is no longer pending; when
   * it was the last one the session is gone from the registry, otherwise
   * the leg before takes the call back and gets 408, whatever the ruleset
   * says.
   */
  method ProcessTimeout<S>(ctx: SessionContext, ev: Event, w: State, net: Net, reg: SessionManager<S>) returns (step: Step)
    requires Inv(ctx) && ev.TimeoutEvent? && w.WaitingForImScf?
    modifies ctx, ctx.handlers, ctx.ruleset.applications, net`log, reg
    ensures Inv(ctx) && old(net.log) <= net.log
    ensures forall x :: x in ctx.handlers && x !in old(ctx.handlers) ==> fresh(x)
    ensures step.Next? ==> step.state == w || step.state == Chaining
    ensures ev.isServer ==> step == Raise(SendResponseError) && net.log == old(net.log)
    ensures !ev.isServer && ev.meth != INVITE ==> step == Next(w) && net.log == old(net.log)
    ensures !ev.isServer && ev.meth == INVITE && (old(HandlerOf(ctx, ev.app)).None? || ev.dialog.None?) ==>
      step == Raise(RuntimeFault) && net.log == old(net.log)
    ensures !ev.isServer && ev.meth == INVITE && old(HandlerOf(ctx, ev.app)).Some? && ev.dialog.Some? ==>
      var d := ev.dialog.value;
      var r := old(HandlerOf(ctx, ev.app)).value;
      var p := old(r.prev);
      && ctx.pendingDialogs == old(ctx.pendingDialogs) - {d}
      && (old(ctx.pendingDialogs) == {d} ==>
            step == Next(w) && net.log == old(net.log) && reg.sessions == old(reg.sessions) - {ctx.key})
      && (old(ctx.pendingDialogs) != {d} ==>
            && reg.sessions == old(reg.sessions)
            && ctx.currentHandler == p
            && (p == null ==> step == Raise(RuntimeFault))
            && (step.Next? ==> step == Next(Chaining))
            && (p != null && step.Next? ==>
                  Chaining.Delivered(p, Chaining.NewResponse(REQUEST_TIMEOUT), old(p.lastIncomingRequest),
                                     old(p.lastServerTransaction), net.log)))
  {
    if ev.isServer {
      return Raise(SendResponseError);
    }
    if ev.meth != INVITE {
      return Next(w);
    }
    var found := HandlerOf(ctx, ev.app);
    if found.None? || ev.dialog.None? {
      return Raise(RuntimeFault);
    }
    var r := found.value;
    ctx.Listed(r);
    step := InviteTimedOut(ctx, ev.dialog.value, r, w, net, reg);
  }

  /**
   * The timed-out INVITE to `r` on dialog `d`: the dialog is no longer
   * pending; unless that ended the session, the leg before `r` takes the
   * call back and gets 408.
   */
  method InviteTimedOut<S>(ctx: SessionContext, d: DialogId, r: Handler, w: State, net: Net, reg: SessionManager<S>)
    returns (step: Step)
    requires Inv(ctx) && ctx.Has(r)
    modifies ctx, ctx.handlers, ctx.ruleset.applications, net`log, reg
    ensures Inv(ctx) && old(net.log) <= net.log
    ensures forall x :: x in ctx.handlers && x !in old(ctx.handlers) ==> fresh(x)
    ensures ctx.pendingDialogs == old(ctx.pendingDialogs) - {d}
    ensures old(ctx.pendingDialogs) == {d} ==>
      step == Next(w) && net.log == old(net.log) && reg.sessions == old(reg.sessions) - {ctx.key}
    ensures old(ctx.pendingDialogs) != {d} ==>
      var p := old(r.prev);
      && reg.sessions == old(reg.sessions)
      && ctx.currentHandler == p
      && (p == null ==> step == Raise(RuntimeFault))
      && (step.Next? ==> step == Next(Chaining))
      && (p != null && step.Next? ==>
            Chaining.Delivered(p, Chaining.NewResponse(REQUEST_TIMEOUT), old(p.lastIncomingRequest),
                               old(p.lastServerTransaction), net.log))
  {
    ctx.Around(r);
    var p := r.prev;
    var last := CheckAndRemoveSession(ctx, d, reg);
    if last {
      return Next(w);
    }
    var err := RespondBack(ctx, p, REQUEST_TIMEOUT, net);
    step := Then(err, Chaining);
}
}

/**
 * ChainingState: the session sets the call up one leg at a time, from the
 * IM-SCF A leg through the ASs to the IM-SCF B leg. A failing AS is either
 * the end of the setup (STOP: the previous AS takes the call back) or is
 * skipped (SKIP: it leaves the chain and the INVITE goes on to the next leg).
 *
 * The steps here take the whole session as their frame: the context, its
 * handlers, the services (whose round-robin cursors a rollback advances)
 * and the stack.
 */
module Chaining {
  import opened Wrappers
  import opened Sip
  import opened Stack
  import opened Config
  import opened Handlers
  import opened Context
  import opened Registry
  import opened StateBase

  /**
   * `skipNotPossible`: an IM-SCF leg cannot be skipped, nor the only AS
   * between the two IM-SCF legs. None is a missing neighbour the check
   * dereferences (the next one is only looked at when the previous one is
   * an IM-SCF leg).
   */
  function SkipNotPossible(r: Handler): (o: Option<bool>)
    reads r
  {
    if r.IsImScf() then Some(true)
    else if r.prev == null then None
    else if !r.prev.IsImScf() then Some(false)
    else if r.next == null then None
    else Some(r.next.IsImScf())
  }

  /**
   * On a well-formed chain the check never fails, and a leg can be skipped
   * exactly when it is strictly inside a chain that has more than one AS.
   */
  lemma SkipOnChain(ctx: SessionContext, i: nat)
    requires ctx.Valid() && ctx.Chained() && i < |ctx.chain|
    ensures SkipNotPossible(ctx.chain[i]) == Some(i == 0 || i == |ctx.chain| - 1 || |ctx.chain| == 3)
  {
    var c := ctx.chain;
    if 0 < i < |c| - 1 {
      var j := i - 1;
      assert ctx.Step(c[j], c[j + 1]) && ctx.Step(c[i], c[i + 1]);
      assert c[0].IsImScf() && c[|c| - 1].IsImScf();
    }
  }

  /** What goes back to the leg that takes the call back: a new response, or the error response received. */
  datatype Reply = NewResponse(status: int) | Relay(resp: Response)

  function ReplyStatus(reply: Reply): int
  {
    if reply.NewResponse? then reply.status else reply.resp.status
  }

  /**
   * The reply reached `p` on its server transaction (as it was, `stx0`),
   * whenever there was something to answer: a new response needs the last
   * request `p` received (`req0`), and an AS needs an open transaction.
   */
  ghost predicate Delivered(p: Handler, reply: Reply, req0: Option<Request>, stx0: Option<TxId>, log: seq<Packet>)
  {
    (reply.Relay? || req0.Some?) && (p.role.ImScf? || stx0.Some?) ==> RespondedOn(stx0, ReplyStatus(reply), log)
  }

  /** `sendNewResponseBack` or `forwardErrorResponseBack` on `p`, without a change of current handler. */
  method ReplyBack(ctx: SessionContext, p: Handler, reply: Reply, net: Net) returns (err: Option<Fault>)
    requires Inv(ctx)
    modifies net`log, p`lastServerTransaction, p`lastIncomingRequest, p`lastInfoServerTransaction,
             p`lastIncomingInfoRequest, p`lastPrackServerTransaction, p`lastIncomingPrackRequest
    ensures Inv(ctx) && old(net.log) <= net.log
    ensures err.Some? ==> err == Some(SendResponseError) || err == Some(RuntimeFault)
    ensures err.None? ==> Delivered(p, reply, old(p.lastIncomingRequest), old(p.lastServerTransaction), net.log)
  {
    if reply.NewResponse? {
      err := SendNewResponseBack(ctx, p, reply.status, net);
    } else {
      err := p.ForwardResponse(reply.resp, net);
    }
  }

  /** The same with `p` taking the call back first (`setCurrentHandler` and `checkAndApplyRollback`). */
  method RetreatAndReply(ctx: SessionContext, p: Handler, reply: Reply, net: Net) returns (err: Option<Fault>)
    requires Inv(ctx) && ctx.Has(p)
    modifies ctx, ctx.handlers, ctx.ruleset.applications, net, net.sequence
    ensures Inv(ctx) && ctx.currentHandler == p && old(net.log) <= net.log && old(ctx.handlers) <= ctx.handlers
    ensures forall x :: x in ctx.handlers && x !in old(ctx.handlers) ==> fresh(x)
    ensures RolledBack(ctx, p, old(ctx.handlers))
    ensures old(ctx.Chained()) && p in old(ctx.chain) ==>
      ctx.Chained() && Narrowed(old(ctx.chain), |old(ctx.handlers)|, ctx.chain)
    ensures err.Some? ==> err == Some(SendResponseError) || err == Some(RuntimeFault)
    ensures err.None? ==> Delivered(p, reply, old(p.lastIncomingRequest), old(p.lastServerTransaction), net.log)
  {
    if reply.NewResponse? {
      err := RespondBack(ctx, p, reply.status, net);
    } else {
      err := ForwardBack(ctx, p, reply.resp, net);
    }
  }

  /** The INVITE built from `req` for `h` is accepted by the stack. */
  predicate InviteAccepted(net: Net, h: Handler, req: Request)
  {
    Outcome(net.broken, ToRoute(OutgoingRoutes(h.role, req.routes, net.defaultImScfRoute)[0])) == Sent
  }

  /**
   * `continueSetupWithNextAsOrImScf`: `nx` becomes current and is sent the
   * INVITE `req`. When the stack accepts it, `nx` is INVITED and its
   * outgoing dialog pending, and the session waits for the IM-SCF if `nx`
   * is the B leg. When not, the error logic for 503 applies to `nx`.
   *
   * A skip re-enters this step for the next leg, so the steps carry `fuel`
   * (the number of handlers suffices on a well-formed chain); a missing
   * handler or INVITE and an exhausted fuel are RuntimeFault.
   */
  method ContinueSetup(ctx: SessionContext, req: Option<Request>, nx: Handler?, fuel: nat, net: Net)
    returns (step: Step)
    requires Inv(ctx) && (nx != null ==> ctx.Has(nx))
    modifies ctx, ctx.handlers, ctx.ruleset.applications, net, net.sequence
    decreases fuel, 2
    ensures Inv(ctx) && old(net.log) <= net.log && old(ctx.handlers) <= ctx.handlers
    ensures forall x :: x in ctx.handlers && x !in old(ctx.handlers) ==> fresh(x)
    ensures step.Next? ==> step.state == Chaining || step.state == NEW_WAITING
    ensures nx == null || req.None? ==> step == Raise(RuntimeFault) && ctx.currentHandler == nx
    ensures nx != null && req.Some? && InviteAccepted(net, nx, req.value) ==>
      && ctx.currentHandler == nx && nx.handlerState == INVITED && nx.outgoingDialog.Some?
      && ctx.pendingDialogs == old(ctx.pendingDialogs) + {nx.outgoingDialog.value}
      && step == Next(if nx.IsImScf() then NEW_WAITING else Chaining)
    ensures nx != null && old(ctx.Chained()) && nx in old(ctx.chain) ==>
      ctx.Chained() && Narrowed(old(ctx.chain), |old(ctx.handlers)|, ctx.chain)
  {
    ctx.SetCurrentHandler(nx);
    if nx == null || req.None? {
      return Raise(RuntimeFault);
    }
    var err := InviteLeg(ctx, req.value, nx, net);
    if err.None? {
      return Next(if nx.IsImScf() then NEW_WAITING else Chaining);
    }
    step := ApplyErrorLogic(ctx, nx, SERVICE_UNAVAILABLE, NewResponse(SERVICE_UNAVAILABLE), fuel, net);
  }

  /** The successful half of `continueSetupWithNextAsOrImScf`: `nx` is sent the INVITE, is INVITED and its dialog pending. */
  method InviteLeg(ctx: SessionContext, req: Request, nx: Handler, net: Net) returns (err: Option<Fault>)
    requires Inv(ctx)
    modifies net`log, net`lastId, net.sequence, nx`lastOutgoingInvite, nx`lastClientTransaction, nx`outgoingDialog
    modifies nx`handlerState, ctx`pendingDialogs
    ensures Inv(ctx) && old(net.log) <= net.log
    ensures err.Some? ==> err == Some(UnrecoverableError)
    ensures err.None? <==> InviteAccepted(net, nx, req)
    ensures err.None? ==>
      && nx.handlerState == INVITED && nx.outgoingDialog.Some?
      && ctx.pendingDialogs == old(ctx.pendingDialogs) + {nx.outgoingDialog.value}
    ensures err.Some? ==> ctx.pendingDialogs == old(ctx.pendingDialogs) && nx.handlerState == old(nx.handlerState)
  {
    err := nx.ProcessOutgoingInvite(req, net);
    if err.None? {
      Engage(ctx, nx);
    }
  }

  /**
   * The error logic for `code` after `r` failed: under STOP the leg before
   * `r` takes the call back and gets `reply`; when `r` cannot be skipped the
   * leg before it gets `reply` without taking the call back; otherwise `r`
   * is skipped.
   */
  method ApplyErrorLogic(ctx: SessionContext, r: Handler, code: int, reply: Reply, fuel: nat, net: Net)
    returns (step: Step)
    requires Inv(ctx) && ctx.Has(r)
    modifies ctx, ctx.handlers, ctx.ruleset.applications, net, net.sequence
    decreases fuel, 1
    ensures Inv(ctx) && old(net.log) <= net.log && old(ctx.handlers) <= ctx.handlers
    ensures forall x :: x in ctx.handlers && x !in old(ctx.handlers) ==> fresh(x)
    ensures step.Next? ==> step.state == Chaining || step.state == NEW_WAITING
    ensures old(ctx.ruleset.GetResponseHandling(code)) == STOP ==>
      var p := old(r.prev);
      && ctx.currentHandler == p
      && (p == null ==> step == Raise(RuntimeFault))
      && (p != null ==> RolledBack(ctx, p, old(ctx.handlers)))
      && (step.Next? ==> step == Next(Chaining))
      && (p != null && step.Next? ==> Delivered(p, reply, old(p.lastIncomingRequest), old(p.lastServerTransaction), net.log))
    ensures old(ctx.ruleset.GetResponseHandling(code)) == SKIP && old(SkipNotPossible(r)).None? ==>
      step == Raise(RuntimeFault) && net.log == old(net.log)
    ensures old(ctx.ruleset.GetResponseHandling(code)) == SKIP && old(SkipNotPossible(r)) == Some(true) ==>
      var p := old(r.prev);
      && ctx.currentHandler == old(ctx.currentHandler) && ctx.handlers == old(ctx.handlers)
      && (p == null ==> step == Raise(RuntimeFault))
      && (step.Next? ==> step == Next(Chaining))
      && (p != null && step.Next? ==> Delivered(p, reply, old(p.lastIncomingRequest), old(p.lastServerTransaction), net.log))
    ensures old(ctx.ruleset.GetResponseHandling(code)) == SKIP && old(SkipNotPossible(r)) == Some(false)
            && old(ctx.Chained()) && r in old(ctx.chain) ==>
      r !in ctx.chain
    ensures old(ctx.Chained()) && r in old(ctx.chain) ==>
      ctx.Chained() && Narrowed(old(ctx.chain), |old(ctx.handlers)|, ctx.chain)
  {
    ghost var chained := ctx.Chained() && r in ctx.chain;
    if chained {
      var i :| 0 <= i < |ctx.chain| && ctx.chain[i] == r;
      if 0 < i {
        var j := i - 1;
        assert ctx.Step(ctx.chain[j], ctx.chain[j + 1]);
      } else {
        assert r.prev == null;
      }
    }
    ctx.Around(r);
    var p := r.prev;
    if ctx.ruleset.GetResponseHandling(code) == STOP {
      if p == null {
        // the rollback check dereferences the missing handler
        ctx.SetCurrentHandler(null);
        return Raise(RuntimeFault);
      }
      var err := RetreatAndReply(ctx, p, reply, net);
      return Then(err, Chaining);
    }
    var blocked := SkipNotPossible(r);
    if blocked.None? {
      return Raise(RuntimeFault);
    }
    if blocked.value {
      if p == null {
        return Raise(RuntimeFault);
      }
      var err := ReplyBack(ctx, p, reply, net);
      return Then(err, Chaining);
    }
    step := ExecuteSkipLogic(ctx, r, fuel, net);
  }

  /**
   * `executeSkipLogic`: `r`'s neighbours are linked past it and the setup
   * goes on with the leg after it, using the session's last incoming INVITE.
   * On a well-formed chain `r` is out of the chain for good.
   */
  method ExecuteSkipLogic(ctx: SessionContext, r: Handler, fuel: nat, net: Net) returns (step: Step)
    requires Inv(ctx) && ctx.Has(r)
    modifies ctx, ctx.handlers, ctx.ruleset.applications, net, net.sequence
    decreases fuel, 0
    ensures Inv(ctx) && old(net.log) <= net.log && old(ctx.handlers) <= ctx.handlers
    ensures forall x :: x in ctx.handlers && x !in old(ctx.handlers) ==> fresh(x)
    ensures step.Next? ==> step.state == Chaining || step.state == NEW_WAITING
    ensures old(r.prev) == null || old(r.next) == null ==> step == Raise(RuntimeFault) && net.log == old(net.log)
    ensures old(r.prev) != null && old(r.next) == null ==> old(r.prev).next == null
    ensures old(ctx.Chained()) && r in old(ctx.chain) && old(SkipNotPossible(r)) == Some(false) ==>
      ctx.Chained() && r !in ctx.chain && Narrowed(old(ctx.chain), |old(ctx.handlers)|, ctx.chain)
  {
    ctx.Around(r);
    ghost var chained := ctx.Chained() && r in ctx.chain && SkipNotPossible(r) == Some(false);
    if chained {
      var k :| 0 <= k < |ctx.chain| && ctx.chain[k] == r;
      SkipOnChain(ctx, k);
      var j := k - 1;
      assert ctx.Step(ctx.chain[j], ctx.chain[j + 1]) && ctx.Step(ctx.chain[k], ctx.chain[k + 1]);
    }
    var x, y := r.prev, r.next;
    if x == null {
      return Raise(RuntimeFault);
    }
    if y == null {
      ctx.Sever(x);
      return Raise(RuntimeFault);
    }
    ghost var c0, n0 := ctx.chain, |ctx.handlers|;
    if chained {
      ctx.ChainDistinct();
    }
    ghost var i := ctx.Exclude(r);
    if chained {
      assert ctx.chain[i] == y;
      assert r !in ctx.chain;
    }
    ghost var c1 := ctx.chain;
    if fuel == 0 {
      return Raise(RuntimeFault);
    }
    step := ContinueSetup(ctx, ctx.lastIncomingInvite, y, fuel - 1, net);
    if chained {
      assert Narrowed(c1, n0, ctx.chain);
    }
  }

  // ---------------------------------------------------------------------
  // Requests
  // ---------------------------------------------------------------------

  /** The handler a request came from: its dialog's application data; a missing dialog or handler is null. */
  function Sender(ctx: SessionContext, ev: Event): (r: Option<Handler>)
    requires ev.RequestEvent?
    reads ctx`handlers
    ensures r.Some? ==> ev.dialog.Some? && r == HandlerOf(ctx, ev.app)
  {
    if ev.dialog.None? then None else HandlerOf(ctx, ev.app)
  }

  /**
   * `handleCancel`, shared with WaitingForImScfState: the CANCEL from `s`
   * is decided by the state of the leg after it. An INVITED leg is marked to
   * be cancelled when it first answers; after a TERMINATED leg `s` takes
   * the call back and gets 487 for its INVITE; a leg that has answered
   * makes the CANCEL too late, and `s` gets 481; any other leg is sent the
   * CANCEL and the session stays in `st`.
   */
  method CancelOnNext(ctx: SessionContext, s: Handler, st: State, net: Net) returns (step: Step)
    requires Inv(ctx) && ctx.Has(s)
    modifies ctx`currentHandler, ctx`handlers, ctx`imScfHandlerB, ctx`chain, ctx.handlers`next
    modifies ctx.handlers`handlerState, ctx.handlers`lastServerTransaction, ctx.handlers`lastIncomingRequest
    modifies ctx.handlers`lastInfoServerTransaction, ctx.handlers`lastIncomingInfoRequest
    modifies ctx.handlers`lastPrackServerTransaction, ctx.handlers`lastIncomingPrackRequest
    modifies ctx.ruleset.applications`lastEndpointIndex, net`log
    ensures Inv(ctx) && old(net.log) <= net.log
    ensures forall x :: x in ctx.handlers && x !in old(ctx.handlers) ==> fresh(x)
    ensures old(s.next) == null ==> step == Raise(RuntimeFault) && net.log == old(net.log)
    ensures old(s.next) != null && old(s.next.handlerState) == INVITED ==>
      old(s.next).handlerState == SET_TO_CANCEL && step == Next(st) && net.log == old(net.log)
    ensures old(s.next) != null && old(s.next.handlerState) == TERMINATED ==>
      && ctx.currentHandler == s && RolledBack(ctx, s, old(ctx.handlers))
      && (step.Next? ==> step == Next(Chaining))
      && (step.Next? ==> Delivered(s, NewResponse(REQUEST_TERMINATED), old(s.lastIncomingRequest),
                                   old(s.lastServerTransaction), net.log))
    ensures old(s.next) != null && old(s.next.handlerState) in {ANSWERED, ACKED} ==>
      && ctx.currentHandler == old(ctx.currentHandler) && ctx.handlers == old(ctx.handlers)
      && (step.Next? ==> step == Next(Chaining))
      && (step.Next? ==> Delivered(s, NewResponse(CALL_OR_TRANSACTION_DOES_NOT_EXIST), old(s.lastIncomingRequest),
                                   old(s.lastServerTransaction), net.log))
    ensures old(s.next) != null && old(s.next.handlerState) !in {INVITED, TERMINATED, ANSWERED, ACKED} ==>
      var link := ClientTxLink(old(s.next.lastClientTransaction));
      && net.log == old(net.log) + Accepted(net.broken, link, Req(CANCEL))
      && step == Then(RequestFault(Outcome(net.broken, link)), st)
  {
    ctx.Around(s);
    var n := s.next;
    if n == null {
      return Raise(RuntimeFault);
    }
    if n.handlerState == INVITED {
      n.handlerState := SET_TO_CANCEL;
      step := Next(st);
    } else if n.handlerState == TERMINATED {
      var err := RespondBack(ctx, s, REQUEST_TERMINATED, net);
      step := Then(err, Chaining);
    } else if n.handlerState == ANSWERED || n.handlerState == ACKED {
      var err := SendNewResponseBack(ctx, s, CALL_OR_TRANSACTION_DOES_NOT_EXIST, net);
      step := Then(err, Chaining);
    } else {
      var err := n.SendCancel(net);
      step := Then(err, st);
    }
  }

  /**
   * `handleBye`, shared with WaitingForImScfState: a BYE that follows a
   * CANCEL. Its transaction and request are kept on the sender `s`, and it
   * goes on to the leg after `s` on that leg's outgoing dialog, which is
   * then TERMINATING.
   */
  method ByeOnNext(ctx: SessionContext, ev: Event, s: Handler, st: State, net: Net) returns (step: Step)
    requires Inv(ctx) && ctx.Has(s) && ev.RequestEvent?
    modifies s`lastServerTransaction, s`lastIncomingRequest, ctx.handlers`handlerState, net`log
    ensures Inv(ctx)
    ensures s.lastServerTransaction == ev.stx && s.lastIncomingRequest == Some(ev.req)
    ensures old(s.next) == null ==> step == Raise(RuntimeFault) && net.log == old(net.log)
    ensures old(s.next) != null ==>
      var n := old(s.next);
      var link := DialogLink(n.outgoingDialog);
      && net.log == old(net.log) + Accepted(net.broken, link, Req(BYE))
      && step == Then(RequestFault(Outcome(net.broken, link)), st)
      && n.handlerState == if step.Next? then TERMINATING else old(n.handlerState)
  {
    ctx.Around(s);
    KeepRequest(ctx, s, ev.stx, ev.req);
    var n := s.next;
    if n == null {
      return Raise(RuntimeFault);
    }
    var err := n.ForwardBye(n.outgoingDialog, net);
    if err.Some? {
      return Raise(err.value);
    }
    Mark(ctx, n, TERMINATING);
    step := Next(st);
  }

  /**
   * `handlePrack`, shared with WaitingForImScfState: the PRACK from `s`
   * frees `s` for the next reliable response, its transaction and request
   * are kept on `s`, and it goes on to the leg after `s` as that leg's PRACK;
   * when that leg has ended, the pending requests of `s` are answered with
   * 481 instead.
   */
  method PrackOnNext(ctx: SessionContext, ev: Event, s: Handler, st: State, net: Net) returns (step: Step)
    requires Inv(ctx) && ctx.Has(s) && ev.RequestEvent?
    modifies s`pendingReliableResponse, s`lastPrackServerTransaction, s`lastIncomingPrackRequest
    modifies s`lastInfoServerTransaction, s`lastIncomingInfoRequest, net`log
    ensures Inv(ctx) && old(net.log) <= net.log
    ensures !s.pendingReliableResponse
    ensures old(s.next) == null ==>
      step == Raise(RuntimeFault) && net.log == old(net.log)
      && s.lastPrackServerTransaction == ev.stx && s.lastIncomingPrackRequest == Some(ev.req)
    ensures old(s.next) != null && old(s.next.handlerState) != TERMINATED ==>
      var link := DialogLink(old(s.next.outgoingDialog));
      && s.lastPrackServerTransaction == ev.stx && s.lastIncomingPrackRequest == Some(ev.req)
      && net.log == old(net.log) + Accepted(net.broken, link, Req(PRACK))
      && step == Then(RequestFault(Outcome(net.broken, link)), st)
    ensures old(s.next) != null && old(s.next.handlerState) == TERMINATED ==>
      && (step.Next? ==> step == Next(st))
      && (step.Next? ==> Refused(s, ev.stx, old(s.lastIncomingInfoRequest), old(s.lastInfoServerTransaction), net))
  {
    ctx.Around(s);
    KeepPrack(ctx, s, ev.stx, ev.req);
    var n := s.next;
    if n == null {
      return Raise(RuntimeFault);
    }
    var err;
    if n.handlerState == TERMINATED {
      err := RefusePrack(ctx, s, net);
    } else {
      err := n.ProcessOutgoingPrack(net);
    }
    step := Then(err, st);
  }

  /** The PRACK from `s` frees `s` for the next reliable response, and its transaction and request are kept on `s`. */
  method KeepPrack(ctx: SessionContext, s: Handler, stx: Option<TxId>, req: Request)
    requires Inv(ctx)
    modifies s`pendingReliableResponse, s`lastPrackServerTransaction, s`lastIncomingPrackRequest
    ensures Inv(ctx)
    ensures !s.pendingReliableResponse && s.lastPrackServerTransaction == stx && s.lastIncomingPrackRequest == Some(req)
  {
    s.pendingReliableResponse := false;
    s.lastPrackServerTransaction := stx;
    s.lastIncomingPrackRequest := Some(req);
  }

  /**
   * The PRACK `s` sent on `stx` was answered with 481, unless the stack
   * refused that answer or the one to a pending INFO before it.
   */
  ghost predicate Refused(s: Handler, stx: Option<TxId>, info: Option<Request>, infoTx: Option<TxId>, net: Net)
    reads s, net
  {
    var link := ServerTxLink(stx);
    Outcome(net.broken, link) == Sent && (info.None? || Outcome(net.broken, ServerTxLink(infoTx)) == Sent) ==>
      |net.log| > 0 && Last(net.log) == Packet(link, Resp(CALL_OR_TRANSACTION_DOES_NOT_EXIST, ""))
      && s.lastIncomingPrackRequest.None?
  }

  /** A PRACK towards a leg that has ended: the pending requests of `s`, the PRACK among them, get 481. */
  method RefusePrack(ctx: SessionContext, s: Handler, net: Net) returns (err: Option<Fault>)
    requires Inv(ctx) && s.lastIncomingPrackRequest.Some?
    modifies s`lastInfoServerTransaction, s`lastIncomingInfoRequest, s`lastPrackServerTransaction
    modifies s`lastIncomingPrackRequest, net`log
    ensures Inv(ctx) && old(net.log) <= net.log
    ensures err.Some? ==> err == Some(RuntimeFault)
    ensures err.None? ==>
      Refused(s, old(s.lastPrackServerTransaction), old(s.lastIncomingInfoRequest), old(s.lastInfoServerTransaction), net)
  {
    err := s.RespondToPendingRequests(net);
  }

  /**
   * `handleInvite`: an INVITE from the current handler (an AS starting a
   * new call leg) goes on to the leg after it.
   */
  method HandleInvite(ctx: SessionContext, req: Request, net: Net) returns (step: Step)
    requires Inv(ctx)
    modifies ctx, ctx.handlers, ctx.ruleset.applications, net, net.sequence
    ensures Inv(ctx) && old(net.log) <= net.log && old(ctx.handlers) <= ctx.handlers
    ensures forall x :: x in ctx.handlers && x !in old(ctx.handlers) ==> fresh(x)
    ensures step.Next? ==> step.state == Chaining || step.state == NEW_WAITING
    ensures old(ctx.currentHandler) == null ==> step == Raise(RuntimeFault)
    ensures old(ctx.currentHandler) != null && old(ctx.currentHandler.next) != null ==>
      var nx := old(ctx.currentHandler.next);
      InviteAccepted(net, nx, req) ==>
        && ctx.currentHandler == nx && nx.handlerState == INVITED && nx.outgoingDialog.Some?
        && ctx.pendingDialogs == old(ctx.pendingDialogs) + {nx.outgoingDialog.value}
        && step == Next(if nx.IsImScf() then NEW_WAITING else Chaining)
  {
    var cur := ctx.currentHandler;
    if cur == null {
      return Raise(RuntimeFault);
    }
    ctx.Around(cur);
    step := ContinueSetup(ctx, Some(req), cur.next, |ctx.handlers|, net);
  }

  // ---------------------------------------------------------------------
  // Responses and timeouts
  // ---------------------------------------------------------------------

  /** How `handleResponse` treats a response from a leg, in the order the tests are made. */
  datatype Reaction =
    | Ignore       // the answer to a CANCEL, or a leg already TERMINATED
    | Postpone     // a leg marked SET_TO_CANCEL: `postponedCancel`
    | Answer       // 200 OK: `processResponseOK`
    | Progress     // 183 Session Progress: `processResponseSessionProgress`
    | StopBack     // a Reason header: the previous leg takes the call back, whatever the policy
    | ByPolicy     // an error response: STOP or SKIP as the ruleset says
    | PassBack     // another provisional response, passed back
    | Trying       // only 100 Trying is left

  /**
   * The reaction to `resp` from a leg in state `s`. An error response that
   * is not ignored or postponed always ends the leg, and only a response
   * below 300 leaves it in the chain.
   */
  function ChainingReaction(resp: Response, s: HandlerState): (re: Reaction)
    ensures resp.status >= MULTIPLE_CHOICES && re != Ignore && re != Postpone ==> re == StopBack || re == ByPolicy
    ensures re == Progress || re == PassBack || re == Trying ==> resp.status < MULTIPLE_CHOICES
    ensures re == Ignore <==> resp.cseqMethod == CANCEL || (s == TERMINATED)
    ensures re == Postpone <==> resp.cseqMethod != CANCEL && s == SET_TO_CANCEL
  {
    if resp.cseqMethod == CANCEL then Ignore
    else if s == SET_TO_CANCEL then Postpone
    else if s == TERMINATED then Ignore
    else if resp.status == OK then Answer
    else if resp.status == SESSION_PROGRESS then Progress
    else if HeaderValue(resp.headers, REASON).Some? then StopBack
    else if resp.status >= MULTIPLE_CHOICES then ByPolicy
    else if TRYING < resp.status < OK then PassBack
    else Trying
  }

  /**
   * `handleResponse`: the responding leg `r` is found from the client
   * transaction, and `ChainingReaction` decides. An ignored response changes
   * nothing; a postponed one releases `r` as `postponedCancel` says; 100
   * Trying makes `r` PROVISIONAL; the rest is up to `ProcessResponseOK`,
   * `ProcessSessionProgress`, `EndLeg` and `PassProvisional`.
   */
  method HandleResponse(ctx: SessionContext, ev: Event, net: Net) returns (step: Step)
    requires Inv(ctx) && ev.ResponseEvent?
    modifies ctx, ctx.handlers, ctx.ruleset.applications, net, net.sequence
    ensures Inv(ctx) && old(net.log) <= net.log && old(ctx.handlers) <= ctx.handlers
    ensures forall x :: x in ctx.handlers && x !in old(ctx.handlers) ==> fresh(x)
    ensures step.Next? ==> step.state == Chaining || step.state == NEW_WAITING
    ensures old(HandlerOf(ctx, ev.app)).None? ==> step == Raise(RuntimeFault) && net.log == old(net.log)
    ensures old(HandlerOf(ctx, ev.app)).Some? ==>
      var r := old(HandlerOf(ctx, ev.app)).value;
      var re := old(ChainingReaction(ev.resp, r.handlerState));
      && (re == Ignore ==> step == Next(Chaining) && net.log == old(net.log) && r.handlerState == old(r.handlerState))
      && (re == Postpone && ev.resp.status < OK ==>
            var link := ClientTxLink(old(r.lastClientTransaction));
            && net.log == old(net.log) + Accepted(net.broken, link, Req(CANCEL))
            && step == Then(RequestFault(Outcome(net.broken, link)), Chaining))
      && (re == Trying ==> step == Next(Chaining) && net.log == old(net.log) && r.handlerState == PROVISIONAL)
      && (re != Trying && re != ByPolicy && step.Next? ==> step == Next(Chaining))
  {
    var w := HandlerOf(ctx, ev.app);
    if w.None? {
      return Raise(RuntimeFault);
    }
    var r := w.value;
    ctx.Listed(r);
    match ChainingReaction(ev.resp, r.handlerState)
    case Ignore =>
      step := Next(Chaining);
    case Postpone =>
      step := PostponedCancel(ctx, ev.resp.status, r, Chaining, net);
    case Answer =>
      step := ProcessResponseOK(ctx, ev, r, net);
    case Progress =>
      Mark(ctx, r, PROVISIONAL);
      step := ProcessSessionProgress(ctx, ev.resp, r, net);
    case StopBack =>
      step := EndLeg(ctx, ev.resp, r, net);
    case ByPolicy =>
      step := EndLeg(ctx, ev.resp, r, net);
    case PassBack =>
      step := PassProvisional(ctx, ev.resp, r, net);
    case Trying =>
      Mark(ctx, r, PROVISIONAL);
      step := Next(Chaining);
  }

  /**
   * An error response or one with a Reason header ends `r`'s leg: `r` is
   * TERMINATED. With a Reason header, or under STOP, the leg before `r`
   * takes the call back and gets the response; otherwise the error logic
   * decides between passing the response back and skipping `r`.
   */
  method EndLeg(ctx: SessionContext, resp: Response, r: Handler, net: Net) returns (step: Step)
    requires Inv(ctx) && ctx.Has(r)
    modifies ctx, ctx.handlers, ctx.ruleset.applications, net, net.sequence
    ensures Inv(ctx) && old(net.log) <= net.log && old(ctx.handlers) <= ctx.handlers
    ensures forall x :: x in ctx.handlers && x !in old(ctx.handlers) ==> fresh(x)
    ensures step.Next? ==> step.state == Chaining || step.state == NEW_WAITING
    ensures HeaderValue(resp.headers, REASON).Some? || old(ctx.ruleset.GetResponseHandling(resp.status)) == STOP ==>
      var p := old(r.prev);
      && ctx.currentHandler == p
      && (p == null ==> step == Raise(RuntimeFault))
      && (p != null ==> RolledBack(ctx, p, old(ctx.handlers)))
      && (step.Next? ==> step == Next(Chaining))
      && (p != null && step.Next? ==> Delivered(p, Relay(resp), old(p.lastIncomingRequest), old(p.lastServerTransaction), net.log))
    ensures HeaderValue(resp.headers, REASON).Some? ==> r.handlerState == TERMINATED
    ensures HeaderValue(resp.headers, REASON).None? && old(ctx.ruleset.GetResponseHandling(resp.status)) == SKIP
            && old(SkipNotPossible(r)) == Some(false) && old(ctx.Chained()) && r in old(ctx.chain) ==>
      ctx.Chained() && r !in ctx.chain
  {
    if HeaderValue(resp.headers, REASON).Some? {
      step := StopLeg(ctx, resp, r, net);
    } else {
      Mark(ctx, r, TERMINATED);
      step := ApplyErrorLogic(ctx, r, resp.status, Relay(resp), |ctx.handlers|, net);
    }
  }

  /** The unconditional STOP of a response with a Reason header: `r` is TERMINATED and the leg before takes the call back. */
  method StopLeg(ctx: SessionContext, resp: Response, r: Handler, net: Net) returns (step: Step)
    requires Inv(ctx) && ctx.Has(r)
    modifies ctx`currentHandler, ctx`handlers, ctx`imScfHandlerB, ctx`chain, ctx.handlers`next
    modifies r`handlerState, ctx.handlers`lastServerTransaction, ctx.handlers`lastIncomingRequest
    modifies ctx.handlers`lastInfoServerTransaction, ctx.handlers`lastIncomingInfoRequest
    modifies ctx.handlers`lastPrackServerTransaction, ctx.handlers`lastIncomingPrackRequest
    modifies ctx.ruleset.applications`lastEndpointIndex, net`log
    ensures Inv(ctx) && old(net.log) <= net.log && old(ctx.handlers) <= ctx.handlers
    ensures forall x :: x in ctx.handlers && x !in old(ctx.handlers) ==> fresh(x)
    ensures r.handlerState == TERMINATED
    ensures var p := old(r.prev);
      && ctx.currentHandler == p
      && (p == null ==> step == Raise(RuntimeFault))
      && (p != null ==> RolledBack(ctx, p, old(ctx.handlers)))
      && (step.Next? ==> step == Next(Chaining))
      && (p != null && step.Next? ==> Delivered(p, Relay(resp), old(p.lastIncomingRequest), old(p.lastServerTransaction), net.log))
  {
    ctx.Around(r);
    var p := r.prev;
    Mark(ctx, r, TERMINATED);
    var err := ForwardBack(ctx, p, resp, net);
    step := Then(err, Chaining);
  }

  /** A provisional response other than 100 and 183: `r` is PROVISIONAL and the response goes back to the leg before it. */
  method PassProvisional(ctx: SessionContext, resp: Response, r: Handler, net: Net) returns (step: Step)
    requires Inv(ctx) && ctx.Has(r)
    modifies r`handlerState, net`log, ctx.handlers`lastServerTransaction, ctx.handlers`lastIncomingRequest
    modifies ctx.handlers`lastInfoServerTransaction, ctx.handlers`lastIncomingInfoRequest
    modifies ctx.handlers`lastPrackServerTransaction, ctx.handlers`lastIncomingPrackRequest
    ensures Inv(ctx) && old(net.log) <= net.log && r.handlerState == PROVISIONAL
    ensures step.Next? ==> step == Next(Chaining)
    ensures old(r.prev) == null ==> step == Raise(RuntimeFault) && net.log == old(net.log)
    ensures old(r.prev) != null && step.Next? ==>
      var p := old(r.prev);
      Delivered(p, Relay(resp), old(p.lastIncomingRequest), old(p.lastServerTransaction), net.log)
  {
    ctx.Around(r);
    var p := r.prev;
    Mark(ctx, r, PROVISIONAL);
    if p == null {
      return Raise(RuntimeFault);
    }
    var err := ReplyBack(ctx, p, Relay(resp), net);
    step := Then(err, Chaining);
  }

  /**
   * `processResponseOK`, by the method the 200 answers: an INVITE's answer
   * makes `r` ANSWERED and goes back to the leg before it; an INFO's is
   * relayed by `processInfoResponse`; a BYE's and a PRACK's are left to
   * `ByeAnswered` and `PrackAnswered`; a CANCEL's needs nothing.
   */
  method ProcessResponseOK(ctx: SessionContext, ev: Event, r: Handler, net: Net) returns (step: Step)
    requires Inv(ctx) && ctx.Has(r) && ev.ResponseEvent? && HandlerOf(ctx, ev.app) == Some(r)
    modifies ctx`reliableResponseProcessing, ctx.handlers`handlerState, ctx.handlers`specialInfoSender, net`log
    modifies ctx.handlers`lastServerTransaction, ctx.handlers`lastIncomingRequest
    modifies ctx.handlers`lastInfoServerTransaction, ctx.handlers`lastIncomingInfoRequest
    modifies ctx.handlers`lastPrackServerTransaction, ctx.handlers`lastIncomingPrackRequest
    ensures Inv(ctx) && old(net.log) <= net.log
    ensures step.Next? ==> step == Next(Chaining)
    ensures ev.resp.cseqMethod == INVITE ==>
      var p := old(r.prev);
      && r.handlerState == ANSWERED
      && (p == null ==> step == Raise(RuntimeFault) && net.log == old(net.log))
      && (p != null && step.Next? ==> Delivered(p, Relay(ev.resp), old(p.lastIncomingRequest), old(p.lastServerTransaction), net.log))
    ensures ev.resp.cseqMethod == INFO ==>
      var t := old(InfoAnswerTarget(r, ev.dialog));
      && (t == null ==> step == Raise(RuntimeFault) && net.log == old(net.log))
      && (t != null ==>
            var link := ServerTxLink(old(t.lastInfoServerTransaction));
            && net.log == old(net.log) + Accepted(net.broken, link, Resp(ev.resp.status, ""))
            && step == Then(ResponseFault(Outcome(net.broken, link)), Chaining))
    ensures ev.resp.cseqMethod == CANCEL ==> step == Next(Chaining) && net.log == old(net.log)
  {
    ctx.Around(r);
    match ev.resp.cseqMethod
    case INVITE =>
      var p := r.prev;
      Mark(ctx, r, ANSWERED);
      if p == null {
        return Raise(RuntimeFault);
      }
      var err := ReplyBack(ctx, p, Relay(ev.resp), net);
      step := Then(err, Chaining);
    case INFO =>
      var err := ProcessInfoResponse(ctx, ev, net);
      step := Then(err, Chaining);
    case BYE =>
      step := ByeAnswered(ctx, ev, r, Chaining, net);
    case CANCEL =>
      step := Next(Chaining);
    case _ =>
      step := PrackAnswered(ctx, ev.resp, r, net);
  }

  /**
   * The 200 to a BYE that followed a CANCEL. On `r`'s outgoing dialog it
   * comes from the callee side: `r` is TERMINATED, and the answer goes back
   * to the leg before `r` only when that leg is TERMINATING (it sent the
   * BYE). On the other dialog it goes forward to the leg after `r`. The
   * session stays in `st`; WaitingForImScfState shares this.
   */
  method ByeAnswered(ctx: SessionContext, ev: Event, r: Handler, st: State, net: Net) returns (step: Step)
    requires Inv(ctx) && ctx.Has(r) && ev.ResponseEvent?
    modifies r`handlerState, net`log, ctx.handlers`lastServerTransaction, ctx.handlers`lastIncomingRequest
    modifies ctx.handlers`lastInfoServerTransaction, ctx.handlers`lastIncomingInfoRequest
    modifies ctx.handlers`lastPrackServerTransaction, ctx.handlers`lastIncomingPrackRequest
    ensures Inv(ctx) && old(net.log) <= net.log
    ensures step.Next? ==> step == Next(st)
    ensures ev.dialog == old(r.outgoingDialog) ==>
      var p := old(r.prev);
      && r.handlerState == TERMINATED
      && (p == null ==> step == Raise(RuntimeFault) && net.log == old(net.log))
      && (p != null && p.handlerState != TERMINATING ==> step == Next(st) && net.log == old(net.log))
      && (p != null && p.handlerState == TERMINATING && step.Next? ==>
            Delivered(p, Relay(ev.resp), old(p.lastIncomingRequest), old(p.lastServerTransaction), net.log))
    ensures ev.dialog != old(r.outgoingDialog) ==>
      var n := old(r.next);
      && r.handlerState == old(r.handlerState)
      && (n == null ==> step == Raise(RuntimeFault) && net.log == old(net.log))
      && (n != null && step.Next? ==>
            Delivered(n, Relay(ev.resp), old(n.lastIncomingRequest), old(n.lastServerTransaction), net.log))
  {
    ctx.Around(r);
    if ev.dialog == r.outgoingDialog {
      var p := r.prev;
      Mark(ctx, r, TERMINATED);
      if p == null {
        return Raise(RuntimeFault);
      }
      if p.handlerState != TERMINATING {
        return Next(st);
      }
      var err := ReplyBack(ctx, p, Relay(ev.resp), net);
      step := Then(err, st);
    } else {
      var n := r.next;
      if n == null {
        return Raise(RuntimeFault);
      }
      var err := ReplyBack(ctx, n, Relay(ev.resp), net);
      step := Then(err, st);
    }
  }

  /**
   * The 200 to a PRACK goes back to the leg before `r`. While a reliable
   * 183 is being relayed it always does, and reaching the IM-SCF A leg ends
   * the relay; otherwise it does only if that leg is not
   * SESSION_PROGRESS_CONFIRMED yet, and then makes it so, which keeps every
   * later 183 of the chain from being confirmed through it again. Failing
   * both, it is dropped.
   */
  method PrackAnswered(ctx: SessionContext, resp: Response, r: Handler, net: Net) returns (step: Step)
    requires Inv(ctx) && ctx.Has(r)
    modifies ctx`reliableResponseProcessing, ctx.handlers`handlerState, net`log
    modifies ctx.handlers`lastPrackServerTransaction, ctx.handlers`lastIncomingPrackRequest
    ensures Inv(ctx)
    ensures step.Next? ==> step == Next(Chaining)
    ensures old(r.prev) == null ==> step == Raise(RuntimeFault) && net.log == old(net.log)
    ensures old(r.prev) != null ==>
      var p := old(r.prev);
      var link := ServerTxLink(old(p.lastPrackServerTransaction));
      var passed := old(ctx.reliableResponseProcessing) || old(p.handlerState) != SESSION_PROGRESS_CONFIRMED;
      && (passed ==> net.log == old(net.log) + Accepted(net.broken, link, Resp(resp.status, ""))
                     && step == Then(ResponseFault(Outcome(net.broken, link)), Chaining))
      && (!passed ==> step == Next(Chaining) && net.log == old(net.log))
      && (old(ctx.reliableResponseProcessing) ==>
            ctx.reliableResponseProcessing == !(step.Next? && p.IsImScf()) && p.handlerState == old(p.handlerState))
      && (!old(ctx.reliableResponseProcessing) ==> !ctx.reliableResponseProcessing)
      && (!old(ctx.reliableResponseProcessing) && passed && step.Next? ==> p.handlerState == SESSION_PROGRESS_CONFIRMED)
  {
    ctx.Around(r);
    var p := r.prev;
    if p == null {
      return Raise(RuntimeFault);
    }
    if ctx.reliableResponseProcessing {
      var err := PassPrackResponse(ctx, p, resp, net);
      if err.Some? {
        return Raise(err.value);
      }
      if p.IsImScf() {
        SetReliableProcessing(ctx, false);
      }
      return Next(Chaining);
    }
    if p.handlerState != SESSION_PROGRESS_CONFIRMED {
      var err := PassPrackResponse(ctx, p, resp, net);
      if err.Some? {
        return Raise(err.value);
      }
      Mark(ctx, p, SESSION_PROGRESS_CONFIRMED);
    }
    step := Next(Chaining);
  }

  /**
   * `processResponseSessionProgress`, for a 183 from `r` (already
   * PROVISIONAL): a regular 183 as `RegularProgress` says, one by which an
   * AS takes the session over as `TakeOverProgress` says. An unreliable 183
   * simply goes back to the leg before `r`.
   */
  method ProcessSessionProgress(ctx: SessionContext, resp: Response, r: Handler, net: Net) returns (step: Step)
    requires Inv(ctx) && ctx.Has(r)
    modifies ctx`reliableResponseProcessing, r`handlerState, r`lastSessionProgressResponse, net`log
    modifies ctx.handlers`pendingReliableResponse, ctx.handlers`lastServerTransaction, ctx.handlers`lastIncomingRequest
    modifies ctx.handlers`lastInfoServerTransaction, ctx.handlers`lastIncomingInfoRequest
    modifies ctx.handlers`lastPrackServerTransaction, ctx.handlers`lastIncomingPrackRequest
    ensures Inv(ctx) && old(net.log) <= net.log
    ensures step.Next? ==> step == Next(Chaining)
    ensures old(r.prev) == null ==> step == Raise(RuntimeFault) && net.log == old(net.log)
    ensures old(r.prev) != null && !IsReliable(resp) && step.Next? ==>
      var p := old(r.prev);
      Delivered(p, Relay(resp), old(p.lastIncomingRequest), old(p.lastServerTransaction), net.log)
    ensures IsRegular(resp) && old(r.prev) != null && IsReliable(resp) ==>
      var p := old(r.prev);
      && (!old(p.pendingReliableResponse) ==>
            net.log == old(net.log) + Accepted(net.broken, DialogLink(p.incomingDialog), Resp(resp.status, "")))
      && (old(p.pendingReliableResponse) ==> net.log == old(net.log))
      && (step.Next? ==> ctx.reliableResponseProcessing && r.lastSessionProgressResponse == Some(resp))
    ensures !IsRegular(resp) && IsReliable(resp) ==>
      r.handlerState == SESSION_PROGRESS_REPORTED && r.lastSessionProgressResponse == Some(resp)
    ensures !IsRegular(resp) && old(r.prev) != null && IsReliable(resp) ==>
      var p := old(r.prev);
      && (p.handlerState == SESSION_PROGRESS_CONFIRMED ==>
            var link := DialogLink(old(r.outgoingDialog));
            && net.log == old(net.log) + Accepted(net.broken, link, Req(PRACK))
            && step == Then(RequestFault(Outcome(net.broken, link)), Chaining))
      && (p.handlerState != SESSION_PROGRESS_CONFIRMED && !old(p.pendingReliableResponse) ==>
            net.log == old(net.log) + Accepted(net.broken, DialogLink(p.incomingDialog), Resp(resp.status, "")))
  {
    if !IsReliable(resp) {
      ctx.Around(r);
      var p := r.prev;
      if p == null {
        return Raise(RuntimeFault);
      }
      var err := ReplyBack(ctx, p, Relay(resp), net);
      step := Then(err, Chaining);
    } else if IsRegular(resp) {
      step := RegularProgress(ctx, resp, r, net);
    } else {
      step := TakeOverProgress(ctx, resp, r, net);
    }
  }

  /**
   * A regular reliable 183 goes back to the leg before `r` through
   * `forwardReliableProvisionalResponse`; once it went out, the reliable
   * relay is on and `r` remembers the 183.
   */
  method RegularProgress(ctx: SessionContext, resp: Response, r: Handler, net: Net) returns (step: Step)
    requires Inv(ctx) && ctx.Has(r)
    modifies ctx`reliableResponseProcessing, r`lastSessionProgressResponse, net`log, ctx.handlers`pendingReliableResponse
    ensures Inv(ctx) && old(net.log) <= net.log
    ensures step.Next? ==> step == Next(Chaining)
    ensures old(r.prev) == null ==> step == Raise(RuntimeFault) && net.log == old(net.log)
    ensures old(r.prev) != null ==>
      var p := old(r.prev);
      && (!old(p.pendingReliableResponse) ==>
            net.log == old(net.log) + Accepted(net.broken, DialogLink(p.incomingDialog), Resp(resp.status, "")))
      && (old(p.pendingReliableResponse) ==> net.log == old(net.log))
      && (step.Next? ==> ctx.reliableResponseProcessing && r.lastSessionProgressResponse == Some(resp))
  {
    ctx.Around(r);
    var p := r.prev;
    if p == null {
      return Raise(RuntimeFault);
    }
    var err := PassReliable(ctx, p, resp, net);
    if err.Some? {
      return Raise(err.value);
    }
    SetReliableProcessing(ctx, true);
    KeepProgress(ctx, r, resp);
    step := Next(Chaining);
  }

  /**
   * A reliable 183 by which an AS takes the session over makes `r`
   * SESSION_PROGRESS_REPORTED and is remembered; it is acknowledged right
   * away with a PRACK to `r` when the leg before has already confirmed a
   * 183, and otherwise goes back to that leg.
   */
  method TakeOverProgress(ctx: SessionContext, resp: Response, r: Handler, net: Net) returns (step: Step)
    requires Inv(ctx) && ctx.Has(r)
    modifies r`handlerState, r`lastSessionProgressResponse, net`log, ctx.handlers`pendingReliableResponse
    ensures Inv(ctx) && old(net.log) <= net.log
    ensures step.Next? ==> step == Next(Chaining)
    ensures old(r.prev) == null ==> step == Raise(RuntimeFault) && net.log == old(net.log)
    ensures r.handlerState == SESSION_PROGRESS_REPORTED && r.lastSessionProgressResponse == Some(resp)
    ensures old(r.prev) != null ==>
      var p := old(r.prev);
      && (p.handlerState == SESSION_PROGRESS_CONFIRMED ==>
            var link := DialogLink(old(r.outgoingDialog));
            && net.log == old(net.log) + Accepted(net.broken, link, Req(PRACK))
            && step == Then(RequestFault(Outcome(net.broken, link)), Chaining))
      && (p.handlerState != SESSION_PROGRESS_CONFIRMED && !old(p.pendingReliableResponse) ==>
            net.log == old(net.log) + Accepted(net.broken, DialogLink(p.incomingDialog), Resp(resp.status, "")))
  {
    ctx.Around(r);
    var p := r.prev;
    Mark(ctx, r, SESSION_PROGRESS_REPORTED);
    KeepProgress(ctx, r, resp);
    if p == null {
      return Raise(RuntimeFault);
    }
    var err;
    if p.handlerState == SESSION_PROGRESS_CONFIRMED {
      err := r.ProcessOutgoingPrack(net);
    } else {
      err := PassReliable(ctx, p, resp, net);
    }
    step := Then(err, Chaining);
  }

  /**
   * `processTimeout`: a server transaction timing out is a SendResponseError,
   * a client transaction other than an INVITE's an UnexpectedSipMessageError.
   * A timed-out INVITE's dialog is no longer pending; when it was the last
   * one the session is gone from the registry and nothing else happens,
   * otherwise the timeout counts as a 408 from the invited leg and the
   * error logic for 408 applies.
   */
  method ProcessTimeout<S>(ctx: SessionContext, ev: Event, net: Net, reg: SessionManager<S>) returns (step: Step)
    requires Inv(ctx) && ev.TimeoutEvent?
    modifies ctx, ctx.handlers, ctx.ruleset.applications, net, net.sequence, reg
    ensures Inv(ctx) && old(net.log) <= net.log
    ensures forall x :: x in ctx.handlers && x !in old(ctx.handlers) ==> fresh(x)
    ensures step.Next? ==> step.state == Chaining || step.state == NEW_WAITING
    ensures ev.isServer ==> step == Raise(SendResponseError) && net.log == old(net.log)
    ensures !ev.isServer && ev.meth != INVITE ==> step == Raise(UnexpectedSipMessageError) && net.log == old(net.log)
    ensures !ev.isServer && ev.meth == INVITE && (old(HandlerOf(ctx, ev.app)).None? || ev.dialog.None?) ==>
      step == Raise(RuntimeFault) && net.log == old(net.log)
    ensures !ev.isServer && ev.meth == INVITE && old(HandlerOf(ctx, ev.app)).Some? && ev.dialog.Some? ==>
      var d := ev.dialog.value;
      var r := old(HandlerOf(ctx, ev.app)).value;
      && (old(ctx.pendingDialogs) == {d} ==>
            && step == Next(Chaining) && net.log == old(net.log) && ctx.pendingDialogs == {}
            && reg.sessions == old(reg.sessions) - {ctx.key})
      && (old(ctx.pendingDialogs) != {d} ==>
            && reg.sessions == old(reg.sessions)
            && (old(ctx.ruleset.GetResponseHandling(REQUEST_TIMEOUT)) == STOP ==>
                  var p := old(r.prev);
                  && ctx.currentHandler == p
                  && (p == null ==> step == Raise(RuntimeFault))
                  && (p != null && step.Next? ==>
                        step == Next(Chaining)
                        && Delivered(p, NewResponse(REQUEST_TIMEOUT), old(p.lastIncomingRequest),
                                     old(p.lastServerTransaction), net.log))))
  {
    if ev.isServer {
      return Raise(SendResponseError);
    }
    if ev.meth != INVITE {
      return Raise(UnexpectedSipMessageError);
    }
    var w := HandlerOf(ctx, ev.app);
    if w.None? || ev.dialog.None? {
      return Raise(RuntimeFault);
    }
    var r := w.value;
    ctx.Listed(r);
    var last := CheckAndRemoveSession(ctx, ev.dialog.value, reg);
    if last {
      return Next(Chaining);
    }
    step := ApplyErrorLogic(ctx, r, REQUEST_TIMEOUT, NewResponse(REQUEST_TIMEOUT), |ctx.handlers|, net);
  }
}

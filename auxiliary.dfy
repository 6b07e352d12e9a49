/**
 * `AuxiliarySession`: a plain back-to-back relay for an INVITE an AS marks as
 * not to be orchestrated (`x-mrf` or `x-ica`). The INVITE is passed on to the
 * IM-SCF; afterwards every request and response is relayed to the other side
 * of the dialog pair, with one pending server transaction per kind of request
 * (INVITE/BYE, INFO, PRACK). The session is unmapped once both its dialogs
 * have ended.
 */
module Auxiliary {
  import opened Wrappers
  import opened Sip
  import opened Stack
  import opened Registry
  import opened Handlers
  import MessageUtils

  const TAG_100_REL := "100rel"
  const REQUIRE := "Require"

  /** The branch of the topmost Via, the key of a transaction (RFC 3261 section 17.2.3). */
  function TopBranch(r: Request): Option<string>
  {
    if |r.vias| == 0 then None else Some(r.vias[0].branch)
  }

  /**
   * `checkRetransmission`: a request repeats the one stored for its kind when
   * there is a stored one and both carry the same topmost Via branch.
   */
  function IsRetransmission(previous: Option<Request>, incoming: Request): (r: bool)
    ensures previous.None? ==> !r
    ensures previous.Some? && |previous.value.vias| > 0 && |incoming.vias| > 0 ==>
      (r <==> previous.value.vias[0].branch == incoming.vias[0].branch)
  {
    previous.Some? && TopBranch(previous.value) == TopBranch(incoming)
  }

  /** The three kinds of pending request, chosen by the CSeq method of a response. */
  datatype SlotKind = InfoSlot | PrackSlot | DialogSlot

  function SlotFor(m: Method): (k: SlotKind)
    ensures k == InfoSlot <==> m == INFO
    ensures k == PrackSlot <==> m == PRACK
  {
    if m == INFO then InfoSlot else if m == PRACK then PrackSlot else DialogSlot
  }

  /**
   * `createForwardedResponse` fails with a NullPointerException when there
   * is no request to answer, or when the To tag must be taken from a dialog
   * that is not there.
   */
  predicate Unbuildable(req: Option<Request>, dialog: Option<DialogId>)
  {
    req.None? || (req.value.toTag.None? && dialog.None?)
  }

  /**
   * The Route set of the INVITE towards the IM-SCF: the incoming routes without
   * the first one (the broker's own), or the default IM-SCF route if none is left.
   */
  method ImScfRoutes(incoming: seq<Route>, defaultRoute: Route) returns (routes: seq<Route>)
    ensures |incoming| > 1 ==> routes == incoming[1..]
    ensures |incoming| <= 1 ==> routes == [defaultRoute]
    ensures routes == OutgoingRoutes(ImScf(""), incoming, defaultRoute)
  {
    var rest := if |incoming| > 0 then incoming[1..] else [];
    routes := [];
    var i := 0;
    while i < |rest|
      invariant 0 <= i <= |rest|
      invariant routes == rest[..i]
    {
      routes := routes + [rest[i]];
      i := i + 1;
    }
    assert routes == rest;
    if |routes| == 0 {
      routes := [defaultRoute];
    }
  }

  class AuxiliarySession {
    const sessionId: string
    var lastIncomingRequest: Option<Request>
    var lastOutgoingInvite: Option<Request>
    var infoRequest: Option<Request>
    var prackRequest: Option<Request>
    var lastServerTransaction: Option<TxId>
    var infoServerTransaction: Option<TxId>
    var prackServerTransaction: Option<TxId>
    var lastSessionProgressResponse: Option<Response>
    /** The dialog with the AS that sent the INVITE, and the one with the IM-SCF. */
    var incomingDialog: Option<DialogId>
    var outgoingDialog: Option<DialogId>

    /** The session for the INVITE with Call-ID `callId`; nothing is pending yet. */
    constructor (callId: string)
      ensures sessionId == callId
      ensures lastIncomingRequest.None? && lastOutgoingInvite.None? && infoRequest.None? && prackRequest.None?
      ensures lastServerTransaction.None? && infoServerTransaction.None? && prackServerTransaction.None?
      ensures lastSessionProgressResponse.None? && incomingDialog.None? && outgoingDialog.None?
    {
      sessionId := callId;
      lastIncomingRequest := None;
      lastOutgoingInvite := None;
      infoRequest := None;
      prackRequest := None;
      lastServerTransaction := None;
      infoServerTransaction := None;
      prackServerTransaction := None;
      lastSessionProgressResponse := None;
      incomingDialog := None;
      outgoingDialog := None;
    }

    /** The pending request of a kind and its server transaction. */
    function Slot(k: SlotKind): (Option<Request>, Option<TxId>)
      reads this`infoRequest, this`infoServerTransaction, this`prackRequest, this`prackServerTransaction
      reads this`lastIncomingRequest, this`lastServerTransaction
    {
      match k
      case InfoSlot => (infoRequest, infoServerTransaction)
      case PrackSlot => (prackRequest, prackServerTransaction)
      case DialogSlot => (lastIncomingRequest, lastServerTransaction)
    }

    /**
     * The dialog a response is passed on with: one that came in on the AS
     * dialog goes to the IM-SCF dialog, any other to the AS dialog.
     */
    function ResponseTarget(arrivedOn: Option<DialogId>): (d: Option<DialogId>)
      reads this`incomingDialog, this`outgoingDialog
      ensures arrivedOn == incomingDialog ==> d == outgoingDialog
      ensures arrivedOn == outgoingDialog && outgoingDialog != incomingDialog ==> d == incomingDialog
      ensures d == incomingDialog || d == outgoingDialog
    {
      if incomingDialog == arrivedOn then outgoingDialog else incomingDialog
    }

    /**
     * The dialog a BYE or INFO is passed on with: one that came in on the
     * IM-SCF dialog goes to the AS dialog, any other to the IM-SCF dialog.
     */
    function RequestTarget(arrivedOn: Option<DialogId>): (d: Option<DialogId>)
      reads this`incomingDialog, this`outgoingDialog
      ensures arrivedOn == outgoingDialog ==> d == incomingDialog
      ensures arrivedOn == incomingDialog && outgoingDialog != incomingDialog ==> d == outgoingDialog
      ensures d == incomingDialog || d == outgoingDialog
    {
      if arrivedOn == outgoingDialog then incomingDialog else outgoingDialog
    }

    /** Empties the pending slot `k`; the other slots keep their requests. */
    method ClearSlot(k: SlotKind)
      modifies this`infoRequest, this`infoServerTransaction, this`prackRequest, this`prackServerTransaction
      modifies this`lastIncomingRequest, this`lastServerTransaction
      ensures Slot(k) == (None, None)
      ensures forall j :: j != k ==> Slot(j) == old(Slot(j))
    {
      match k {
        case InfoSlot =>
          infoRequest := None;
          infoServerTransaction := None;
        case PrackSlot =>
          prackRequest := None;
          prackServerTransaction := None;
        case DialogSlot =>
          lastIncomingRequest := None;
          lastServerTransaction := None;
      }
    }

    // ------------------------------------------------------------ dialog end

    /**
     * `checkDialogAndRemoveSession`: a dialog with the Call-ID of one of the
     * session's dialogs has ended, so that dialog is dropped. The session is
     * unmapped exactly when this leaves it without dialogs; a session that
     * had none already is left alone. `callIdOf` gives a dialog's Call-ID; an
     * ended dialog that is null is a NullPointerException once there is a
     * dialog to compare it with.
     */
    method CheckDialogAndRemoveSession<S>(ended: Option<DialogId>, callIdOf: DialogId -> string, reg: SessionManager<S>)
      returns (fault: Option<Fault>)
      modifies this`incomingDialog, this`outgoingDialog, reg
      ensures old(incomingDialog).None? && old(outgoingDialog).None? ==>
        fault.None? && unchanged(this`incomingDialog, this`outgoingDialog) && reg.sessions == old(reg.sessions)
      ensures (old(incomingDialog).Some? || old(outgoingDialog).Some?) && ended.None? ==>
        fault == Some(RuntimeFault) && unchanged(this`incomingDialog, this`outgoingDialog) && reg.sessions == old(reg.sessions)
      ensures (old(incomingDialog).Some? || old(outgoingDialog).Some?) && ended.Some? ==>
        && fault.None?
        && (incomingDialog.None? <==> old(incomingDialog).None? || callIdOf(old(incomingDialog).value) == callIdOf(ended.value))
        && (incomingDialog.Some? ==> incomingDialog == old(incomingDialog))
        && (outgoingDialog.None? <==> old(outgoingDialog).None? || callIdOf(old(outgoingDialog).value) == callIdOf(ended.value))
        && (outgoingDialog.Some? ==> outgoingDialog == old(outgoingDialog))
        && reg.sessions == if incomingDialog.None? && outgoingDialog.None? then old(reg.sessions) - {sessionId} else old(reg.sessions)
    {
      if outgoingDialog.None? && incomingDialog.None? {
        return None;
      }
      if ended.None? {
        return Some(RuntimeFault);
      }
      var c := callIdOf(ended.value);
      if incomingDialog.Some? && c == callIdOf(incomingDialog.value) {
        incomingDialog := None;
      }
      if outgoingDialog.Some? && c == callIdOf(outgoingDialog.value) {
        outgoingDialog := None;
      }
      if outgoingDialog.None? && incomingDialog.None? {
        reg.Remove(sessionId);
      }
      fault := None;
    }

    // ------------------------------------------------------------ responses

    /** Whether `respondToPendingRequestsOnDialogTerminatingResponse` gets through both pending requests. */
    ghost function PendingOutcome(broken: set<Link>): SendResult
      reads this`infoRequest, this`infoServerTransaction, this`prackRequest, this`prackServerTransaction
    {
      var info := if infoRequest.Some? then Outcome(broken, ServerTxLink(infoServerTransaction)) else Sent;
      if info != Sent then info
      else if prackRequest.Some? then Outcome(broken, ServerTxLink(prackServerTransaction))
      else Sent
    }

    /** The 481 answers it hands to the stack: the INFO one, then, if that went through, the PRACK one. */
    ghost function PendingAnswers(broken: set<Link>): seq<Packet>
      reads this`infoRequest, this`infoServerTransaction, this`prackRequest, this`prackServerTransaction
    {
      var info := if infoRequest.Some? then Outcome(broken, ServerTxLink(infoServerTransaction)) else Sent;
      (if infoRequest.Some? then Accepted(broken, ServerTxLink(infoServerTransaction), Resp(CALL_OR_TRANSACTION_DOES_NOT_EXIST, "")) else [])
      + (if info == Sent && prackRequest.Some? then
           Accepted(broken, ServerTxLink(prackServerTransaction), Resp(CALL_OR_TRANSACTION_DOES_NOT_EXIST, ""))
         else [])
    }

    /**
     * `respondToPendingRequestsOnDialogTerminatingResponse`: a pending INFO
     * and then a pending PRACK get 481, and each slot answered is emptied. A
     * failed send stops there, leaving its slot (and the PRACK one) as it was.
     */
    method RespondToPending(net: Net) returns (r: SendResult)
      modifies this`infoRequest, this`infoServerTransaction, this`prackRequest, this`prackServerTransaction, net`log
      ensures r == old(PendingOutcome(net.broken))
      ensures net.log == old(net.log) + old(PendingAnswers(net.broken))
      ensures old(infoRequest).Some? && old(Outcome(net.broken, ServerTxLink(infoServerTransaction))) == Sent ==>
        infoRequest.None? && infoServerTransaction.None?
      ensures !(old(infoRequest).Some? && old(Outcome(net.broken, ServerTxLink(infoServerTransaction))) == Sent) ==>
        unchanged(this`infoRequest, this`infoServerTransaction)
      ensures r == Sent && old(prackRequest).Some? ==> prackRequest.None? && prackServerTransaction.None?
      ensures !(r == Sent && old(prackRequest).Some?) ==> unchanged(this`prackRequest, this`prackServerTransaction)
      ensures r == Sent ==> infoRequest.None? && prackRequest.None?
    {
      if infoRequest.Some? {
        var s := net.Send(ServerTxLink(infoServerTransaction), Resp(CALL_OR_TRANSACTION_DOES_NOT_EXIST, ""));
        if s != Sent {
          return s;
        }
        infoServerTransaction := None;
        infoRequest := None;
      }
      if prackRequest.Some? {
        var s := net.Send(ServerTxLink(prackServerTransaction), Resp(CALL_OR_TRANSACTION_DOES_NOT_EXIST, ""));
        if s != Sent {
          return s;
        }
        prackServerTransaction := None;
        prackRequest := None;
      }
      r := Sent;
    }

    /**
     * `processResponseForward`: the response goes back on the server
     * transaction of the pending request its CSeq method names, built for
     * the dialog on the other side; a final response (200 or above) empties
     * that slot. With no server transaction pending nothing is sent. A
     * failed send is a SendResponseError.
     */
    method ProcessResponseForward(resp: Response, arrivedOn: Option<DialogId>, net: Net) returns (fault: Option<Fault>)
      modifies this`infoRequest, this`infoServerTransaction, this`prackRequest, this`prackServerTransaction
      modifies this`lastIncomingRequest, this`lastServerTransaction, net`log
      ensures var k := SlotFor(resp.cseqMethod);
        && (resp.status >= OK ==> Slot(k) == (None, None))
        && (resp.status < OK ==> Slot(k) == old(Slot(k)))
        && (forall j :: j != k ==> Slot(j) == old(Slot(j)))
      ensures var p := old(Slot(SlotFor(resp.cseqMethod)));
        && (p.1.None? ==> fault.None? && net.log == old(net.log))
        && (p.1.Some? && Unbuildable(p.0, old(ResponseTarget(arrivedOn))) ==>
              fault == Some(RuntimeFault) && net.log == old(net.log))
        && (p.1.Some? && !Unbuildable(p.0, old(ResponseTarget(arrivedOn))) ==>
              && net.log == old(net.log) + Accepted(net.broken, OnServerTx(p.1.value), Resp(resp.status, ""))
              && fault == ResponseFault(Outcome(net.broken, OnServerTx(p.1.value))))
    {
      var target := ResponseTarget(arrivedOn);
      var k := SlotFor(resp.cseqMethod);
      var p := Slot(k);
      if resp.status >= OK {
        ClearSlot(k);
      }
      if p.1.None? {
        return None;
      }
      if Unbuildable(p.0, target) {
        return Some(RuntimeFault);
      }
      var r := net.Send(OnServerTx(p.1.value), Resp(resp.status, ""));
      fault := ResponseFault(r);
    }

    /**
     * `processResponseSessionProgress`: a 183 that requires `100rel` is sent
     * on as a reliable provisional response on the AS dialog and kept for the
     * coming PRACK; any other 183 is forwarded as usual.
     */
    method ProcessSessionProgress(resp: Response, arrivedOn: Option<DialogId>, net: Net) returns (fault: Option<Fault>)
      modifies this`infoRequest, this`infoServerTransaction, this`prackRequest, this`prackServerTransaction
      modifies this`lastIncomingRequest, this`lastServerTransaction, this`lastSessionProgressResponse, net`log
      ensures HeaderValue(resp.headers, REQUIRE) == Some(TAG_100_REL) ==>
        var l := DialogLink(incomingDialog);
        && net.log == old(net.log) + Accepted(net.broken, l, Resp(resp.status, ""))
        && fault == ResponseFault(Outcome(net.broken, l))
        && lastSessionProgressResponse == (if fault.None? then Some(resp) else old(lastSessionProgressResponse))
        && forall k :: Slot(k) == old(Slot(k))
      ensures HeaderValue(resp.headers, REQUIRE) != Some(TAG_100_REL) ==>
        lastSessionProgressResponse == old(lastSessionProgressResponse)
      ensures old(net.log) <= net.log
      ensures fault.Some? ==> fault == Some(RuntimeFault) || fault == Some(SendResponseError)
    {
      if HeaderValue(resp.headers, REQUIRE) == Some(TAG_100_REL) {
        var r := net.Send(DialogLink(incomingDialog), Resp(resp.status, ""));
        fault := ResponseFault(r);
        if fault.None? {
          lastSessionProgressResponse := Some(resp);
        }
      } else {
        fault := ProcessResponseForward(resp, arrivedOn, net);
      }
    }

    /**
     * `handleResponse`: a 183 is session progress, a 100 is dropped, an error
     * (300 and above) first answers the pending INFO and PRACK with 481 (a
     * failed send there is only logged) and is then forwarded, like any other
     * response.
     */
    method HandleResponse(resp: Response, arrivedOn: Option<DialogId>, net: Net) returns (fault: Option<Fault>)
      modifies this`infoRequest, this`infoServerTransaction, this`prackRequest, this`prackServerTransaction
      modifies this`lastIncomingRequest, this`lastServerTransaction, this`lastSessionProgressResponse, net`log
      ensures old(net.log) <= net.log
      ensures fault.Some? ==> fault == Some(RuntimeFault) || fault == Some(SendResponseError)
      ensures resp.status == TRYING ==>
        fault.None? && net.log == old(net.log) && forall k :: Slot(k) == old(Slot(k))
      ensures resp.status >= MULTIPLE_CHOICES && old(PendingOutcome(net.broken)) == NullRef ==>
        fault == Some(RuntimeFault) && net.log == old(net.log) + old(PendingAnswers(net.broken))
      ensures resp.status >= MULTIPLE_CHOICES ==>
        old(net.log) + old(PendingAnswers(net.broken)) <= net.log
      ensures resp.status >= MULTIPLE_CHOICES && old(PendingOutcome(net.broken)) == Sent ==>
        infoRequest.None? && prackRequest.None? && Slot(SlotFor(resp.cseqMethod)) == (None, None)
      ensures resp.status != SESSION_PROGRESS ==> lastSessionProgressResponse == old(lastSessionProgressResponse)
    {
      if resp.status == SESSION_PROGRESS {
        fault := ProcessSessionProgress(resp, arrivedOn, net);
      } else if resp.status == TRYING {
        fault := None;
      } else if resp.status >= MULTIPLE_CHOICES {
        var r := RespondToPending(net);
        if r == NullRef {
          return Some(RuntimeFault);
        }
        ghost var mid := net.log;
        fault := ProcessResponseForward(resp, arrivedOn, net);
        assert mid <= net.log;
        assert Slot(InfoSlot).0 == infoRequest && Slot(PrackSlot).0 == prackRequest;
      } else {
        fault := ProcessResponseForward(resp, arrivedOn, net);
      }
    }

    // ------------------------------------------------------------ timeouts

    /**
     * `handleTransactionTimeout`: a server transaction timing out is a
     * SendResponseError. An INVITE sent to the IM-SCF that timed out ends
     * its dialog, answers pending INFO and PRACK requests and sends 408 on
     * the AS's INVITE transaction; a failed send stops that quietly. Other
     * client timeouts change nothing.
     */
    method HandleTransactionTimeout<S>(ev: Event, callIdOf: DialogId -> string, net: Net, reg: SessionManager<S>)
      returns (fault: Option<Fault>)
      requires ev.TimeoutEvent?
      modifies this`incomingDialog, this`outgoingDialog, reg
      modifies this`infoRequest, this`infoServerTransaction, this`prackRequest, this`prackServerTransaction, net`log
      ensures ev.isServer ==> fault == Some(SendResponseError) && net.log == old(net.log) && reg.sessions == old(reg.sessions)
      ensures !ev.isServer && ev.meth != INVITE ==> fault.None? && net.log == old(net.log) && reg.sessions == old(reg.sessions)
      ensures reg.sessions == old(reg.sessions) || reg.sessions == old(reg.sessions) - {sessionId}
      ensures fault.Some? ==> fault == Some(SendResponseError) || fault == Some(RuntimeFault)
      ensures old(net.log) <= net.log
      ensures (&& !ev.isServer && ev.meth == INVITE && fault.None?
               && (old(incomingDialog).Some? || old(outgoingDialog).Some?)
               && old(PendingOutcome(net.broken)) == Sent) ==>
        net.log == old(net.log) + old(PendingAnswers(net.broken))
          + Accepted(net.broken, ServerTxLink(lastServerTransaction), Resp(REQUEST_TIMEOUT, ""))
    {
      if ev.isServer {
        return Some(SendResponseError);
      }
      if ev.meth != INVITE {
        return None;
      }
      fault := CheckDialogAndRemoveSession(ev.dialog, callIdOf, reg);
      if fault.Some? {
        return;
      }
      var r := RespondToPending(net);
      if r == NullRef {
        return Some(RuntimeFault);
      } else if r == SipError {
        return None;
      }
      var s := net.Send(ServerTxLink(lastServerTransaction), Resp(REQUEST_TIMEOUT, ""));
      fault := if s == NullRef then Some(RuntimeFault) else None;
    }

    // ------------------------------------------------------------ requests

    /**
     * `forwardInviteToImscf`: a new INVITE with the IM-SCF Route set goes
     * out on a new client transaction. It is kept as the last outgoing INVITE
     * before it is sent; when the stack takes it, its dialog is the IM-SCF
     * dialog.
     */
    method ForwardInviteToImscf(req: Request, net: Net) returns (sent: bool)
      modifies this`lastOutgoingInvite, this`outgoingDialog, net`log, net`lastId, net.sequence
      ensures var routes := OutgoingRoutes(ImScf(""), req.routes, net.defaultImScfRoute);
        && lastOutgoingInvite.Some?
        && lastOutgoingInvite.value.routes == routes
        && lastOutgoingInvite.value.meth == INVITE
        && lastOutgoingInvite.value.cseq == net.sequence.value == old(net.sequence.value) + 1
        && lastOutgoingInvite.value.maxForwards == req.maxForwards
        && (sent <==> Outcome(net.broken, ToRoute(routes[0])) == Sent)
        && net.log == old(net.log) + (if sent then [Packet(ToRoute(routes[0]), Invite(lastOutgoingInvite.value))] else [])
        && outgoingDialog == if sent then Some(old(net.lastId) + 3) else old(outgoingDialog)
    {
      var routes := ImScfRoutes(req.routes, net.defaultImScfRoute);
      var callNo := net.NewId();
      var cseq := net.sequence.IncrementAndGet();
      var invite := MessageUtils.CreateInvite(req, routes, "broker-" + NatToString(callNo), cseq, net.brokerContact);
      lastOutgoingInvite := Some(invite);
      var r := net.SendNewTransaction(ToRoute(routes[0]), Invite(invite));
      if r.None? {
        return false;
      }
      outgoingDialog := Some(r.value.1);
      sent := true;
    }

    /** The 503 of `handleInvite`'s catch, sent statelessly; failing that is an UnrecoverableError. */
    method RefuseInvite(net: Net) returns (fault: Option<Fault>)
      modifies net`log
      ensures net.log == old(net.log) + Accepted(net.broken, Stateless, Resp(SERVICE_UNAVAILABLE, ""))
      ensures fault.None? <==> Outcome(net.broken, Stateless) == Sent
      ensures fault.Some? ==> fault == Some(UnrecoverableError)
    {
      var r := net.Send(Stateless, Resp(SERVICE_UNAVAILABLE, ""));
      fault := if r == Sent then None else Some(UnrecoverableError);
    }

    /**
     * `handleInvite`: a retransmission is ignored. Otherwise the INVITE is
     * kept, a server transaction is created for it (its dialog being the AS
     * dialog), 100 Trying is sent on it, and the INVITE goes on to the
     * IM-SCF. When the stack refuses either the transaction or the INVITE,
     * the AS gets 503.
     */
    method HandleInvite(req: Request, net: Net) returns (fault: Option<Fault>)
      modifies this`lastIncomingRequest, this`lastServerTransaction, this`incomingDialog
      modifies this`lastOutgoingInvite, this`outgoingDialog, net`log, net`lastId, net.sequence
      ensures fault.Some? ==> fault == Some(UnrecoverableError)
      ensures IsRetransmission(old(lastIncomingRequest), req) ==>
        fault.None? && net.log == old(net.log) && unchanged(this) && net.lastId == old(net.lastId)
      ensures !IsRetransmission(old(lastIncomingRequest), req) ==>
        lastIncomingRequest == Some(req)
      ensures !IsRetransmission(old(lastIncomingRequest), req) && NewServerTx(req.callId) in net.broken ==>
        net.log == old(net.log) + Accepted(net.broken, Stateless, Resp(SERVICE_UNAVAILABLE, ""))
        && unchanged(this`lastServerTransaction, this`incomingDialog, this`lastOutgoingInvite, this`outgoingDialog)
      ensures !IsRetransmission(old(lastIncomingRequest), req) && NewServerTx(req.callId) !in net.broken ==>
        var tx := old(net.lastId) + 1;
        var routes := OutgoingRoutes(ImScf(""), req.routes, net.defaultImScfRoute);
        var trying := Accepted(net.broken, OnServerTx(tx), Resp(TRYING, ""));
        && lastServerTransaction == Some(tx) && incomingDialog == Some(tx + 1)
        && lastOutgoingInvite.Some? && lastOutgoingInvite.value.routes == routes
        && (Outcome(net.broken, ToRoute(routes[0])) == Sent ==>
              && net.log == old(net.log) + trying + [Packet(ToRoute(routes[0]), Invite(lastOutgoingInvite.value))]
              && outgoingDialog == Some(tx + 4) && fault.None?)
        && (Outcome(net.broken, ToRoute(routes[0])) != Sent ==>
              net.log == old(net.log) + trying + Accepted(net.broken, Stateless, Resp(SERVICE_UNAVAILABLE, "")))
    {
      if IsRetransmission(lastIncomingRequest, req) {
        return None;
      }
      lastIncomingRequest := Some(req);
      var created := net.NewServerTransaction(req.callId);
      if created.None? {
        fault := RefuseInvite(net);
        return;
      }
      lastServerTransaction := Some(created.value.0);
      incomingDialog := Some(created.value.1);
      var _ := net.Send(OnServerTx(created.value.0), Resp(TRYING, ""));
      var sent := ForwardInviteToImscf(req, net);
      if !sent {
        fault := RefuseInvite(net);
      } else {
        fault := None;
      }
    }

    /**
     * `handleBye` and `handleInfoRequest`: a retransmission of the pending
     * request of its kind is ignored; otherwise the request and its server
     * transaction fill that slot and the request goes on with the dialog on
     * the other side. A failed send is an UnrecoverableError.
     */
    method RelayRequest(ev: Event, net: Net) returns (fault: Option<Fault>)
      requires ev.RequestEvent?
      modifies this`infoRequest, this`infoServerTransaction, this`lastIncomingRequest, this`lastServerTransaction, net`log
      ensures var k := if ev.req.meth.BYE? then DialogSlot else InfoSlot;
        && (IsRetransmission(old(Slot(k)).0, ev.req) ==>
              fault.None? && net.log == old(net.log) && forall j :: Slot(j) == old(Slot(j)))
        && (!IsRetransmission(old(Slot(k)).0, ev.req) ==>
              var l := DialogLink(old(RequestTarget(ev.dialog)));
              && Slot(k) == (Some(ev.req), ev.stx)
              && (forall j :: j != k ==> Slot(j) == old(Slot(j)))
              && net.log == old(net.log) + Accepted(net.broken, l, Req(ev.req.meth))
              && fault == RequestFault(Outcome(net.broken, l)))
    {
      var k := if ev.req.meth.BYE? then DialogSlot else InfoSlot;
      if IsRetransmission(Slot(k).0, ev.req) {
        return None;
      }
      if k == DialogSlot {
        lastIncomingRequest := Some(ev.req);
        lastServerTransaction := ev.stx;
      } else {
        infoRequest := Some(ev.req);
        infoServerTransaction := ev.stx;
      }
      var r := net.Send(DialogLink(RequestTarget(ev.dialog)), Req(ev.req.meth));
      fault := RequestFault(r);
    }

    /**
     * `handlePrack`: the PRACK's server transaction is kept even for a
     * retransmission, which is otherwise ignored. A new PRACK is kept and a
     * PRACK for the stored reliable 183 goes to the IM-SCF; with no IM-SCF
     * dialog or no stored 183 that is a NullPointerException.
     */
    method HandlePrack(ev: Event, net: Net) returns (fault: Option<Fault>)
      requires ev.RequestEvent?
      modifies this`prackRequest, this`prackServerTransaction, net`log
      ensures prackServerTransaction == ev.stx
      ensures IsRetransmission(old(prackRequest), ev.req) ==>
        fault.None? && net.log == old(net.log) && prackRequest == old(prackRequest)
      ensures !IsRetransmission(old(prackRequest), ev.req) ==> prackRequest == Some(ev.req)
      ensures !IsRetransmission(old(prackRequest), ev.req) && (outgoingDialog.None? || lastSessionProgressResponse.None?) ==>
        fault == Some(RuntimeFault) && net.log == old(net.log)
      ensures !IsRetransmission(old(prackRequest), ev.req) && outgoingDialog.Some? && lastSessionProgressResponse.Some? ==>
        net.log == old(net.log) + Accepted(net.broken, OnDialog(outgoingDialog.value), Req(PRACK))
        && fault == RequestFault(Outcome(net.broken, OnDialog(outgoingDialog.value)))
    {
      prackServerTransaction := ev.stx;
      if IsRetransmission(prackRequest, ev.req) {
        return None;
      }
      prackRequest := Some(ev.req);
      if outgoingDialog.None? || lastSessionProgressResponse.None? {
        return Some(RuntimeFault);
      }
      var r := net.Send(OnDialog(outgoingDialog.value), Req(PRACK));
      fault := RequestFault(r);
    }

    /**
     * `sendAckToNextAs`: the ACK goes to the IM-SCF with the CSeq number of
     * the INVITE sent there; without that INVITE it is a NullPointerException.
     */
    method SendAckToImScf(net: Net) returns (fault: Option<Fault>)
      modifies net`log
      ensures lastOutgoingInvite.None? ==> fault == Some(RuntimeFault) && net.log == old(net.log)
      ensures lastOutgoingInvite.Some? ==>
        var l := DialogLink(outgoingDialog);
        && net.log == old(net.log) + Accepted(net.broken, l, Ack(lastOutgoingInvite.value.cseq))
        && fault == RequestFault(Outcome(net.broken, l))
    {
      if lastOutgoingInvite.None? {
        return Some(RuntimeFault);
      }
      var r := net.Send(DialogLink(outgoingDialog), Ack(lastOutgoingInvite.value.cseq));
      fault := RequestFault(r);
    }

    /**
     * `handleRequest`: INVITE, BYE, ACK and PRACK have handlers of their own;
     * any other method is relayed like an INFO.
     */
    method HandleRequest(ev: Event, net: Net) returns (fault: Option<Fault>)
      requires ev.RequestEvent?
      modifies this, net`log, net`lastId, net.sequence
      ensures fault.Some? ==> fault == Some(UnrecoverableError) || fault == Some(RuntimeFault)
      ensures old(net.log) <= net.log
      ensures ev.req.meth == ACK ==> unchanged(this)
    {
      match ev.req.meth {
        case INVITE =>
          fault := HandleInvite(ev.req, net);
        case BYE =>
          fault := RelayRequest(ev, net);
        case ACK =>
          fault := SendAckToImScf(net);
        case PRACK =>
          fault := HandlePrack(ev, net);
        case _ =>
          fault := RelayRequest(ev, net);
      }
    }

    /**
     * `handleNextEvent`: the entry point of the session's mailbox. Errors a
     * handler raises for the SIP side are only logged; a
     * NullPointerException, and any event the session does not know (an
     * UnsupportedOperationException), escape as a RuntimeFault. The session
     * leaves the registry only when its dialogs end.
     */
    method HandleNextEvent<S>(ev: Event, callIdOf: DialogId -> string, net: Net, reg: SessionManager<S>)
      returns (fault: Option<Fault>)
      modifies this, net`log, net`lastId, net.sequence, reg
      ensures fault.Some? ==> fault == Some(RuntimeFault)
      ensures ev.OtherEvent? ==> fault == Some(RuntimeFault) && net.log == old(net.log) && unchanged(this)
      ensures old(net.log) <= net.log
      ensures reg.sessions == old(reg.sessions) || reg.sessions == old(reg.sessions) - {sessionId}
      ensures ev.RequestEvent? || ev.ResponseEvent? || ev.OtherEvent? ==> reg.sessions == old(reg.sessions)
      ensures ev.DialogTimeoutEvent? || ev.DialogTerminatedEvent? ==> net.log == old(net.log)
    {
      match ev {
        case RequestEvent(_, _, _, _) =>
          fault := HandleRequest(ev, net);
        case ResponseEvent(resp, dialog, _, _) =>
          fault := HandleResponse(resp, dialog, net);
        case TimeoutEvent(_, _, _, _) =>
          fault := HandleTransactionTimeout(ev, callIdOf, net, reg);
        case DialogTimeoutEvent(d, _) =>
          fault := CheckDialogAndRemoveSession(Some(d), callIdOf, reg);
        case DialogTerminatedEvent(d, _) =>
          fault := CheckDialogAndRemoveSession(Some(d), callIdOf, reg);
        case OtherEvent =>
          fault := Some(RuntimeFault);
      }
      if fault.Some? && fault != Some(RuntimeFault) {
        fault := None;
      }
    }
  }
}

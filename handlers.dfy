/**
 * The back-to-back dialog handlers: one per node of the orchestration chain
 * (the IM-SCF A leg, each AS, the IM-SCF B leg). A handler keeps the dialogs
 * and transactions of its node, its place in the chain (`prev`, `next`) and
 * the node's setup state, and sends the node's messages through the stack.
 */
module Handlers {
  import opened Wrappers
  import opened Sip
  import opened Stack
  import opened Config
  import MessageUtils

  /** The state of the node a handler stands for. */
  datatype HandlerState =
    | INITIAL                     // no INVITE sent yet
    | INVITED                     // INVITE sent towards the node
    | SET_TO_CANCEL               // waiting for a provisional response to send CANCEL
    | PROVISIONAL                 // a provisional response was received
    | SESSION_PROGRESS_REPORTED   // the node sent a reliable 183 and waits for PRACK
    | SESSION_PROGRESS_CONFIRMED  // the node's incoming leg already processed a 183
    | ANSWERED                    // the node answered 200 OK
    | ACKED                       // ACK sent towards the node
    | TERMINATING                 // BYE sent, chain being torn down forwards
    | TERMINATED                  // CANCEL or BYE sent, or error response received

  /** An IM-SCF leg (by its logical name) or an AS (by its selected endpoint). */
  datatype Role = ImScf(name: string) | As(endpoint: Endpoint)

  /** The error a failed send raises, for requests and for responses. */
  function RequestFault(r: SendResult): (f: Option<Fault>)
    ensures f.None? <==> r == Sent
  {
    match r
    case Sent => None
    case SipError => Some(UnrecoverableError)
    case NullRef => Some(RuntimeFault)
  }

  function ResponseFault(r: SendResult): (f: Option<Fault>)
    ensures f.None? <==> r == Sent
  {
    match r
    case Sent => None
    case SipError => Some(SendResponseError)
    case NullRef => Some(RuntimeFault)
  }

  /** The packets the stack records when `m` is sent on `l`. */
  function Accepted(broken: set<Link>, l: Link, m: Msg): seq<Packet>
  {
    if Outcome(broken, l) == Sent then [Packet(l, m)] else []
  }

  /**
   * The Route set of an outgoing INVITE. An AS gets its endpoint's route on top
   * of all incoming routes. The IM-SCF B leg gets the incoming routes without
   * the first one (the broker's own), or the default IM-SCF route when none is left.
   */
  function OutgoingRoutes(role: Role, incoming: seq<Route>, defaultImScfRoute: Route): (rs: seq<Route>)
    ensures |rs| > 0
    ensures role.As? ==> rs == [role.endpoint.route] + incoming
    ensures role.ImScf? && |incoming| > 1 ==> rs == incoming[1..]
    ensures role.ImScf? && |incoming| <= 1 ==> rs == [defaultImScfRoute]
  {
    match role
    case As(e) => [e.route] + incoming
    case ImScf(_) =>
      var rest := if |incoming| > 0 then incoming[1..] else [];
      if |rest| == 0 then [defaultImScfRoute] else rest
  }

  /** Decimal digits of `n`, the form in which the stack hands out new Call-IDs here. */
  function NatToString(n: nat): (s: string)
    ensures |s| > 0
  {
    var d := ['0', '1', '2', '3', '4', '5', '6', '7', '8', '9'][n % 10];
    if n < 10 then [d] else NatToString(n / 10) + [d]
  }

  class Handler {
    const role: Role
    /** Identity of the handler's reference wrapper, as carried in application data. */
    const id: nat
    /** Key of the session the handler belongs to. */
    const session: string

    var lastClientTransaction: Option<TxId>
    var lastServerTransaction: Option<TxId>
    var incomingDialog: Option<DialogId>
    var outgoingDialog: Option<DialogId>
    var lastIncomingRequest: Option<Request>
    var lastOutgoingInvite: Option<Request>
    var lastPrackServerTransaction: Option<TxId>
    var lastIncomingPrackRequest: Option<Request>
    var lastInfoServerTransaction: Option<TxId>
    var lastIncomingInfoRequest: Option<Request>
    /** The next node in the forward direction and the next one backwards. */
    var next: Handler?
    var prev: Handler?
    var handlerState: HandlerState
    var lastSessionProgressResponse: Option<Response>
    var pendingReliableResponse: bool
    /** Kept in the reference wrapper: the node a forwarded special INFO came from. */
    var specialInfoSender: Handler?
    /** Position bound along `next` links: every `next` ranks higher, every `prev` lower. */
    ghost var rank: nat

    constructor (role: Role, id: nat, session: string, ghost rank: nat)
      ensures this.role == role && this.id == id && this.session == session
      ensures next == null && prev == null && specialInfoSender == null
      ensures handlerState == INITIAL && !pendingReliableResponse
      ensures lastClientTransaction.None? && lastServerTransaction.None?
      ensures incomingDialog.None? && outgoingDialog.None?
      ensures lastIncomingRequest.None? && lastOutgoingInvite.None?
      ensures lastPrackServerTransaction.None? && lastIncomingPrackRequest.None?
      ensures lastInfoServerTransaction.None? && lastIncomingInfoRequest.None?
      ensures lastSessionProgressResponse.None? && this.rank == rank
    {
      this.role := role;
      this.id := id;
      this.session := session;
      lastClientTransaction := None;
      lastServerTransaction := None;
      incomingDialog := None;
      outgoingDialog := None;
      lastIncomingRequest := None;
      lastOutgoingInvite := None;
      lastPrackServerTransaction := None;
      lastIncomingPrackRequest := None;
      lastInfoServerTransaction := None;
      lastIncomingInfoRequest := None;
      next := null;
      prev := null;
      handlerState := INITIAL;
      lastSessionProgressResponse := None;
      pendingReliableResponse := false;
      specialInfoSender := null;
      this.rank := rank;
    }

    /** `setNext` on this handler and `setPrev` on `y`: `y` follows this handler. */
    method LinkTo(y: Handler)
      modifies this`next, y`prev
      ensures next == y && y.prev == this
    {
      next := y;
      y.prev := this;
    }

    predicate IsImScf()
    {
      role.ImScf?
    }

    /** How the 481 answers to the pending INFO and PRACK go: the first refusal, else Sent. */
    ghost function PendingOutcome(broken: set<Link>): SendResult
      reads this`lastInfoServerTransaction, this`lastIncomingInfoRequest
      reads this`lastPrackServerTransaction, this`lastIncomingPrackRequest
    {
      var info := if lastIncomingInfoRequest.Some? then Outcome(broken, ServerTxLink(lastInfoServerTransaction)) else Sent;
      if info != Sent then info
      else if lastIncomingPrackRequest.Some? then Outcome(broken, ServerTxLink(lastPrackServerTransaction))
      else Sent
    }

    /** The 481 answers handed to the stack: the INFO one, then, if that went through, the PRACK one. */
    ghost function PendingAnswers(broken: set<Link>): seq<Packet>
      reads this`lastInfoServerTransaction, this`lastIncomingInfoRequest
      reads this`lastPrackServerTransaction, this`lastIncomingPrackRequest
    {
      var infoLink := ServerTxLink(lastInfoServerTransaction);
      var infoOk := lastIncomingInfoRequest.None? || Outcome(broken, infoLink) == Sent;
      (if lastIncomingInfoRequest.Some? then Accepted(broken, infoLink, Resp(CALL_OR_TRANSACTION_DOES_NOT_EXIST, "")) else [])
      + (if infoOk && lastIncomingPrackRequest.Some? then
           Accepted(broken, ServerTxLink(lastPrackServerTransaction), Resp(CALL_OR_TRANSACTION_DOES_NOT_EXIST, ""))
         else [])
    }

    /**
     * The pending slots after the 481 answers, given the slots before them:
     * a slot whose answer went out is emptied, every other one is as it was.
     */
    ghost predicate PendingCleared(infoTx: Option<TxId>, info: Option<Request>, prackTx: Option<TxId>, prack: Option<Request>,
                                   broken: set<Link>)
      reads this`lastInfoServerTransaction, this`lastIncomingInfoRequest
      reads this`lastPrackServerTransaction, this`lastIncomingPrackRequest
    {
      var infoDone := info.Some? && Outcome(broken, ServerTxLink(infoTx)) == Sent;
      var prackDone := (info.None? || infoDone) && prack.Some? && Outcome(broken, ServerTxLink(prackTx)) == Sent;
      && (infoDone ==> lastInfoServerTransaction.None? && lastIncomingInfoRequest.None?)
      && (!infoDone ==> lastInfoServerTransaction == infoTx && lastIncomingInfoRequest == info)
      && (prackDone ==> lastPrackServerTransaction.None? && lastIncomingPrackRequest.None?)
      && (!prackDone ==> lastPrackServerTransaction == prackTx && lastIncomingPrackRequest == prack)
    }

    /**
     * Answers pending INFO and PRACK transactions with 481, INFO first. A
     * transaction that was answered is forgotten. A stack error on the INFO
     * answer is swallowed and also leaves the PRACK unanswered; a missing
     * transaction is a NullPointerException.
     */
    method RespondToPendingRequests(net: Net) returns (err: Option<Fault>)
      modifies net`log, this`lastInfoServerTransaction, this`lastIncomingInfoRequest,
               this`lastPrackServerTransaction, this`lastIncomingPrackRequest
      ensures err.Some? ==> err == Some(RuntimeFault)
      ensures err.Some? <==> old(PendingOutcome(net.broken)) == NullRef
      ensures net.log == old(net.log) + old(PendingAnswers(net.broken))
      ensures PendingCleared(old(lastInfoServerTransaction), old(lastIncomingInfoRequest),
                             old(lastPrackServerTransaction), old(lastIncomingPrackRequest), net.broken)
    {
      err := None;
      if lastIncomingInfoRequest.Some? {
        var r := net.Send(ServerTxLink(lastInfoServerTransaction), Resp(CALL_OR_TRANSACTION_DOES_NOT_EXIST, ""));
        if r == NullRef {
          err := Some(RuntimeFault);
          return;
        } else if r == SipError {
          return;
        }
        lastInfoServerTransaction := None;
        lastIncomingInfoRequest := None;
      }
      if lastIncomingPrackRequest.Some? {
        var r := net.Send(ServerTxLink(lastPrackServerTransaction), Resp(CALL_OR_TRANSACTION_DOES_NOT_EXIST, ""));
        if r == NullRef {
          err := Some(RuntimeFault);
          return;
        } else if r == SipError {
          return;
        }
        lastPrackServerTransaction := None;
        lastIncomingPrackRequest := None;
      }
    }

    /**
     * An error response on this node: the pending INFO and PRACK are answered
     * with 481 first, and their slots cleared as `RespondToPendingRequests`
     * says; a missing pending transaction ends the call before the response
     * is sent, otherwise the response follows the 481 answers.
     */
    twostate predicate ErrorAnsweredFirst(net: Net, resp: Response, err: Option<Fault>)
      reads this, net
    {
      var pending := old(PendingAnswers(net.broken));
      var link := ServerTxLink(old(lastServerTransaction));
      && PendingCleared(old(lastInfoServerTransaction), old(lastIncomingInfoRequest),
                        old(lastPrackServerTransaction), old(lastIncomingPrackRequest), net.broken)
      && (old(PendingOutcome(net.broken)) == NullRef ==>
            && err == Some(if role.ImScf? then SendResponseError else RuntimeFault)
            && net.log == old(net.log) + pending)
      && (old(PendingOutcome(net.broken)) != NullRef ==>
            net.log == old(net.log) + pending + Accepted(net.broken, link, Resp(resp.status, "")))
    }

    /**
     * Passes a response back to this node on its last server transaction.
     * An error response (300 and above) first answers the pending INFO and
     * PRACK transactions; a final response (200 and above) closes the server
     * transaction. An AS without a server transaction has already had its
     * final response, and nothing is sent.
     */
    method ForwardResponse(resp: Response, net: Net) returns (err: Option<Fault>)
      modifies net`log, this`lastServerTransaction, this`lastIncomingRequest,
               this`lastInfoServerTransaction, this`lastIncomingInfoRequest,
               this`lastPrackServerTransaction, this`lastIncomingPrackRequest
      ensures role.As? && old(lastServerTransaction).None? ==>
        err.None? && net.log == old(net.log) && lastServerTransaction.None?
        && unchanged(this`lastIncomingRequest, this`lastInfoServerTransaction, this`lastIncomingInfoRequest)
        && unchanged(this`lastPrackServerTransaction, this`lastIncomingPrackRequest)
      ensures role.ImScf? || old(lastServerTransaction).Some? ==>
        var link := ServerTxLink(old(lastServerTransaction));
        && (resp.status < MULTIPLE_CHOICES ==>
              unchanged(this`lastInfoServerTransaction, this`lastIncomingInfoRequest)
              && unchanged(this`lastPrackServerTransaction, this`lastIncomingPrackRequest))
        && (err.None? ==> Outcome(net.broken, link) == Sent && |net.log| > 0
                          && net.log[|net.log| - 1] == Packet(link, Resp(resp.status, "")))
        && (err.Some? ==> err == Some(SendResponseError) || (role.As? && err == Some(RuntimeFault)))
        && (err.None? && resp.status >= OK ==> lastServerTransaction.None? && lastIncomingRequest.None?)
        && (err.Some? || resp.status < OK ==> lastServerTransaction == old(lastServerTransaction)
                                              && lastIncomingRequest == old(lastIncomingRequest))
      ensures (role.ImScf? || old(lastServerTransaction).Some?) && resp.status >= MULTIPLE_CHOICES ==>
        ErrorAnsweredFirst(net, resp, err)
      ensures |net.log| >= |old(net.log)| && net.log[..|old(net.log)|] == old(net.log)
    {
      if role.As? && lastServerTransaction.None? {
        return None;
      }
      if resp.status >= MULTIPLE_CHOICES {
        var pendingErr := RespondToPendingRequests(net);
        if pendingErr.Some? {
          // an unchecked exception: the IM-SCF handler catches any exception
          err := if role.ImScf? then Some(SendResponseError) else pendingErr;
          return;
        }
      }
      ghost var before := net.log;
      var link := ServerTxLink(lastServerTransaction);
      var r := net.Send(link, Resp(resp.status, ""));
      if r != Sent {
        err := if role.ImScf? then Some(SendResponseError) else ResponseFault(r);
        return;
      }
      if resp.status >= OK {
        lastServerTransaction := None;
        lastIncomingRequest := None;
      }
      err := None;
    }

    /** Passes a PRACK response back on the pending PRACK transaction; a final one closes it. */
    method ForwardPrackResponse(resp: Response, net: Net) returns (err: Option<Fault>)
      modifies net`log, this`lastPrackServerTransaction, this`lastIncomingPrackRequest
      ensures var link := ServerTxLink(old(lastPrackServerTransaction));
        && net.log == old(net.log) + Accepted(net.broken, link, Resp(resp.status, ""))
        && err == ResponseFault(Outcome(net.broken, link))
        && (err.None? && resp.status >= OK ==> lastPrackServerTransaction.None? && lastIncomingPrackRequest.None?)
        && (err.Some? || resp.status < OK ==> lastPrackServerTransaction == old(lastPrackServerTransaction)
                                              && lastIncomingPrackRequest == old(lastIncomingPrackRequest))
    {
      var r := net.Send(ServerTxLink(lastPrackServerTransaction), Resp(resp.status, ""));
      err := ResponseFault(r);
      if r == Sent && resp.status >= OK {
        lastPrackServerTransaction := None;
        lastIncomingPrackRequest := None;
      }
    }

    /** Passes an INFO response back on the pending INFO transaction; a final one closes it. */
    method ForwardInfoResponse(resp: Response, net: Net) returns (err: Option<Fault>)
      modifies net`log, this`lastInfoServerTransaction, this`lastIncomingInfoRequest
      ensures var link := ServerTxLink(old(lastInfoServerTransaction));
        && net.log == old(net.log) + Accepted(net.broken, link, Resp(resp.status, ""))
        && err == ResponseFault(Outcome(net.broken, link))
        && (err.None? && resp.status >= OK ==> lastInfoServerTransaction.None? && lastIncomingInfoRequest.None?)
        && (err.Some? || resp.status < OK ==> lastInfoServerTransaction == old(lastInfoServerTransaction)
                                              && lastIncomingInfoRequest == old(lastIncomingInfoRequest))
    {
      var r := net.Send(ServerTxLink(lastInfoServerTransaction), Resp(resp.status, ""));
      err := ResponseFault(r);
      if r == Sent && resp.status >= OK {
        lastInfoServerTransaction := None;
        lastIncomingInfoRequest := None;
      }
    }

    /**
     * Sends a reliable provisional response on the incoming dialog, unless one
     * is still waiting for its PRACK, in which case nothing happens.
     */
    method ForwardReliableProvisionalResponse(resp: Response, net: Net) returns (err: Option<Fault>)
      modifies net`log, this`pendingReliableResponse
      ensures old(pendingReliableResponse) ==> err.None? && net.log == old(net.log) && pendingReliableResponse
      ensures !old(pendingReliableResponse) ==>
        var link := DialogLink(incomingDialog);
        && net.log == old(net.log) + Accepted(net.broken, link, Resp(resp.status, ""))
        && err == ResponseFault(Outcome(net.broken, link))
        && pendingReliableResponse == err.None?
    {
      if pendingReliableResponse {
        return None;
      }
      var r := net.Send(DialogLink(incomingDialog), Resp(resp.status, ""));
      err := ResponseFault(r);
      if r == Sent {
        pendingReliableResponse := true;
      }
    }

    /** Sends a PRACK for the last reliable provisional response on the outgoing dialog. */
    method ProcessOutgoingPrack(net: Net) returns (err: Option<Fault>)
      modifies net`log
      ensures net.log == old(net.log) + Accepted(net.broken, DialogLink(outgoingDialog), Req(PRACK))
      ensures err == RequestFault(Outcome(net.broken, DialogLink(outgoingDialog)))
    {
      var r := net.Send(DialogLink(outgoingDialog), Req(PRACK));
      err := RequestFault(r);
    }

    /**
     * Sends the ACK for the 200 to the node's INVITE on the outgoing dialog,
     * with that INVITE's CSeq number; with no INVITE sent there is no number
     * to take, and nothing is sent.
     */
    method SendAck(net: Net) returns (err: Option<Fault>)
      modifies net`log
      ensures lastOutgoingInvite.None? ==> err == Some(RuntimeFault) && net.log == old(net.log)
      ensures lastOutgoingInvite.Some? ==>
        var link := DialogLink(outgoingDialog);
        && net.log == old(net.log) + Accepted(net.broken, link, Ack(lastOutgoingInvite.value.cseq))
        && err == RequestFault(Outcome(net.broken, link))
    {
      if lastOutgoingInvite.None? {
        return Some(RuntimeFault);
      }
      var r := net.Send(DialogLink(outgoingDialog), Ack(lastOutgoingInvite.value.cseq));
      err := RequestFault(r);
    }

    /** Sends a CANCEL for the last client transaction. */
    method SendCancel(net: Net) returns (err: Option<Fault>)
      modifies net`log
      ensures net.log == old(net.log) + Accepted(net.broken, ClientTxLink(lastClientTransaction), Req(CANCEL))
      ensures err == RequestFault(Outcome(net.broken, ClientTxLink(lastClientTransaction)))
    {
      var r := net.Send(ClientTxLink(lastClientTransaction), Req(CANCEL));
      err := RequestFault(r);
    }

    /** Sends a BYE on the outgoing dialog. */
    method SendBye(net: Net) returns (err: Option<Fault>)
      modifies net`log
      ensures net.log == old(net.log) + Accepted(net.broken, DialogLink(outgoingDialog), Req(BYE))
      ensures err == RequestFault(Outcome(net.broken, DialogLink(outgoingDialog)))
    {
      var r := net.Send(DialogLink(outgoingDialog), Req(BYE));
      err := RequestFault(r);
    }

    /**
     * A BYE sent while tearing down after an error. The handler ends TERMINATED
     * whatever happens; a stack error is swallowed, only a missing dialog escapes.
     */
    method SendTerminatingBye(net: Net) returns (err: Option<Fault>)
      modifies net`log, this`handlerState
      ensures handlerState == TERMINATED
      ensures net.log == old(net.log) + Accepted(net.broken, DialogLink(outgoingDialog), Req(BYE))
      ensures err.Some? <==> outgoingDialog.None?
      ensures err.Some? ==> err == Some(RuntimeFault)
    {
      var e := SendBye(net);
      err := if e == Some(RuntimeFault) then e else None;
      handlerState := TERMINATED;
    }

    /** As `SendTerminatingBye`, with a CANCEL for the last client transaction. */
    method SendTerminatingCancel(net: Net) returns (err: Option<Fault>)
      modifies net`log, this`handlerState
      ensures handlerState == TERMINATED
      ensures net.log == old(net.log) + Accepted(net.broken, ClientTxLink(lastClientTransaction), Req(CANCEL))
      ensures err.Some? <==> lastClientTransaction.None?
      ensures err.Some? ==> err == Some(RuntimeFault)
    {
      var r := net.Send(ClientTxLink(lastClientTransaction), Req(CANCEL));
      err := if r == NullRef then Some(RuntimeFault) else None;
      handlerState := TERMINATED;
    }

    /** Sends a BYE built from the incoming one on the given dialog of this node. */
    method ForwardBye(dialog: Option<DialogId>, net: Net) returns (err: Option<Fault>)
      modifies net`log
      ensures net.log == old(net.log) + Accepted(net.broken, DialogLink(dialog), Req(BYE))
      ensures err == RequestFault(Outcome(net.broken, DialogLink(dialog)))
    {
      var r := net.Send(DialogLink(dialog), Req(BYE));
      err := RequestFault(r);
    }

    /**
     * Sends an in-dialog request on the given dialog. After the send the
     * reference wrapper remembers `special`, the sender of a special INFO
     * (null for an ordinary request).
     */
    method SendRequestOnDialog(meth: Method, dialog: Option<DialogId>, special: Handler?, net: Net)
      returns (err: Option<Fault>)
      modifies net`log, this`specialInfoSender
      ensures net.log == old(net.log) + Accepted(net.broken, DialogLink(dialog), Req(meth))
      ensures err == RequestFault(Outcome(net.broken, DialogLink(dialog)))
      ensures specialInfoSender == if err.None? then special else old(specialInfoSender)
    {
      var r := net.Send(DialogLink(dialog), Req(meth));
      err := RequestFault(r);
      if r == Sent {
        specialInfoSender := special;
      }
    }

    /**
     * Sends a response created for the node's last request on its server
     * transaction, leaving the transaction open.
     */
    method SendNewResponse(status: int, net: Net) returns (err: Option<Fault>)
      modifies net`log
      ensures net.log == old(net.log) + Accepted(net.broken, ServerTxLink(lastServerTransaction), Resp(status, ""))
      ensures err == ResponseFault(Outcome(net.broken, ServerTxLink(lastServerTransaction)))
    {
      var r := net.Send(ServerTxLink(lastServerTransaction), Resp(status, ""));
      err := ResponseFault(r);
    }

    /**
     * Sends a new INVITE towards this node, built from the incoming one, with
     * a fresh Call-ID, the next CSeq and the node's Route set. On success the
     * INVITE, its client transaction and its dialog are recorded; any stack
     * error surfaces as UnrecoverableError and records nothing.
     */
    method ProcessOutgoingInvite(incoming: Request, net: Net) returns (err: Option<Fault>)
      modifies net`log, net`lastId, net.sequence, this`lastOutgoingInvite, this`lastClientTransaction,
               this`outgoingDialog
      ensures err.Some? ==> err == Some(UnrecoverableError)
      ensures var routes := OutgoingRoutes(role, incoming.routes, net.defaultImScfRoute);
        err.None? <==> Outcome(net.broken, ToRoute(routes[0])) == Sent
      ensures net.sequence.value == old(net.sequence.value) + 1
      ensures err.Some? ==> (net.log == old(net.log)
        && unchanged(this`lastOutgoingInvite, this`lastClientTransaction, this`outgoingDialog))
      ensures err.None? ==>
        var routes := OutgoingRoutes(role, incoming.routes, net.defaultImScfRoute);
        && lastOutgoingInvite.Some?
        && net.log == old(net.log) + [Packet(ToRoute(routes[0]), Invite(lastOutgoingInvite.value))]
        && lastOutgoingInvite.value.meth == INVITE
        && lastOutgoingInvite.value.routes == routes
        && lastOutgoingInvite.value.cseq == net.sequence.value
        && lastOutgoingInvite.value.maxForwards == incoming.maxForwards
        && lastClientTransaction == Some(old(net.lastId) + 2)
        && outgoingDialog == Some(old(net.lastId) + 3)
    {
      var routes := OutgoingRoutes(role, incoming.routes, net.defaultImScfRoute);
      var callNo := net.NewId();
      var cseq := net.sequence.IncrementAndGet();
      var invite := MessageUtils.CreateInvite(incoming, routes, "broker-" + NatToString(callNo), cseq, net.brokerContact);
      var r := net.SendNewTransaction(ToRoute(routes[0]), Invite(invite));
      if r.None? {
        return Some(UnrecoverableError);
      }
      lastOutgoingInvite := Some(invite);
      lastClientTransaction := Some(r.value.0);
      outgoingDialog := Some(r.value.1);
      err := None;
    }
  }
}

/**
 * The SIP stack as the broker sees it: every message it hands over is recorded
 * in `log`, and whether the stack accepts it is decided by the fixed set
 * `broken` of channels on which the stack throws (a SipException, a
 * TransactionUnavailableException, a closed transport). A null dialog or
 * transaction is the channel `Missing`, on which Java throws a
 * NullPointerException.
 */
module Stack {
  import opened Wrappers
  import opened Sip
  import MessageUtils

  /** Where a message goes. */
  datatype Link =
    | OnDialog(dialog: DialogId)
    | OnServerTx(tx: TxId)
    | OnClientTx(tx: TxId)
    | ToRoute(route: Route)
    | Stateless
    | NewServerTx(callId: string)
    | Missing

  /** What is sent: a new INVITE in full, an ACK with its CSeq number, otherwise the method or the status. */
  datatype Msg =
    | Invite(invite: Request)
    | Ack(cseq: nat)
    | Req(meth: Method)
    | Resp(status: int, phrase: string)

  datatype Packet = Packet(link: Link, msg: Msg)

  /** How the stack answers a send. */
  datatype SendResult = Sent | SipError | NullRef

  /** The exceptions a session step can raise. */
  datatype Fault =
    | SendResponseError
    | UnrecoverableError
    | UnexpectedSipMessageError
    /** NullPointerException, UnsupportedOperationException, IllegalArgumentException. */
    | RuntimeFault

  function DialogLink(d: Option<DialogId>): (l: Link)
    ensures d.None? <==> l == Missing
  {
    if d.Some? then OnDialog(d.value) else Missing
  }

  function ServerTxLink(t: Option<TxId>): (l: Link)
    ensures t.None? <==> l == Missing
  {
    if t.Some? then OnServerTx(t.value) else Missing
  }

  function ClientTxLink(t: Option<TxId>): (l: Link)
    ensures t.None? <==> l == Missing
  {
    if t.Some? then OnClientTx(t.value) else Missing
  }

  /** The answer the stack gives on `l`. */
  function Outcome(broken: set<Link>, l: Link): SendResult
  {
    if l == Missing then NullRef else if l in broken then SipError else Sent
  }

  class Net {
    /** Everything handed to the stack so far, oldest first. */
    var log: seq<Packet>
    const broken: set<Link>
    /** The last identifier handed out for a dialog, transaction or Call-ID. */
    var lastId: nat
    /** The broker's own Contact header and the configured default IM-SCF route. */
    const brokerContact: string
    const defaultImScfRoute: Route
    /** The process-wide CSeq counter of MessageUtils. */
    const sequence: MessageUtils.SequenceNumber

    constructor (broken: set<Link>, brokerContact: string, defaultImScfRoute: Route)
      ensures log == [] && lastId == 0 && fresh(sequence) && sequence.value == 0
      ensures this.broken == broken && this.brokerContact == brokerContact
      ensures this.defaultImScfRoute == defaultImScfRoute
    {
      log := [];
      lastId := 0;
      this.broken := broken;
      this.brokerContact := brokerContact;
      this.defaultImScfRoute := defaultImScfRoute;
      sequence := new MessageUtils.SequenceNumber();
    }

    /** Hands `m` to the stack on `l`; only accepted messages are recorded. */
    method Send(l: Link, m: Msg) returns (r: SendResult)
      modifies this`log
      ensures r == Outcome(broken, l)
      ensures log == old(log) + (if r == Sent then [Packet(l, m)] else [])
    {
      r := Outcome(broken, l);
      if r == Sent {
        log := log + [Packet(l, m)];
      }
    }

    /** A fresh identifier, larger than every earlier one. */
    method NewId() returns (id: nat)
      modifies this`lastId
      ensures id == old(lastId) + 1 && lastId == id
    {
      lastId := lastId + 1;
      id := lastId;
    }

    /**
     * Sends a dialog-creating request through a new client transaction
     * (`getNewClientTransaction` and `sendRequest`), returning the new
     * transaction and its dialog when the stack accepts it.
     */
    method SendNewTransaction(l: Link, m: Msg) returns (r: Option<(TxId, DialogId)>)
      modifies this`log, this`lastId
      ensures r.Some? <==> Outcome(broken, l) == Sent
      ensures log == old(log) + (if r.Some? then [Packet(l, m)] else [])
      ensures r.Some? ==> r.value == (old(lastId) + 1, old(lastId) + 2) && lastId == old(lastId) + 2
      ensures r.None? ==> lastId == old(lastId)
    {
      var sent := Send(l, m);
      if sent == Sent {
        var tx := NewId();
        var d := NewId();
        r := Some((tx, d));
      } else {
        r := None;
      }
    }

    /** `getNewServerTransaction` for an incoming request, which also creates its dialog. */
    method NewServerTransaction(callId: string) returns (r: Option<(TxId, DialogId)>)
      modifies this`lastId
      ensures r.Some? <==> NewServerTx(callId) !in broken
      ensures r.Some? ==> r.value == (old(lastId) + 1, old(lastId) + 2) && lastId == old(lastId) + 2
      ensures r.None? ==> lastId == old(lastId)
    {
      if NewServerTx(callId) in broken {
        r := None;
      } else {
        var tx := NewId();
        var d := NewId();
        r := Some((tx, d));
      }
    }
  }
}

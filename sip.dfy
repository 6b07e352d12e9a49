/**
 * The SIP vocabulary the broker works with: methods, status codes, the parts of
 * requests and responses it inspects, and the events the SIP stack delivers.
 * Headers are (name, value) pairs; the structured headers the broker reads
 * (Call-ID, tags, CSeq, Max-Forwards, Via, Route) are fields of their own.
 */
module Sip {
  import opened Wrappers

  /** Dialog and transaction objects of the SIP stack, by identity. */
  type DialogId = nat
  type TxId = nat

  datatype Method = INVITE | ACK | BYE | CANCEL | PRACK | INFO | OPTIONS | UPDATE | OtherMethod(name: string)

  // Status codes of RFC 3261 section 21 and RFC 3262 that the broker uses.
  const TRYING := 100
  const SESSION_PROGRESS := 183
  const OK := 200
  const MULTIPLE_CHOICES := 300
  const BAD_REQUEST := 400
  const NOT_FOUND := 404
  const METHOD_NOT_ALLOWED := 405
  const REQUEST_TIMEOUT := 408
  const BAD_EXTENSION := 420
  const CALL_OR_TRANSACTION_DOES_NOT_EXIST := 481
  const REQUEST_TERMINATED := 487
  const SERVER_INTERNAL_ERROR := 500
  const SERVICE_UNAVAILABLE := 503

  type Header = (string, string)

  /** A Via header; `branch` is the transaction key of RFC 3261 section 17.2.3. */
  datatype Via = Via(sentBy: string, branch: string)

  /** A request URI or Route address: a SIP URI with its parameters, or any other scheme. */
  datatype Uri =
    | SipUri(user: string, host: string, params: seq<(string, string)>)
    | OtherUri(text: string, params: seq<(string, string)>)
  {
    function Params(): seq<(string, string)>
    {
      match this
      case SipUri(_, _, ps) => ps
      case OtherUri(_, ps) => ps
    }
  }

  datatype Route = Route(uri: Uri)

  datatype Request = Request(
    meth: Method,
    requestUri: Uri,
    callId: string,
    fromTag: Option<string>,
    toTag: Option<string>,
    cseq: nat,
    maxForwards: nat,
    vias: seq<Via>,
    routes: seq<Route>,
    headers: seq<Header>,
    body: seq<char>)

  datatype Response = Response(status: int, cseqMethod: Method, toTag: Option<string>, headers: seq<Header>, body: seq<char>)

  /** The state of a dialog as the stack reports it (`Dialog.getState()` may be null). */
  datatype DialogState = Early | Confirmed | Terminated

  /** The value of the first header called `name`, as `Message.getHeader` finds it. */
  function HeaderValue(hs: seq<Header>, name: string): (r: Option<string>)
    ensures r.None? <==> forall i :: 0 <= i < |hs| ==> hs[i].0 != name
    ensures r.Some? ==> exists i :: 0 <= i < |hs| && hs[i] == (name, r.value)
  {
    if |hs| == 0 then None
    else if hs[0].0 == name then Some(hs[0].1)
    else HeaderValue(hs[1..], name)
  }

  /** The value of the first URI parameter called `name`, as `Parameters.getParameter` finds it. */
  function ParamValue(ps: seq<(string, string)>, name: string): (r: Option<string>)
    ensures r.None? <==> forall i :: 0 <= i < |ps| ==> ps[i].0 != name
  {
    if |ps| == 0 then None
    else if ps[0].0 == name then Some(ps[0].1)
    else ParamValue(ps[1..], name)
  }

  /** True iff a header `name` is present with exactly the value "true". */
  predicate HeaderIsTrue(hs: seq<Header>, name: string)
  {
    HeaderValue(hs, name) == Some("true")
  }

  /**
   * The application data the broker attaches to a dialog or transaction (a
   * HandlerReferenceWrapper): the key of the owning session and, for
   * orchestrated sessions, the identifier of the owning dialogs handler.
   */
  datatype AppData = AppData(session: string, handler: Option<nat>)

  /** The events the SIP stack hands to the broker. */
  datatype Event =
      /** `dialog` and `app` are the request's dialog and that dialog's application data. */
    | RequestEvent(req: Request, dialog: Option<DialogId>, stx: Option<TxId>, app: Option<AppData>)
      /** `app` is the application data of the client transaction the response belongs to. */
    | ResponseEvent(resp: Response, dialog: Option<DialogId>, retransmission: bool, app: Option<AppData>)
      /** `app` is the application data of the timed-out server or client transaction. */
    | TimeoutEvent(isServer: bool, meth: Method, dialog: Option<DialogId>, app: Option<AppData>)
    | DialogTimeoutEvent(timedOutDialog: DialogId, dialogApp: Option<AppData>)
    | DialogTerminatedEvent(terminatedDialog: DialogId, dialogApp: Option<AppData>)
    | OtherEvent
}

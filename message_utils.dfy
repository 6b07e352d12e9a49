/**
 * Helpers that build the messages the broker sends: the Original-Dialog-ID
 * derivation, the header filtering used when a message is passed on, the To-tag
 * and Contact rules, and the INVITE builder with its process-wide CSeq counter.
 */
module MessageUtils {
  import opened Wrappers
  import opened Sip

  const P_ORIGINAL_DIALOG_ID := "P-Original-Dialog-ID"
  const DEFAULT_MAX_FORWARDS := 70
  const CALL_ID_EQ := "call-id"
  const SEMI_FROM_TAG_EQ := ";FROM_TAG="
  const SEMI_TO_TAG_EQ := ";TO_TAG="
  const CONTACT := "Contact"
  const CONTENT_TYPE := "Content-Type"

  /** Headers never copied from one message to the next; the lists for responses, requests and ACKs are equal. */
  const EXCLUDED_HEADERS: seq<string> :=
    ["From", "To", "Call-ID", "CSeq", "Via", "Route", "Record-Route", "Content-Length", CONTACT]
  const EXCLUDED_RESPONSE_HEADERS := EXCLUDED_HEADERS
  const EXCLUDED_REQUEST_HEADERS := EXCLUDED_HEADERS
  const EXCLUDED_ACK_HEADERS := EXCLUDED_HEADERS

  /** Java string concatenation of a possibly null string. */
  function JavaString(s: Option<string>): string
  {
    s.GetOr("null")
  }

  // ---------------------------------------------------------------- header lists

  /** The headers called `name`, in order. */
  function Named(hs: seq<Header>, name: string): (r: seq<Header>)
    ensures |r| <= |hs|
    ensures forall i :: 0 <= i < |r| ==> r[i].0 == name
  {
    if |hs| == 0 then []
    else (if hs[0].0 == name then [hs[0]] else []) + Named(hs[1..], name)
  }

  /** The headers not called `name`: `Message.removeHeader(name)`. */
  function RemoveNamed(hs: seq<Header>, name: string): (r: seq<Header>)
    ensures |r| <= |hs|
  {
    if |hs| == 0 then []
    else (if hs[0].0 == name then [] else [hs[0]]) + RemoveNamed(hs[1..], name)
  }

  /** `Message.setHeader(h)`: every header of that name is replaced by `h`. */
  function SetHeader(hs: seq<Header>, h: Header): seq<Header>
  {
    RemoveNamed(hs, h.0) + [h]
  }

  /** The header names of a message, each once, in order of first appearance. */
  function Names(hs: seq<Header>): (r: seq<string>)
    decreases |hs|
  {
    if |hs| == 0 then []
    else [hs[0].0] + Names(RemoveNamed(hs[1..], hs[0].0))
  }

  lemma {:induction false} NamedAppend(a: seq<Header>, b: seq<Header>, n: string)
    ensures Named(a + b, n) == Named(a, n) + Named(b, n)
  {
    if |a| == 0 {
      assert a + b == b;
    } else {
      assert (a + b)[1..] == a[1..] + b;
      NamedAppend(a[1..], b, n);
    }
  }

  lemma {:induction false} NamedRemoved(hs: seq<Header>, m: string, n: string)
    ensures Named(RemoveNamed(hs, m), n) == if n == m then [] else Named(hs, n)
  {
    if |hs| > 0 {
      NamedRemoved(hs[1..], m, n);
      NamedAppend(if hs[0].0 == m then [] else [hs[0]], RemoveNamed(hs[1..], m), n);
    }
  }

  lemma {:induction false} NamesComplete(hs: seq<Header>, n: string)
    ensures n in Names(hs) <==> Named(hs, n) != []
    decreases |hs|
  {
    if |hs| > 0 {
      var rest := RemoveNamed(hs[1..], hs[0].0);
      NamesComplete(rest, n);
      NamedRemoved(hs[1..], hs[0].0, n);
    }
  }

  lemma {:induction false} HeaderValueOfNamed(hs: seq<Header>, n: string)
    ensures HeaderValue(hs, n).Some? <==> Named(hs, n) != []
    ensures Named(hs, n) != [] ==> HeaderValue(hs, n) == Some(Named(hs, n)[0].1)
  {
    if |hs| > 0 {
      HeaderValueOfNamed(hs[1..], n);
    }
  }

  /** After `setHeader(h)` the header of that name has exactly the value of `h`. */
  lemma SetHeaderValue(hs: seq<Header>, h: Header)
    ensures Named(SetHeader(hs, h), h.0) == [h]
    ensures HeaderValue(SetHeader(hs, h), h.0) == Some(h.1)
  {
    NamedAppend(RemoveNamed(hs, h.0), [h], h.0);
    NamedRemoved(hs, h.0, h.0);
    HeaderValueOfNamed(SetHeader(hs, h), h.0);
  }

  /**
   * What a copy leaves under the name `n`: the incoming headers of that name when the
   * name is not excluded and the incoming message has it, otherwise the outgoing ones.
   */
  function Copied(incoming: seq<Header>, outgoing: seq<Header>, excluded: seq<string>, n: string): seq<Header>
  {
    if n !in excluded && Named(incoming, n) != [] then Named(incoming, n) else Named(outgoing, n)
  }

  lemma {:induction false} NamedNamed(hs: seq<Header>, m: string, n: string)
    ensures Named(Named(hs, m), n) == if n == m then Named(hs, m) else []
  {
    if |hs| > 0 {
      NamedNamed(hs[1..], m, n);
      NamedAppend(if hs[0].0 == m then [hs[0]] else [], Named(hs[1..], m), n);
    }
  }

  /** Removing every header called `m` and appending the incoming ones replaces exactly that name. */
  lemma ReplaceNamed(hs: seq<Header>, incoming: seq<Header>, m: string, n: string)
    ensures Named(RemoveNamed(hs, m) + Named(incoming, m), n) == if n == m then Named(incoming, m) else Named(hs, n)
  {
    NamedAppend(RemoveNamed(hs, m), Named(incoming, m), n);
    NamedRemoved(hs, m, n);
    NamedNamed(incoming, m, n);
  }

  /** The inner loop of the copy: `addHeader` for each header in turn. */
  method AddHeaders(hs: seq<Header>, added: seq<Header>) returns (r: seq<Header>)
    ensures r == hs + added
  {
    r := hs;
    var j := 0;
    while j < |added|
      invariant 0 <= j <= |added|
      invariant r == hs + added[..j]
    {
      assert added[..j + 1] == added[..j] + [added[j]];
      r := r + [added[j]];
      j := j + 1;
    }
    assert added[..j] == added;
  }

  /** The copy has been done for the names in `done`. */
  ghost predicate CopiedSoFar(result: seq<Header>, incoming: seq<Header>, outgoing: seq<Header>,
                              excluded: seq<string>, done: seq<string>)
  {
    forall n :: Named(result, n) == (if n !in excluded && n in done then Named(incoming, n) else Named(outgoing, n))
  }

  lemma CopyStep(before: seq<Header>, incoming: seq<Header>, outgoing: seq<Header>,
                 excluded: seq<string>, done: seq<string>, name: string)
    requires CopiedSoFar(before, incoming, outgoing, excluded, done)
    ensures name !in excluded ==>
      CopiedSoFar(RemoveNamed(before, name) + Named(incoming, name), incoming, outgoing, excluded, done + [name])
    ensures name in excluded ==> CopiedSoFar(before, incoming, outgoing, excluded, done + [name])
  {
    forall n ensures n in done + [name] <==> n in done || n == name
    {
    }
    if name !in excluded {
      forall n ensures Named(RemoveNamed(before, name) + Named(incoming, name), n) ==
        (if n !in excluded && n in done + [name] then Named(incoming, n) else Named(outgoing, n))
      {
        ReplaceNamed(before, incoming, name, n);
      }
    }
  }

  lemma CopyDone(result: seq<Header>, incoming: seq<Header>, outgoing: seq<Header>, excluded: seq<string>)
    requires CopiedSoFar(result, incoming, outgoing, excluded, Names(incoming))
    ensures forall n :: Named(result, n) == Copied(incoming, outgoing, excluded, n)
  {
    forall n ensures Named(result, n) == Copied(incoming, outgoing, excluded, n)
    {
      NamesComplete(incoming, n);
    }
  }

  /** One round of the copy loop: the name `name`, unless excluded, is replaced by the incoming headers of that name. */
  method CopyName(result: seq<Header>, incoming: seq<Header>, outgoing: seq<Header>, excluded: seq<string>,
                  ghost done: seq<string>, name: string) returns (r: seq<Header>)
    requires CopiedSoFar(result, incoming, outgoing, excluded, done)
    ensures CopiedSoFar(r, incoming, outgoing, excluded, done + [name])
  {
    CopyStep(result, incoming, outgoing, excluded, done, name);
    r := result;
    if name !in excluded {
      r := AddHeaders(RemoveNamed(result, name), Named(incoming, name));
    }
  }

  /**
   * The header-copying loop of copyResponseHeaders, copyRequestHeaders and copyAckHeaders:
   * every header name of `incoming` that is not excluded is removed from `outgoing`
   * and replaced by all the incoming headers of that name.
   */
  method CopyHeaders(incoming: seq<Header>, outgoing: seq<Header>, excluded: seq<string>) returns (result: seq<Header>)
    ensures forall n :: Named(result, n) == Copied(incoming, outgoing, excluded, n)
  {
    var headerNames := Names(incoming);
    result := outgoing;
    var i := 0;
    while i < |headerNames|
      invariant 0 <= i <= |headerNames|
      invariant CopiedSoFar(result, incoming, outgoing, excluded, headerNames[..i])
    {
      var name := headerNames[i];
      result := CopyName(result, incoming, outgoing, excluded, headerNames[..i], name);
      assert headerNames[..i + 1] == headerNames[..i] + [name];
      i := i + 1;
    }
    assert headerNames[..i] == headerNames;
    CopyDone(result, incoming, outgoing, excluded);
  }

  // ---------------------------------------------------------------- Original-Dialog-ID

  /** The derived Original-Dialog-ID of a request that does not carry one. */
  function DerivedDialogId(req: Request): string
  {
    CALL_ID_EQ + req.callId + SEMI_TO_TAG_EQ + req.toTag.GetOr("0") + SEMI_FROM_TAG_EQ + JavaString(req.fromTag)
  }

  /**
   * getCreateOriginalDialogId: the P-Original-Dialog-ID value of the request, derived
   * from Call-ID and tags (and stored on the request) when the header is missing.
   */
  function GetCreateOriginalDialogId(req: Request): (r: (string, Request))
    ensures HeaderValue(req.headers, P_ORIGINAL_DIALOG_ID).Some? ==>
      r == (HeaderValue(req.headers, P_ORIGINAL_DIALOG_ID).value, req)
    ensures HeaderValue(req.headers, P_ORIGINAL_DIALOG_ID).None? ==>
      r.0 == DerivedDialogId(req) &&
      r.1 == req.(headers := SetHeader(req.headers, (P_ORIGINAL_DIALOG_ID, r.0)))
  {
    var present := HeaderValue(req.headers, P_ORIGINAL_DIALOG_ID);
    if present.Some? then (present.value, req)
    else
      var value := CALL_ID_EQ + req.callId + SEMI_TO_TAG_EQ + req.toTag.GetOr("0") + SEMI_FROM_TAG_EQ + JavaString(req.fromTag);
      (value, req.(headers := SetHeader(req.headers, (P_ORIGINAL_DIALOG_ID, value))))
  }

  /** Asking twice gives the same identifier and leaves the request as the first call left it. */
  lemma OriginalDialogIdStable(req: Request)
    ensures GetCreateOriginalDialogId(GetCreateOriginalDialogId(req).1) == GetCreateOriginalDialogId(req)
  {
    if HeaderValue(req.headers, P_ORIGINAL_DIALOG_ID).None? {
      SetHeaderValue(req.headers, (P_ORIGINAL_DIALOG_ID, DerivedDialogId(req)));
    }
  }

  // ---------------------------------------------------------------- body, To tag, Contact

  /** The body is copied only when the incoming Content-Length is positive. */
  function CopiedBody(incoming: seq<char>, outgoing: seq<char>): (r: seq<char>)
    ensures |incoming| > 0 ==> r == incoming
    ensures |incoming| == 0 ==> r == outgoing
  {
    if |incoming| > 0 then incoming else outgoing
  }

  /**
   * The To tag of a passed-on response: a tag is added only when there is none and the
   * dialog is a server dialog with no state yet or in the early state; the dialog's local
   * tag is reused when it has one, otherwise `generated` (a blank random tag) is used.
   */
  function ResponseToTag(toTag: Option<string>, state: Option<DialogState>, isServer: bool,
                         localTag: Option<string>, generated: string): (r: Option<string>)
    ensures toTag.Some? ==> r == toTag
    ensures r != toTag <==> toTag.None? && isServer && (state.None? || state == Some(Early))
    ensures r != toTag && localTag.Some? ==> r == localTag
    ensures r != toTag && localTag.None? ==> r == Some(generated)
  {
    if toTag.None? && ((state.None? || state == Some(Early)) && isServer) then
      if localTag.Some? then localTag else Some(generated)
    else toTag
  }

  /**
   * The Contact of a passed-on response: set only when the incoming response has one;
   * a 3xx passes the incoming Contact on, every other status gets the broker's.
   */
  function ResponseContact(incoming: Response, outgoing: seq<Header>, brokerContact: string): (r: seq<Header>)
    ensures HeaderValue(incoming.headers, CONTACT).None? ==> r == outgoing
    ensures HeaderValue(incoming.headers, CONTACT).Some? ==>
      HeaderValue(r, CONTACT) ==
        if MULTIPLE_CHOICES <= incoming.status < BAD_REQUEST then HeaderValue(incoming.headers, CONTACT)
        else Some(brokerContact)
  {
    var c := HeaderValue(incoming.headers, CONTACT);
    if c.None? then outgoing
    else
      var h := if MULTIPLE_CHOICES <= incoming.status < BAD_REQUEST then (CONTACT, c.value) else (CONTACT, brokerContact);
      SetHeaderValue(outgoing, h);
      SetHeader(outgoing, h)
  }

  /** copyResponseHeaders: headers, then body, then To tag, then Contact. */
  method CopyResponseHeaders(incoming: Response, outgoing: Response, dialogState: Option<DialogState>,
                             isServerDialog: bool, localTag: Option<string>, generatedTag: string,
                             brokerContact: string) returns (r: Response)
    ensures r.status == outgoing.status && r.cseqMethod == outgoing.cseqMethod
    ensures forall n :: n != CONTACT ==> Named(r.headers, n) == Copied(incoming.headers, outgoing.headers, EXCLUDED_RESPONSE_HEADERS, n)
    ensures r.body == CopiedBody(incoming.body, outgoing.body)
    ensures r.toTag == ResponseToTag(outgoing.toTag, dialogState, isServerDialog, localTag, generatedTag)
    ensures HeaderValue(incoming.headers, CONTACT).None? ==> Named(r.headers, CONTACT) == Named(outgoing.headers, CONTACT)
    ensures HeaderValue(incoming.headers, CONTACT).Some? ==>
      HeaderValue(r.headers, CONTACT) ==
        if MULTIPLE_CHOICES <= incoming.status < BAD_REQUEST then HeaderValue(incoming.headers, CONTACT)
        else Some(brokerContact)
  {
    var hs := CopyHeaders(incoming.headers, outgoing.headers, EXCLUDED_RESPONSE_HEADERS);
    var body := CopiedBody(incoming.body, outgoing.body);
    var toTag := ResponseToTag(outgoing.toTag, dialogState, isServerDialog, localTag, generatedTag);
    var withContact := ResponseContact(incoming, hs, brokerContact);
    forall n | n != CONTACT ensures Named(withContact, n) == Named(hs, n) {
      if HeaderValue(incoming.headers, CONTACT).Some? {
        var c := HeaderValue(incoming.headers, CONTACT).value;
        var h := if MULTIPLE_CHOICES <= incoming.status < BAD_REQUEST then (CONTACT, c) else (CONTACT, brokerContact);
        NamedAppend(RemoveNamed(hs, CONTACT), [h], n);
        NamedRemoved(hs, CONTACT, n);
      }
    }
    r := outgoing.(headers := withContact, body := body, toTag := toTag);
  }

  /**
   * copyRequestHeaders: headers, then body, then always the broker's Contact. Max-Forwards
   * is not excluded, so the incoming request's value replaces the outgoing one.
   */
  method CopyRequestHeaders(incoming: Request, outgoing: Request, brokerContact: string) returns (r: Request)
    ensures r == outgoing.(headers := r.headers, body := r.body, maxForwards := incoming.maxForwards)
    ensures forall n :: n != CONTACT ==> Named(r.headers, n) == Copied(incoming.headers, outgoing.headers, EXCLUDED_REQUEST_HEADERS, n)
    ensures r.body == CopiedBody(incoming.body, outgoing.body)
    ensures Named(r.headers, CONTACT) == [(CONTACT, brokerContact)]
  {
    var hs := CopyHeaders(incoming.headers, outgoing.headers, EXCLUDED_REQUEST_HEADERS);
    var withContact := SetHeader(hs, (CONTACT, brokerContact));
    SetHeaderValue(hs, (CONTACT, brokerContact));
    forall n | n != CONTACT ensures Named(withContact, n) == Named(hs, n) {
      NamedAppend(RemoveNamed(hs, CONTACT), [(CONTACT, brokerContact)], n);
      NamedRemoved(hs, CONTACT, n);
    }
    r := outgoing.(headers := withContact, body := CopiedBody(incoming.body, outgoing.body), maxForwards := incoming.maxForwards);
  }

  /**
   * copyAckHeaders: headers, then body, then the broker's Contact only if the incoming ACK
   * had a Contact; Max-Forwards is copied from the incoming ACK as well.
   */
  method CopyAckHeaders(incoming: Request, outgoing: Request, brokerContact: string) returns (r: Request)
    ensures r == outgoing.(headers := r.headers, body := r.body, maxForwards := incoming.maxForwards)
    ensures forall n :: n != CONTACT ==> Named(r.headers, n) == Copied(incoming.headers, outgoing.headers, EXCLUDED_ACK_HEADERS, n)
    ensures r.body == CopiedBody(incoming.body, outgoing.body)
    ensures HeaderValue(incoming.headers, CONTACT).Some? ==> Named(r.headers, CONTACT) == [(CONTACT, brokerContact)]
    ensures HeaderValue(incoming.headers, CONTACT).None? ==> Named(r.headers, CONTACT) == Named(outgoing.headers, CONTACT)
  {
    var hs := CopyHeaders(incoming.headers, outgoing.headers, EXCLUDED_ACK_HEADERS);
    var withContact := hs;
    if HeaderValue(incoming.headers, CONTACT).Some? {
      withContact := SetHeader(hs, (CONTACT, brokerContact));
      SetHeaderValue(hs, (CONTACT, brokerContact));
      forall n | n != CONTACT ensures Named(withContact, n) == Named(hs, n) {
        NamedAppend(RemoveNamed(hs, CONTACT), [(CONTACT, brokerContact)], n);
        NamedRemoved(hs, CONTACT, n);
      }
    }
    r := outgoing.(headers := withContact, body := CopiedBody(incoming.body, outgoing.body), maxForwards := incoming.maxForwards);
  }

  // ---------------------------------------------------------------- INVITE builder

  /** The process-wide CSeq counter (`sequenceNumber`), starting at 0. */
  class SequenceNumber {
    var value: nat

    constructor ()
      ensures value == 0
    {
      value := 0;
    }

    /** `incrementAndGet`: every number handed out is larger than all earlier ones. */
    method IncrementAndGet() returns (n: nat)
      modifies this
      ensures n == old(value) + 1 && value == n
    {
      value := value + 1;
      n := value;
    }
  }

  /**
   * createInvite: a new INVITE with the incoming request URI, From and To, a blank
   * Call-ID and CSeq, no Via, the copied headers and body, the broker's Contact, and
   * exactly the given Route headers. It is built with Max-Forwards 70, but Max-Forwards
   * is not an excluded header, so the copy replaces it with the incoming request's value.
   */
  method CreateInvite(incoming: Request, routes: seq<Route>, callId: string, cseq: nat, brokerContact: string)
    returns (invite: Request)
    ensures invite.meth == INVITE && invite.requestUri == incoming.requestUri && invite.callId == callId
    ensures invite.fromTag == incoming.fromTag && invite.toTag == incoming.toTag
    ensures invite.cseq == cseq && invite.maxForwards == incoming.maxForwards
    ensures invite.vias == [] && invite.routes == routes
    ensures Named(invite.headers, CONTACT) == [(CONTACT, brokerContact)]
    ensures forall n :: n != CONTACT && n !in EXCLUDED_REQUEST_HEADERS ==> Named(invite.headers, n) == Named(incoming.headers, n)
  {
    var contentType := HeaderValue(incoming.headers, CONTENT_TYPE);
    var blank := Request(INVITE, incoming.requestUri, callId, incoming.fromTag, incoming.toTag, cseq,
                         DEFAULT_MAX_FORWARDS, [], [], [], []);
    if contentType.Some? {
      blank := blank.(headers := [(CONTENT_TYPE, contentType.value)], body := incoming.body);
    }
    invite := CopyRequestHeaders(incoming, blank, brokerContact);
    forall n | n != CONTACT && n !in EXCLUDED_REQUEST_HEADERS ensures Named(invite.headers, n) == Named(incoming.headers, n) {
      HeaderValueOfNamed(incoming.headers, CONTENT_TYPE);
      if n == CONTENT_TYPE && Named(incoming.headers, n) == [] {
        assert Named(blank.headers, n) == [];
      }
      if n != CONTENT_TYPE && contentType.Some? {
        assert Named(blank.headers, n) == [];
      }
    }
    invite := invite.(routes := routes);
  }
}

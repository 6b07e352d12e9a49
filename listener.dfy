/**
 * `SipMessageListener`: the entry point of every SIP stack event. It sorts
 * incoming requests into the three kinds of session (orchestrated,
 * auxiliary, ping), finds the session an event belongs to or creates it in
 * the registry, and hands the event to that session's queue. Requests it
 * cannot place get an immediate stateless error response.
 */
module Listener {
  import opened Wrappers
  import opened Sip
  import opened Stack
  import opened Registry
  import opened Handlers
  import MessageUtils

  const X_SERVICEKEY := "x-servicekey"
  const ORIG := "orig"
  const TERM := "term"
  const X_MRF := "x-mrf"
  const X_ICA := "x-ica"
  const ONLY_SIP_URI := "Only SIP URI supported in OPTIONS Request URI"
  const MISSING_ORCHESTRATION_DATA := "Missing orchestration data in request"

  /** `OrchestratedHeaderInfo`: what an orchestrated session is created from. */
  datatype HeaderInfo = HeaderInfo(sessionId: string, serviceKey: string, isOriginating: bool)

  /** The session the registry holds under a key, by kind and what it was created from. */
  datatype SessionKind =
    | Orchestrated(info: HeaderInfo)
    | Auxiliary(callId: string)
    | Ping(user: string)

  /** `isAuxiliarySession`: an `x-mrf` or an `x-ica` header whose value is exactly "true". */
  predicate IsAuxiliarySession(req: Request)
  {
    HeaderIsTrue(req.headers, X_MRF) || HeaderIsTrue(req.headers, X_ICA)
  }

  /** A Route whose URI carries a service key together with `orig` or `term`. */
  predicate Qualifies(route: Route)
  {
    var ps := route.uri.Params();
    ParamValue(ps, X_SERVICEKEY).Some? && (ParamValue(ps, ORIG).Some? || ParamValue(ps, TERM).Some?)
  }

  /** The header info a qualifying Route gives: originating exactly when `orig` is present. */
  function InfoFrom(route: Route, pOdid: string): HeaderInfo
    requires Qualifies(route)
  {
    var ps := route.uri.Params();
    HeaderInfo(pOdid, ParamValue(ps, X_SERVICEKEY).value, ParamValue(ps, ORIG).Some?)
  }

  /** The position of the first qualifying Route, `|routes|` when none qualifies. */
  function FirstQualifying(routes: seq<Route>): (n: nat)
    ensures n <= |routes|
    ensures forall k :: 0 <= k < n ==> !Qualifies(routes[k])
    ensures n < |routes| ==> Qualifies(routes[n])
  {
    if |routes| == 0 || Qualifies(routes[0]) then 0 else 1 + FirstQualifying(routes[1..])
  }

  /**
   * The orchestration data of an INVITE: that of its first qualifying
   * Route, none when no Route qualifies. Routes without a service key, and
   * those with one but with neither `orig` nor `term`, are passed over.
   */
  function HeaderInfoOf(routes: seq<Route>, pOdid: string): (r: Option<HeaderInfo>)
    ensures r.None? <==> forall i :: 0 <= i < |routes| ==> !Qualifies(routes[i])
    ensures var n := FirstQualifying(routes);
      n < |routes| ==> r == Some(InfoFrom(routes[n], pOdid))
  {
    if |routes| == 0 then None
    else if Qualifies(routes[0]) then Some(InfoFrom(routes[0], pOdid))
    else
      assert forall i :: 1 <= i < |routes| ==> routes[i] == routes[1..][i - 1];
      HeaderInfoOf(routes[1..], pOdid)
  }

  /** The session id of the info is always the Original-Dialog-ID it was read for. */
  lemma {:induction false} HeaderInfoKeepsId(routes: seq<Route>, pOdid: string)
    ensures HeaderInfoOf(routes, pOdid).Some? ==> HeaderInfoOf(routes, pOdid).value.sessionId == pOdid
  {
    if |routes| > 0 && !Qualifies(routes[0]) {
      HeaderInfoKeepsId(routes[1..], pOdid);
    }
  }

  /**
   * `readHeaderInfo`: the Route headers are read in order and the first
   * qualifying one gives the info; none is the ParseException "Missing
   * orchestration data in request".
   */
  method ReadHeaderInfo(req: Request, pOdid: string) returns (r: Option<HeaderInfo>)
    ensures r == HeaderInfoOf(req.routes, pOdid)
  {
    var i := 0;
    while i < |req.routes|
      invariant 0 <= i <= |req.routes|
      invariant HeaderInfoOf(req.routes[i..], pOdid) == HeaderInfoOf(req.routes, pOdid)
    {
      var route := req.routes[i];
      var ps := route.uri.Params();
      var serviceKey := ParamValue(ps, X_SERVICEKEY);
      if serviceKey.Some? {
        var orig := ParamValue(ps, ORIG);
        var term := ParamValue(ps, TERM);
        if orig.Some? || term.Some? {
          return Some(HeaderInfo(pOdid, serviceKey.value, orig.Some?));
        }
      }
      assert req.routes[i..][1..] == req.routes[i + 1..];
      i := i + 1;
    }
    r := None;
  }

  /** The listener never drops or replaces a session: every key keeps what it had. */
  ghost predicate Keeps(before: map<string, SessionKind>, after: map<string, SessionKind>)
  {
    forall k :: k in before ==> k in after && after[k] == before[k]
  }

  class BrokerListener {
    const registry: SessionManager<SessionKind>
    /** Every event handed to a session's queue, with the key of that session, in order. */
    var delivered: seq<(string, Event)>

    constructor (reg: SessionManager<SessionKind>)
      ensures registry == reg && delivered == []
    {
      registry := reg;
      delivered := [];
    }

    /** `enqueueEvent`: the event joins the queue of the session under `key`. */
    method Deliver(key: string, ev: Event)
      modifies this`delivered
      ensures delivered == old(delivered) + [(key, ev)]
    {
      delivered := delivered + [(key, ev)];
    }

    /**
     * `sendImmediateErrorResponse`: a stateless response to the request, a
     * failure to send only logged.
     */
    static method RefuseRequest(status: int, reason: string, net: Net)
      modifies net`log
      ensures net.log == old(net.log) + Accepted(net.broken, Stateless, Resp(status, reason))
    {
      var _ := net.Send(Stateless, Resp(status, reason));
    }

    /**
     * `processAuxiliarySession`: an auxiliary INVITE whose Call-ID already
     * has a session is a retransmission and is dropped; otherwise an
     * auxiliary session is put under the Call-ID and gets the event.
     */
    method ProcessAuxiliarySession(ev: Event)
      requires ev.RequestEvent?
      modifies this`delivered, registry
      ensures var callId := ev.req.callId;
        && (callId in old(registry.sessions) ==> registry.sessions == old(registry.sessions) && delivered == old(delivered))
        && (callId !in old(registry.sessions) ==>
              && registry.sessions == old(registry.sessions)[callId := Auxiliary(callId)]
              && delivered == old(delivered) + [(callId, ev)])
    {
      var callId := ev.req.callId;
      var found := registry.FindSession(callId);
      if found.Some? {
        return;
      }
      registry.Put(callId, Auxiliary(callId));
      Deliver(callId, ev);
    }

    /**
     * `processOrchestratedSession`: the INVITE's Original-Dialog-ID (made up
     * and added to the request when missing) names its session. An existing
     * session gets the event; otherwise the Route headers must give the
     * orchestration data, and a session created from it gets the event; when
     * they do not, the INVITE gets 400 and no session is made.
     */
    method ProcessOrchestratedSession(ev: Event, net: Net)
      requires ev.RequestEvent?
      modifies this`delivered, registry, net`log
      ensures var (pOdid, req) := MessageUtils.GetCreateOriginalDialogId(ev.req);
        var info := HeaderInfoOf(ev.req.routes, pOdid);
        && (pOdid in old(registry.sessions) ==>
              && registry.sessions == old(registry.sessions) && net.log == old(net.log)
              && delivered == old(delivered) + [(pOdid, ev.(req := req))])
        && (pOdid !in old(registry.sessions) && info.None? ==>
              && registry.sessions == old(registry.sessions) && delivered == old(delivered)
              && net.log == old(net.log) + Accepted(net.broken, Stateless, Resp(BAD_REQUEST, MISSING_ORCHESTRATION_DATA)))
        && (pOdid !in old(registry.sessions) && info.Some? ==>
              && registry.sessions == old(registry.sessions)[pOdid := Orchestrated(info.value)]
              && info.value.sessionId == pOdid && net.log == old(net.log)
              && delivered == old(delivered) + [(pOdid, ev.(req := req))])
    {
      var (pOdid, req) := MessageUtils.GetCreateOriginalDialogId(ev.req);
      var found := registry.FindSession(pOdid);
      if found.None? {
        var info := ReadHeaderInfo(req, pOdid);
        HeaderInfoKeepsId(req.routes, pOdid);
        if info.None? {
          RefuseRequest(BAD_REQUEST, MISSING_ORCHESTRATION_DATA, net);
          return;
        }
        var _ := registry.ComputeIfAbsent(info.value.sessionId, Orchestrated(info.value));
      }
      Deliver(pOdid, ev.(req := req));
    }

    /** `processInvite`: auxiliary INVITEs and orchestrated ones go their own ways. */
    method ProcessInvite(ev: Event, net: Net)
      requires ev.RequestEvent?
      modifies this`delivered, registry, net`log
      ensures Keeps(old(registry.sessions), registry.sessions)
      ensures |old(delivered)| <= |delivered| <= |old(delivered)| + 1 && delivered[..|old(delivered)|] == old(delivered)
      ensures IsAuxiliarySession(ev.req) ==> net.log == old(net.log)
      ensures IsAuxiliarySession(ev.req) ==>
        ev.req.callId !in old(registry.sessions) ==> delivered == old(delivered) + [(ev.req.callId, ev)]
      ensures !IsAuxiliarySession(ev.req) ==>
        var pOdid := MessageUtils.GetCreateOriginalDialogId(ev.req).0;
        (delivered != old(delivered) ==> delivered[|old(delivered)|].0 == pOdid && pOdid in registry.sessions)
    {
      if IsAuxiliarySession(ev.req) {
        ProcessAuxiliarySession(ev);
      } else {
        ProcessOrchestratedSession(ev, net);
      }
    }

    /**
     * `processOptionsRequest`: an OPTIONS whose request URI is not a SIP
     * URI gets 400. One for a URI user that already has a session is
     * ignored; otherwise a ping session is put under the user and gets the
     * event.
     */
    method ProcessOptionsRequest(ev: Event, net: Net)
      requires ev.RequestEvent?
      modifies this`delivered, registry, net`log
      ensures !ev.req.requestUri.SipUri? ==>
        && net.log == old(net.log) + Accepted(net.broken, Stateless, Resp(BAD_REQUEST, ONLY_SIP_URI))
        && registry.sessions == old(registry.sessions) && delivered == old(delivered)
      ensures ev.req.requestUri.SipUri? ==>
        var user := ev.req.requestUri.user;
        && net.log == old(net.log)
        && (user in old(registry.sessions) ==> registry.sessions == old(registry.sessions) && delivered == old(delivered))
        && (user !in old(registry.sessions) ==>
              && registry.sessions == old(registry.sessions)[user := Ping(user)]
              && delivered == old(delivered) + [(user, ev)])
    {
      if !ev.req.requestUri.SipUri? {
        RefuseRequest(BAD_REQUEST, ONLY_SIP_URI, net);
        return;
      }
      var user := ev.req.requestUri.user;
      var found := registry.FindSession(user);
      if found.Some? {
        return;
      }
      registry.Put(user, Ping(user));
      Deliver(user, ev);
    }

    /**
     * `processCommonDialogRequest`: any other request belongs to the session
     * its dialog's application data names. A request outside a dialog, or a
     * dialog without application data, is a NullPointerException.
     */
    method ProcessCommonDialogRequest(ev: Event) returns (fault: Option<Fault>)
      requires ev.RequestEvent?
      modifies this`delivered
      ensures ev.dialog.None? || ev.app.None? ==> fault == Some(RuntimeFault) && delivered == old(delivered)
      ensures ev.dialog.Some? && ev.app.Some? ==> fault.None? && delivered == old(delivered) + [(ev.app.value.session, ev)]
    {
      if ev.dialog.None? || ev.app.None? {
        return Some(RuntimeFault);
      }
      Deliver(ev.app.value.session, ev);
      fault := None;
    }

    /** `processRequest`: INVITE, OPTIONS and the rest each have their own path. */
    method ProcessRequest(ev: Event, net: Net) returns (fault: Option<Fault>)
      requires ev.RequestEvent?
      modifies this`delivered, registry, net`log
      ensures Keeps(old(registry.sessions), registry.sessions)
      ensures |old(delivered)| <= |delivered| <= |old(delivered)| + 1 && delivered[..|old(delivered)|] == old(delivered)
      ensures fault.Some? ==> fault == Some(RuntimeFault) && ev.req.meth != INVITE && ev.req.meth != OPTIONS
      ensures ev.req.meth != INVITE && ev.req.meth != OPTIONS ==>
        registry.sessions == old(registry.sessions) && net.log == old(net.log)
    {
      fault := None;
      if ev.req.meth == INVITE {
        ProcessInvite(ev, net);
      } else if ev.req.meth == OPTIONS {
        ProcessOptionsRequest(ev, net);
      } else {
        fault := ProcessCommonDialogRequest(ev);
      }
    }

    /**
     * `processResponse`: a retransmitted response is dropped, after its
     * dialog's Call-ID is read for the log (a NullPointerException without
     * a dialog). Any other goes to the session its client transaction's
     * application data names; without application data it is a
     * NullPointerException.
     */
    method ProcessResponse(ev: Event) returns (fault: Option<Fault>)
      requires ev.ResponseEvent?
      modifies this`delivered
      ensures ev.retransmission ==> delivered == old(delivered) && (fault.Some? <==> ev.dialog.None?)
      ensures !ev.retransmission && ev.app.None? ==> fault == Some(RuntimeFault) && delivered == old(delivered)
      ensures !ev.retransmission && ev.app.Some? ==> fault.None? && delivered == old(delivered) + [(ev.app.value.session, ev)]
      ensures fault.Some? ==> fault == Some(RuntimeFault)
    {
      if ev.retransmission {
        return if ev.dialog.None? then Some(RuntimeFault) else None;
      }
      if ev.app.None? {
        return Some(RuntimeFault);
      }
      Deliver(ev.app.value.session, ev);
      fault := None;
    }

    /**
     * `processTimeout`: a timed-out transaction without application data is
     * dropped; otherwise the event goes to the session the data names.
     */
    method ProcessTimeout(ev: Event)
      requires ev.TimeoutEvent?
      modifies this`delivered
      ensures ev.app.None? ==> delivered == old(delivered)
      ensures ev.app.Some? ==> delivered == old(delivered) + [(ev.app.value.session, ev)]
    {
      if ev.app.Some? {
        Deliver(ev.app.value.session, ev);
      }
    }

    /**
     * `processDialogTimeout` and `processDialogTerminated`: the event goes
     * to the session the dialog's application data names; a dialog without
     * it is a NullPointerException.
     */
    method ProcessDialogEvent(ev: Event) returns (fault: Option<Fault>)
      requires ev.DialogTimeoutEvent? || ev.DialogTerminatedEvent?
      modifies this`delivered
      ensures ev.dialogApp.None? ==> fault == Some(RuntimeFault) && delivered == old(delivered)
      ensures ev.dialogApp.Some? ==> fault.None? && delivered == old(delivered) + [(ev.dialogApp.value.session, ev)]
    {
      if ev.dialogApp.None? {
        return Some(RuntimeFault);
      }
      Deliver(ev.dialogApp.value.session, ev);
      fault := None;
    }

    /**
     * Every listener callback at once. Whatever the event, no session is
     * dropped or replaced, at most one event is queued, and the only fault
     * that escapes is a NullPointerException. Only requests create sessions
     * or send anything; I/O errors and transaction ends change nothing.
     */
    method ProcessEvent(ev: Event, net: Net) returns (fault: Option<Fault>)
      modifies this`delivered, registry, net`log
      ensures Keeps(old(registry.sessions), registry.sessions)
      ensures |old(delivered)| <= |delivered| <= |old(delivered)| + 1 && delivered[..|old(delivered)|] == old(delivered)
      ensures fault.Some? ==> fault == Some(RuntimeFault)
      ensures !ev.RequestEvent? ==> registry.sessions == old(registry.sessions) && net.log == old(net.log)
      ensures ev.OtherEvent? ==> fault.None? && delivered == old(delivered)
    {
      fault := None;
      match ev {
        case RequestEvent(_, _, _, _) =>
          fault := ProcessRequest(ev, net);
        case ResponseEvent(_, _, _, _) =>
          fault := ProcessResponse(ev);
        case TimeoutEvent(_, _, _, _) =>
          ProcessTimeout(ev);
        case DialogTimeoutEvent(_, _) =>
          fault := ProcessDialogEvent(ev);
        case DialogTerminatedEvent(_, _) =>
          fault := ProcessDialogEvent(ev);
        case OtherEvent =>
      }
    }
  }
}

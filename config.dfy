/**
 * Orchestration configuration: a ruleset per service key lists the services to
 * chain, in order, and says how an error response is handled; a service
 * balances its endpoints round-robin.
 */
module Config {
  import opened Wrappers
  import opened Sip

  /** What to do when an AS answers with an error: drop the AS and go on, or stop chaining. */
  datatype ErrorLogic = SKIP | STOP

  /**
   * The physical address of a service. `route` is the Route header built from
   * `uri` with the loose-routing parameter `lr` set (RFC 3261 section 19.1.1).
   */
  datatype Endpoint = Endpoint(uri: Uri, asAlias: string, route: Route)

  /**
   * `setLrParam` on a SIP URI's parameter list: an `lr` already present is given
   * the empty value where it stands, otherwise `lr` is added at the end.
   */
  function SetLr(ps: seq<(string, string)>): (r: seq<(string, string)>)
    ensures exists i :: 0 <= i < |r| && r[i] == ("lr", "")
    ensures |ps| <= |r| <= |ps| + 1
    ensures forall i :: 0 <= i < |ps| && ps[i].0 != "lr" ==> r[i] == ps[i]
    ensures forall i :: 0 <= i < |r| && r[i].0 == "lr" ==> r[i].1 == ""
    ensures (exists i :: 0 <= i < |ps| && ps[i].0 == "lr") <==> |r| == |ps|
  {
    if exists i :: 0 <= i < |ps| && ps[i].0 == "lr" then
      var r := seq(|ps|, i requires 0 <= i < |ps| => if ps[i].0 == "lr" then ("lr", "") else ps[i]);
      var k :| 0 <= k < |ps| && ps[k].0 == "lr";
      assert r[k] == ("lr", "");
      r
    else
      var r := ps + [("lr", "")];
      assert r[|ps|] == ("lr", "");
      r
  }

  /**
   * The Endpoint constructor. The Route URI is cast to a SIP URI before `lr` is
   * set, so any other scheme makes the constructor fail (None).
   */
  function NewEndpoint(uri: Uri, asAlias: string): (e: Option<Endpoint>)
    ensures e.Some? <==> uri.SipUri?
    ensures e.Some? ==> e.value.uri == uri && e.value.asAlias == asAlias
    ensures e.Some? ==> e.value.route.uri == SipUri(uri.user, uri.host, SetLr(uri.params))
  {
    match uri
    case SipUri(user, host, ps) => Some(Endpoint(uri, asAlias, Route(SipUri(user, host, SetLr(ps)))))
    case OtherUri(_, _) => None
  }

  // ---------------------------------------------------------------- round robin

  /** The cursor after a pick: one further, wrapping to 0 at the end of the list. */
  function Advance(n: nat, i: nat): (j: nat)
    requires i < n
    ensures j < n
    ensures j == if i + 1 < n then i + 1 else 0
  {
    if i + 1 == n then 0 else i + 1
  }

  /** The endpoints `k` successive picks return, starting with the cursor at `i`. */
  function Picks(eps: seq<Endpoint>, i: nat, k: nat): (r: seq<Endpoint>)
    requires i < |eps|
    ensures |r| == k
    decreases k
  {
    if k == 0 then [] else [eps[i]] + Picks(eps, Advance(|eps|, i), k - 1)
  }

  /** The cursor after `k` successive picks starting at `i`. */
  function Cursor(n: nat, i: nat, k: nat): (c: nat)
    requires i < n
    ensures c < n
    decreases k
  {
    if k == 0 then i else Cursor(n, Advance(n, i), k - 1)
  }

  /** Picks that do not reach the end of the list return a slice, and leave the cursor after it (wrapped). */
  lemma {:induction false} PicksSlice(eps: seq<Endpoint>, i: nat, k: nat)
    requires i < |eps| && i + k <= |eps|
    ensures Picks(eps, i, k) == eps[i..i + k]
    ensures Cursor(|eps|, i, k) == if i + k < |eps| then i + k else 0
    decreases k
  {
    if k > 0 {
      var n := |eps|;
      if i + 1 < n {
        PicksSlice(eps, i + 1, k - 1);
        assert eps[i..i + k] == [eps[i]] + eps[i + 1..i + k];
      } else {
        assert k == 1;
      }
    }
  }

  /** Picking `k1 + k2` times is picking `k1` times and then `k2` times from where the cursor is. */
  lemma {:induction false} PicksSplit(eps: seq<Endpoint>, i: nat, k1: nat, k2: nat)
    requires i < |eps|
    ensures Picks(eps, i, k1 + k2) == Picks(eps, i, k1) + Picks(eps, Cursor(|eps|, i, k1), k2)
    decreases k1
  {
    if k1 > 0 {
      PicksSplit(eps, Advance(|eps|, i), k1 - 1, k2);
    }
  }

  lemma RotationMultiset(eps: seq<Endpoint>, i: nat)
    requires i <= |eps|
    ensures multiset(eps[i..] + eps[..i]) == multiset(eps)
  {
    assert eps[..i] + eps[i..] == eps;
  }

  /** A full round of picks from cursor `i` is the endpoint list rotated to `i`. */
  lemma PicksRotate(eps: seq<Endpoint>, i: nat)
    requires i < |eps|
    ensures Picks(eps, i, |eps|) == eps[i..] + eps[..i]
  {
    var n := |eps|;
    PicksSplit(eps, i, n - i, i);
    PicksSlice(eps, i, n - i);
    if i > 0 {
      PicksSlice(eps, 0, i);
      assert eps[0..i] == eps[..i];
    }
    assert eps[i..n] == eps[i..];
  }

  /**
   * Fairness of the balancing: as many picks as there are endpoints, from any
   * cursor, return the endpoint list rotated to the cursor, so every endpoint
   * is used exactly once per round.
   */
  lemma PicksRound(eps: seq<Endpoint>, i: nat)
    requires i < |eps|
    ensures Picks(eps, i, |eps|) == eps[i..] + eps[..i]
    ensures multiset(Picks(eps, i, |eps|)) == multiset(eps)
  {
    PicksRotate(eps, i);
    RotationMultiset(eps, i);
  }

  /** An orchestrated service: an alias, whether it is external, and its endpoints. */
  class OrchestratedService {
    const alias: string
    const external: bool
    var endpoints: seq<Endpoint>
    /** The endpoint the next pick returns; kept within the list. */
    var lastEndpointIndex: nat

    ghost predicate Valid()
      reads this`endpoints, this`lastEndpointIndex
    {
      if |endpoints| == 0 then lastEndpointIndex == 0 else lastEndpointIndex < |endpoints|
    }

    constructor (alias: string, external: bool)
      ensures this.alias == alias && this.external == external
      ensures endpoints == [] && lastEndpointIndex == 0 && Valid()
    {
      this.alias := alias;
      this.external := external;
      endpoints := [];
      lastEndpointIndex := 0;
    }

    /** Adds an endpoint at the end and resets the cursor to the first endpoint. */
    method AddEndpoint(e: Endpoint)
      modifies this
      ensures endpoints == old(endpoints) + [e] && lastEndpointIndex == 0 && Valid()
    {
      endpoints := endpoints + [e];
      lastEndpointIndex := 0;
    }

    /**
     * The round-robin pick: the endpoint at the cursor, after which the cursor
     * moves on, wrapping at the end. A service without endpoints fails
     * (IndexOutOfBoundsException), here `None`.
     */
    method NextEndpoint() returns (r: Option<Endpoint>)
      requires Valid()
      modifies this`lastEndpointIndex
      ensures Valid()
      ensures |endpoints| == 0 ==> r.None? && lastEndpointIndex == old(lastEndpointIndex)
      ensures |endpoints| > 0 ==>
        r == Some(Picks(endpoints, old(lastEndpointIndex), 1)[0]) &&
        lastEndpointIndex == Advance(|endpoints|, old(lastEndpointIndex))
    {
      if |endpoints| == 0 {
        r := None;
        return;
      }
      r := Some(endpoints[lastEndpointIndex]);
      lastEndpointIndex := lastEndpointIndex + 1;
      if lastEndpointIndex == |endpoints| {
        lastEndpointIndex := 0;
      }
    }
  }

  /** The services of one service key, and how error responses are handled there. */
  class OrchestrationRuleset {
    const serviceKey: string
    var applications: seq<OrchestratedService>
    var responseToErrorHandling: map<int, ErrorLogic>
    var defaultRulesetHandling: ErrorLogic

    constructor (key: string)
      ensures serviceKey == key && applications == [] && responseToErrorHandling == map[]
      ensures defaultRulesetHandling == STOP
    {
      serviceKey := key;
      applications := [];
      responseToErrorHandling := map[];
      defaultRulesetHandling := STOP;
    }

    method AppendApplication(s: OrchestratedService)
      modifies this`applications
      ensures applications == old(applications) + [s]
    {
      applications := applications + [s];
    }

    /** Configures one status code; a later setting for the same code replaces the earlier one. */
    method AddErrorResponseHandling(response: int, handling: ErrorLogic)
      modifies this`responseToErrorHandling
      ensures responseToErrorHandling == old(responseToErrorHandling)[response := handling]
      ensures GetResponseHandling(response) == handling
      ensures forall c :: c != response ==> GetResponseHandling(c) == old(GetResponseHandling(c))
    {
      responseToErrorHandling := responseToErrorHandling[response := handling];
    }

    method SetDefaultErrorResponseHandling(handling: ErrorLogic)
      modifies this`defaultRulesetHandling
      ensures defaultRulesetHandling == handling
      ensures forall c :: c !in responseToErrorHandling ==> GetResponseHandling(c) == handling
    {
      defaultRulesetHandling := handling;
    }

    /** The handling configured for `response`, else the ruleset default. */
    function GetResponseHandling(response: int): (r: ErrorLogic)
      reads this
      ensures response in responseToErrorHandling ==> r == responseToErrorHandling[response]
      ensures response !in responseToErrorHandling ==> r == defaultRulesetHandling
    {
      if response in responseToErrorHandling then responseToErrorHandling[response] else defaultRulesetHandling
    }
  }
}

/**
 * The orchestrated session's context: the chain of back-to-back handlers
 * from the IM-SCF A leg through the services' ASs to the IM-SCF B leg, the
 * handler currently being set up, the pending dialogs and two flags.
 */
module Context {
  import opened Wrappers
  import opened Sip
  import opened Config
  import opened Handlers

  const IM_SCF_A := "IM-SCF:A"
  const IM_SCF_B := "IM-SCF:B"

  /** Every service of the ruleset can pick an endpoint (its list is never emptied). */
  ghost predicate RulesetReady(r: OrchestrationRuleset)
    reads r`applications, r.applications`endpoints, r.applications`lastEndpointIndex
  {
    forall j :: 0 <= j < |r.applications| ==> r.applications[j].Valid() && |r.applications[j].endpoints| > 0
  }

  /** Where a rollback resumes in the service list: just past the first service with that alias. */
  function ResumeIndex(services: seq<OrchestratedService>, alias: string): (k: nat)
    ensures k <= |services|
    ensures forall j :: 0 <= j < k - 1 ==> services[j].alias != alias
    ensures !(0 < k && services[k - 1].alias == alias) ==>
      k == |services| && forall j :: 0 <= j < |services| ==> services[j].alias != alias
    decreases |services|
  {
    if |services| == 0 then 0
    else if services[0].alias == alias then 1
    else 1 + ResumeIndex(services[1..], alias)
  }

  class SessionContext {
    /** The session id (the Original-Dialog-ID) and the service key's ruleset. */
    const key: string
    const ruleset: OrchestrationRuleset
    /** Every handler created for the session; a handler's reference-wrapper id is its index. */
    var handlers: seq<Handler>
    const imScfHandlerA: Handler
    var imScfHandlerB: Handler
    const firstAsHandler: Handler
    var currentHandler: Handler?
    var lastIncomingInvite: Option<Request>
    var byeInitiatedByCallingParty: bool
    var reliableResponseProcessing: bool
    var pendingDialogs: set<DialogId>
    /**
     * The last Via of the initial INVITE per Call-ID, as `findInitialInviteLastVia`
     * would answer it; that lookup is not part of this model.
     */
    const initialInviteVias: map<string, Via>
    /** The handlers from A to B along `next`. */
    ghost var chain: seq<Handler>

    /** `x` was created for this session: it sits at its own id in `handlers`. */
    predicate Has(x: Handler)
      reads this`handlers
    {
      HasIn(handlers, x)
    }

    static predicate HasIn(hs: seq<Handler>, x: Handler)
    {
      x.id < |hs| && hs[x.id] == x
    }

    /** Structural facts that hold for every handler ever created, in or out of the chain. */
    ghost predicate Valid()
      reads this`handlers, this`imScfHandlerB, this`currentHandler, handlers`next, handlers`prev, handlers`specialInfoSender
    {
      ValidHandlers(handlers, imScfHandlerA, imScfHandlerB, firstAsHandler, currentHandler, key)
    }

    /**
     * `Valid` on explicit values: ids are positions, A, B and the first AS have
     * their roles, and the current handler and every handler a handler refers
     * to were created for the session.
     */
    static ghost predicate ValidHandlers(hs: seq<Handler>, a: Handler, b: Handler, first: Handler, cur: Handler?,
                                         key: string)
      reads hs`next, hs`prev, hs`specialInfoSender
    {
      && (forall i :: 0 <= i < |hs| ==> hs[i].id == i && hs[i].session == key)
      && HasIn(hs, a) && HasIn(hs, b) && HasIn(hs, first)
      && a.role == ImScf(IM_SCF_A) && b.role == ImScf(IM_SCF_B) && first.role.As?
      && (cur == null || HasIn(hs, cur))
      && (forall i {:trigger Closed(hs, hs[i])} :: 0 <= i < |hs| ==> Closed(hs, hs[i]))
    }

    /** The handlers `h` refers to were created for the session. */
    static ghost predicate Closed(hs: seq<Handler>, h: Handler)
      reads h`next, h`prev, h`specialInfoSender
    {
      && (h.next != null ==> HasIn(hs, h.next))
      && (h.prev != null ==> HasIn(hs, h.prev))
      && (h.specialInfoSender != null ==> HasIn(hs, h.specialInfoSender))
    }

    /**
     * The chain is one path A, AS..., B: consecutive handlers point at each
     * other through `next` and `prev`, the ends are the two IM-SCF legs, every
     * handler in between is an AS, and A has nothing behind it. Ranks increase
     * along the path, so no handler occurs in it twice.
     */
    ghost predicate Chained()
      reads this`chain, this`handlers, this`imScfHandlerB, chain`next, chain`prev, chain`rank
    {
      ChainedHandlers(chain, handlers, imScfHandlerA, imScfHandlerB)
    }

    static ghost predicate ChainedHandlers(ch: seq<Handler>, hs: seq<Handler>, a: Handler, b: Handler)
      reads ch`next, ch`prev, ch`rank
    {
      && |ch| >= 3
      && ch[0] == a && ch[|ch| - 1] == b && a.prev == null
      && (forall i :: 0 <= i < |ch| ==> HasIn(hs, ch[i]))
      && (forall i {:trigger Step(ch[i], ch[i + 1])} :: 0 <= i < |ch| - 1 ==> Step(ch[i], ch[i + 1]))
      && (forall i :: 0 < i < |ch| - 1 ==> ch[i].role.As?)
    }

    /** `y` follows `x`: each points at the other, and `y` ranks higher. */
    static ghost predicate Step(x: Handler, y: Handler)
      reads x`next, y`prev, x`rank, y`rank
    {
      Link(x, y) && x.rank < y.rank
    }

    static predicate Link(x: Handler, y: Handler)
      reads x`next, y`prev
    {
      x.next == y && y.prev == x
    }

    ghost predicate CurrentInChain()
      reads this`currentHandler, this`chain
    {
      currentHandler == null || currentHandler in chain
    }

    /**
     * Links the IM-SCF legs with one AS per endpoint, in the order given:
     * the A and B legs first, then the ASs, which get the following ids.
     */
    constructor (key: string, ruleset: OrchestrationRuleset, endpoints: seq<Endpoint>,
                 initialInviteVias: map<string, Via>)
      requires |endpoints| > 0
      ensures Valid() && Chained() && CurrentInChain()
      ensures this.key == key && this.ruleset == ruleset && this.initialInviteVias == initialInviteVias
      ensures |chain| == |endpoints| + 2 && firstAsHandler == chain[1]
      ensures forall i :: 0 <= i < |endpoints| ==> chain[i + 1].role == As(endpoints[i])
      ensures forall k :: 0 <= k < |chain| ==> chain[k].handlerState == INITIAL
      ensures currentHandler == null && lastIncomingInvite.None? && pendingDialogs == {}
      ensures !byeInitiatedByCallingParty && !reliableResponseProcessing
    {
      this.key := key;
      this.ruleset := ruleset;
      this.initialInviteVias := initialInviteVias;
      var a, b, first, hs, ch := Assemble(endpoints, key);
      imScfHandlerA := a;
      imScfHandlerB := b;
      firstAsHandler := first;
      handlers := hs;
      chain := ch;
      currentHandler := null;
      lastIncomingInvite := None;
      byeInitiatedByCallingParty := false;
      reliableResponseProcessing := false;
      pendingDialogs := {};
    }

    /**
     * `loadAsHandlers` as the constructor runs it: one pick per service of the
     * ruleset, in order. A ruleset without services (IllegalArgumentException)
     * and a service without endpoints (an exception from the pick, after the
     * services before it moved their cursors) leave no session.
     */
    static method Load(key: string, ruleset: OrchestrationRuleset, initialInviteVias: map<string, Via>)
      returns (r: Option<SessionContext>)
      requires forall j :: 0 <= j < |ruleset.applications| ==> ruleset.applications[j].Valid()
      modifies ruleset.applications`lastEndpointIndex
      ensures forall j :: 0 <= j < |ruleset.applications| ==> ruleset.applications[j].Valid()
      ensures r.Some? <==>
        |ruleset.applications| > 0 && forall j :: 0 <= j < |ruleset.applications| ==> |ruleset.applications[j].endpoints| > 0
      ensures r.Some? ==> var c := r.value;
        && fresh(c) && c.Valid() && c.Chained() && c.CurrentInChain() && RulesetReady(ruleset)
        && c.key == key && c.ruleset == ruleset && c.initialInviteVias == initialInviteVias
        && |c.chain| == |ruleset.applications| + 2 && c.firstAsHandler == c.chain[1]
        && (forall i :: 0 <= i < |ruleset.applications| ==>
              c.chain[i + 1].role.As? && c.chain[i + 1].role.endpoint in ruleset.applications[i].endpoints)
        && (forall k :: 0 <= k < |c.chain| ==> c.chain[k].handlerState == INITIAL)
        && c.currentHandler == null && c.pendingDialogs == {} && c.lastIncomingInvite.None?
        && !c.byeInitiatedByCallingParty && !c.reliableResponseProcessing
    {
      var services := ruleset.applications;
      var picked := PickEndpoints(services, 0);
      if picked.None? || |picked.value| == 0 {
        return None;
      }
      var c := new SessionContext(key, ruleset, picked.value, initialInviteVias);
      forall i | 0 <= i < |services|
        ensures c.chain[i + 1].role.As? && c.chain[i + 1].role.endpoint in services[i].endpoints
      {
        assert c.chain[i + 1].role == As(picked.value[i]);
      }
      r := Some(c);
    }

    /**
     * The endpoint picks of the load and rollback loops: one `nextEndpoint` per
     * service from `from` on, in order. The first service without endpoints
     * ends the loop with a failure (an exception in the source), after the
     * services before it moved their cursors. When no service is listed twice,
     * each pick is the endpoint at its service's cursor, which then moves on.
     */
    static method PickEndpoints(services: seq<OrchestratedService>, from: nat) returns (r: Option<seq<Endpoint>>)
      requires from <= |services|
      requires forall j :: 0 <= j < |services| ==> services[j].Valid()
      modifies services`lastEndpointIndex
      ensures forall j :: 0 <= j < |services| ==> services[j].Valid()
      ensures r.Some? <==> forall j :: from <= j < |services| ==> |services[j].endpoints| > 0
      ensures r.Some? ==> |r.value| == |services| - from
      ensures r.Some? ==> forall k :: 0 <= k < |r.value| ==> r.value[k] in services[from + k].endpoints
      ensures Distinct(services) && r.Some? ==> forall k :: 0 <= k < |r.value| ==>
        Picked(services[from + k], r.value[k], old(services[from + k].lastEndpointIndex))
    {
      var eps: seq<Endpoint> := [];
      var i := from;
      while i < |services|
        invariant from <= i <= |services| && |eps| == i - from
        invariant forall j :: 0 <= j < |services| ==> services[j].Valid()
        invariant forall j :: from <= j < i ==> |services[j].endpoints| > 0
        invariant forall k :: 0 <= k < |eps| ==> eps[k] in services[from + k].endpoints
        invariant Distinct(services) ==> forall k :: 0 <= k < |eps| ==>
          Picked(services[from + k], eps[k], old(services[from + k].lastEndpointIndex))
        invariant Distinct(services) ==> forall j :: i <= j < |services| ==>
          services[j].lastEndpointIndex == old(services[j].lastEndpointIndex)
      {
        ghost var before := eps;
        label picking:
        var e := services[i].NextEndpoint();
        if e.None? {
          return None;
        }
        eps := eps + [e.value];
        if Distinct(services) {
          forall k | 0 <= k < |eps|
            ensures Picked(services[from + k], eps[k], old(services[from + k].lastEndpointIndex))
          {
            if k < |before| {
              assert services[from + k] != services[i];
              ghost var c := old(services[from + k].lastEndpointIndex);
              assert old@picking(Picked(services[from + k], before[k], c));
            }
          }
          forall j | i < j < |services|
            ensures services[j].lastEndpointIndex == old(services[j].lastEndpointIndex)
          {
            assert services[j] != services[i];
          }
        }
        i := i + 1;
      }
      r := Some(eps);
    }

    /** `e` was `s`'s pick with the cursor at `c`, and the cursor has moved on from `c`. */
    static ghost predicate Picked(s: OrchestratedService, e: Endpoint, c: nat)
      reads s
    {
      c < |s.endpoints| && e == Picks(s.endpoints, c, 1)[0] && s.lastEndpointIndex == Advance(|s.endpoints|, c)
    }

    static predicate Distinct(services: seq<OrchestratedService>)
    {
      forall i, j :: 0 <= i < j < |services| ==> services[i] != services[j]
    }

    /**
     * `rollbackAsHandlers`: the chain is kept up to `p` (the last AS that
     * succeeded); after it come fresh ASs, one per service that follows the
     * first service with `p`'s alias (none when no alias matches), each with
     * that service's next endpoint, and then a fresh IM-SCF B leg.
     */
    method RollbackAsHandlers(p: Handler)
      requires Valid() && RulesetReady(ruleset) && Has(p) && p.role.As?
      modifies this`handlers, this`imScfHandlerB, this`chain, p`next
      modifies ruleset.applications`lastEndpointIndex
      ensures Valid() && RulesetReady(ruleset)
      ensures var n0 := |old(handlers)|;
        var k := ResumeIndex(ruleset.applications, p.role.endpoint.asAlias);
        && |handlers| == n0 + |ruleset.applications| - k + 1 && handlers[..n0] == old(handlers)
        && imScfHandlerB == handlers[|handlers| - 1] && p.next == handlers[n0]
        && (forall h :: h in handlers[n0..] ==> fresh(h) && h.handlerState == INITIAL)
        && Serving(handlers[n0..|handlers| - 1], ruleset.applications[k..])
      ensures old(Chained()) && p in old(chain) ==>
        && Chained()
        && exists pos :: 0 < pos < |old(chain)| - 1 && old(chain)[pos] == p &&
             chain == old(chain)[..pos + 1] + handlers[|old(handlers)|..]
    {
      ghost var wasChained := Chained() && p in chain;
      var services := ruleset.applications;
      var k := ResumeIndex(services, p.role.endpoint.asAlias);
      var eps := PickReady(services, k);
      ghost var n0 := |handlers|;
      AppendTail(p, eps, services, k, wasChained);
      assert ruleset.applications == services && n0 == |old(handlers)|;
    }

    /** The handlers `h` refers to were created for the session. */
    lemma Around(h: Handler)
      requires Valid() && Has(h)
      ensures h.next != null ==> Has(h.next)
      ensures h.prev != null ==> Has(h.prev)
      ensures h.specialInfoSender != null ==> Has(h.specialInfoSender)
    {
      assert Closed(handlers, handlers[h.id]);
    }

    /** A handler listed for the session sits at its own id. */
    lemma Listed(h: Handler)
      requires Valid() && h in handlers
      ensures Has(h)
    {
    }

    /** The special INFO sender a handler's reference wrapper remembers is a handler of the session, or none. */
    method SetSpecialInfoSender(h: Handler, s: Handler?)
      requires Valid() && Has(h) && (s == null || Has(s))
      modifies h`specialInfoSender
      ensures Valid() && h.specialInfoSender == s
    {
      h.specialInfoSender := s;
      forall i | 0 <= i < |handlers|
        ensures Closed(handlers, handlers[i])
      {
        assert old(Closed(handlers, handlers[i]));
      }
    }

    /** `addDialog`: the dialog is counted among the session's open dialogs. */
    method AddDialog(d: DialogId)
      modifies this`pendingDialogs
      ensures pendingDialogs == old(pendingDialogs) + {d}
    {
      pendingDialogs := pendingDialogs + {d};
    }

    /**
     * `removeDialog`: answers whether the dialog was open, and it is open no
     * more; the count drops by one exactly when it was.
     */
    method RemoveDialog(d: DialogId) returns (removed: bool)
      modifies this`pendingDialogs
      ensures removed <==> d in old(pendingDialogs)
      ensures pendingDialogs == old(pendingDialogs) - {d}
      ensures |pendingDialogs| == if removed then |old(pendingDialogs)| - 1 else |old(pendingDialogs)|
    {
      removed := d in pendingDialogs;
      pendingDialogs := pendingDialogs - {d};
    }

    /**
     * `x` loses its successor: what is left of a skip whose failed handler
     * has no successor, where `setNextHandler(null)` runs before the
     * missing handler is dereferenced.
     */
    method Sever(x: Handler)
      requires Valid() && Has(x)
      modifies x`next
      ensures Valid() && x.next == null
    {
      x.next := null;
      forall i | 0 <= i < |handlers|
        ensures Closed(handlers, handlers[i])
      {
        assert old(Closed(handlers, handlers[i]));
      }
    }

    /** `setCurrentHandler`: only a handler of the session (or none) can become current. */
    method SetCurrentHandler(h: Handler?)
      requires Valid() && (h == null || Has(h))
      modifies this`currentHandler
      ensures Valid() && currentHandler == h
    {
      currentHandler := h;
    }

    /**
     * The skip of `executeSkipLogic`: `r`'s neighbours are linked to each
     * other. When `r` is an AS of the chain and not both of its neighbours are
     * IM-SCF legs, the chain stays one path from A to B, now without `r`.
     */
    method Exclude(r: Handler) returns (ghost i: nat)
      requires Valid() && Has(r) && r.prev != null && r.next != null
      modifies r.prev`next, r.next`prev, this`chain
      ensures Valid()
      ensures old(r.prev).next == old(r.next) && old(r.next).prev == old(r.prev)
      ensures old(Chained()) && r in old(chain) && r.role.As? && !(old(r.prev).role.ImScf? && old(r.next).role.ImScf?) ==>
        && Chained()
        && 0 < i < |old(chain)| - 1 && old(chain)[i] == r && chain == old(chain)[..i] + old(chain)[i + 1..]
        && old(chain)[i - 1] == old(r.prev) && old(chain)[i + 1] == old(r.next)
    {
      var x, y := r.prev, r.next;
      assert Closed(handlers, handlers[r.id]);
      ghost var chained := Chained() && r in chain && r.role.As? && !(x.role.ImScf? && y.role.ImScf?);
      i := 0;
      if chained {
        i := Interior(r);
      }
      Unlink(x, y, handlers, chain, i, chained, imScfHandlerA, imScfHandlerB, firstAsHandler, currentHandler, key);
      if chained {
        chain := chain[..i] + chain[i + 1..];
      }
    }

    /** Where an AS of the chain with an AS neighbour sits: strictly inside a chain of more than three handlers. */
    lemma Interior(r: Handler) returns (i: nat)
      requires Valid() && Chained() && r in chain && r.role.As? && r.prev != null && r.next != null
      requires !(r.prev.role.ImScf? && r.next.role.ImScf?)
      ensures 0 < i < |chain| - 1 && |chain| > 3 && chain[i] == r
      ensures chain[i - 1] == r.prev && chain[i + 1] == r.next
    {
      i :| 0 <= i < |chain| && chain[i] == r;
      assert chain[0].role.ImScf? && chain[|chain| - 1].role.ImScf?;
      var j := i - 1;
      assert Step(chain[j], chain[j + 1]) && Step(chain[i], chain[i + 1]);
    }

    /**
     * Links `x` to `y` past the handler between them. The handlers stay
     * valid, and when `x` and `y` surround `c[i]` in a chain of more than
     * three, the chain without `c[i]` is a chain.
     */
    static method Unlink(x: Handler, y: Handler, ghost hs: seq<Handler>, ghost c: seq<Handler>, ghost i: nat,
                         ghost chained: bool, ghost a: Handler, ghost b: Handler, ghost first: Handler,
                         ghost cur: Handler?, ghost key: string)
      requires ValidHandlers(hs, a, b, first, cur, key) && HasIn(hs, x) && HasIn(hs, y)
      requires chained ==> ChainedHandlers(c, hs, a, b) && 0 < i < |c| - 1 && |c| > 3 && c[i - 1] == x && c[i + 1] == y
      modifies x`next, y`prev
      ensures x.next == y && y.prev == x
      ensures ValidHandlers(hs, a, b, first, cur, key)
      ensures chained ==> ChainedHandlers(c[..i] + c[i + 1..], hs, a, b)
    {
      if chained {
        Apart(c, i - 1);
        Apart(c, i + 1);
      }
      label before:
      x.next := y;
      y.prev := x;
      forall j | 0 <= j < |hs|
        ensures Closed(hs, hs[j])
      {
        assert old@before(Closed(hs, hs[j]));
      }
      if chained {
        var d := c[..i] + c[i + 1..];
        assert d[0] == a && d[|d| - 1] == b;
        forall j | 0 <= j < |d|
          ensures HasIn(hs, d[j]) && (0 < j < |d| - 1 ==> d[j].role.As?)
        {
          if j >= i {
            assert d[j] == c[j + 1];
          }
        }
        forall j | 0 <= j < |d| - 1
          ensures Step(d[j], d[j + 1])
        {
          if j < i - 1 {
            assert d[j] == c[j] && d[j + 1] == c[j + 1];
            assert old@before(Step(c[j], c[j + 1]));
          } else if j >= i {
            var k := j + 1;
            assert d[j] == c[k] && d[j + 1] == c[k + 1];
            assert old@before(Step(c[k], c[k + 1]));
          } else {
            assert old@before(Step(c[j], c[i]) && Step(c[i], c[i + 1]));
          }
        }
      }
    }

    /** Along a chain of steps, `c[i]` occurs only at `i`. */
    static lemma Apart(c: seq<Handler>, i: nat)
      requires forall k {:trigger Step(c[k], c[k + 1])} :: 0 <= k < |c| - 1 ==> Step(c[k], c[k + 1])
      requires i < |c|
      ensures forall j :: 0 <= j < |c| && j != i ==> c[j] != c[i]
    {
      RanksIncrease(c);
    }

    /** Distinct handlers, each at its own id in `hs`, are no more than `hs` holds. */
    static lemma {:induction false} FitsIn(c: seq<Handler>, hs: seq<Handler>)
      requires forall j :: 0 <= j < |c| ==> HasIn(hs, c[j])
      requires forall j, k :: 0 <= j < k < |c| ==> c[j] != c[k]
      ensures |c| <= |hs|
      decreases |hs|
    {
      if |c| > 0 {
        assert HasIn(hs, c[0]);
        var n := |hs| - 1;
        var c' := c;
        if hs[n] in c {
          var k :| 0 <= k < |c| && c[k] == hs[n];
          c' := c[..k] + c[k + 1..];
          forall j | 0 <= j < |c'|
            ensures c'[j] == if j < k then c[j] else c[j + 1]
          {
          }
        }
        forall j | 0 <= j < |c'|
          ensures HasIn(hs[..n], c'[j])
        {
        }
        FitsIn(c', hs[..n]);
      }
    }

    /** No handler occurs twice in the chain. */
    lemma ChainDistinct()
      requires Chained()
      ensures forall i, j :: 0 <= i < j < |chain| ==> chain[i] != chain[j]
    {
      RanksIncrease(chain);
    }

    /** The chain is no longer than the list of the session's handlers. */
    lemma ChainFits()
      requires Chained()
      ensures |chain| <= |handlers|
    {
      RanksIncrease(chain);
      FitsIn(chain, handlers);
    }

    /** The ASs after the first `n0` handlers, one per endpoint of `eps`, serve `services` from `k` on. */
    static lemma ServingTail(hs: seq<Handler>, n0: nat, eps: seq<Endpoint>, services: seq<OrchestratedService>, k: nat)
      requires |hs| == n0 + |eps| + 1 && k <= |services| && |eps| == |services| - k
      requires forall j :: n0 <= j < |hs| - 1 ==> hs[j].role == As(eps[j - n0])
      requires forall t :: 0 <= t < |eps| ==> eps[t] in services[k + t].endpoints
      ensures Serving(hs[n0..|hs| - 1], services[k..])
    {
      var tail := hs[n0..|hs| - 1];
      forall t | 0 <= t < |tail|
        ensures tail[t].role.As? && tail[t].role.endpoint in services[k..][t].endpoints
      {
        assert tail[t] == hs[n0 + t] && services[k..][t] == services[k + t];
      }
    }

    /** The picks of a rollback, where every service has an endpoint to give. */
    static method PickReady(services: seq<OrchestratedService>, from: nat) returns (eps: seq<Endpoint>)
      requires from <= |services|
      requires forall j :: 0 <= j < |services| ==> services[j].Valid() && |services[j].endpoints| > 0
      modifies services`lastEndpointIndex
      ensures forall j :: 0 <= j < |services| ==> services[j].Valid() && |services[j].endpoints| > 0
      ensures |eps| == |services| - from && forall t :: 0 <= t < |eps| ==> eps[t] in services[from + t].endpoints
    {
      var picked := PickEndpoints(services, from);
      eps := picked.value;
    }

    /** Each handler is an AS whose endpoint belongs to the service at its position. */
    static ghost predicate Serving(hs: seq<Handler>, services: seq<OrchestratedService>)
      reads services`endpoints
    {
      |hs| == |services| && forall t :: 0 <= t < |hs| ==> hs[t].role.As? && hs[t].role.endpoint in services[t].endpoints
    }

    /** Links fresh ASs, one per endpoint of `eps`, and a fresh B leg after `p`. */
    method AppendTail(p: Handler, eps: seq<Endpoint>, ghost services: seq<OrchestratedService>, ghost k: nat,
                      ghost wasChained: bool)
      requires Valid() && Has(p) && p.role.As?
      requires wasChained ==> Chained() && p in chain
      requires k <= |services| && |eps| == |services| - k
      requires forall t :: 0 <= t < |eps| ==> eps[t] in services[k + t].endpoints
      modifies this`handlers, this`imScfHandlerB, this`chain, p`next
      ensures Valid() && (old(RulesetReady(ruleset)) ==> RulesetReady(ruleset))
      ensures var n0 := |old(handlers)|;
        && |handlers| == n0 + |eps| + 1 && handlers[..n0] == old(handlers)
        && imScfHandlerB == handlers[|handlers| - 1] && p.next == handlers[n0]
        && (forall h :: h in handlers[n0..] ==> fresh(h) && h.handlerState == INITIAL)
        && Serving(handlers[n0..|handlers| - 1], services[k..])
      ensures wasChained ==>
        && Chained()
        && exists pos :: 0 < pos < |old(chain)| - 1 && old(chain)[pos] == p &&
             chain == old(chain)[..pos + 1] + handlers[|old(handlers)|..]
    {
      ghost var pos := 0;
      if wasChained {
        pos := PositionInChain(p);
      }
      var hs, b, ch := Regrow(p, eps, handlers, chain, pos, wasChained, key, imScfHandlerA, imScfHandlerB,
                              firstAsHandler, currentHandler);
      Install(hs, b, ch, wasChained);
      ServingTail(hs, |old(handlers)|, eps, services, k);
      if wasChained {
        assert 0 < pos < |old(chain)| - 1 && old(chain)[pos] == p && chain == old(chain)[..pos + 1] + handlers[|old(handlers)|..];
      }
    }

    /** Makes `hs` the handler list, `b` the B leg and `ch` the chain, which the new fields then satisfy. */
    method Install(hs: seq<Handler>, b: Handler, ghost ch: seq<Handler>, ghost chained: bool)
      requires ValidHandlers(hs, imScfHandlerA, b, firstAsHandler, currentHandler, key)
      requires chained ==> ChainedHandlers(ch, hs, imScfHandlerA, b)
      modifies this`handlers, this`imScfHandlerB, this`chain
      ensures handlers == hs && imScfHandlerB == b && chain == ch
      ensures Valid() && (chained ==> Chained())
    {
      handlers := hs;
      imScfHandlerB := b;
      chain := ch;
    }

    /**
     * The new handler list and chain of a rollback at `p`, on explicit values:
     * `h0` and `c0` are the old ones and `c0[pos]` is `p` when `wasChained`.
     */
    static method Regrow(p: Handler, eps: seq<Endpoint>, h0: seq<Handler>, ghost c0: seq<Handler>,
                         ghost pos: nat, ghost wasChained: bool, key: string, ghost a: Handler, ghost b0: Handler,
                         ghost first: Handler, ghost cur: Handler?)
      returns (hs: seq<Handler>, b: Handler, ghost ch: seq<Handler>)
      requires ValidHandlers(h0, a, b0, first, cur, key) && HasIn(h0, p) && p.role.As?
      requires wasChained ==> ChainPrefix(c0, pos, h0, a, p) && p !in c0[..pos]
      modifies p`next
      ensures ValidHandlers(hs, a, b, first, cur, key)
      ensures |hs| == |h0| + |eps| + 1 && hs[..|h0|] == h0 && hs[|hs| - 1] == b && p.next == hs[|h0|]
      ensures forall h :: h in hs[|h0|..] ==> fresh(h) && h.handlerState == INITIAL
      ensures forall j :: |h0| <= j < |hs| - 1 ==> hs[j].role == As(eps[j - |h0|])
      ensures wasChained ==> ChainedHandlers(ch, hs, a, b) && 0 < pos < |c0| - 1 && ch == c0[..pos + 1] + hs[|h0|..]
    {
      var tail;
      tail, b := Splice(p, eps, h0, key, c0, pos, wasChained, a, b0, first, cur);
      hs := h0 + tail + [b];
      ch := if wasChained then c0[..pos + 1] + tail + [b] else c0;
      Rebuilt(h0, c0, pos, wasChained, p, tail, b, eps, key, hs, ch, a, first, cur);
    }

    /**
     * Creates the new ASs and B leg and links `p` to the first of them; the
     * other handlers of `h0`, and the chain up to `p`, keep their links.
     */
    static method Splice(p: Handler, eps: seq<Endpoint>, h0: seq<Handler>, key: string, ghost c0: seq<Handler>,
                         ghost pos: nat, ghost wasChained: bool, ghost a: Handler, ghost b0: Handler,
                         ghost first: Handler, ghost cur: Handler?)
      returns (tail: seq<Handler>, b: Handler)
      requires ValidHandlers(h0, a, b0, first, cur, key) && HasIn(h0, p)
      requires wasChained ==> ChainPrefix(c0, pos, h0, a, p) && p !in c0[..pos]
      modifies p`next
      ensures Tail(p, tail, b, eps, |h0|, key)
      ensures ValidExcept(h0, a, first, cur, key, p)
      ensures wasChained ==> ChainPrefix(c0, pos, h0, a, p)
      ensures forall h :: h in tail + [b] ==> fresh(h)
    {
      tail, b := NewTail(p, eps, |h0|, key);
      assert Closed(h0, h0[p.id]);
      Graft(p, if |eps| == 0 then b else tail[0], h0);
    }

    /** `ValidHandlers` without the B leg, where `p` may point past the list. */
    static ghost predicate ValidExcept(hs: seq<Handler>, a: Handler, first: Handler, cur: Handler?, key: string,
                                      p: Handler)
      reads hs`next, hs`prev, hs`specialInfoSender, p`prev, p`specialInfoSender
    {
      && (forall i :: 0 <= i < |hs| ==> hs[i].id == i && hs[i].session == key)
      && HasIn(hs, a) && HasIn(hs, first) && a.role == ImScf(IM_SCF_A) && first.role.As?
      && (cur == null || HasIn(hs, cur))
      && (forall i {:trigger Closed(hs, hs[i])} :: 0 <= i < |hs| && hs[i] != p ==> Closed(hs, hs[i]))
      && HasIn(hs, p) && (p.prev != null ==> HasIn(hs, p.prev))
      && (p.specialInfoSender != null ==> HasIn(hs, p.specialInfoSender))
    }

    /** The chain from A up to `p` at `pos`, as a rollback at `p` keeps it. */
    static ghost predicate ChainPrefix(c0: seq<Handler>, pos: nat, h0: seq<Handler>, a: Handler, p: Handler)
      reads c0`next, c0`prev, c0`rank
    {
      && pos < |c0| && c0[0] == a && c0[pos] == p && PrefixLinked(c0, pos)
      && (forall j :: 0 <= j <= pos ==> HasIn(h0, c0[j]))
      && (forall j :: 0 < j <= pos ==> c0[j].role.As?)
    }

    /** `setNextHandler(x)` on `p`: every other handler of `h0` keeps the handlers it refers to. */
    static method Graft(p: Handler, x: Handler, ghost h0: seq<Handler>)
      requires forall i {:trigger Closed(h0, h0[i])} :: 0 <= i < |h0| ==> Closed(h0, h0[i])
      modifies p`next
      ensures p.next == x
      ensures forall i {:trigger Closed(h0, h0[i])} :: 0 <= i < |h0| && h0[i] != p ==> Closed(h0, h0[i])
    {
      label linking:
      p.next := x;
      forall i | 0 <= i < |h0| && h0[i] != p
        ensures Closed(h0, h0[i])
      {
        assert old@linking(Closed(h0, h0[i]));
      }
    }

    /** The handler list and the chain after a rollback at `p`, on explicit values. */
    static lemma Rebuilt(h0: seq<Handler>, c0: seq<Handler>, pos: nat, wasChained: bool, p: Handler,
                         tail: seq<Handler>, b: Handler, eps: seq<Endpoint>, key: string, hs: seq<Handler>,
                         ch: seq<Handler>, a: Handler, first: Handler, cur: Handler?)
      requires ValidExcept(h0, a, first, cur, key, p)
      requires Tail(p, tail, b, eps, |h0|, key)
      requires hs == h0 + tail + [b]
      requires wasChained ==> ChainPrefix(c0, pos, h0, a, p)
      requires ch == if wasChained then c0[..pos + 1] + tail + [b] else c0
      ensures ValidHandlers(hs, a, b, first, cur, key)
      ensures hs[..|h0|] == h0 && hs[|hs| - 1] == b && hs[|h0|..] == tail + [b]
      ensures forall j {:trigger hs[j]} :: |h0| <= j < |hs| - 1 ==> hs[j].role == As(eps[j - |h0|])
      ensures forall h :: h in hs[|h0|..] ==> h.handlerState == INITIAL
      ensures wasChained ==> ChainedHandlers(ch, hs, a, b) && 0 < pos < |c0| - 1
    {
      AppendedValid(h0, p, tail, b, eps, key, hs, a, first, cur);
      TailShape(h0, tail, b, eps, hs);
      if wasChained {
        PrefixKept(c0, pos, h0, hs);
        GrowChained(c0, pos, h0, tail, b, eps, key, hs, ch);
      }
    }

    /** The new handlers sit after the old ones: the ASs for `eps` in order, then B. */
    static lemma TailShape(h0: seq<Handler>, tail: seq<Handler>, b: Handler, eps: seq<Endpoint>, hs: seq<Handler>)
      requires |tail| == |eps| && hs == h0 + tail + [b]
      requires forall k :: 0 <= k < |tail| ==> tail[k].role == As(eps[k]) && tail[k].handlerState == INITIAL
      requires b.handlerState == INITIAL
      ensures hs[..|h0|] == h0 && hs[|hs| - 1] == b && hs[|h0|..] == tail + [b]
      ensures forall j {:trigger hs[j]} :: |h0| <= j < |hs| - 1 ==> hs[j].role == As(eps[j - |h0|])
      ensures forall h :: h in hs[|h0|..] ==> h.handlerState == INITIAL
    {
      forall j | |h0| <= j < |hs| - 1
        ensures hs[j].role == As(eps[j - |h0|])
      {
        assert hs[j] == tail[j - |h0|];
      }
    }

    /** `Valid` after a rollback, on explicit values: the old facts, with only `p.next` changed, and the new tail. */
    static lemma AppendedValid(h0: seq<Handler>, p: Handler, tail: seq<Handler>, b: Handler, eps: seq<Endpoint>,
                               key: string, hs: seq<Handler>, a: Handler, first: Handler, cur: Handler?)
      requires ValidExcept(h0, a, first, cur, key, p)
      requires Tail(p, tail, b, eps, |h0|, key)
      requires hs == h0 + tail + [b]
      ensures ValidHandlers(hs, a, b, first, cur, key)
    {
      ClosedKept(h0, hs, p);
      TailClosed(h0, p, tail, b, eps, key, hs);
      assert hs[|h0| + |tail|] == b;
      forall i | 0 <= i < |hs|
        ensures hs[i].id == i && hs[i].session == key && Closed(hs, hs[i])
      {
        if i < |h0| {
          assert hs[i] == h0[i];
        }
      }
    }

    /** Every handler created earlier, except `p`, still refers only to handlers of the longer list. */
    static lemma ClosedKept(h0: seq<Handler>, hs: seq<Handler>, p: Handler)
      requires forall i {:trigger Closed(h0, h0[i])} :: 0 <= i < |h0| && h0[i] != p ==> Closed(h0, h0[i])
      requires |h0| <= |hs| && hs[..|h0|] == h0
      ensures forall i {:trigger Closed(hs, hs[i])} :: 0 <= i < |h0| && hs[i] != p ==> Closed(hs, hs[i])
    {
      forall i | 0 <= i < |h0| && hs[i] != p
        ensures Closed(hs, hs[i])
      {
        assert hs[i] == h0[i] && Closed(h0, h0[i]);
      }
    }

    /** `p` and the handlers after it refer only to handlers of the longer list. */
    static lemma TailClosed(h0: seq<Handler>, p: Handler, tail: seq<Handler>, b: Handler, eps: seq<Endpoint>,
                            key: string, hs: seq<Handler>)
      requires HasIn(h0, p) && (p.prev != null ==> HasIn(h0, p.prev))
      requires p.specialInfoSender != null ==> HasIn(h0, p.specialInfoSender)
      requires Tail(p, tail, b, eps, |h0|, key)
      requires hs == h0 + tail + [b]
      ensures forall i {:trigger Closed(hs, hs[i])} :: 0 <= i < |hs| && (i >= |h0| || hs[i] == p) ==> Closed(hs, hs[i])
      ensures forall i :: |h0| <= i < |hs| ==> hs[i].id == i && hs[i].session == key
    {
      var n0 := |h0|;
      var n := |tail|;
      assert hs[n0 + n] == b;
      forall i | 0 <= i < |hs| && (i >= n0 || hs[i] == p)
        ensures Closed(hs, hs[i])
      {
        if i < n0 {
          assert hs[i] == p;
          if n > 0 {
            assert hs[n0] == tail[0];
          }
        } else if i < n0 + n {
          var k := i - n0;
          assert hs[i] == tail[k];
          if k > 0 {
            var j := k - 1;
            assert Link(tail[j], tail[j + 1]) && hs[n0 + j] == tail[j];
          }
          if k < n - 1 {
            assert Link(tail[k], tail[k + 1]) && hs[n0 + k + 1] == tail[k + 1];
          }
        } else if n > 0 {
          assert hs[n0 + n - 1] == tail[n - 1];
        }
      }
      forall i | n0 <= i < |hs|
        ensures hs[i].id == i && hs[i].session == key
      {
        if i < n0 + n {
          assert hs[i] == tail[i - n0];
        }
      }
    }

    /** Along the chain before `chain[pos]` no handler is `chain[pos]`, and its links stay as they are. */
    static lemma PrefixKept(c0: seq<Handler>, pos: nat, h0: seq<Handler>, hs: seq<Handler>)
      requires pos < |c0| && (forall j :: 0 <= j < pos ==> HasIn(h0, c0[j]))
      requires |h0| <= |hs| && hs[..|h0|] == h0
      ensures forall j :: 0 <= j < pos ==> HasIn(hs, c0[j])
    {
      forall j | 0 <= j < pos
        ensures HasIn(hs, c0[j])
      {
        assert hs[c0[j].id] == h0[c0[j].id];
      }
    }

    /** Where an AS of the chain sits: its links before it, its handlers, and that it occurs only there. */
    lemma PositionInChain(p: Handler) returns (pos: nat)
      requires Valid() && Chained() && p in chain && p.role.As?
      ensures ChainPrefix(chain, pos, handlers, imScfHandlerA, p) && p !in chain[..pos]
    {
      pos :| 0 <= pos < |chain| && chain[pos] == p;
      RanksIncrease(chain);
      assert chain[0].role.ImScf? && chain[|chain| - 1].role.ImScf?;
      assert forall j :: 0 <= j < pos ==> chain[..pos][j].rank < chain[pos].rank;
    }

    /** The links and ranks of the chain up to `pos`, which a rollback at `chain[pos]` keeps. */
    static ghost predicate PrefixLinked(c0: seq<Handler>, pos: nat)
      requires pos < |c0|
      reads c0[..pos]`next, c0`prev, c0`rank
    {
      && 0 < pos < |c0| - 1 && c0[pos].role.As? && c0[0].prev == null
      && forall j {:trigger Step(c0[j], c0[j + 1])} :: 0 <= j < pos ==> Step(c0[j], c0[j + 1])
    }

    /** The chain after a rollback: the old one up to `p`, then the new ASs and B. */
    static lemma GrowChained(c0: seq<Handler>, pos: nat, h0: seq<Handler>, tail: seq<Handler>, b: Handler,
                             eps: seq<Endpoint>, key: string, hs: seq<Handler>, c: seq<Handler>)
      requires pos < |c0| && PrefixLinked(c0, pos)
      requires forall j :: 0 < j <= pos ==> c0[j].role.As?
      requires forall j :: 0 <= j <= pos ==> HasIn(hs, c0[j])
      requires Tail(c0[pos], tail, b, eps, |h0|, key)
      requires hs == h0 + tail + [b] && c == c0[..pos + 1] + tail + [b]
      ensures ChainedHandlers(c, hs, c0[0], b)
    {
      var n := |tail|;
      var n0 := |h0|;
      assert c[pos + 1 + n] == b && c[pos] == c0[pos] && hs[n0 + n] == b;
      forall i | 0 <= i < |c|
        ensures HasIn(hs, c[i]) && (0 < i < |c| - 1 ==> c[i].role.As?)
      {
        if i <= pos {
          assert c[i] == c0[i];
        } else if i < pos + 1 + n {
          assert c[i] == tail[i - pos - 1] && hs[n0 + i - pos - 1] == tail[i - pos - 1];
        }
      }
      forall i | 0 <= i < |c| - 1
        ensures Step(c[i], c[i + 1])
      {
        if i < pos {
          assert c[i] == c0[i] && c[i + 1] == c0[i + 1];
        } else if i == pos {
          if n > 0 {
            assert c[i + 1] == tail[0];
          }
        } else if i < pos + n {
          var k := i - pos - 1;
          assert c[i] == tail[k] && c[i + 1] == tail[k + 1];
        } else {
          assert c[i] == tail[n - 1];
        }
      }
    }

    static lemma {:induction false} RanksIncrease(c: seq<Handler>)
      requires forall i {:trigger Step(c[i], c[i + 1])} :: 0 <= i < |c| - 1 ==> Step(c[i], c[i + 1])
      ensures forall i, j :: 0 <= i < j < |c| ==> c[i].rank < c[j].rank
      decreases |c|
    {
      if |c| > 1 {
        var t := c[1..];
        forall i | 0 <= i < |t| - 1
          ensures Step(t[i], t[i + 1])
        {
          var j := i + 1;
          assert t[i] == c[j] && t[i + 1] == c[j + 1] && Step(c[j], c[j + 1]);
        }
        RanksIncrease(t);
        var z := 0;
        assert Step(c[z], c[z + 1]);
        forall i, j | 0 <= i < j < |c|
          ensures c[i].rank < c[j].rank
        {
          if i > 0 {
            assert c[i] == t[i - 1] && c[j] == t[j - 1];
          } else if j > 1 {
            assert c[1] == t[0] && c[j] == t[j - 1];
          }
        }
      }
    }

    /**
     * The ASs and the B leg a rollback links after `p`, with the ids from `id0`
     * and the ranks after `p`'s, all new: only their own `prev` links point
     * back at `p`, and `p` itself is left for the caller to link.
     */
    static method NewTail(p: Handler, eps: seq<Endpoint>, id0: nat, key: string) returns (tail: seq<Handler>, b: Handler)
      ensures Tail'(p, tail, b, eps, id0, key)
      ensures fresh(b) && forall h :: h in tail ==> fresh(h)
    {
      if |eps| == 0 {
        b := new Handler(ImScf(IM_SCF_B), id0, key, p.rank + 1);
        b.prev := p;
        tail := [];
      } else {
        tail, b := NewAsTail(p, eps, id0, id0 + |eps|, key);
      }
    }

    /** One AS per endpoint with the ids from `id0`, linked after `p`, and then a B leg with id `bId`. */
    static method NewAsTail(p: Handler, eps: seq<Endpoint>, id0: nat, bId: nat, key: string)
      returns (tail: seq<Handler>, b: Handler)
      requires |eps| > 0
      ensures AsList(tail, eps, id0, p.rank + 1, key)
      ensures b.role == ImScf(IM_SCF_B) && b.id == bId && b.session == key && b.rank == p.rank + |eps| + 1
      ensures b.specialInfoSender == null && b.handlerState == INITIAL && b.next == null
      ensures tail[0].prev == p && tail[|eps| - 1].next == b && b.prev == tail[|eps| - 1]
      ensures fresh(b) && forall j :: 0 <= j < |tail| ==> fresh(tail[j])
    {
      var first := new Handler(As(eps[0]), id0, key, p.rank + 1);
      first.prev := p;
      tail := NewAses(first, eps, id0, p.rank + 1, key);
      b := new Handler(ImScf(IM_SCF_B), bId, key, p.rank + |eps| + 1);
      var last := tail[|tail| - 1];
      assert last.id == id0 + |eps| - 1;
      CloseChain(tail, last, b, eps, id0, p.rank + 1, key);
    }

    /** `Tail` before `p` is linked to its first new handler. */
    static ghost predicate Tail'(p: Handler, tail: seq<Handler>, b: Handler, eps: seq<Endpoint>, id0: nat, key: string)
      reads p`rank, b, tail`rank, tail`specialInfoSender, tail`handlerState, tail`next, tail`prev
    {
      && AsList(tail, eps, id0, p.rank + 1, key)
      && b.role == ImScf(IM_SCF_B) && b.id == id0 + |eps| && b.session == key && b.rank == p.rank + |eps| + 1
      && b.specialInfoSender == null && b.handlerState == INITIAL && b.next == null
      && (|eps| == 0 ==> b.prev == p)
      && (|eps| > 0 ==> tail[0].prev == p && tail[|eps| - 1].next == b && b.prev == tail[|eps| - 1])
    }

    /** `p`, the new ASs and the new B leg, linked in that order. */
    static ghost predicate Tail(p: Handler, tail: seq<Handler>, b: Handler, eps: seq<Endpoint>, id0: nat, key: string)
      reads p`next, p`rank, b, tail`rank, tail`specialInfoSender, tail`handlerState, tail`next, tail`prev
    {
      && Tail'(p, tail, b, eps, id0, key)
      && p.next == (if |eps| == 0 then b else tail[0])
    }

    /** The handler list and the chain of a fresh load, on explicit values. */
    static method Assemble(endpoints: seq<Endpoint>, key: string)
      returns (a: Handler, b: Handler, first: Handler, hs: seq<Handler>, ghost ch: seq<Handler>)
      requires |endpoints| > 0
      ensures ValidHandlers(hs, a, b, first, null, key) && ChainedHandlers(ch, hs, a, b)
      ensures |ch| == |endpoints| + 2 && first == ch[1]
      ensures forall i :: 0 <= i < |endpoints| ==> ch[i + 1].role == As(endpoints[i])
      ensures forall i :: 0 <= i < |ch| ==> ch[i].handlerState == INITIAL
    {
      var ases;
      a, b, ases := BuildChain(endpoints, key);
      hs := [a, b] + ases;
      ch := [a] + ases + [b];
      first := ases[0];
      LaidOut(a, b, ases);
      AssembledValid(a, b, ases, endpoints, key, hs, ch);
      AssembledChained(a, b, ases, endpoints, key, hs, ch);
    }

    /** `Valid` for the handlers of a fresh load: A, B, then the ASs. */
    static lemma AssembledValid(a: Handler, b: Handler, ases: seq<Handler>, endpoints: seq<Endpoint>, key: string,
                                hs: seq<Handler>, ch: seq<Handler>)
      requires Linked(a, b, ases, endpoints, key) && Laid(a, b, ases, hs, ch)
      ensures ValidHandlers(hs, a, b, ases[0], null, key)
    {
      var n := |ases|;
      forall i | 0 <= i < |hs|
        ensures hs[i].id == i && hs[i].session == key && Closed(hs, hs[i])
      {
        if i >= 2 {
          var k := i - 2;
          assert hs[i] == ases[k];
          if k > 0 {
            var j := k - 1;
            assert Link(ases[j], ases[j + 1]) && hs[j + 2] == ases[j];
          }
          if k < n - 1 {
            assert Link(ases[k], ases[k + 1]) && hs[k + 3] == ases[k + 1];
          }
        } else if i == 0 {
          assert hs[2] == ases[0];
        } else {
          assert hs[n + 1] == ases[n - 1];
        }
      }
    }

    /** The chain of a fresh load: A, the ASs in endpoint order, and B, all new. */
    static lemma AssembledChained(a: Handler, b: Handler, ases: seq<Handler>, endpoints: seq<Endpoint>, key: string,
                                  hs: seq<Handler>, ch: seq<Handler>)
      requires Linked(a, b, ases, endpoints, key) && Laid(a, b, ases, hs, ch)
      ensures ChainedHandlers(ch, hs, a, b) && |ch| == |endpoints| + 2 && ch[1] == ases[0]
      ensures forall i :: 0 <= i < |endpoints| ==> ch[i + 1].role == As(endpoints[i])
      ensures forall i :: 0 <= i < |ch| ==> ch[i].handlerState == INITIAL
    {
      var n := |ases|;
      forall i | 0 <= i < |ch|
        ensures HasIn(hs, ch[i]) && ch[i].handlerState == INITIAL
      {
        if i == 0 {
        } else if i == n + 1 {
          assert hs[1] == ch[i];
        } else {
          var k := i - 1;
          assert hs[k + 2] == ases[k] && ch[k + 1] == ases[k];
        }
      }
      forall i | 0 < i < |ch| - 1
        ensures ch[i].role == As(endpoints[i - 1])
      {
        var k := i - 1;
        assert ch[k + 1] == ases[k];
      }
      forall i | 0 <= i < |ch| - 1
        ensures Step(ch[i], ch[i + 1])
      {
        if 0 < i < n {
          var k := i - 1;
          assert ch[k + 1] == ases[k] && ch[k + 2] == ases[k + 1];
        }
      }
    }

    /** The IM-SCF legs `a` and `b` around the list of ASs, as a fresh load links them. */
    static ghost predicate Linked(a: Handler, b: Handler, ases: seq<Handler>, endpoints: seq<Endpoint>, key: string)
      reads a, b, ases`rank, ases`specialInfoSender, ases`handlerState, ases`next, ases`prev
    {
      && |ases| > 0
      && a.role == ImScf(IM_SCF_A) && b.role == ImScf(IM_SCF_B) && a.id == 0 && b.id == 1
      && a.rank == 0 && b.rank == |endpoints| + 1 && a.session == key && b.session == key
      && a.specialInfoSender == null && b.specialInfoSender == null
      && a.handlerState == INITIAL && b.handlerState == INITIAL
      && a.prev == null && b.next == null
      && a.next == ases[0] && ases[0].prev == a
      && ases[|ases| - 1].next == b && b.prev == ases[|ases| - 1]
      && AsList(ases, endpoints, 2, 1, key)
    }

    /** `hs` holds A, B and then the ASs; `ch` is A, the ASs and B. */
    static predicate Laid(a: Handler, b: Handler, ases: seq<Handler>, hs: seq<Handler>, ch: seq<Handler>)
    {
      && |hs| == |ases| + 2 && hs[0] == a && hs[1] == b
      && |ch| == |ases| + 2 && ch[0] == a && ch[|ases| + 1] == b
      && (forall k :: 0 <= k < |ases| ==> hs[k + 2] == ases[k] && ch[k + 1] == ases[k])
    }

    /** The handlers of a fresh load: A, the ASs in endpoint order, and B, linked in that order. */
    static method BuildChain(endpoints: seq<Endpoint>, key: string)
      returns (a: Handler, b: Handler, ases: seq<Handler>)
      requires |endpoints| > 0
      ensures Linked(a, b, ases, endpoints, key)
    {
      a := new Handler(ImScf(IM_SCF_A), 0, key, 0);
      ases, b := NewAsTail(a, endpoints, 2, 1, key);
      Attach(a, ases, b, endpoints, key);
    }

    /** Points the A leg at the first AS; the new handlers after it keep their links. */
    static method Attach(a: Handler, ases: seq<Handler>, b: Handler, endpoints: seq<Endpoint>, key: string)
      requires |endpoints| > 0 && AsList(ases, endpoints, 2, 1, key) && a !in ases && a != b
      requires a.role == ImScf(IM_SCF_A) && a.id == 0 && a.rank == 0 && a.session == key
      requires a.specialInfoSender == null && a.handlerState == INITIAL && a.prev == null
      requires b.role == ImScf(IM_SCF_B) && b.id == 1 && b.session == key && b.rank == |endpoints| + 1
      requires b.specialInfoSender == null && b.handlerState == INITIAL && b.next == null
      requires ases[0].prev == a && ases[|endpoints| - 1].next == b && b.prev == ases[|endpoints| - 1]
      modifies a`next
      ensures Linked(a, b, ases, endpoints, key)
    {
      a.next := ases[0];
    }

    /** Links the last AS of the list to the B leg. */
    static method CloseChain(ases: seq<Handler>, last: Handler, b: Handler, endpoints: seq<Endpoint>,
                             id0: nat, ghost r0: nat, key: string)
      requires |ases| > 0 && last == ases[|ases| - 1] && AsFields(ases, endpoints, id0, r0, key) && AsLinks(ases)
      requires b !in ases
      modifies last`next, b`prev
      ensures AsLinks(ases) && last.next == b && b.prev == last
    {
      var n := |ases|;
      assert forall k :: 0 <= k < n - 1 ==> ases[k] != last;
      label linking:
      last.LinkTo(b);
      forall k | 0 <= k < n - 1
        ensures Link(ases[k], ases[k + 1])
      {
        assert ases[k].next == old@linking(ases[k].next) && ases[k + 1].prev == old@linking(ases[k + 1].prev);
      }
    }

    static lemma LaidOut(a: Handler, b: Handler, ases: seq<Handler>)
      ensures Laid(a, b, ases, [a, b] + ases, [a] + ases + [b])
    {
    }

    /** A list of linked ASs, one per endpoint, with ids from `id0` and ranks from `r0`. */
    static ghost predicate AsList(ases: seq<Handler>, endpoints: seq<Endpoint>, id0: nat, r0: nat, key: string)
      reads ases`rank, ases`specialInfoSender, ases`handlerState, ases`next, ases`prev
    {
      |ases| == |endpoints| && AsFields(ases, endpoints, id0, r0, key) && AsLinks(ases)
    }

    /** The first `|ases|` endpoints each have their AS, with the ids and ranks of their positions. */
    static ghost predicate AsFields(ases: seq<Handler>, endpoints: seq<Endpoint>, id0: nat, r0: nat, key: string)
      reads ases`rank, ases`specialInfoSender, ases`handlerState
    {
      && |ases| <= |endpoints|
      && (forall k :: 0 <= k < |ases| ==> ases[k].role == As(endpoints[k]) && ases[k].id == id0 + k)
      && (forall k :: 0 <= k < |ases| ==> ases[k].session == key && ases[k].rank == r0 + k)
      && (forall k :: 0 <= k < |ases| ==> ases[k].specialInfoSender == null && ases[k].handlerState == INITIAL)
    }

    static ghost predicate AsLinks(ases: seq<Handler>)
      reads ases`next, ases`prev
    {
      forall k {:trigger Link(ases[k], ases[k + 1])} :: 0 <= k < |ases| - 1 ==> Link(ases[k], ases[k + 1])
    }

    static lemma AsFieldsSnoc(ases: seq<Handler>, h: Handler, endpoints: seq<Endpoint>, id0: nat, r0: nat, key: string)
      requires AsFields(ases, endpoints, id0, r0, key) && |ases| < |endpoints|
      requires h.role == As(endpoints[|ases|]) && h.id == id0 + |ases| && h.session == key && h.rank == r0 + |ases|
      requires h.specialInfoSender == null && h.handlerState == INITIAL
      ensures AsFields(ases + [h], endpoints, id0, r0, key)
    {
      var r := ases + [h];
      assert forall k :: 0 <= k < |ases| ==> r[k] == ases[k];
    }

    static lemma AsLinksSnoc(ases: seq<Handler>, h: Handler)
      requires |ases| > 0 && AsLinks(ases) && ases[|ases| - 1].next == h && h.prev == ases[|ases| - 1]
      ensures AsLinks(ases + [h])
    {
      var r := ases + [h];
      assert forall k :: 0 <= k < |ases| ==> r[k] == ases[k];
    }

    /** Creates the ASs after `first`, one per remaining endpoint, each linked after the one before. */
    static method NewAses(first: Handler, endpoints: seq<Endpoint>, id0: nat, ghost r0: nat, key: string)
      returns (ases: seq<Handler>)
      requires |endpoints| > 0 && first.role == As(endpoints[0]) && first.id == id0
      requires first.session == key && first.rank == r0 && first.next == null
      requires first.specialInfoSender == null && first.handlerState == INITIAL
      modifies first`next
      ensures AsList(ases, endpoints, id0, r0, key) && ases[0] == first
      ensures first.prev == old(first.prev) && ases[|ases| - 1].next == null
      ensures forall k :: 0 < k < |ases| ==> fresh(ases[k])
    {
      ases := [first];
      var i := 1;
      while i < |endpoints|
        invariant 1 <= i <= |endpoints| && |ases| == i && ases[0] == first && first.prev == old(first.prev)
        invariant AsFields(ases, endpoints, id0, r0, key) && AsLinks(ases) && ases[i - 1].next == null
        invariant forall k :: 0 < k < i ==> fresh(ases[k])
      {
        ases := AppendAs(ases, ases[i - 1], endpoints, id0, r0, key);
        i := i + 1;
      }
    }

    /** One round of the load loop: a fresh AS for the next endpoint, linked after the last one. */
    static method AppendAs(ases: seq<Handler>, last: Handler, endpoints: seq<Endpoint>, id0: nat, ghost r0: nat, key: string)
      returns (r: seq<Handler>)
      requires 0 < |ases| < |endpoints| && AsFields(ases, endpoints, id0, r0, key) && AsLinks(ases)
      requires ases[|ases| - 1] == last && last.next == null
      modifies last`next
      ensures |r| == |ases| + 1 && r[..|ases|] == ases && AsFields(r, endpoints, id0, r0, key) && AsLinks(r)
      ensures r[|ases|].next == null && fresh(r[|ases|]) && ases[0].prev == old(ases[0].prev)
    {
      var i := |ases|;
      var h := new Handler(As(endpoints[i]), id0 + i, key, r0 + i);
      assert forall k :: 0 <= k < i - 1 ==> ases[k] != last;
      label linking:
      last.LinkTo(h);
      forall k | 0 <= k < i - 1
        ensures Link(ases[k], ases[k + 1])
      {
        assert ases[k].next == old@linking(ases[k].next);
      }
      AsFieldsSnoc(ases, h, endpoints, id0, r0, key);
      AsLinksSnoc(ases, h);
      r := ases + [h];
    }
  }
}

/**
 * `PingSession`: an OPTIONS from the IM-SCF whose request URI user lists
 * service aliases separated by `_`. Every alias must answer: the session pings
 * the endpoints of one alias after the other (aliases in key order), each in
 * list order until one takes the OPTIONS, and moves to the next alias on a
 * 200. The IM-SCF gets 200 when all aliases have answered, 404 or 400 when an
 * alias has no endpoint left, and the session is unmapped on every final answer.
 */
module Ping {
  import opened Wrappers
  import opened Sip
  import opened Stack
  import opened Registry
  import opened Handlers
  import opened Config
  import MessageUtils

  const ALIAS_SEPARATOR := '_'
  const UNEXPECTED_REQUEST := "Unexpected Request for SIP OPTIONS session"
  const NO_ALIASES_IN_URI := "URI does not indicate  aliases to ping."
  const NO_ALIAS := "No alias to ping."
  const NO_ENDPOINT := "No endpoint available for alias: "

  // ---------------------------------------------------------------- java.lang.String

  /** The characters `String.trim` strips: every code point up to and including the space. */
  predicate IsBlank(c: char)
  {
    c <= ' '
  }

  /** `s` without its leading blanks. */
  function TrimStart(s: string): (r: string)
    ensures |r| <= |s|
  {
    if |s| > 0 && IsBlank(s[0]) then TrimStart(s[1..]) else s
  }

  /** `s` without its trailing blanks. */
  function TrimEnd(s: string): (r: string)
    ensures |r| <= |s|
  {
    if |s| > 0 && IsBlank(s[|s| - 1]) then TrimEnd(s[..|s| - 1]) else s
  }

  /** `String.trim`. */
  function Trim(s: string): string
  {
    TrimEnd(TrimStart(s))
  }

  /** TrimStart cuts a run of blanks off the front and stops at the first other character. */
  lemma {:induction false} TrimStartSpec(s: string)
    ensures TrimStart(s) == s[|s| - |TrimStart(s)|..]
    ensures forall k :: 0 <= k < |s| - |TrimStart(s)| ==> IsBlank(s[k])
    ensures |TrimStart(s)| > 0 ==> !IsBlank(TrimStart(s)[0])
  {
    if |s| > 0 && IsBlank(s[0]) {
      TrimStartSpec(s[1..]);
    }
  }

  /** TrimEnd cuts a run of blanks off the back and stops at the last other character. */
  lemma {:induction false} TrimEndSpec(s: string)
    ensures TrimEnd(s) == s[..|TrimEnd(s)|]
    ensures forall k :: |TrimEnd(s)| <= k < |s| ==> IsBlank(s[k])
    ensures |TrimEnd(s)| > 0 ==> !IsBlank(TrimEnd(s)[|TrimEnd(s)| - 1])
  {
    if |s| > 0 && IsBlank(s[|s| - 1]) {
      TrimEndSpec(s[..|s| - 1]);
    }
  }

  /**
   * `trim` keeps one contiguous slice of `s`: everything outside it is
   * blank, and a non-empty result neither starts nor ends with a blank.
   */
  lemma TrimSpec(s: string)
    ensures var a := |s| - |TrimStart(s)|;
      && a + |Trim(s)| <= |s|
      && Trim(s) == s[a..a + |Trim(s)|]
      && (forall k :: 0 <= k < a || a + |Trim(s)| <= k < |s| ==> IsBlank(s[k]))
      && (|Trim(s)| > 0 ==> !IsBlank(Trim(s)[0]) && !IsBlank(Trim(s)[|Trim(s)| - 1]))
  {
    var t := TrimStart(s);
    TrimStartSpec(s);
    TrimEndSpec(t);
    var a := |s| - |t|;
    forall k | a + |Trim(s)| <= k < |s|
      ensures IsBlank(s[k])
    {
      assert s[k] == t[k - a];
    }
  }

  /** The pieces of `s` between separators, empty ones included. */
  function Fields(s: string, sep: char): (r: seq<string>)
    ensures |r| >= 1
  {
    if |s| == 0 then [""]
    else
      var rest := Fields(s[1..], sep);
      if s[0] == sep then [""] + rest
      else [[s[0]] + rest[0]] + rest[1..]
  }

  /** No piece holds a separator. */
  lemma {:induction false} FieldsSeparated(s: string, sep: char)
    ensures forall i :: 0 <= i < |Fields(s, sep)| ==> sep !in Fields(s, sep)[i]
  {
    if |s| > 0 {
      FieldsSeparated(s[1..], sep);
      var rest := Fields(s[1..], sep);
      if s[0] != sep {
        assert Fields(s, sep)[0] == [s[0]] + rest[0];
        assert forall i :: 0 < i < |rest| ==> Fields(s, sep)[i] == rest[i];
      } else {
        assert forall i :: 0 < i <= |rest| ==> Fields(s, sep)[i] == rest[i - 1];
      }
    }
  }

  /** Pieces put back together with the separator between them. */
  function Join(parts: seq<string>, sep: char): string
    requires |parts| >= 1
  {
    if |parts| == 1 then parts[0] else parts[0] + [sep] + Join(parts[1..], sep)
  }

  /** Cutting at the separators loses nothing: joining the pieces gives the string back. */
  lemma {:induction false} JoinFields(s: string, sep: char)
    ensures Join(Fields(s, sep), sep) == s
  {
    if |s| > 0 {
      var rest := Fields(s[1..], sep);
      JoinFields(s[1..], sep);
      if s[0] == sep {
        assert Fields(s, sep)[1..] == rest;
      } else {
        var f := Fields(s, sep);
        assert f[0] == [s[0]] + rest[0];
        if |rest| == 1 {
          assert s == [s[0]] + s[1..];
        } else {
          assert f[1..] == rest[1..];
          assert Join(rest, sep) == rest[0] + [sep] + Join(rest[1..], sep);
          assert s == [s[0]] + s[1..];
        }
      }
    }
  }

  /** `parts` without its trailing empty strings. */
  function DropTrailingEmpty(parts: seq<string>): (r: seq<string>)
    ensures r <= parts
  {
    if |parts| == 0 then []
    else if parts[|parts| - 1] == "" then DropTrailingEmpty(parts[..|parts| - 1])
    else parts
  }

  /** Only empty strings are dropped, and the last one kept is not empty. */
  lemma {:induction false} DropTrailingEmptySpec(parts: seq<string>)
    ensures forall i :: |DropTrailingEmpty(parts)| <= i < |parts| ==> parts[i] == ""
    ensures |DropTrailingEmpty(parts)| > 0 ==> DropTrailingEmpty(parts)[|DropTrailingEmpty(parts)| - 1] != ""
  {
    if |parts| > 0 && parts[|parts| - 1] == "" {
      DropTrailingEmptySpec(parts[..|parts| - 1]);
    }
  }

  /**
   * `String.split` on a one-character pattern: a string without the
   * separator is its own only piece (even the empty string); otherwise the
   * pieces between separators, leading empty ones kept, trailing ones dropped.
   */
  function Split(s: string, sep: char): seq<string>
  {
    if sep !in s then [s] else DropTrailingEmpty(Fields(s, sep))
  }

  /**
   * What `split` promises: no piece holds the separator, and with a
   * separator present the pieces are the fields in order, only trailing
   * empty ones missing.
   */
  lemma SplitSpec(s: string, sep: char)
    ensures sep !in s ==> Split(s, sep) == [s]
    ensures forall i :: 0 <= i < |Split(s, sep)| ==> sep !in Split(s, sep)[i]
    ensures sep in s ==>
      && Split(s, sep) <= Fields(s, sep)
      && (forall i :: |Split(s, sep)| <= i < |Fields(s, sep)| ==> Fields(s, sep)[i] == "")
      && (|Split(s, sep)| > 0 ==> Split(s, sep)[|Split(s, sep)| - 1] != "")
  {
    FieldsSeparated(s, sep);
    DropTrailingEmptySpec(Fields(s, sep));
    if sep in s {
      var r := Split(s, sep);
      assert forall i :: 0 <= i < |r| ==> r[i] == Fields(s, sep)[i];
    }
  }

  // ---------------------------------------------------------------- the alias map

  /**
   * `a.compareTo(b) < 0` for Java strings: at the first position where they
   * differ the character of `a` is smaller, or `a` is a proper prefix of `b`.
   */
  predicate Below(a: string, b: string)
  {
    if |a| == 0 then |b| > 0
    else if |b| == 0 then false
    else if a[0] != b[0] then a[0] < b[0]
    else Below(a[1..], b[1..])
  }

  lemma {:induction false} BelowIrreflexive(a: string)
    ensures !Below(a, a)
  {
    if |a| > 0 {
      BelowIrreflexive(a[1..]);
    }
  }

  lemma {:induction false} BelowTransitive(a: string, b: string, c: string)
    requires Below(a, b) && Below(b, c)
    ensures Below(a, c)
  {
    if |a| > 0 && a[0] == b[0] && b[0] == c[0] {
      BelowTransitive(a[1..], b[1..], c[1..]);
    }
  }

  lemma {:induction false} BelowTotal(a: string, b: string)
    requires a != b
    ensures Below(a, b) || Below(b, a)
  {
    if |a| > 0 && |b| > 0 && a[0] == b[0] {
      assert a == [a[0]] + a[1..] && b == [b[0]] + b[1..];
      BelowTotal(a[1..], b[1..]);
    }
  }

  /** An entry of `alias2ListOfEndpoints`: an alias and the endpoint list of its service. */
  type Entry = (string, seq<Endpoint>)

  /** A TreeMap's entries in iteration order: keys strictly ascending. */
  ghost predicate SortedByKey(m: seq<Entry>)
  {
    forall i, j :: 0 <= i < j < |m| ==> Below(m[i].0, m[j].0)
  }

  function KeySet(m: seq<Entry>): set<string>
  {
    set e | e in m :: e.0
  }

  /** The elements of a sequence of strings, as a set. */
  function Elements(s: seq<string>): set<string>
  {
    set x | x in s
  }

  /** Every key after the first of a sorted map lies above it. */
  lemma AboveHead(m: seq<Entry>)
    requires SortedByKey(m) && |m| > 0
    ensures SortedByKey(m[1..])
    ensures forall e :: e in m[1..] ==> Below(m[0].0, e.0)
  {
    forall e | e in m[1..]
      ensures Below(m[0].0, e.0)
    {
      var j :| 0 <= j < |m[1..]| && m[1..][j] == e;
      assert m[j + 1] == e;
    }
  }

  /** Sorted keys never repeat, so a duplicated alias occupies one entry. */
  lemma KeysDistinct(m: seq<Entry>)
    requires SortedByKey(m)
    ensures forall i, j :: 0 <= i < j < |m| ==> m[i].0 != m[j].0
  {
    forall i, j | 0 <= i < j < |m|
      ensures m[i].0 != m[j].0
    {
      BelowIrreflexive(m[i].0);
    }
  }

  /** `TreeMap.put`: the entry for `k` is replaced, or inserted where its key belongs. */
  function Put(m: seq<Entry>, k: string, v: seq<Endpoint>): seq<Entry>
  {
    if |m| == 0 then [(k, v)]
    else if m[0].0 == k then [(k, v)] + m[1..]
    else if Below(k, m[0].0) then [(k, v)] + m
    else [m[0]] + Put(m[1..], k, v)
  }

  /** When the entries are those of `m` with `k` bound to `v`, so are the keys. */
  lemma KeysOfPut(r: seq<Entry>, m: seq<Entry>, k: string, v: seq<Endpoint>)
    requires forall e :: e in r <==> e == (k, v) || (e in m && e.0 != k)
    ensures KeySet(r) == KeySet(m) + {k}
  {
    assert (k, v) in r;
    forall x | x in KeySet(m) + {k}
      ensures x in KeySet(r)
    {
      if x != k {
        var e :| e in m && e.0 == x;
        assert e in r;
      }
    }
  }

  /** Putting a key that is already first replaces its entry. */
  lemma PutFirst(m: seq<Entry>, k: string, v: seq<Endpoint>)
    requires SortedByKey(m) && |m| > 0 && m[0].0 == k
    ensures SortedByKey(Put(m, k, v))
    ensures forall e :: e in Put(m, k, v) <==> e == (k, v) || (e in m && e.0 != k)
  {
    var r := Put(m, k, v);
    AboveHead(m);
    BelowIrreflexive(k);
    assert forall i :: 0 < i < |r| ==> r[i] == m[i];
    assert m == [m[0]] + m[1..];
  }

  /** Putting a key below every key of the map adds its entry in front. */
  lemma PutBelow(m: seq<Entry>, k: string, v: seq<Endpoint>)
    requires SortedByKey(m) && |m| > 0 && Below(k, m[0].0)
    ensures SortedByKey(Put(m, k, v))
    ensures forall e :: e in Put(m, k, v) <==> e == (k, v) || (e in m && e.0 != k)
  {
    var r := Put(m, k, v);
    AboveHead(m);
    BelowIrreflexive(k);
    forall e | e in m
      ensures Below(k, e.0)
    {
      if e != m[0] {
        BelowTransitive(k, m[0].0, e.0);
      }
    }
    forall i, j | 0 <= i < j < |r|
      ensures Below(r[i].0, r[j].0)
    {
      if i > 0 {
        assert r[i] == m[i - 1] && r[j] == m[j - 1];
      } else {
        assert r[j] in m;
      }
    }
  }

  /**
   * Putting keeps the entries in key order; afterwards `k` maps to `v` and
   * every other key keeps the value it had.
   */
  lemma {:induction false} PutSpec(m: seq<Entry>, k: string, v: seq<Endpoint>)
    requires SortedByKey(m)
    ensures SortedByKey(Put(m, k, v))
    ensures KeySet(Put(m, k, v)) == KeySet(m) + {k}
    ensures forall e :: e in Put(m, k, v) <==> e == (k, v) || (e in m && e.0 != k)
  {
    if |m| > 0 {
      if m[0].0 == k {
        PutFirst(m, k, v);
      } else if Below(k, m[0].0) {
        PutBelow(m, k, v);
      } else {
        AboveHead(m);
        PutSpec(m[1..], k, v);
        PutAfter(m, k, v);
      }
    }
    KeysOfPut(Put(m, k, v), m, k, v);
  }

  /** Putting a key above the first one keeps the first entry in front of the rest. */
  lemma PutAfter(m: seq<Entry>, k: string, v: seq<Endpoint>)
    requires SortedByKey(m) && |m| > 0 && m[0].0 != k && !Below(k, m[0].0)
    requires SortedByKey(Put(m[1..], k, v))
    requires forall e :: e in Put(m[1..], k, v) <==> e == (k, v) || (e in m[1..] && e.0 != k)
    ensures SortedByKey(Put(m, k, v))
    ensures forall e :: e in Put(m, k, v) <==> e == (k, v) || (e in m && e.0 != k)
  {
    var tail := Put(m[1..], k, v);
    var r := Put(m, k, v);
    assert r == [m[0]] + tail;
    BelowTotal(k, m[0].0);
    AboveHead(m);
    forall x | x in tail
      ensures Below(m[0].0, x.0)
    {
    }
    ConsSorted(m[0], tail);
    forall e
      ensures e in r <==> e == (k, v) || (e in m && e.0 != k)
    {
      assert e in r <==> e == m[0] || e in tail;
      assert e in m <==> e == m[0] || e in m[1..] by {
        assert m == [m[0]] + m[1..];
      }
    }
  }

  /** An entry whose key lies below every key of a sorted map can go in front of it. */
  lemma ConsSorted(e: Entry, m: seq<Entry>)
    requires SortedByKey(m)
    requires forall x :: x in m ==> Below(e.0, x.0)
    ensures SortedByKey([e] + m)
  {
    var r := [e] + m;
    forall i, j | 0 <= i < j < |r|
      ensures Below(r[i].0, r[j].0)
    {
      assert r[j] == m[j - 1];
      if i > 0 {
        assert r[i] == m[i - 1];
      }
    }
  }

  /**
   * The entries after putting `aliases` one after the other, each with the
   * endpoint list its service has in `services`: sorted, holding each
   * alias once, with its service's endpoints.
   */
  function Fill(aliases: seq<string>, services: map<string, seq<Endpoint>>): (m: seq<Entry>)
    requires forall i :: 0 <= i < |aliases| ==> aliases[i] in services
    ensures SortedByKey(m)
    ensures KeySet(m) == Elements(aliases)
    ensures forall e :: e in m ==> e.0 in services && e.1 == services[e.0]
  {
    if |aliases| == 0 then []
    else
      var n := |aliases| - 1;
      var before := Fill(aliases[..n], services);
      PutSpec(before, aliases[n], services[aliases[n]]);
      assert aliases == aliases[..n] + [aliases[n]];
      Put(before, aliases[n], services[aliases[n]])
  }

  /** An alias names a configured service that has endpoints. */
  predicate Usable(alias: string, services: map<string, seq<Endpoint>>)
  {
    alias in services && |services[alias]| > 0
  }

  /** The position of the first alias that is not usable, `|aliases|` when all are. */
  function FirstUnusable(aliases: seq<string>, services: map<string, seq<Endpoint>>): (n: nat)
    ensures n <= |aliases|
    ensures forall i :: 0 <= i < n ==> Usable(aliases[i], services)
    ensures n < |aliases| ==> !Usable(aliases[n], services)
  {
    if |aliases| == 0 || !Usable(aliases[0], services) then 0
    else 1 + FirstUnusable(aliases[1..], services)
  }

  /** The aliases an OPTIONS request URI lists: its trimmed user part cut at `_`. */
  function AliasesOf(uri: Uri): seq<string>
  {
    if uri.SipUri? then Split(Trim(uri.user), ALIAS_SEPARATOR) else []
  }

  /** The aliases of a request URI, as a set. */
  function Named(uri: Uri): set<string>
  {
    Elements(AliasesOf(uri))
  }

  /** `parseUri` succeeds: a SIP URI with a user part, every alias of which is usable. */
  predicate Parses(uri: Uri, services: map<string, seq<Endpoint>>)
  {
    uri.SipUri? && |uri.user| > 0 && FirstUnusable(AliasesOf(uri), services) == |AliasesOf(uri)|
  }

  /**
   * A user part made only of separators names no alias, yet `parseUri`
   * accepts it: the answer is then "No alias to ping." rather than the
   * parse failure.
   */
  lemma {:induction false} SeparatorsOnlyParse(host: string, params: seq<(string, string)>, services: map<string, seq<Endpoint>>)
    ensures AliasesOf(SipUri("__", host, params)) == []
    ensures Parses(SipUri("__", host, params), services)
  {
    assert Trim("__") == "__" by {
      assert TrimStart("__") == "__";
      assert TrimEnd("__") == "__";
    }
    assert Fields("", '_') == [""];
    assert Fields("_", '_') == ["", ""];
    assert Fields("__", '_') == ["", "", ""];
    assert "__"[0] == '_';
    var e: seq<string> := ["", "", ""];
    assert e[..2][..1][..0] == [];
    assert DropTrailingEmpty(e) == DropTrailingEmpty(e[..2]) == DropTrailingEmpty(e[..2][..1]) == [];
  }

  /** When every entry of `m` has answered, so has every key of `m`. */
  lemma AllAnswered(m: seq<Entry>, answered: set<string>)
    requires forall k :: 0 <= k < |m| ==> m[k].0 in answered
    ensures KeySet(m) <= answered
  {
    forall e | e in m
      ensures e.0 in answered
    {
      var k :| 0 <= k < |m| && m[k] == e;
    }
  }

  /** A repeated alias is pinged once: the map's keys never repeat. */
  lemma {:induction false} RepeatedAliasOnce(a: string, services: map<string, seq<Endpoint>>)
    requires a in services
    ensures Fill([a, a], services) == [(a, services[a])]
  {
    assert [a, a][..1] == [a];
    assert Fill([a], services) == Put([], a, services[a]);
  }

  /**
   * The first endpoint at or after `from` that the stack takes an OPTIONS
   * for, `|eps|` when there is none.
   */
  function FirstSendable(eps: seq<Endpoint>, from: nat, broken: set<Link>): (j: nat)
    requires from <= |eps|
    ensures from <= j <= |eps|
    ensures forall k :: from <= k < j ==> Outcome(broken, ToRoute(eps[k].route)) != Sent
    ensures j < |eps| ==> Outcome(broken, ToRoute(eps[j].route)) == Sent
    decreases |eps| - from
  {
    if from == |eps| then from
    else if Outcome(broken, ToRoute(eps[from].route)) == Sent then from
    else FirstSendable(eps, from + 1, broken)
  }

  /** What a final answer hands to the stack: nothing when there is no request to answer. */
  function Answer(req: Option<Request>, broken: set<Link>, status: int, reason: string): seq<Packet>
  {
    if req.Some? then Accepted(broken, Stateless, Resp(status, reason)) else []
  }

  class PingSession {
    /** The registry key: the pinged URI's user part. */
    const id: string
    var pingOptionsRequest: Option<Request>
    /** `alias2ListOfEndpoints`. */
    var aliasMap: seq<Entry>
    /** `aliasesIterator`: how many aliases it has handed out; none before the first request. */
    var aliasCursor: Option<nat>
    var currentAlias: Option<string>
    /** The list `endpointsIterator` walks, and how many endpoints it has handed out. */
    var endpoints: seq<Endpoint>
    var endpointCursor: Option<nat>
    /** The aliases whose ping has been answered with 200. */
    ghost var answered: set<string>

    /** Whether `parseUri` has accepted the request URI. */
    ghost var parsed: bool

    /** The alias map is in key order and, once parsed, holds exactly the URI's aliases. */
    ghost predicate Parsed()
      reads this`aliasMap, this`pingOptionsRequest, this`parsed
    {
      && SortedByKey(aliasMap)
      && (parsed ==> pingOptionsRequest.Some? && KeySet(aliasMap) == Named(pingOptionsRequest.value.requestUri))
      && (pingOptionsRequest.None? ==> aliasMap == [] && !parsed)
    }

    /** The aliases before the current one have all answered; the current one's list is walked. */
    ghost predicate Progress()
      reads this`aliasCursor, this`currentAlias, this`endpoints, this`aliasMap, this`answered
      reads this`parsed, this`pingOptionsRequest
    {
      && (aliasCursor.Some? ==> parsed && aliasCursor.value <= |aliasMap|)
      && (aliasCursor.Some? && aliasCursor.value > 0 ==>
            && currentAlias == Some(aliasMap[aliasCursor.value - 1].0)
            && endpoints == aliasMap[aliasCursor.value - 1].1
            && forall k :: 0 <= k < aliasCursor.value - 1 ==> aliasMap[k].0 in answered)
      && (pingOptionsRequest.None? ==> aliasCursor.None?)
    }

    ghost predicate Valid()
      reads this
    {
      && Parsed()
      && Progress()
      && (endpointCursor.Some? ==> pingOptionsRequest.Some? && endpointCursor.value <= |endpoints|)
    }

    constructor (user: string)
      ensures Valid() && id == user
      ensures pingOptionsRequest.None? && currentAlias.None? && answered == {}
    {
      id := user;
      pingOptionsRequest := None;
      aliasMap := [];
      aliasCursor := None;
      currentAlias := None;
      endpoints := [];
      endpointCursor := None;
      answered := {};
      parsed := false;
    }

    /**
     * `parseUri`: the alias map is rebuilt from the URI's aliases, each put
     * with its service's endpoints, stopping at the first alias that is not
     * configured or has no endpoints. It succeeds when the URI is a SIP URI
     * with a user part and no alias stopped it; the map is then sorted and
     * holds exactly the URI's aliases, duplicates once.
     */
    method ParseUri(uri: Uri, services: map<string, seq<Endpoint>>) returns (ok: bool)
      modifies this`aliasMap
      ensures ok <==> Parses(uri, services)
      ensures !uri.SipUri? || |uri.user| == 0 ==> aliasMap == []
      ensures uri.SipUri? && |uri.user| > 0 ==>
        var aliases := AliasesOf(uri);
        aliasMap == Fill(aliases[..FirstUnusable(aliases, services)], services)
      ensures SortedByKey(aliasMap)
      ensures ok ==> KeySet(aliasMap) == Named(uri)
      ensures ok ==> forall e :: e in aliasMap ==> e.0 in services && e.1 == services[e.0]
    {
      aliasMap := [];
      if !uri.SipUri? || |uri.user| == 0 {
        return false;
      }
      var aliases := Split(Trim(uri.user), ALIAS_SEPARATOR);
      var i := 0;
      while i < |aliases|
        invariant 0 <= i <= FirstUnusable(aliases, services)
        invariant aliasMap == Fill(aliases[..i], services)
      {
        var alias := aliases[i];
        if alias !in services {
          return false;
        }
        var eps := services[alias];
        if |eps| == 0 {
          return false;
        }
        assert aliases[..i + 1][..i] == aliases[..i];
        aliasMap := Put(aliasMap, alias, eps);
        i := i + 1;
      }
      assert aliases[..i] == aliases;
      ok := true;
    }

    /**
     * `pingServiceEndpoints`: the endpoints of the current alias are tried in
     * list order from the cursor on, and the first one the stack takes an
     * OPTIONS for ends the walk, the cursor just past it. It reports true only
     * when the list is exhausted without a ping sent.
     */
    method PingServiceEndpoints(net: Net) returns (exhausted: bool)
      requires endpointCursor.Some? && endpointCursor.value <= |endpoints|
      modifies this`endpointCursor, net`log
      ensures var j := FirstSendable(endpoints, old(endpointCursor.value), net.broken);
        && (exhausted <==> j == |endpoints|)
        && endpointCursor == Some(if exhausted then |endpoints| else j + 1)
        && net.log == old(net.log) + (if exhausted then [] else [Packet(ToRoute(endpoints[j].route), Req(OPTIONS))])
    {
      var c := endpointCursor.value;
      while c < |endpoints|
        invariant old(endpointCursor.value) <= c <= |endpoints|
        invariant FirstSendable(endpoints, old(endpointCursor.value), net.broken) == FirstSendable(endpoints, c, net.broken)
        invariant net.log == old(net.log)
        invariant endpointCursor == Some(c)
      {
        var ep := endpoints[c];
        c := c + 1;
        endpointCursor := Some(c);
        var r := net.Send(ToRoute(ep.route), Req(OPTIONS));
        if r == Sent {
          return false;
        }
      }
      exhausted := true;
    }

    /**
     * `sendErrorResponseAndUnmapSession` and `sendSuccessResponseAndUnmapSession`:
     * the answer goes to the IM-SCF statelessly (a failure only logged, and
     * nothing sent without a request to answer) and the session leaves the
     * registry whatever happened.
     */
    method AnswerAndUnmap<S>(req: Option<Request>, status: int, reason: string, net: Net, reg: SessionManager<S>)
      modifies net`log, reg
      ensures net.log == old(net.log) + Answer(req, net.broken, status, reason)
      ensures reg.sessions == old(reg.sessions) - {id}
    {
      if req.Some? {
        var _ := net.Send(Stateless, Resp(status, reason));
      }
      reg.Remove(id);
    }

    /**
     * `handleRequest`: the OPTIONS is kept and its URI parsed. A URI that does
     * not parse gets 400, as does one that names no alias. Otherwise the first
     * alias (in key order) is current and its endpoints are pinged; when none
     * takes the ping the answer is 404. Every answer unmaps the session.
     */
    method HandleRequest<S>(req: Request, services: map<string, seq<Endpoint>>, net: Net, reg: SessionManager<S>)
      requires Valid() && pingOptionsRequest.None?
      modifies this, net`log, reg
      ensures Valid() && pingOptionsRequest == Some(req) && answered == old(answered)
      ensures parsed <==> Parses(req.requestUri, services)
      ensures !parsed ==>
        && net.log == old(net.log) + Accepted(net.broken, Stateless, Resp(BAD_REQUEST, NO_ALIASES_IN_URI))
        && reg.sessions == old(reg.sessions) - {id} && aliasCursor.None?
      ensures parsed ==> KeySet(aliasMap) == Named(req.requestUri) && aliasCursor.Some?
      ensures parsed && |aliasMap| == 0 ==>
        && net.log == old(net.log) + Accepted(net.broken, Stateless, Resp(BAD_REQUEST, NO_ALIAS))
        && reg.sessions == old(reg.sessions) - {id}
      ensures parsed && |aliasMap| > 0 ==>
        var j := FirstSendable(endpoints, 0, net.broken);
        && aliasCursor == Some(1) && currentAlias == Some(aliasMap[0].0) && endpoints == aliasMap[0].1
        && (j < |endpoints| ==>
              net.log == old(net.log) + [Packet(ToRoute(endpoints[j].route), Req(OPTIONS))] && reg.sessions == old(reg.sessions))
        && (j == |endpoints| ==>
              && net.log == old(net.log) + Accepted(net.broken, Stateless, Resp(NOT_FOUND, NO_ENDPOINT + aliasMap[0].0))
              && reg.sessions == old(reg.sessions) - {id})
    {
      var ok := Accept(req, services);
      if !ok {
        AnswerAndUnmap(pingOptionsRequest, BAD_REQUEST, NO_ALIASES_IN_URI, net, reg);
        return;
      }
      if |aliasMap| > 0 {
        StartAlias(0, NOT_FOUND, net, reg);
      } else {
        AnswerAndUnmap(pingOptionsRequest, BAD_REQUEST, NO_ALIAS, net, reg);
      }
    }

    /** The `i`-th alias becomes current, its endpoint walk not yet begun. */
    method Select(i: nat)
      requires Valid() && parsed && i < |aliasMap| && aliasCursor == Some(i)
      requires forall k :: 0 <= k < i ==> aliasMap[k].0 in answered
      modifies this`aliasCursor, this`currentAlias, this`endpoints, this`endpointCursor
      ensures Valid()
      ensures aliasCursor == Some(i + 1) && currentAlias == Some(aliasMap[i].0) && endpoints == aliasMap[i].1
      ensures endpointCursor == Some(0)
    {
      currentAlias := Some(aliasMap[i].0);
      endpoints := aliasMap[i].1;
      endpointCursor := Some(0);
      aliasCursor := Some(i + 1);
    }

    /**
     * The OPTIONS is kept and its URI parsed; on success the alias walk is
     * set before the first alias.
     */
    method Accept(req: Request, services: map<string, seq<Endpoint>>) returns (ok: bool)
      requires Valid() && pingOptionsRequest.None?
      modifies this`pingOptionsRequest, this`aliasMap, this`parsed, this`aliasCursor
      ensures Valid() && pingOptionsRequest == Some(req)
      ensures ok == parsed && (parsed <==> Parses(req.requestUri, services))
      ensures parsed ==> KeySet(aliasMap) == Named(req.requestUri) && aliasCursor == Some(0)
      ensures !parsed ==> aliasCursor.None?
    {
      pingOptionsRequest := Some(req);
      ok := ParseUri(req.requestUri, services);
      parsed := ok;
      if ok {
        aliasCursor := Some(0);
      }
    }

    /**
     * The `i`-th alias in key order becomes current, its endpoint walk
     * starts from the first endpoint, and `status` goes to the IM-SCF when
     * none of them takes the ping.
     */
    method StartAlias<S>(i: nat, status: int, net: Net, reg: SessionManager<S>)
      requires Valid() && parsed && i < |aliasMap| && aliasCursor == Some(i)
      requires forall k :: 0 <= k < i ==> aliasMap[k].0 in answered
      modifies this`aliasCursor, this`currentAlias, this`endpoints, this`endpointCursor, net`log, reg
      ensures Valid()
      ensures aliasCursor == Some(i + 1) && currentAlias == Some(aliasMap[i].0) && endpoints == aliasMap[i].1
      ensures Walked(0, status, aliasMap[i].0, old(net.log), old(reg.sessions), net, reg)
    {
      Select(i);
      var exhausted := PingServiceEndpoints(net);
      if exhausted {
        AnswerAndUnmap(pingOptionsRequest, status, NO_ENDPOINT + aliasMap[i].0, net, reg);
      }
    }

    /**
     * The current alias failed to answer (an error response or a timeout):
     * its next endpoints are tried, and `status` goes to the IM-SCF when none
     * is left. Without an endpoint walk under way this is a NullPointerException.
     */
    method TryNextEndpoint<S>(status: int, net: Net, reg: SessionManager<S>) returns (fault: Option<Fault>)
      requires Valid()
      modifies this`endpointCursor, net`log, reg
      ensures Valid()
      ensures old(endpointCursor).None? ==>
        fault == Some(RuntimeFault) && net.log == old(net.log) && reg.sessions == old(reg.sessions)
        && endpointCursor == old(endpointCursor)
      ensures old(endpointCursor).Some? ==>
        var j := FirstSendable(endpoints, old(endpointCursor).value, net.broken);
        && fault.None?
        && (j < |endpoints| ==>
              && net.log == old(net.log) + [Packet(ToRoute(endpoints[j].route), Req(OPTIONS))]
              && endpointCursor == Some(j + 1) && reg.sessions == old(reg.sessions))
        && (j == |endpoints| ==>
              && net.log == old(net.log) + Accepted(net.broken, Stateless, Resp(status, NO_ENDPOINT + MessageUtils.JavaString(currentAlias)))
              && endpointCursor == Some(|endpoints|) && reg.sessions == old(reg.sessions) - {id})
    {
      if endpointCursor.None? {
        return Some(RuntimeFault);
      }
      var exhausted := PingServiceEndpoints(net);
      if exhausted {
        AnswerAndUnmap(pingOptionsRequest, status, NO_ENDPOINT + MessageUtils.JavaString(currentAlias), net, reg);
      }
      fault := None;
    }

    /** The current alias has answered, and with it every alias before the cursor. */
    ghost method MarkAnswered()
      requires Valid() && aliasCursor.Some?
      modifies this`answered
      ensures Valid() && old(answered) <= answered
      ensures forall k :: 0 <= k < aliasCursor.value ==> aliasMap[k].0 in answered
    {
      if currentAlias.Some? {
        answered := answered + {currentAlias.value};
      }
    }

    /**
     * `handleResponse` on a 200: the current alias has answered. The next
     * alias in key order becomes current and its endpoints are pinged from
     * the first; if none takes the ping the IM-SCF gets 400. With no alias
     * left the IM-SCF gets 200, every alias of the map having answered.
     */
    method HandleOk<S>(net: Net, reg: SessionManager<S>) returns (fault: Option<Fault>)
      requires Valid()
      modifies this`aliasCursor, this`currentAlias, this`endpoints, this`endpointCursor, this`answered, net`log, reg
      ensures Valid() && old(answered) <= answered
      ensures old(aliasCursor).None? ==>
        fault == Some(RuntimeFault) && net.log == old(net.log) && reg.sessions == old(reg.sessions)
      ensures old(aliasCursor).Some? ==> fault.None?
      ensures old(aliasCursor).Some? && old(aliasCursor).value < |aliasMap| ==>
        var i := old(aliasCursor).value;
        && aliasCursor == Some(i + 1) && currentAlias == Some(aliasMap[i].0) && endpoints == aliasMap[i].1
        && (i > 0 ==> aliasMap[i - 1].0 in answered)
        && Walked(0, BAD_REQUEST, aliasMap[i].0, old(net.log), old(reg.sessions), net, reg)
      ensures old(aliasCursor) == Some(|aliasMap|) ==>
        && net.log == old(net.log) + Accepted(net.broken, Stateless, Resp(OK, ""))
        && reg.sessions == old(reg.sessions) - {id}
        && KeySet(aliasMap) <= answered
    {
      if aliasCursor.None? {
        return Some(RuntimeFault);
      }
      var i := aliasCursor.value;
      MarkAnswered();
      if i < |aliasMap| {
        StartAlias(i, BAD_REQUEST, net, reg);
      } else {
        AnswerAndUnmap(pingOptionsRequest, OK, "", net, reg);
        AllAnswered(aliasMap, answered);
      }
      fault := None;
    }

    /**
     * The endpoint walk of `alias` went on from `from`: the first endpoint
     * that takes the ping was sent OPTIONS and the session stays mapped; when
     * none did, `status` went to the IM-SCF and the session was unmapped.
     */
    ghost predicate Walked<S>(from: nat, status: int, alias: string, log0: seq<Packet>, sessions0: map<string, S>,
                              net: Net, reg: SessionManager<S>)
      reads this, net, reg
    {
      && from <= |endpoints|
      && var j := FirstSendable(endpoints, from, net.broken);
      && (j < |endpoints| ==>
            net.log == log0 + [Packet(ToRoute(endpoints[j].route), Req(OPTIONS))] && reg.sessions == sessions0)
      && (j == |endpoints| ==>
            net.log == log0 + Accepted(net.broken, Stateless, Resp(status, NO_ENDPOINT + alias))
            && reg.sessions == sessions0 - {id})
    }

    /**
     * `handleNextEvent`: a request after the first gets 400 and unmaps the
     * session; the first is handled by HandleRequest. A 200 moves on to the
     * next alias; any other response, and a timeout, to the next endpoint,
     * 404 when none is left. Other events change nothing. A
     * NullPointerException escapes as a RuntimeFault.
     */
    method HandleNextEvent<S>(ev: Event, services: map<string, seq<Endpoint>>, net: Net, reg: SessionManager<S>)
      returns (fault: Option<Fault>)
      requires Valid()
      modifies this, net`log, reg
      ensures Valid() && old(answered) <= answered && old(net.log) <= net.log
      ensures fault.Some? ==> fault == Some(RuntimeFault)
      ensures reg.sessions == old(reg.sessions) || reg.sessions == old(reg.sessions) - {id}
      ensures ev.RequestEvent? && old(pingOptionsRequest).Some? ==>
        && net.log == old(net.log) + Accepted(net.broken, Stateless, Resp(BAD_REQUEST, UNEXPECTED_REQUEST))
        && reg.sessions == old(reg.sessions) - {id}
        && unchanged(this)
      ensures ev.RequestEvent? && old(pingOptionsRequest).None? ==>
        && pingOptionsRequest == Some(ev.req) && fault.None?
        && (parsed <==> Parses(ev.req.requestUri, services))
        && (!parsed ==>
              && net.log == old(net.log) + Accepted(net.broken, Stateless, Resp(BAD_REQUEST, NO_ALIASES_IN_URI))
              && reg.sessions == old(reg.sessions) - {id})
        && (parsed && |aliasMap| == 0 ==>
              && net.log == old(net.log) + Accepted(net.broken, Stateless, Resp(BAD_REQUEST, NO_ALIAS))
              && reg.sessions == old(reg.sessions) - {id})
        && (parsed && |aliasMap| > 0 ==>
              && currentAlias == Some(aliasMap[0].0) && endpoints == aliasMap[0].1
              && Walked(0, NOT_FOUND, aliasMap[0].0, old(net.log), old(reg.sessions), net, reg))
      ensures (ev.ResponseEvent? && ev.resp.status != OK) || ev.TimeoutEvent? ==>
        && (old(endpointCursor).None? ==>
              fault == Some(RuntimeFault) && net.log == old(net.log) && reg.sessions == old(reg.sessions))
        && (old(endpointCursor).Some? ==>
              && fault.None?
              && Walked(old(endpointCursor).value, NOT_FOUND, MessageUtils.JavaString(currentAlias), old(net.log), old(reg.sessions), net, reg))
      ensures ev.ResponseEvent? && ev.resp.status == OK && old(aliasCursor).None? ==>
        fault == Some(RuntimeFault) && net.log == old(net.log) && reg.sessions == old(reg.sessions)
      ensures ev.ResponseEvent? && ev.resp.status == OK && old(aliasCursor).Some? && old(aliasCursor).value < |aliasMap| ==>
        var i := old(aliasCursor).value;
        && fault.None? && aliasCursor == Some(i + 1)
        && currentAlias == Some(aliasMap[i].0) && endpoints == aliasMap[i].1
        && (i > 0 ==> aliasMap[i - 1].0 in answered)
        && Walked(0, BAD_REQUEST, aliasMap[i].0, old(net.log), old(reg.sessions), net, reg)
      ensures !ev.RequestEvent? && !ev.ResponseEvent? && !ev.TimeoutEvent? ==>
        fault.None? && net.log == old(net.log) && reg.sessions == old(reg.sessions) && unchanged(this)
      ensures !ev.RequestEvent? ==> KeySet(aliasMap) == old(KeySet(aliasMap)) && pingOptionsRequest == old(pingOptionsRequest)
      ensures ev.ResponseEvent? && ev.resp.status == OK && old(aliasCursor) == Some(|aliasMap|) ==>
        && net.log == old(net.log) + Accepted(net.broken, Stateless, Resp(OK, ""))
        && reg.sessions == old(reg.sessions) - {id}
        && pingOptionsRequest.Some? && Named(pingOptionsRequest.value.requestUri) <= answered
    {
      match ev {
        case RequestEvent(req, _, _, _) =>
          if pingOptionsRequest.Some? {
            AnswerAndUnmap(Some(req), BAD_REQUEST, UNEXPECTED_REQUEST, net, reg);
            return None;
          }
          HandleRequest(req, services, net, reg);
          fault := None;
        case ResponseEvent(resp, _, _, _) =>
          if resp.status == OK {
            fault := HandleOk(net, reg);
          } else {
            fault := TryNextEndpoint(NOT_FOUND, net, reg);
          }
        case TimeoutEvent(_, _, _, _) =>
          fault := TryNextEndpoint(NOT_FOUND, net, reg);
        case _ =>
          fault := None;
      }
    }
  }
}

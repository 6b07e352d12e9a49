/**
 * The broker's registry of ongoing sessions, keyed by the session id: the
 * Original-Dialog-ID of an orchestrated session, the Call-ID of an
 * auxiliary one, the pinged URI user of a ping session.
 */
module Registry {
  import opened Wrappers

  class SessionManager<S> {
    var sessions: map<string, S>

    constructor ()
      ensures sessions == map[]
    {
      sessions := map[];
    }

    /** `findSession`: the session mapped to the id, none when there is none. */
    function FindSession(id: string): (r: Option<S>)
      reads this
      ensures r.Some? <==> id in sessions
      ensures r.Some? ==> r.value == sessions[id]
    {
      if id in sessions then Some(sessions[id]) else None
    }

    /**
     * The put of `createAuxiliarySession` and `createPingSession`, and the
     * insertion `computeIfAbsent` makes: the id maps to `s`, whatever it
     * mapped to before, and every other id keeps its session.
     */
    method Put(id: string, s: S)
      modifies this
      ensures sessions == old(sessions)[id := s]
      ensures FindSession(id) == Some(s)
      ensures forall k :: k != id ==> FindSession(k) == old(FindSession(k))
    {
      sessions := sessions[id := s];
    }

    /**
     * `computeIfAbsent`, as `createOrchestratedSession` uses it: a session
     * already mapped to the id is returned and nothing changes; otherwise
     * `s` is mapped to the id and returned.
     */
    method ComputeIfAbsent(id: string, s: S) returns (r: S)
      modifies this
      ensures id in old(sessions) ==> r == old(sessions)[id] && sessions == old(sessions)
      ensures id !in old(sessions) ==> r == s && sessions == old(sessions)[id := s]
      ensures FindSession(id) == Some(r)
    {
      if id in sessions {
        r := sessions[id];
      } else {
        sessions := sessions[id := s];
        r := s;
      }
    }

    /** `removeSession`: only that id loses its session. */
    method Remove(id: string)
      modifies this
      ensures sessions == old(sessions) - {id}
      ensures FindSession(id).None?
      ensures forall k :: k != id ==> FindSession(k) == old(FindSession(k))
    {
      sessions := sessions - {id};
    }

    /** `removeAllSessions`: no id has a session any more. */
    method RemoveAll()
      modifies this
      ensures sessions == map[]
      ensures forall k :: FindSession(k).None?
    {
      sessions := map[];
    }
  }
}

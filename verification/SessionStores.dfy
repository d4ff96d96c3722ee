/** The session and pending-login stores of apps/api/src/handlers/sessions.ts. Times are
    milliseconds since the epoch; a null id is None. */
module SessionStores {
  import opened Options

  const SESSION_TTL_MS := 8 * 60 * 60 * 1000
  const PENDING_TTL_MS := 5 * 60 * 1000

  datatype SessionRecord = SessionRecord(user: string, accessToken: string, expiresAt: int)

  datatype PendingAuth = PendingAuth(codeVerifier: string, expiresAt: int, returnTo: Option<string>)

  type Sessions = map<string, SessionRecord>

  type Pending = map<string, PendingAuth>

  /** `if (!id)`: null and the empty string name nothing. */
  predicate Names(id: Option<string>) {
    id.Some? && id.value != ""
  }

  function FindSession(s: Sessions, id: Option<string>, now: int): Option<SessionRecord> {
    if Names(id) && id.value in s && s[id.value].expiresAt > now then Some(s[id.value]) else None
  }

  /** A lookup drops the record that it finds expired. */
  function AfterLookup(s: Sessions, id: Option<string>, now: int): Sessions {
    if Names(id) && id.value in s && s[id.value].expiresAt <= now then s - {id.value} else s
  }

  function AfterDelete(s: Sessions, id: Option<string>): Sessions {
    if Names(id) then s - {id.value} else s
  }

  function FindPending(p: Pending, state: Option<string>, now: int): Option<PendingAuth> {
    if Names(state) && state.value in p && p[state.value].expiresAt > now then Some(p[state.value]) else None
  }

  /** Consuming removes the entry, expired or not. */
  function AfterConsume(p: Pending, state: Option<string>): Pending {
    if Names(state) then p - {state.value} else p
  }

  class Stores {
    var sessions: Sessions
    var pending: Pending

    constructor ()
      ensures sessions == map[] && pending == map[]
    {
      sessions, pending := map[], map[];
    }

    /** `id` is the random session id. */
    method CreateSession(id: string, user: string, accessToken: string, now: int)
      modifies this`sessions
      ensures sessions == old(sessions)[id := SessionRecord(user, accessToken, now + SESSION_TTL_MS)]
      ensures id != "" ==> forall t :: FindSession(sessions, Some(id), t).Some? <==> t < now + SESSION_TTL_MS
    {
      sessions := sessions[id := SessionRecord(user, accessToken, now + SESSION_TTL_MS)];
    }

    method LookupSession(id: Option<string>, now: int) returns (r: Option<SessionRecord>)
      modifies this`sessions
      ensures r == FindSession(old(sessions), id, now)
      ensures r.Some? ==> id.Some? && id.value in old(sessions) && r.value == old(sessions)[id.value]
      ensures id.Some? && id.value != "" && id.value in old(sessions) ==>
                (r.Some? <==> now < old(sessions)[id.value].expiresAt)
      ensures sessions == AfterLookup(old(sessions), id, now)
      ensures forall i :: i in old(sessions) && (now < old(sessions)[i].expiresAt || id != Some(i)) ==> i in sessions
      ensures forall i, t :: t >= now ==> FindSession(sessions, i, t) == FindSession(old(sessions), i, t)
    {
      if id.None? || id.value == "" { return None; }
      if id.value !in sessions { return None; }
      var rec := sessions[id.value];
      if rec.expiresAt <= now {
        sessions := sessions - {id.value};
        return None;
      }
      r := Some(rec);
    }

    method DeleteSession(id: Option<string>) returns (removed: bool)
      modifies this`sessions
      ensures removed <==> id.Some? && id.value != "" && id.value in old(sessions)
      ensures sessions == if removed then old(sessions) - {id.value} else old(sessions)
      ensures sessions == AfterDelete(old(sessions), id)
    {
      if id.None? || id.value == "" { return false; }
      removed := id.value in sessions;
      sessions := sessions - {id.value};
    }

    method CreatePendingAuth(state: string, codeVerifier: string, returnTo: Option<string>, now: int)
      modifies this`pending
      ensures pending == old(pending)[state := PendingAuth(codeVerifier, now + PENDING_TTL_MS, returnTo)]
    {
      pending := pending[state := PendingAuth(codeVerifier, now + PENDING_TTL_MS, returnTo)];
    }

    method ConsumePendingAuth(state: Option<string>, now: int) returns (r: Option<PendingAuth>)
      modifies this`pending
      ensures r == FindPending(old(pending), state, now)
      ensures r.Some? ==> state.Some? && state.value in old(pending) && r.value == old(pending)[state.value]
      ensures state.Some? && state.value != "" && state.value in old(pending) ==>
                (r.Some? <==> now < old(pending)[state.value].expiresAt)
      ensures pending == AfterConsume(old(pending), state)
      ensures forall i :: i in pending <==> i in old(pending) && (state != Some(i) || i == "")
      ensures Names(state) ==> forall t :: FindPending(pending, state, t).None?
    {
      if state.None? || state.value == "" { return None; }
      if state.value !in pending { return None; }
      var rec := pending[state.value];
      pending := pending - {state.value};
      if rec.expiresAt <= now { return None; }
      r := Some(rec);
    }
  }
}

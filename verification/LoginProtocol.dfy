/** `handleLogin`, `handleCallback`, session lookup and logout of apps/api/src/handlers/auth.ts
    as steps over the stores. A callback suspends while it exchanges its code; callbacks,
    logins and lookups interleave freely. Every sequence of events is a run: an exchange
    that does not exist changes nothing. */
module LoginProtocol {
  import opened Options
  import opened SessionStores

  datatype Event =
    | Login(state: string, verifier: string, returnTo: Option<string>, now: int)
    | Callback(cookie: Option<string>, query: string, now: int)
    | Exchanged(call: nat, user: string, token: string, sessionId: string, now: int)
    | ExchangeFailed(call: nat, now: int)
    | Lookup(id: Option<string>, now: int)
    | Logout(id: Option<string>, now: int)

  /** A callback that has passed its checks: it redeems its code with this verifier. */
  datatype Exchange = Exchange(state: string, verifier: string, returnTo: Option<string>, begun: int)

  /** What the callback returns: the session, and where the browser goes. */
  datatype Created = Created(exchange: Exchange, sessionId: string, redirect: string)

  /** `created` lists the sessions made so far, in order. */
  datatype State = State(
    sessions: Sessions,
    pending: Pending,
    exchanging: map<nat, Exchange>,
    nextCall: nat,
    created: seq<Created>)

  function Init(): State {
    State(map[], map[], map[], 0, [])
  }

  /** The state cookie must be present and equal to the query's state. */
  predicate PassesCsrf(cookie: Option<string>, query: string) {
    Names(cookie) && cookie.value == query
  }

  function ExchangeOf(state: string, p: PendingAuth, now: int): Exchange {
    Exchange(state, p.codeVerifier, p.returnTo, now)
  }

  function RedirectOf(returnTo: Option<string>): string {
    if returnTo.Some? then returnTo.value else "/"
  }

  /** The code exchange x is under way. */
  function Begun(s: State, x: Exchange): State {
    s.(exchanging := s.exchanging[s.nextCall := x], nextCall := s.nextCall + 1)
  }

  function Next(s: State, e: Event): State {
    match e
    case Login(state, verifier, returnTo, now) =>
      s.(pending := s.pending[state := PendingAuth(verifier, now + PENDING_TTL_MS, returnTo)])
    case Callback(cookie, query, now) =>
      if !PassesCsrf(cookie, query) then s
      else
        var found := FindPending(s.pending, Some(query), now);
        var s' := s.(pending := AfterConsume(s.pending, Some(query)));
        if found.None? then s' else Begun(s', ExchangeOf(query, found.value, now))
    case Exchanged(call, user, token, sessionId, now) =>
      if call !in s.exchanging then s
      else
        s.(exchanging := s.exchanging - {call},
           sessions := s.sessions[sessionId := SessionRecord(user, token, now + SESSION_TTL_MS)],
           created := s.created + [Created(s.exchanging[call], sessionId, RedirectOf(s.exchanging[call].returnTo))])
    case ExchangeFailed(call, now) => s.(exchanging := s.exchanging - {call})
    case Lookup(id, now) => s.(sessions := AfterLookup(s.sessions, id, now))
    case Logout(id, now) => s.(sessions := AfterDelete(s.sessions, id))
  }

  function Exec(events: seq<Event>): State {
    if events == [] then Init() else Next(Exec(events[..|events| - 1]), events[|events| - 1])
  }

  /** Random states are fresh. */
  ghost predicate FreshStates(events: seq<Event>) {
    forall i, j :: 0 <= i < j < |events| && events[i].Login? && events[j].Login? ==> events[i].state != events[j].state
  }

  ghost predicate LoginAt(events: seq<Event>, i: int, state: string, verifier: string, returnTo: Option<string>) {
    && 0 <= i < |events| && events[i].Login?
    && events[i].state == state && events[i].verifier == verifier && events[i].returnTo == returnTo
  }

  // ---- one login, one session ----

  /** An exchange belongs to a login: its state, its verifier, begun before it expired. */
  ghost predicate OfALogin(events: seq<Event>, x: Exchange) {
    exists i :: LoginAt(events, i, x.state, x.verifier, x.returnTo) && x.begun < events[i].now + PENDING_TTL_MS
  }

  /** The states that have left the pending store for an exchange. */
  ghost predicate Spent(s: State, state: string) {
    (exists k :: k in s.exchanging && s.exchanging[k].state == state)
    || (exists i :: 0 <= i < |s.created| && s.created[i].exchange.state == state)
  }

  ghost predicate Inv(events: seq<Event>, s: State) {
    && (forall st :: st in s.pending ==>
          && !Spent(s, st)
          && exists i :: LoginAt(events, i, st, s.pending[st].codeVerifier, s.pending[st].returnTo)
                         && s.pending[st].expiresAt == events[i].now + PENDING_TTL_MS)
    && (forall k :: k in s.exchanging ==> k < s.nextCall && OfALogin(events, s.exchanging[k]))
    && (forall k, m :: k in s.exchanging && m in s.exchanging && k != m
          ==> s.exchanging[k].state != s.exchanging[m].state)
    && (forall k, i :: k in s.exchanging && 0 <= i < |s.created|
          ==> s.exchanging[k].state != s.created[i].exchange.state)
    && (forall i :: 0 <= i < |s.created| ==> OfALogin(events, s.created[i].exchange))
    && (forall i, j :: 0 <= i < j < |s.created| ==> s.created[i].exchange.state != s.created[j].exchange.state)
  }

  lemma {:induction false} InvExtends(events: seq<Event>, e: Event, s: State)
    requires Inv(events, s)
    ensures Inv(events + [e], s)
  {
    var more := events + [e];
    forall i, st, v, to | LoginAt(events, i, st, v, to) ensures LoginAt(more, i, st, v, to) && more[i] == events[i] {}
    forall x | OfALogin(events, x) ensures OfALogin(more, x) {
      var i :| LoginAt(events, i, x.state, x.verifier, x.returnTo) && x.begun < events[i].now + PENDING_TTL_MS;
      assert LoginAt(more, i, x.state, x.verifier, x.returnTo);
    }
    forall st | st in s.pending
      ensures exists i :: LoginAt(more, i, st, s.pending[st].codeVerifier, s.pending[st].returnTo)
                          && s.pending[st].expiresAt == more[i].now + PENDING_TTL_MS
    {
      var i :| LoginAt(events, i, st, s.pending[st].codeVerifier, s.pending[st].returnTo)
               && s.pending[st].expiresAt == events[i].now + PENDING_TTL_MS;
      assert LoginAt(more, i, st, s.pending[st].codeVerifier, s.pending[st].returnTo);
    }
  }

  lemma {:induction false} SpentWasLoggedIn(events: seq<Event>, s: State, state: string)
    requires Inv(events, s)
    ensures Spent(s, state) ==> exists i :: 0 <= i < |events| && events[i].Login? && events[i].state == state
  {
    forall x | OfALogin(events, x) && x.state == state
      ensures exists i :: 0 <= i < |events| && events[i].Login? && events[i].state == state
    {
      var i :| LoginAt(events, i, x.state, x.verifier, x.returnTo) && x.begun < events[i].now + PENDING_TTL_MS;
    }
  }

  lemma {:induction false} LoginKeepsInv(events: seq<Event>, s: State, e: Event)
    requires Inv(events, s) && FreshStates(events + [e]) && e.Login?
    ensures Inv(events + [e], Next(s, e))
  {
    var more, s' := events + [e], Next(s, e);
    InvExtends(events, e, s);
    assert more[|events|] == e;
    assert LoginAt(more, |events|, e.state, e.verifier, e.returnTo);
    SpentWasLoggedIn(events, s, e.state);
    assert forall i :: 0 <= i < |events| ==> more[i] == events[i];
    assert !Spent(s, e.state);
    assert forall st :: Spent(s', st) <==> Spent(s, st);
  }

  lemma {:induction false} ConsumeKeepsInv(events: seq<Event>, s: State, state: string)
    requires Inv(events, s)
    ensures Inv(events, s.(pending := s.pending - {state}))
  {
    assert forall st :: Spent(s.(pending := s.pending - {state}), st) <==> Spent(s, st);
  }

  lemma {:induction false} BeginKeepsInv(events: seq<Event>, s: State, x: Exchange)
    requires Inv(events, s) && OfALogin(events, x) && x.state !in s.pending && !Spent(s, x.state)
    ensures Inv(events, Begun(s, x))
  {
    forall st | st in s.pending ensures !Spent(Begun(s, x), st) { assert !Spent(s, st) && st != x.state; }
    assert forall k :: k in s.exchanging ==> s.exchanging[k].state != x.state;
    assert forall i :: 0 <= i < |s.created| ==> s.created[i].exchange.state != x.state;
  }

  lemma {:induction false} PendingIsOfALogin(events: seq<Event>, s: State, state: string, now: int)
    requires Inv(events, s) && state in s.pending && now < s.pending[state].expiresAt
    ensures OfALogin(events, ExchangeOf(state, s.pending[state], now)) && !Spent(s, state)
  {
    var p := s.pending[state];
    var i :| LoginAt(events, i, state, p.codeVerifier, p.returnTo) && p.expiresAt == events[i].now + PENDING_TTL_MS;
  }

  lemma {:induction false} CallbackIs(s: State, e: Event)
    requires e.Callback? && PassesCsrf(e.cookie, e.query)
    ensures var s1 := s.(pending := s.pending - {e.query});
            Next(s, e) == if FindPending(s.pending, Some(e.query), e.now).None? then s1
                          else Begun(s1, ExchangeOf(e.query, s.pending[e.query], e.now))
  {
  }

  lemma {:induction false} CallbackKeepsInv(events: seq<Event>, s: State, e: Event)
    requires Inv(events, s) && e.Callback?
    ensures Inv(events + [e], Next(s, e))
  {
    var more := events + [e];
    InvExtends(events, e, s);
    ConsumeKeepsInv(more, s, e.query);
    if PassesCsrf(e.cookie, e.query) {
      CallbackIs(s, e);
      if FindPending(s.pending, Some(e.query), e.now).Some? {
        var s1 := s.(pending := s.pending - {e.query});
        PendingIsOfALogin(more, s, e.query, e.now);
        assert Spent(s1, e.query) <==> Spent(s, e.query);
        BeginKeepsInv(more, s1, ExchangeOf(e.query, s.pending[e.query], e.now));
      }
    }
  }

  lemma {:induction false} ExchangedKeepsInv(events: seq<Event>, s: State, e: Event)
    requires Inv(events, s) && e.Exchanged?
    ensures Inv(events + [e], Next(s, e))
  {
    var s' := Next(s, e);
    InvExtends(events, e, s);
    if e.call in s.exchanging {
      forall st | st in s'.pending ensures !Spent(s', st) {
        assert !Spent(s, st);
        assert s.exchanging[e.call].state != st;
      }
    }
  }

  lemma {:induction false} ExchangeFailedKeepsInv(events: seq<Event>, s: State, e: Event)
    requires Inv(events, s) && e.ExchangeFailed?
    ensures Inv(events + [e], Next(s, e))
  {
    InvExtends(events, e, s);
    forall st | st in s.pending ensures !Spent(Next(s, e), st) { assert !Spent(s, st); }
  }

  lemma {:induction false} StepKeepsInv(events: seq<Event>, s: State, e: Event)
    requires Inv(events, s) && FreshStates(events + [e])
    ensures Inv(events + [e], Next(s, e))
  {
    match e
    case Login(_, _, _, _) => LoginKeepsInv(events, s, e);
    case Callback(_, _, _) => CallbackKeepsInv(events, s, e);
    case Exchanged(_, _, _, _, _) => ExchangedKeepsInv(events, s, e);
    case ExchangeFailed(_, _) => ExchangeFailedKeepsInv(events, s, e);
    case _ =>
      InvExtends(events, e, s);
      assert forall st :: Spent(Next(s, e), st) <==> Spent(s, st);
  }

  lemma {:induction false} RunKeepsInv(events: seq<Event>)
    requires FreshStates(events)
    ensures Inv(events, Exec(events))
  {
    if events != [] {
      var before, e := events[..|events| - 1], events[|events| - 1];
      assert events == before + [e];
      RunKeepsInv(before);
      StepKeepsInv(before, Exec(before), e);
    }
  }

  /** The n-th event is the login of the exchange, which began within five minutes of it. */
  ghost predicate LoginOf(events: seq<Event>, n: int, x: Exchange) {
    && 0 <= n < |events| && events[n].Login? && events[n].state == x.state && events[n].verifier == x.verifier
    && events[n].returnTo == x.returnTo && x.begun < events[n].now + 5 * 60 * 1000
  }

  /** On every run with fresh states, a login yields at most one session; a session comes
      from a callback that began before its login expired and redeemed its code with that
      login's own verifier, and the browser goes where that login said. */
  lemma {:induction false} OneSessionPerLogin(events: seq<Event>)
    requires FreshStates(events)
    ensures var c := Exec(events).created;
            && (forall i, j :: 0 <= i < j < |c| ==> c[i].exchange.state != c[j].exchange.state)
            && (forall i :: 0 <= i < |c| ==> HasLogin(events, c[i].exchange))
  {
    var c := Exec(events).created;
    RunKeepsInv(events);
    forall i | 0 <= i < |c| ensures HasLogin(events, c[i].exchange) {
      assert OfALogin(events, c[i].exchange);
      LoginIsThere(events, c[i].exchange);
    }
  }

  ghost predicate HasLogin(events: seq<Event>, x: Exchange) {
    exists n :: LoginOf(events, n, x)
  }

  lemma {:induction false} LoginIsThere(events: seq<Event>, x: Exchange)
    requires OfALogin(events, x)
    ensures HasLogin(events, x)
  {
    var n :| LoginAt(events, n, x.state, x.verifier, x.returnTo) && x.begun < events[n].now + PENDING_TTL_MS;
    assert LoginOf(events, n, x);
  }

  // ---- the check of the state ----

  /** A callback whose cookie is not the state of its query changes nothing. Any other consumes the
      pending login of that state, and begins an exchange if and only if that login has not expired. */
  lemma {:induction false} CallbackMeans(s: State, cookie: Option<string>, query: string, now: int)
    ensures var s' := Next(s, Callback(cookie, query, now));
            && (cookie != Some(query) || query == "" ==> s' == s)
            && (cookie == Some(query) && query != "" ==>
                  && s'.pending == s.pending - {query} && s'.sessions == s.sessions && s'.created == s.created
                  && s'.exchanging == if query in s.pending && now < s.pending[query].expiresAt
                                      then s.exchanging[s.nextCall := ExchangeOf(query, s.pending[query], now)]
                                      else s.exchanging)
  {
  }

  /** Some callback of the run carried the state of the exchange in its cookie and in its query. */
  ghost predicate CameBack(events: seq<Event>, x: Exchange) {
    exists n :: 0 <= n < |events| && events[n] == Callback(Some(x.state), x.state, x.begun)
  }

  ghost predicate AllCameBack(events: seq<Event>, s: State) {
    && (forall k :: k in s.exchanging ==> CameBack(events, s.exchanging[k]))
    && (forall i :: 0 <= i < |s.created| ==> CameBack(events, s.created[i].exchange))
  }

  lemma {:induction false} CameBackStays(before: seq<Event>, e: Event, x: Exchange)
    requires CameBack(before, x)
    ensures CameBack(before + [e], x)
  {
    var n :| 0 <= n < |before| && before[n] == Callback(Some(x.state), x.state, x.begun);
    assert (before + [e])[n] == before[n];
  }

  lemma {:induction false} StepComesBack(before: seq<Event>, s: State, e: Event)
    requires AllCameBack(before + [e], s)
    ensures AllCameBack(before + [e], Next(s, e))
  {
    if e.Callback? {
      assert (before + [e])[|before|] == e;
      CallbackMeans(s, e.cookie, e.query, e.now);
    }
  }

  lemma {:induction false} RunComesBack(events: seq<Event>)
    ensures AllCameBack(events, Exec(events))
  {
    if events != [] {
      var before, e := events[..|events| - 1], events[|events| - 1];
      assert events == before + [e];
      RunComesBack(before);
      AllStay(before, e, Exec(before));
      StepComesBack(before, Exec(before), e);
    }
  }

  lemma {:induction false} AllStay(before: seq<Event>, e: Event, s: State)
    requires AllCameBack(before, s)
    ensures AllCameBack(before + [e], s)
  {
    forall x | CameBack(before, x) ensures CameBack(before + [e], x) { CameBackStays(before, e, x); }
  }

  /** Every exchange and every session goes back to a callback that passed the check: its cookie and
      its query were both the state of the exchange. */
  lemma {:induction false} SessionsPassedTheCheck(events: seq<Event>)
    ensures var s := Exec(events);
            && (forall k :: k in s.exchanging ==> CameBack(events, s.exchanging[k]))
            && (forall i :: 0 <= i < |s.created| ==> CameBack(events, s.created[i].exchange))
  {
    RunComesBack(events);
  }

  /** A login waits five minutes with its own verifier and target; an exchange that is answered
      makes one session of eight hours for the user and sends the browser where its login said. An
      exchange that fails is over. */
  lemma {:induction false} LoginAndAnswerMean(
    s: State, state: string, verifier: string, to: Option<string>, call: nat, user: string, token: string, id: string,
    now: int)
    ensures Next(s, Login(state, verifier, to, now))
            == s.(pending := s.pending[state := PendingAuth(verifier, now + 5 * 60 * 1000, to)])
    ensures var s' := Next(s, Exchanged(call, user, token, id, now));
            if call !in s.exchanging then s' == s
            else
              && s'.exchanging == s.exchanging - {call} && s'.pending == s.pending
              && s'.sessions == s.sessions[id := SessionRecord(user, token, now + 8 * 60 * 60 * 1000)]
              && |s'.created| == |s.created| + 1 && s'.created[..|s.created|] == s.created
              && var c := s'.created[|s.created|];
                 && c.exchange == s.exchanging[call] && c.sessionId == id
                 && (c.exchange.returnTo == None ==> c.redirect == "/")
                 && (c.exchange.returnTo != None ==> c.exchange.returnTo == Some(c.redirect))
    ensures Next(s, ExchangeFailed(call, now)) == s.(exchanging := s.exchanging - {call})
  {
  }

  /** Every stored session has been made by an exchange of the run. */
  lemma {:induction false} SessionsWereCreated(events: seq<Event>, id: string)
    requires id in Exec(events).sessions
    ensures var c := Exec(events).created; exists i :: 0 <= i < |c| && c[i].sessionId == id
  {
    var before, e := events[..|events| - 1], events[|events| - 1];
    var s, s' := Exec(before), Exec(events);
    CreatedGrows(s, e, id);
    if id in s.sessions {
      SessionsWereCreated(before, id);
      var i :| 0 <= i < |s.created| && s.created[i].sessionId == id;
      assert s'.created[i] == s.created[i];
    }
  }

  lemma {:induction false} CreatedGrows(s: State, e: Event, id: string)
    ensures s.created <= Next(s, e).created
    ensures id in Next(s, e).sessions && id !in s.sessions ==>
              Next(s, e).created != [] && Next(s, e).created[|Next(s, e).created| - 1].sessionId == id
  {
  }

  // ---- lazy expiry is invisible ----

  ghost predicate Monotone(events: seq<Event>) {
    forall i, j :: 0 <= i < j < |events| ==> events[i].now <= events[j].now
  }

  /** The record made for an id and not deleted since, if any; expiry plays no part. */
  function Kept(events: seq<Event>, id: string): Option<SessionRecord> {
    if events == [] then None
    else
      var before, e := events[..|events| - 1], events[|events| - 1];
      match e
      case Exchanged(call, user, token, sessionId, now) =>
        if sessionId == id && call in Exec(before).exchanging then
          Some(SessionRecord(user, token, now + 8 * 60 * 60 * 1000))
        else Kept(before, id)
      case Logout(d, _) => if Names(d) && d.value == id then None else Kept(before, id)
      case _ => Kept(before, id)
  }

  /** A stored record is the kept one; a kept record that is not stored has expired. */
  ghost predicate Faithful(s: State, events: seq<Event>, id: string) {
    && (id in s.sessions ==> Kept(events, id) == Some(s.sessions[id]))
    && (id !in s.sessions && Kept(events, id).Some? ==>
          events != [] && Kept(events, id).value.expiresAt <= events[|events| - 1].now)
  }

  lemma {:induction false} StoreIsFaithful(events: seq<Event>, id: string)
    requires Monotone(events)
    ensures Faithful(Exec(events), events, id)
  {
    if events != [] {
      var before, e := events[..|events| - 1], events[|events| - 1];
      StoreIsFaithful(before, id);
      if before != [] { assert events[|before| - 1] == before[|before| - 1]; }
    }
  }

  /** With a clock that does not run backwards, a lookup finds exactly a session that was
      created, not deleted, and has not expired: when earlier lookups happened, and what
      they dropped, cannot be told. */
  lemma {:induction false} LookupAgreesWithHistory(events: seq<Event>, id: string, now: int)
    requires Monotone(events) && (events != [] ==> events[|events| - 1].now <= now) && id != ""
    ensures FindSession(Exec(events).sessions, Some(id), now)
            == if Kept(events, id).Some? && Kept(events, id).value.expiresAt > now then Kept(events, id) else None
  {
    StoreIsFaithful(events, id);
  }

  function WithoutLookups(events: seq<Event>): seq<Event> {
    if events == [] then []
    else WithoutLookups(events[..|events| - 1]) + if events[|events| - 1].Lookup? then [] else [events[|events| - 1]]
  }

  ghost predicate AgreeButSessions(s: State, s': State) {
    s' == s.(sessions := s'.sessions)
  }

  lemma {:induction false} StepAgrees(s: State, s': State, e: Event)
    requires AgreeButSessions(s, s')
    ensures AgreeButSessions(Next(s, e), Next(s', e))
  {
  }

  lemma {:induction false} LookupsOnlyTouchSessions(events: seq<Event>)
    ensures AgreeButSessions(Exec(events), Exec(WithoutLookups(events)))
  {
    if events != [] {
      var before, e := events[..|events| - 1], events[|events| - 1];
      var less := WithoutLookups(before);
      LookupsOnlyTouchSessions(before);
      if e.Lookup? {
        assert WithoutLookups(events) == less;
      } else {
        assert WithoutLookups(events) == less + [e] && (less + [e])[..|less|] == less;
        StepAgrees(Exec(before), Exec(less), e);
      }
    }
  }

  lemma {:induction false} KeptSnoc(a: seq<Event>, b: seq<Event>, e: Event, id: string)
    requires Kept(a, id) == Kept(b, id) && Exec(a).exchanging == Exec(b).exchanging
    ensures Kept(a + [e], id) == Kept(b + [e], id)
  {
    assert (a + [e])[..|a|] == a && (b + [e])[..|b|] == b;
  }

  lemma {:induction false} LookupsKeepHistory(events: seq<Event>, id: string)
    ensures Kept(WithoutLookups(events), id) == Kept(events, id)
  {
    if events != [] {
      var before, e := events[..|events| - 1], events[|events| - 1];
      var less := WithoutLookups(before);
      LookupsKeepHistory(before, id);
      if e.Lookup? {
        assert WithoutLookups(events) == less;
      } else {
        LookupsOnlyTouchSessions(before);
        KeptSnoc(less, before, e, id);
        assert WithoutLookups(events) == less + [e] && before + [e] == events;
      }
    }
  }

  lemma {:induction false} WithoutLookupsMonotone(events: seq<Event>)
    requires Monotone(events)
    ensures Monotone(WithoutLookups(events))
    ensures forall i :: 0 <= i < |WithoutLookups(events)| ==> WithoutLookups(events)[i].now <= events[|events| - 1].now
  {
    if events != [] {
      var before := events[..|events| - 1];
      WithoutLookupsMonotone(before);
      if before != [] { assert events[|before| - 1] == before[|before| - 1]; }
    }
  }

  /** A run answers every later lookup as if no earlier lookup had happened. */
  lemma {:induction false} LookupsLeaveNoTrace(events: seq<Event>, id: string, now: int)
    requires Monotone(events) && (events != [] ==> events[|events| - 1].now <= now) && id != ""
    ensures FindSession(Exec(events).sessions, Some(id), now)
            == FindSession(Exec(WithoutLookups(events)).sessions, Some(id), now)
  {
    LookupsKeepHistory(events, id);
    WithoutLookupsMonotone(events);
    LookupAgreesWithHistory(events, id, now);
    LookupAgreesWithHistory(WithoutLookups(events), id, now);
  }
}

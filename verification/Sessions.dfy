/** Session_manager and the request loop of Server_API, one connection at a time: cookies, the login gate, the
    rounds of a connection and what each leaves behind.  Rounds has any number of connections interleave. */
module Sessions {
  import opened Paths
  import opened Disk
  import opened Server
  import opened Header

  const FIRST_ID := 1
  const TWO_TO_THE_32 := 0x1_0000_0000

  /** What a session knows of its user. */
  datatype Account = Account(user: string, loggedIn: bool)

  datatype Manager = Manager(sessions: map<int, Account>, counter: int)

  /** `granted` is what login_query answers to the name and password of a login request. */
  datatype Request = Request(code: int, cookie: string, username: string, granted: bool, keepAlive: bool)

  datatype Occurrence =
    | Created(id: int)
    | LoginTried(id: int, name: string, ok: bool)
    | Ran(id: int, code: int, user: string)
    | Removed(id: int)

  /** The messages whose handlers act for the session's user. */
  const HANDLED: set<int> := {MSG_PROBE, MSG_GET, MSG_PUSH, MSG_RESTORE, MSG_END}

  /** The value a 32-bit counter holds after counting to `n`. */
  function Wrap(n: int): int {
    (n + 0x8000_0000) % TWO_TO_THE_32 - 0x8000_0000
  }

  lemma WrapNext(n: int)
    ensures Wrap(Wrap(n) + 1) == Wrap(n + 1)
    ensures FitsInt32(Wrap(n))
    ensures FitsInt32(n) ==> Wrap(n) == n
  {
  }

  lemma WrapsTogether(a: int, b: int)
    ensures Wrap(a) == Wrap(b) <==> (b - a) % TWO_TO_THE_32 == 0
  {
  }

  // ---------------------------------------------------------------- cookies

  /** Session::get_cookie: the id in decimal. */
  function Cookie(id: int): string {
    Decimal(id)
  }

  /** Whom a cookie names: the session under the number it starts with, a session yet to be created, or
      nobody, when the number is no int and std::stoi throws. */
  datatype Named = Existing(id: int) | Fresh(id: int) | OutOfRange

  function WhoIs(m: Manager, cookie: string): Named {
    if cookie != [] && '0' <= cookie[0] <= '9' then
      var n := Value(cookie[..Run(cookie, 10)], 10);
      if !FitsInt32(n) then OutOfRange
      else if n in m.sessions then Existing(n)
      else Fresh(m.counter)
    else Fresh(m.counter)
  }

  /** The digits of a number are read up to the first other character. */
  lemma DigitsRead(n: nat, rest: string)
    requires rest == [] || !('0' <= rest[0] <= '9')
    ensures var s := Digits(n, 10) + rest;
            s != [] && '0' <= s[0] <= '9' && Value(s[..Run(s, 10)], 10) == n
  {
    var digits := Digits(n, 10);
    DigitsValue(n, 10);
    RunExact(digits, rest, 10);
    assert (digits + rest)[..|digits|] == digits && (digits + rest)[0] == digits[0];
  }

  /** What follows a number is not looked at, a number that is no int names nobody, and a cookie that starts
      with no digit gets a new session. */
  lemma NumberNames(m: Manager, n: nat, rest: string)
    requires rest == [] || !('0' <= rest[0] <= '9')
    ensures WhoIs(m, Digits(n, 10) + rest)
            == if n > 0x7fff_ffff then OutOfRange else if n in m.sessions then Existing(n) else Fresh(m.counter)
    ensures WhoIs(m, rest) == Fresh(m.counter)
  {
    DigitsRead(n, rest);
  }

  /** A cookie whose number is no int ends the round, and the connection, in an exception that changes nothing. */
  lemma NumberTooLarge(m: Manager, n: nat, rest: string, req: Request, more: seq<Request>, ended: bool)
    requires n > 0x7fff_ffff && (rest == [] || !('0' <= rest[0] <= '9')) && req.cookie == Digits(n, 10) + rest
    ensures Serve(m, req, ended) == Served(m, [], Thrown)
    ensures Connection(m, [req] + more, ended) == (m, [])
  {
    NumberNames(m, n, rest);
  }

  /** A cookie names the session under its id, if that is not negative and there is one. */
  lemma CookieNames(m: Manager, id: int)
    requires FitsInt32(id)
    ensures WhoIs(m, Cookie(id)) == if id >= 0 && id in m.sessions then Existing(id) else Fresh(m.counter)
  {
    if id >= 0 {
      NumberNames(m, id, []);
      assert Digits(id, 10) + [] == Digits(id, 10);
    } else {
      assert Cookie(id)[0] == '-';
    }
  }

  /** A session's cookie finds it again exactly as long as its id is not negative. */
  lemma CookieFindsSession(m: Manager, id: int)
    requires id in m.sessions && FitsInt32(id)
    ensures WhoIs(m, Cookie(id)) == Existing(id) <==> id >= 0
  {
    CookieNames(m, id);
  }

  // ---------------------------------------------------------------- what the code does

  /** How one round of the request loop ends. */
  datatype Reply = Thrown | Refused | Answered(cookie: string)

  /** One round: the manager it leaves, what happened, and its reply. */
  datatype Served = Served(m: Manager, log: seq<Occurrence>, reply: Reply)

  function Create(m: Manager): Manager {
    Manager(m.sessions[m.counter := Account("", false)], Wrap(m.counter + 1))
  }

  /** From the login gate on; `ended` tells that an earlier request of the connection was an end. */
  function Handle(m: Manager, id: int, req: Request, ended: bool): Served
    requires id in m.sessions
  {
    var account := m.sessions[id];
    if req.code != MSG_LOGIN && !account.loggedIn then Served(m, [], Refused)
    else
      var login := Account(if req.granted then req.username else account.user, req.granted);
      var sessions := if req.code == MSG_LOGIN then m.sessions[id := login] else m.sessions;
      var log := if req.code == MSG_LOGIN then [LoginTried(id, req.username, req.granted)]
                 else if req.code in HANDLED then [Ran(id, req.code, account.user)]
                 else [];
      if ended || req.code == MSG_END then
        Served(Manager(sessions - {id}, m.counter), log + [Removed(id)], Answered(Cookie(id)))
      else
        Served(Manager(sessions, m.counter), log, Answered(Cookie(id)))
  }

  function Serve(m: Manager, req: Request, ended: bool): Served {
    match WhoIs(m, req.cookie)
    case OutOfRange => Served(m, [], Thrown)
    case Existing(id) => Handle(m, id, req, ended)
    case Fresh(id) =>
      var r := Handle(Create(m), id, req, ended);
      r.(log := [Created(id)] + r.log)
  }

  /** Every id there is or comes next is an int. */
  ghost predicate IdsFit(m: Manager) {
    FitsInt32(m.counter) && forall id :: id in m.sessions ==> FitsInt32(id)
  }

  /** The session a request is served by. */
  function ServedBy(m: Manager, req: Request): int {
    match WhoIs(m, req.cookie)
    case Existing(id) => id
    case Fresh(id) => id
    case OutOfRange => -1
  }

  /** A login decides what the cookie it answers with is good for: the next request that shows it, unless it
      is another login, is refused if and only if the login failed, and if accepted acts for the user named. */
  lemma LoginDecides(m: Manager, login: Request, next: Request, ended: bool)
    requires IdsFit(m) && login.code == MSG_LOGIN && Serve(m, login, false).reply.Answered? && ServedBy(m, login) >= 0
    requires next.cookie == Serve(m, login, false).reply.cookie && next.code != MSG_LOGIN
    ensures var r := Serve(Serve(m, login, false).m, next, ended);
            && (r.reply.Refused? <==> !login.granted)
            && forall id, code, user ::
                 Ran(id, code, user) in r.log <==>
                   && login.granted && id == ServedBy(m, login) && code == next.code && user == login.username
                   && code in {MSG_PROBE, MSG_GET, MSG_PUSH, MSG_RESTORE, MSG_END}
  {
    CookieNames(Serve(m, login, false).m, ServedBy(m, login));
  }

  /** The cookie of any reply leads back to the session that served the request, whatever its code, if and only
      if that session's id is not negative and no end request has closed it. */
  lemma CookieLeadsBack(m: Manager, req: Request, ended: bool, next: Request)
    requires IdsFit(m) && Serve(m, req, ended).reply.Answered? && next.cookie == Serve(m, req, ended).reply.cookie
    ensures WhoIs(Serve(m, req, ended).m, next.cookie) == Existing(ServedBy(m, req)) <==>
              ServedBy(m, req) >= 0 && !ended && req.code != MSG_END
  {
    CookieNames(Serve(m, req, ended).m, ServedBy(m, req));
  }

  /** After an end request the cookie is good for nothing but another login. */
  lemma EndCloses(m: Manager, end: Request, next: Request, ended: bool)
    requires IdsFit(m) && end.code == MSG_END && Serve(m, end, false).reply.Answered?
    requires next.cookie == Serve(m, end, false).reply.cookie && next.code != MSG_LOGIN
    ensures Serve(Serve(m, end, false).m, next, ended).reply == Refused
  {
    CookieNames(Serve(m, end, false).m, ServedBy(m, end));
  }

  /** pause_session looks the session up like any request, and so may create one. */
  function Pause(m: Manager, cookie: string): (Manager, seq<Occurrence>) {
    match WhoIs(m, cookie)
    case OutOfRange => (m, [])
    case Existing(id) => (m, [])
    case Fresh(id) => (Create(m), [Created(id)])
  }

  /** A connection: rounds until one refuses, throws or is the last, then the pause.  When the requests run
      out, receive has failed and left an empty message.  A throw leaves the thread, and so ends the server. */
  function Connection(m: Manager, inbox: seq<Request>, ended: bool): (Manager, seq<Occurrence>)
    decreases inbox
  {
    if inbox == [] then Pause(m, [])
    else
      var r := Serve(m, inbox[0], ended);
      if r.reply.Thrown? then (r.m, r.log)
      else
        var (after, log) :=
          if r.reply.Refused? || !inbox[0].keepAlive then Pause(r.m, inbox[0].cookie)
          else Connection(r.m, inbox[1..], ended || inbox[0].code == MSG_END);
        (after, r.log + log)
  }

  ghost predicate AllRan(log: seq<Occurrence>, id: int, user: string, inbox: seq<Request>) {
    |log| >= |inbox| && forall k :: 0 <= k < |inbox| ==> log[k] == Ran(id, inbox[k].code, user)
  }

  lemma AllRanCons(log: seq<Occurrence>, id: int, user: string, inbox: seq<Request>)
    requires inbox != [] && AllRan(log, id, user, inbox[1..])
    ensures AllRan([Ran(id, inbox[0].code, user)] + log, id, user, inbox)
    ensures ([Ran(id, inbox[0].code, user)] + log)[|inbox|..] == log[|inbox[1..]|..]
  {
  }

  lemma RunsOne(m: Manager, id: nat, user: string, req: Request)
    requires FitsInt32(id) && id in m.sessions && m.sessions[id] == Account(user, true) && req.cookie == Cookie(id)
    requires req.code in {MSG_PROBE, MSG_GET, MSG_PUSH, MSG_RESTORE}
    ensures Serve(m, req, false) == Served(m, [Ran(id, req.code, user)], Answered(Cookie(id)))
    ensures Pause(m, req.cookie) == (m, [])
  {
    CookieNames(m, id);
  }

  /** On a session that is logged in, every request of a connection is carried out for its user, in order, and
      the session stays as it is; only the pause after the peer hangs up leaves a new session behind. */
  lemma {:induction false} ConnectionRunsAll(m: Manager, id: nat, user: string, inbox: seq<Request>)
    requires FitsInt32(id) && id in m.sessions && m.sessions[id] == Account(user, true)
    requires forall k :: 0 <= k < |inbox| ==> inbox[k].cookie == Cookie(id)
    requires forall k :: 0 <= k < |inbox| ==> inbox[k].code in {MSG_PROBE, MSG_GET, MSG_PUSH, MSG_RESTORE}
    requires forall k :: 0 <= k < |inbox| - 1 ==> inbox[k].keepAlive
    ensures var (after, log) := Connection(m, inbox, false);
            && AllRan(log, id, user, inbox)
            && if inbox == [] || inbox[|inbox| - 1].keepAlive
               then after == Create(m) && log[|inbox|..] == [Created(m.counter)]
               else after == m && |log| == |inbox|
    decreases inbox
  {
    if inbox == [] {
    } else {
      RunsOne(m, id, user, inbox[0]);
      if inbox[0].keepAlive {
        ConnectionRunsAll(m, id, user, inbox[1..]);
        AllRanCons(Connection(m, inbox[1..], false).1, id, user, inbox);
      }
    }
  }

  /** Whatever comes after a request that is refused, or that does not keep the connection, is not looked at. */
  lemma NothingAfter(m: Manager, req: Request, more: seq<Request>, ended: bool)
    requires Serve(m, req, ended).reply.Refused? || !req.keepAlive
    ensures Connection(m, [req] + more, ended) == Connection(m, [req], ended)
    ensures Connection(m, [req], ended).1 == Serve(m, req, ended).log + (
              if Serve(m, req, ended).reply.Thrown? then [] else Pause(Serve(m, req, ended).m, req.cookie).1)
  {
    assert ([req] + more)[0] == req;
    assert Serve(m, req, ended).log + [] == Serve(m, req, ended).log;
  }

  /** The round of request `n`, and what is left of the connection after it. */
  lemma NextRound(m: Manager, inbox: seq<Request>, n: nat, ended: bool)
    requires n < |inbox|
    ensures var r := Serve(m, inbox[n], ended);
            var rest := if r.reply.Thrown? then (r.m, [])
                        else if r.reply.Refused? || !inbox[n].keepAlive then Pause(r.m, inbox[n].cookie)
                        else Connection(r.m, inbox[n + 1..], ended || inbox[n].code == MSG_END);
            Connection(m, inbox[n..], ended) == (rest.0, r.log + rest.1)
  {
    assert inbox[n..][0] == inbox[n] && inbox[n..][1..] == inbox[n + 1..];
    assert Serve(m, inbox[n], ended).log + [] == Serve(m, inbox[n], ended).log;
  }

  lemma Reassociate(a: seq<Occurrence>, b: seq<Occurrence>, c: seq<Occurrence>)
    ensures (a + b) + c == a + (b + c)
  {
  }

  // ---------------------------------------------------------------- the classes

  class Session_manager {
    var sessionCounter: int
    var sessions: map<int, Session>

    /** Every key is its session's id. */
    ghost predicate Valid()
      reads this, sessions.Values
    {
      forall id :: id in sessions ==> sessions[id].sessionId == id
    }

    ghost function State(): Manager
      reads this, sessions.Values
    {
      Manager(map id | id in sessions :: Account(sessions[id].user, sessions[id].loginStatus), sessionCounter)
    }

    constructor ()
      ensures Valid() && State() == Manager(map[], FIRST_ID)
    {
      sessionCounter := FIRST_ID;
      sessions := map[];
    }

    method RetrieveSession(cookie: string) returns (found: Option<Session>)
      requires Valid()
      modifies this
      ensures Valid()
      ensures match WhoIs(old(State()), cookie)
              case OutOfRange => found == None && sessions == old(sessions) && State() == old(State())
              case Existing(id) => sessions == old(sessions) && found == Some(sessions[id]) && State() == old(State())
              case Fresh(id) =>
                && found.Some? && fresh(found.value) && sessions == old(sessions)[id := found.value]
                && State() == Create(old(State()))
    {
      if cookie != [] && '0' <= cookie[0] <= '9' {
        var n := Value(cookie[..Run(cookie, 10)], 10);
        if !FitsInt32(n) { return None; }
        if n in sessions { return Some(sessions[n]); }
      }
      var newSessionId := sessionCounter;
      sessionCounter := Wrap(sessionCounter + 1);
      var session := new Session(newSessionId);
      sessions := sessions[newSessionId := session];
      found := Some(session);
      assert State().sessions == Create(old(State())).sessions;
    }

    method PauseSession(cookie: string)
      requires Valid()
      modifies this
      ensures Valid() && State() == Pause(old(State()), cookie).0
      ensures forall id :: id in sessions ==> fresh(sessions[id]) || sessions[id] in old(sessions.Values)
    {
      var session := RetrieveSession(cookie);
    }

    method RemoveSession(session: Session) returns (ok: bool)
      requires Valid()
      modifies `sessions
      ensures Valid() && ok == (session.sessionId in old(sessions))
      ensures sessions == old(sessions) - {session.sessionId}
      ensures State() == Manager(old(State()).sessions - {session.sessionId}, sessionCounter)
    {
      if session.sessionId !in sessions { return false; }
      sessions := sessions - {session.sessionId};
      ok := true;
    }
  }

  /** The request loop; the reply of each handler but login is its own affair, the session's part is not. */
  class Server_API {
    const sessionManager: Session_manager
    const server: Server

    constructor (sessionManager: Session_manager, server: Server)
      ensures this.sessionManager == sessionManager && this.server == server
    {
      this.sessionManager := sessionManager;
      this.server := server;
    }

    method DoLogin(session: Session, username: string, granted: bool) returns (status: bool)
      requires granted ==> ValidUser(username)
      modifies session`loginStatus, session`user, server.volume
      ensures status == granted == session.loginStatus
      ensures session.user == if granted then username else old(session.user)
    {
      status := server.Login(session, username, granted);
      session.loginStatus := status;
    }

    /** One round of the loop, from the login gate on.  `log` is what it does, written down as it does it. */
    method HandleRequest(session: Session, req: Request, ended: bool) returns (reply: Reply, ghost log: seq<Occurrence>)
      requires sessionManager.Valid() && session.sessionId in sessionManager.sessions
      requires sessionManager.sessions[session.sessionId] == session
      requires req.granted ==> ValidUser(req.username)
      modifies sessionManager`sessions, session`loginStatus, session`user, server.volume
      ensures sessionManager.Valid() && sessionManager.sessions.Values <= old(sessionManager.sessions.Values)
      ensures Served(sessionManager.State(), log, reply)
              == Handle(old(sessionManager.State()), session.sessionId, req, ended)
    {
      log := [];
      if req.code != MSG_LOGIN && !session.loginStatus { return Refused, log; }
      if req.code == MSG_LOGIN {
        assert forall id :: id in sessionManager.sessions && id != session.sessionId ==> sessionManager.sessions[id] != session;
        var status := DoLogin(session, req.username, req.granted);
        log := [LoginTried(session.sessionId, req.username, status)];
        assert sessionManager.State().sessions
               == old(sessionManager.State()).sessions[session.sessionId := Account(session.user, status)];
      } else if req.code in HANDLED {
        log := [Ran(session.sessionId, req.code, session.user)];
      }
      reply := Answered(Cookie(session.sessionId));
      if ended || req.code == MSG_END {
        var removed := sessionManager.RemoveSession(session);
        log := log + [Removed(session.sessionId)];
      }
    }

    method ServeRequest(req: Request, ended: bool) returns (reply: Reply, ghost log: seq<Occurrence>)
      requires sessionManager.Valid() && (req.granted ==> ValidUser(req.username))
      modifies sessionManager, sessionManager.sessions.Values, server.volume
      ensures sessionManager.Valid()
      ensures forall s :: s in sessionManager.sessions.Values ==> fresh(s) || s in old(sessionManager.sessions.Values)
      ensures Served(sessionManager.State(), log, reply) == Serve(old(sessionManager.State()), req, ended)
    {
      var session := sessionManager.RetrieveSession(req.cookie);
      if session.None? { return Thrown, []; }
      reply, log := HandleRequest(session.value, req, ended);
      if WhoIs(old(sessionManager.State()), req.cookie).Fresh? { log := [Created(session.value.sessionId)] + log; }
    }

    /** run: `inbox` holds the requests that arrive before the peer closes or falls silent. */
    method Run(inbox: seq<Request>) returns (ghost log: seq<Occurrence>)
      requires sessionManager.Valid()
      requires forall req :: req in inbox && req.granted ==> ValidUser(req.username)
      modifies sessionManager, sessionManager.sessions.Values, server.volume
      ensures sessionManager.Valid()
      ensures (sessionManager.State(), log) == Connection(old(sessionManager.State()), inbox, false)
    {
      var endSession := false;
      var n := 0;
      var lastCookie := "";
      log := [];
      ghost var rest := Connection(sessionManager.State(), inbox, false);
      assert inbox[0..] == inbox && log + rest.1 == rest.1;
      while true
        invariant n <= |inbox| && sessionManager.Valid()
        invariant forall s :: s in sessionManager.sessions.Values ==> fresh(s) || s in old(sessionManager.sessions.Values)
        invariant rest == Connection(sessionManager.State(), inbox[n..], endSession)
        invariant Connection(old(sessionManager.State()), inbox, false) == (rest.0, log + rest.1)
        decreases |inbox| - n
      {
        if n == |inbox| {
          lastCookie := "";
          break;
        }
        var req := inbox[n];
        NextRound(sessionManager.State(), inbox, n, endSession);
        var reply; ghost var more;
        reply, more := ServeRequest(req, endSession);
        rest := if reply.Thrown? then (sessionManager.State(), [])
                else if reply.Refused? || !req.keepAlive then Pause(sessionManager.State(), req.cookie)
                else Connection(sessionManager.State(), inbox[n + 1..], endSession || req.code == MSG_END);
        Reassociate(log, more, rest.1);
        log := log + more;
        if reply.Thrown? { assert log + [] == log; return; }
        if reply.Refused? || !req.keepAlive {
          lastCookie := req.cookie;
          break;
        }
        endSession := endSession || req.code == MSG_END;
        n := n + 1;
      }
      assert rest == Pause(sessionManager.State(), lastCookie);
      log := log + rest.1;
      sessionManager.PauseSession(lastCookie);
    }
  }
}

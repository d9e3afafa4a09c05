/** Any number of connections served at once.  Every connection has its own thread and place in the request
    loop; the threads share the session manager and the session objects, and anything may happen between a
    look-up, the login gate, each reading of the session's user, a login's writes and a removal. */
module Rounds {
  import Server
  import opened Disk
  import opened Header
  import opened Sessions

  /** A session object; it lives on in the threads that hold it after its removal from the manager. */
  datatype Object = Object(id: int, user: string, loggedIn: bool)

  /** Where a connection's thread stands.  `gate` is the moment it passed the login gate, `acts` counts what
      its handler has done of its work; `ended` tells that an earlier request was an end.  `Ending` is between
      the reply and the removal. */
  datatype Place =
    | Between(ended: bool)
    | Found(obj: nat, req: Request, ended: bool)
    | Inside(obj: nat, req: Request, ended: bool, gate: nat, acts: nat)
    | Ending(obj: nat, req: Request)
    | Out(cookie: string)
    | Gone

  /** What is written down: a look-up, a gate passed, a login attempt, a handler's reading of the user it acts
      for, a reply sent, a removal.  A moment is a position in this log. */
  datatype Mark =
    | Retrieved(conn: nat, obj: nat, id: int)
    | Gated(conn: nat, obj: nat, code: int)
    | Tried(obj: nat, name: string, ok: bool)
    | Acted(conn: nat, obj: nat, code: int, user: string, gate: nat)
    | Replied(conn: nat, obj: nat, code: int, cookie: string, gate: nat)
    | Dropped(conn: nat, obj: nat, id: int)

  /** `objects` holds every session ever created, in order; `alive` falls when an exception leaves a thread. */
  datatype World = World(
    alive: bool,
    objects: seq<Object>,
    sessions: map<int, nat>,
    counter: int,
    places: map<nat, Place>,
    log: seq<Mark>)

  datatype Step =
    | Receive(conn: nat, req: Request)
    | HangUp(conn: nat)
    | Gate(conn: nat)
    | Act(conn: nat)
    | Finish(conn: nat)
    | Remove(conn: nat)
    | Leave(conn: nat)

  const START := World(true, [], map[], FIRST_ID, map[], [])

  function PlaceOf(w: World, conn: nat): Place {
    if conn in w.places then w.places[conn] else Between(false)
  }

  function AccountAt(objects: seq<Object>, obj: nat): Account {
    if obj < |objects| then Account(objects[obj].user, objects[obj].loggedIn) else Account("", false)
  }

  function Accounts(objects: seq<Object>, sessions: map<int, nat>): (m: map<int, Account>)
    ensures forall id :: id in m <==> id in sessions
    ensures forall id :: id in m ==> m[id] == AccountAt(objects, sessions[id])
  {
    map id | id in sessions :: AccountAt(objects, sessions[id])
  }

  /** The world as Session_manager sees it. */
  function ManagerOf(w: World): Manager {
    Manager(Accounts(w.objects, w.sessions), w.counter)
  }

  /** A login writes once; a push reads its user for the disk path, for the row's key and for the row's user;
      every other handler acts for its user once. */
  function Needed(code: int): nat {
    if code == MSG_PUSH then 3 else if code == MSG_LOGIN || code in HANDLED then 1 else 0
  }

  function Created(w: World): World {
    w.(objects := w.objects + [Object(w.counter, "", false)], sessions := w.sessions[w.counter := |w.objects|],
       counter := Wrap(w.counter + 1))
  }

  /** retrieve_session, atomic like every call of the manager. */
  function Retrieve(w: World, conn: nat, cookie: string): (r: (World, nat))
    ensures r.0.places == w.places
  {
    match WhoIs(ManagerOf(w), cookie)
    case OutOfRange => (w.(alive := false), 0)
    case Existing(id) => (w.(log := w.log + [Retrieved(conn, w.sessions[id], id)]), w.sessions[id])
    case Fresh(id) =>
      (Created(w).(log := w.log + [Retrieved(conn, |w.objects|, id)]), |w.objects|)
  }

  predicate Enabled(w: World, step: Step) {
    && w.alive
    && var place := PlaceOf(w, step.conn);
       match step
       case Receive(_, _) => place.Between?
       case HangUp(_) => place.Between?
       case Gate(_) => place.Found? && place.obj < |w.objects|
       case Act(_) => place.Inside? && place.obj < |w.objects| && place.acts < Needed(place.req.code)
       case Finish(_) => place.Inside? && place.obj < |w.objects| && place.acts == Needed(place.req.code)
       case Remove(_) => place.Ending? && place.obj < |w.objects|
       case Leave(_) => place.Out?
  }

  function Moved(w: World, conn: nat, place: Place): World {
    w.(places := w.places[conn := place])
  }

  /** The work of a handler, or a part of it: a login's writes, or one reading of the user. */
  function Acting(w: World, conn: nat, p: Place): World
    requires p.Inside? && p.obj < |w.objects|
  {
    var o := w.objects[p.obj];
    if p.req.code == MSG_LOGIN then
      w.(objects := w.objects[p.obj := Object(o.id, if p.req.granted then p.req.username else o.user, p.req.granted)],
         log := w.log + [Tried(p.obj, p.req.username, p.req.granted)])
    else w.(log := w.log + [Acted(conn, p.obj, p.req.code, o.user, p.gate)])
  }

  /** remove_session: erases the key of the object's id, if it is there. */
  function Dropping(w: World, conn: nat, id: int): World {
    if id in w.sessions then w.(sessions := w.sessions - {id}, log := w.log + [Dropped(conn, w.sessions[id], id)]) else w
  }

  function AfterRound(req: Request, ended: bool): Place {
    if req.keepAlive then Between(ended) else Out(req.cookie)
  }

  function Next(w: World, step: Step): World
    requires Enabled(w, step)
  {
    var conn, p := step.conn, PlaceOf(w, step.conn);
    match step
    case Receive(_, req) =>
      var (after, obj) := Retrieve(w, conn, req.cookie);
      if after.alive then Moved(after, conn, Found(obj, req, p.ended)) else after
    case HangUp(_) => Moved(w, conn, Out(""))
    case Gate(_) =>
      if p.req.code != MSG_LOGIN && !w.objects[p.obj].loggedIn then Moved(w, conn, Out(p.req.cookie))
      else Moved(w.(log := w.log + [Gated(conn, p.obj, p.req.code)]), conn, Inside(p.obj, p.req, p.ended, |w.log|, 0))
    case Act(_) => Moved(Acting(w, conn, p), conn, p.(acts := p.acts + 1))
    case Finish(_) =>
      var cookie := Cookie(w.objects[p.obj].id);
      Moved(w.(log := w.log + [Replied(conn, p.obj, p.req.code, cookie, p.gate)]), conn,
            if p.ended || p.req.code == MSG_END then Ending(p.obj, p.req) else AfterRound(p.req, false))
    case Remove(_) => Moved(Dropping(w, conn, w.objects[p.obj].id), conn, AfterRound(p.req, true))
    case Leave(_) =>
      var (after, obj) := Retrieve(w, conn, p.cookie);
      if after.alive then Moved(after, conn, Gone) else after
  }

  ghost predicate IsRun(worlds: seq<World>, steps: seq<Step>) {
    && |worlds| == |steps| + 1 && worlds[0] == START
    && forall i: nat :: i < |steps| ==> Enabled(worlds[i], steps[i]) && worlds[i + 1] == Next(worlds[i], steps[i])
  }

  // ---------------------------------------------------------------- reading the log

  datatype Login = Login(name: string, ok: bool)

  /** The latest login attempt on an object. */
  function LatestTried(log: seq<Mark>, obj: nat): Option<Login> {
    if log == [] then None
    else
      var m := log[|log| - 1];
      if m.Tried? && m.obj == obj then Some(Login(m.name, m.ok)) else LatestTried(log[..|log| - 1], obj)
  }

  /** The name of the latest granted login on an object. */
  function LatestGranted(log: seq<Mark>, obj: nat): Option<string> {
    if log == [] then None
    else
      var m := log[|log| - 1];
      if m.Tried? && m.obj == obj && m.ok then Some(m.name) else LatestGranted(log[..|log| - 1], obj)
  }

  predicate LastGranted(tried: Option<Login>) {
    tried.Some? && tried.value.ok
  }

  lemma LatestSnoc(log: seq<Mark>, m: Mark, obj: nat)
    ensures LatestTried(log + [m], obj)
            == if m.Tried? && m.obj == obj then Some(Login(m.name, m.ok)) else LatestTried(log, obj)
    ensures LatestGranted(log + [m], obj)
            == if m.Tried? && m.obj == obj && m.ok then Some(m.name) else LatestGranted(log, obj)
  {
    assert (log + [m])[..|log|] == log;
  }

  /** Later attempts count before earlier ones. */
  lemma {:induction false} LatestSplit(log: seq<Mark>, obj: nat, g: nat, i: nat)
    requires g <= i <= |log|
    ensures var late := LatestTried(log[g..i], obj);
            LatestTried(log[..i], obj) == if late.Some? then late else LatestTried(log[..g], obj)
    ensures var late := LatestGranted(log[g..i], obj);
            LatestGranted(log[..i], obj) == if late.Some? then late else LatestGranted(log[..g], obj)
  {
    if g == i {
      assert log[g..i] == [];
    } else {
      LatestSplit(log, obj, g, i - 1);
      assert log[..i] == log[..i - 1] + [log[i - 1]] && log[g..i] == log[g..i - 1] + [log[i - 1]];
      LatestSnoc(log[..i - 1], log[i - 1], obj);
      LatestSnoc(log[g..i - 1], log[i - 1], obj);
    }
  }

  lemma NoneBefore(log: seq<Mark>, obj: nat, g: nat)
    requires g <= |log| && LatestGranted(log, obj) == None
    ensures LatestGranted(log[..g], obj) == None
  {
    LatestSplit(log, obj, g, |log|);
    assert log[..|log|] == log;
  }

  lemma NoneBetween(log: seq<Mark>, obj: nat, j: nat, k: nat, l: nat)
    requires j <= k <= l <= |log| && LatestGranted(log[j..l], obj) == None
    ensures LatestGranted(log[j..k], obj) == None
  {
    var part, start := log[j..l], log[j..k];
    assert |part[..k - j]| == |start|;
    forall i | 0 <= i < |start| ensures part[..k - j][i] == start[i] { assert part[i] == log[j + i]; }
    assert part[..k - j] == start;
    NoneBefore(part, obj, k - j);
  }

  lemma {:induction false} GrantedIfTried(log: seq<Mark>, obj: nat)
    ensures LastGranted(LatestTried(log, obj)) ==> LatestGranted(log, obj) == Some(LatestTried(log, obj).value.name)
  {
    if log == [] {
    } else {
      GrantedIfTried(log[..|log| - 1], obj);
    }
  }

  // ---------------------------------------------------------------- what every step keeps

  /** Ids are handed out in order, wrapping at 32 bits, and every key is its session's id. */
  ghost predicate IdsOk(objects: seq<Object>, sessions: map<int, nat>, counter: int) {
    && counter == Wrap(FIRST_ID + |objects|)
    && (forall k :: 0 <= k < |objects| ==> objects[k].id == Wrap(FIRST_ID + k))
    && (forall id :: id in sessions ==> sessions[id] < |objects| && objects[sessions[id]].id == id)
  }

  /** An object's fields are what the attempts on it have made of them. */
  ghost predicate UserOk(o: Object, log: seq<Mark>, obj: nat) {
    && o.loggedIn == LastGranted(LatestTried(log, obj))
    && o.user == (match LatestGranted(log, obj) case Some(name) => name case None => "")
  }

  ghost predicate UsersOk(objects: seq<Object>, log: seq<Mark>) {
    && (forall k: nat :: k < |objects| ==> UserOk(objects[k], log, k))
    && (forall k: nat :: k >= |objects| ==> LatestTried(log, k) == None && LatestGranted(log, k) == None)
  }

  /** At moment `gate` the connection passed the gate on `obj`, and it has not passed it again since. */
  ghost predicate GateOk(log: seq<Mark>, conn: nat, obj: nat, code: int, gate: nat) {
    && gate < |log| && log[gate] == Gated(conn, obj, code)
    && (code != MSG_LOGIN ==> LastGranted(LatestTried(log[..gate], obj)))
    && (forall k :: gate < k < |log| ==> !(log[k].Gated? && log[k].conn == conn))
  }

  ghost predicate PlaceOk(created: nat, log: seq<Mark>, conn: nat, p: Place) {
    match p
    case Found(obj, _, _) => obj < created
    case Inside(obj, req, _, gate, acts) =>
      obj < created && acts <= Needed(req.code) && GateOk(log, conn, obj, req.code, gate)
    case Ending(obj, _) => obj < created
    case _ => true
  }

  /** The connection has passed the gate with an end request. */
  ghost predicate HasEnded(log: seq<Mark>, conn: nat) {
    exists i: nat :: i < |log| && log[i].Gated? && log[i].conn == conn && log[i].code == MSG_END
  }

  predicate SaysEnded(p: Place) {
    match p
    case Between(ended) => ended
    case Found(_, _, ended) => ended
    case Inside(_, req, ended, _, _) => ended || req.code == MSG_END
    case Ending(_, _) => true
    case _ => false
  }

  /** A thread that will remove sessions, or has removed one, has had an end request. */
  ghost predicate EndsOk(places: map<nat, Place>, log: seq<Mark>) {
    && (forall conn :: conn in places && SaysEnded(places[conn]) ==> HasEnded(log, conn))
    && (forall i: nat :: i < |log| && log[i].Dropped? ==> HasEnded(log[..i], log[i].conn))
  }

  /** A reply goes out behind a gate of its own, with the cookie of the session that served the request. */
  ghost predicate ReplyOk(objects: seq<Object>, log: seq<Mark>, i: nat)
    requires i < |log| && log[i].Replied?
  {
    var Replied(conn, obj, code, cookie, gate) := log[i];
    obj < |objects| && cookie == Cookie(objects[obj].id) && GateOk(log[..i], conn, obj, code, gate)
  }

  ghost predicate RepliesOk(objects: seq<Object>, log: seq<Mark>) {
    forall i: nat :: i < |log| && log[i].Replied? ==> ReplyOk(objects, log, i)
  }

  predicate Live(objects: seq<Object>, sessions: map<int, nat>, obj: nat) {
    obj < |objects| && objects[obj].id in sessions && sessions[objects[obj].id] == obj
  }

  ghost predicate WasDropped(log: seq<Mark>, obj: nat) {
    exists i: nat :: i < |log| && log[i].Dropped? && log[i].obj == obj
  }

  /** While ids have not run out, a session is live until it is removed. */
  ghost predicate LivesOk(objects: seq<Object>, sessions: map<int, nat>, log: seq<Mark>) {
    |objects| <= TWO_TO_THE_32 ==>
      forall obj: nat :: obj < |objects| ==> Live(objects, sessions, obj) || WasDropped(log, obj)
  }

  ghost predicate PlacesOk(created: nat, places: map<nat, Place>, log: seq<Mark>) {
    forall conn :: conn in places ==> PlaceOk(created, log, conn, places[conn])
  }

  /** A handler acts behind a gate of its own, for the user of the latest granted login. */
  ghost predicate ActOk(log: seq<Mark>, i: nat)
    requires i < |log| && log[i].Acted?
  {
    var Acted(conn, obj, code, user, gate) := log[i];
    && code in HANDLED && GateOk(log[..i], conn, obj, code, gate)
    && LatestGranted(log[..i], obj) == Some(user)
  }

  ghost predicate ActsOk(log: seq<Mark>) {
    forall i: nat :: i < |log| && log[i].Acted? ==> ActOk(log, i)
  }

  ghost predicate Issued(objects: seq<Object>, id: int) {
    exists k: nat :: k < |objects| && objects[k].id == id
  }

  /** A removed session is not live again and not looked up again. */
  ghost predicate GoneOk(created: nat, sessions: map<int, nat>, log: seq<Mark>) {
    && (forall i: nat :: i < |log| && log[i].Dropped? ==> log[i].obj < created)
    && (forall i: nat, id :: i < |log| && log[i].Dropped? && id in sessions ==> sessions[id] != log[i].obj)
    && (forall i: nat, j: nat :: i < j < |log| && log[i].Dropped? && log[j].Retrieved? ==> log[i].obj != log[j].obj)
  }

  /** While ids have not run out, a removed one is not live again. */
  ghost predicate DropsOk(objects: seq<Object>, sessions: map<int, nat>, log: seq<Mark>) {
    |objects| <= TWO_TO_THE_32 ==>
      && (forall i: nat :: i < |log| && log[i].Dropped? ==> log[i].id !in sessions && Issued(objects, log[i].id))
      && (forall i: nat, j: nat :: i < j < |log| && log[i].Dropped? && log[j].Retrieved? ==> log[i].id != log[j].id)
  }

  ghost predicate Inv(w: World) {
    && IdsOk(w.objects, w.sessions, w.counter) && UsersOk(w.objects, w.log)
    && PlacesOk(|w.objects|, w.places, w.log) && ActsOk(w.log)
    && GoneOk(|w.objects|, w.sessions, w.log) && DropsOk(w.objects, w.sessions, w.log)
    && RepliesOk(w.objects, w.log) && EndsOk(w.places, w.log) && LivesOk(w.objects, w.sessions, w.log)
  }

  /** A mark that is no login attempt changes nobody's account. */
  lemma UsersKept(objects: seq<Object>, log: seq<Mark>, m: Mark)
    requires UsersOk(objects, log) && !m.Tried?
    ensures UsersOk(objects, log + [m])
  {
    forall k: nat
      ensures LatestTried(log + [m], k) == LatestTried(log, k) && LatestGranted(log + [m], k) == LatestGranted(log, k) {
      LatestSnoc(log, m, k);
    }
  }

  /** A gate stays passed as long as its own connection does not pass it again. */
  lemma GateKept(log: seq<Mark>, m: Mark, conn: nat, obj: nat, code: int, gate: nat)
    requires GateOk(log, conn, obj, code, gate) && !(m.Gated? && m.conn == conn)
    ensures GateOk(log + [m], conn, obj, code, gate)
  {
    assert (log + [m])[..gate] == log[..gate];
  }

  lemma PlacesKept(created: nat, places: map<nat, Place>, log: seq<Mark>, m: Mark)
    requires PlacesOk(created, places, log) && !m.Gated?
    ensures PlacesOk(created, places, log + [m])
  {
    forall conn | conn in places ensures PlaceOk(created, log + [m], conn, places[conn]) {
      var p := places[conn];
      if p.Inside? { GateKept(log, m, conn, p.obj, p.req.code, p.gate); }
    }
  }

  lemma PlaceTaken(created: nat, places: map<nat, Place>, log: seq<Mark>, conn: nat, p: Place)
    requires PlacesOk(created, places, log) && PlaceOk(created, log, conn, p)
    ensures PlacesOk(created, places[conn := p], log)
  {
  }

  /** The connection that passes the gate is the only one to move. */
  lemma GatePassed(created: nat, places: map<nat, Place>, log: seq<Mark>, conn: nat, p: Place)
    requires PlacesOk(created, places, log) && p.Found? && p.obj < created
    requires p.req.code != MSG_LOGIN ==> LastGranted(LatestTried(log, p.obj))
    ensures PlacesOk(created, places[conn := Inside(p.obj, p.req, p.ended, |log|, 0)],
                     log + [Gated(conn, p.obj, p.req.code)])
  {
    var m := Gated(conn, p.obj, p.req.code);
    assert (log + [m])[..|log|] == log;
    forall c | c in places && c != conn ensures PlaceOk(created, log + [m], c, places[c]) {
      var q := places[c];
      if q.Inside? { GateKept(log, m, c, q.obj, q.req.code, q.gate); }
    }
  }

  lemma ActsKept(log: seq<Mark>, m: Mark)
    requires ActsOk(log)
    requires m.Acted? ==> m.code in HANDLED && GateOk(log, m.conn, m.obj, m.code, m.gate)
                          && LatestGranted(log, m.obj) == Some(m.user)
    ensures ActsOk(log + [m])
  {
    var after := log + [m];
    forall i: nat | i < |after| && after[i].Acted? ensures ActOk(after, i) {
      assert after[..i] == if i < |log| then log[..i] else log;
      if i < |log| { assert ActOk(log, i); }
    }
  }

  lemma RepliesKept(objects: seq<Object>, log: seq<Mark>, m: Mark)
    requires RepliesOk(objects, log)
    requires m.Replied? ==> && m.obj < |objects| && m.cookie == Cookie(objects[m.obj].id)
                            && GateOk(log, m.conn, m.obj, m.code, m.gate)
    ensures RepliesOk(objects, log + [m])
  {
    var after := log + [m];
    forall i: nat | i < |after| && after[i].Replied? ensures ReplyOk(objects, after, i) {
      assert after[..i] == if i < |log| then log[..i] else log;
      if i < |log| { assert ReplyOk(objects, log, i); }
    }
  }

  /** Ids stay, whatever becomes of the accounts. */
  lemma RepliesStay(objects: seq<Object>, more: seq<Object>, log: seq<Mark>)
    requires RepliesOk(objects, log)
    requires |objects| <= |more| && forall k :: 0 <= k < |objects| ==> more[k].id == objects[k].id
    ensures RepliesOk(more, log)
  {
    forall i: nat | i < |log| && log[i].Replied? ensures ReplyOk(more, log, i) { assert ReplyOk(objects, log, i); }
  }

  lemma HasEndedKept(log: seq<Mark>, m: Mark, conn: nat)
    ensures HasEnded(log + [m], conn) <==> HasEnded(log, conn) || (m.Gated? && m.conn == conn && m.code == MSG_END)
  {
    var after := log + [m];
    if HasEnded(log, conn) {
      var i: nat :| i < |log| && log[i].Gated? && log[i].conn == conn && log[i].code == MSG_END;
      assert after[i] == log[i];
    }
    if m.Gated? && m.conn == conn && m.code == MSG_END { assert after[|log|] == m; }
  }

  lemma EndsKept(places: map<nat, Place>, log: seq<Mark>, m: Mark)
    requires EndsOk(places, log) && (m.Dropped? ==> HasEnded(log, m.conn))
    ensures EndsOk(places, log + [m])
  {
    var after := log + [m];
    forall conn | conn in places && SaysEnded(places[conn]) ensures HasEnded(after, conn) { HasEndedKept(log, m, conn); }
    forall i: nat | i < |after| && after[i].Dropped? ensures HasEnded(after[..i], after[i].conn) {
      assert after[..i] == if i < |log| then log[..i] else log;
    }
  }

  lemma EndsMoved(places: map<nat, Place>, log: seq<Mark>, conn: nat, p: Place)
    requires EndsOk(places, log) && (SaysEnded(p) ==> HasEnded(log, conn))
    ensures EndsOk(places[conn := p], log)
  {
  }

  lemma LivesKept(objects: seq<Object>, sessions: map<int, nat>, log: seq<Mark>, m: Mark)
    requires LivesOk(objects, sessions, log)
    ensures LivesOk(objects, sessions, log + [m])
    ensures m.Dropped? ==> WasDropped(log + [m], m.obj)
  {
    forall obj: nat | WasDropped(log, obj) ensures WasDropped(log + [m], obj) {
      var i: nat :| i < |log| && log[i].Dropped? && log[i].obj == obj;
      assert (log + [m])[i] == log[i];
    }
    assert (log + [m])[|log|] == m;
  }

  lemma LivesRemoved(objects: seq<Object>, sessions: map<int, nat>, log: seq<Mark>, id: int)
    requires LivesOk(objects, sessions, log) && id in sessions && WasDropped(log, sessions[id])
    ensures LivesOk(objects, sessions - {id}, log)
  {
  }

  /** While ids last, a new session takes no other's place. */
  lemma LivesCreated(objects: seq<Object>, sessions: map<int, nat>, counter: int, log: seq<Mark>)
    requires IdsOk(objects, sessions, counter) && LivesOk(objects, sessions, log)
    ensures LivesOk(objects + [Object(counter, "", false)], sessions[counter := |objects|], log)
  {
    var more := objects + [Object(counter, "", false)];
    if |more| <= TWO_TO_THE_32 {
      CounterIsNew(objects, sessions, counter);
      forall obj: nat | obj < |more| ensures Live(more, sessions[counter := |objects|], obj) || WasDropped(log, obj) {
        if obj < |objects| {
          assert objects[obj].id != counter by { assert !Issued(objects, counter); }
        }
      }
    }
  }

  lemma LivesWritten(objects: seq<Object>, sessions: map<int, nat>, log: seq<Mark>, obj: nat, o: Object)
    requires LivesOk(objects, sessions, log) && obj < |objects| && o.id == objects[obj].id
    ensures LivesOk(objects[obj := o], sessions, log)
  {
    forall k: nat | k < |objects| && Live(objects, sessions, k) ensures Live(objects[obj := o], sessions, k) { }
  }

  lemma DropsKept(objects: seq<Object>, sessions: map<int, nat>, log: seq<Mark>, m: Mark)
    requires GoneOk(|objects|, sessions, log) && DropsOk(objects, sessions, log)
    requires !m.Dropped? && (m.Retrieved? ==> m.id in sessions && m.obj == sessions[m.id])
    ensures GoneOk(|objects|, sessions, log + [m]) && DropsOk(objects, sessions, log + [m])
  {
  }

  lemma IdRemoved(objects: seq<Object>, sessions: map<int, nat>, counter: int, log: seq<Mark>, conn: nat, id: int)
    requires IdsOk(objects, sessions, counter) && id in sessions
    requires GoneOk(|objects|, sessions, log) && DropsOk(objects, sessions, log)
    ensures GoneOk(|objects|, sessions - {id}, log + [Dropped(conn, sessions[id], id)])
    ensures DropsOk(objects, sessions - {id}, log + [Dropped(conn, sessions[id], id)])
  {
    assert Issued(objects, id);
  }

  lemma IssuedStays(objects: seq<Object>, more: seq<Object>)
    requires |objects| <= |more| && forall k :: 0 <= k < |objects| ==> more[k].id == objects[k].id
    ensures forall id :: Issued(objects, id) ==> Issued(more, id)
  {
    forall id | Issued(objects, id) ensures Issued(more, id) {
      var k: nat :| k < |objects| && objects[k].id == id;
      assert more[k].id == id;
    }
  }

  /** While ids last, the counter's was not issued before. */
  lemma CounterIsNew(objects: seq<Object>, sessions: map<int, nat>, counter: int)
    requires IdsOk(objects, sessions, counter) && |objects| < TWO_TO_THE_32
    ensures !Issued(objects, counter)
  {
    forall k: nat | k < |objects| ensures objects[k].id != counter {
      WrapsTogether(FIRST_ID + k, FIRST_ID + |objects|);
    }
  }

  /** A new session: its id is the counter's, it is nobody's, and while ids last it was never removed. */
  lemma SessionCreated(objects: seq<Object>, sessions: map<int, nat>, counter: int, log: seq<Mark>)
    requires IdsOk(objects, sessions, counter) && UsersOk(objects, log)
    requires GoneOk(|objects|, sessions, log) && DropsOk(objects, sessions, log)
    ensures var more := objects + [Object(counter, "", false)];
            && IdsOk(more, sessions[counter := |objects|], Wrap(counter + 1)) && UsersOk(more, log)
            && GoneOk(|more|, sessions[counter := |objects|], log) && DropsOk(more, sessions[counter := |objects|], log)
  {
    WrapNext(FIRST_ID + |objects|);
    IssuedStays(objects, objects + [Object(counter, "", false)]);
    if |objects| < TWO_TO_THE_32 { CounterIsNew(objects, sessions, counter); }
  }

  lemma CreatedKeeps(w: World)
    requires Inv(w)
    ensures Inv(Created(w))
  {
    SessionCreated(w.objects, w.sessions, w.counter, w.log);
    RepliesStay(w.objects, Created(w).objects, w.log);
    LivesCreated(w.objects, w.sessions, w.counter, w.log);
  }

  /** A mark that is no reply and no removal. */
  lemma RestKept(w: World, m: Mark)
    requires Inv(w) && !m.Replied? && !m.Dropped?
    ensures RepliesOk(w.objects, w.log + [m]) && EndsOk(w.places, w.log + [m])
    ensures LivesOk(w.objects, w.sessions, w.log + [m])
  {
    RepliesKept(w.objects, w.log, m);
    EndsKept(w.places, w.log, m);
    LivesKept(w.objects, w.sessions, w.log, m);
  }

  lemma RetrieveKeeps(w: World, conn: nat, cookie: string)
    requires Inv(w) && w.alive
    ensures Inv(Retrieve(w, conn, cookie).0)
    ensures Retrieve(w, conn, cookie).0.alive ==> Retrieve(w, conn, cookie).1 < |Retrieve(w, conn, cookie).0.objects|
  {
    match WhoIs(ManagerOf(w), cookie) {
      case OutOfRange =>
      case Existing(id) => LookUpKeeps(w, Retrieved(conn, w.sessions[id], id));
      case Fresh(id) =>
        CreatedKeeps(w);
        LookUpKeeps(Created(w), Retrieved(conn, |w.objects|, id));
    }
  }

  lemma LookUpKeeps(w: World, m: Mark)
    requires Inv(w) && m.Retrieved? && m.id in w.sessions && m.obj == w.sessions[m.id]
    ensures Inv(w.(log := w.log + [m]))
  {
    MarkKept(w, m);
    DropsKept(w.objects, w.sessions, w.log, m);
  }

  lemma GateKeeps(w: World, conn: nat)
    requires Inv(w) && Enabled(w, Gate(conn))
    ensures Inv(Next(w, Gate(conn)))
  {
    var p := w.places[conn];
    if p.req.code == MSG_LOGIN || w.objects[p.obj].loggedIn {
      var m := Gated(conn, p.obj, p.req.code);
      UsersKept(w.objects, w.log, m);
      ActsKept(w.log, m);
      GatePassed(|w.objects|, w.places, w.log, conn, p);
      DropsKept(w.objects, w.sessions, w.log, m);
      RestKept(w, m);
      HasEndedKept(w.log, m, conn);
      EndsMoved(w.places, w.log + [m], conn, Inside(p.obj, p.req, p.ended, |w.log|, 0));
    }
  }

  /** A login writes what its attempt says, on its own object. */
  lemma LoginUsers(objects: seq<Object>, log: seq<Mark>, obj: nat, name: string, ok: bool)
    requires UsersOk(objects, log) && obj < |objects|
    ensures UsersOk(objects[obj := Object(objects[obj].id, if ok then name else objects[obj].user, ok)],
                    log + [Tried(obj, name, ok)])
  {
    forall k: nat ensures LatestTried(log + [Tried(obj, name, ok)], k)
                          == if k == obj then Some(Login(name, ok)) else LatestTried(log, k)
                  ensures LatestGranted(log + [Tried(obj, name, ok)], k)
                          == if k == obj && ok then Some(name) else LatestGranted(log, k) {
      LatestSnoc(log, Tried(obj, name, ok), k);
    }
  }

  /** Ids do not depend on accounts. */
  lemma AccountWritten(objects: seq<Object>, sessions: map<int, nat>, counter: int, log: seq<Mark>, obj: nat, o: Object)
    requires IdsOk(objects, sessions, counter) && DropsOk(objects, sessions, log)
    requires obj < |objects| && o.id == objects[obj].id
    ensures IdsOk(objects[obj := o], sessions, counter) && DropsOk(objects[obj := o], sessions, log)
  {
    IssuedStays(objects, objects[obj := o]);
  }

  /** Behind the gate there is a granted login, and the object's user is its name. */
  lemma ActorIsLoggedIn(objects: seq<Object>, log: seq<Mark>, conn: nat, p: Place)
    requires UsersOk(objects, log) && p.Inside? && PlaceOk(|objects|, log, conn, p) && p.req.code != MSG_LOGIN
    ensures LatestGranted(log, p.obj) == Some(objects[p.obj].user)
  {
    GrantedIfTried(log[..p.gate], p.obj);
    LatestSplit(log, p.obj, p.gate, |log|);
    assert log[..|log|] == log;
  }

  lemma ActingKeeps(w: World, conn: nat, p: Place)
    requires Inv(w) && p.Inside? && PlaceOk(|w.objects|, w.log, conn, p)
    requires p.req.code == MSG_LOGIN || p.req.code in HANDLED
    ensures Inv(Acting(w, conn, p)) && |Acting(w, conn, p).objects| == |w.objects|
    ensures PlaceOk(|w.objects|, Acting(w, conn, p).log, conn, p)
    ensures HasEnded(w.log, conn) ==> HasEnded(Acting(w, conn, p).log, conn)
  {
    var after := Acting(w, conn, p);
    var m := after.log[|w.log|];
    if p.req.code == MSG_LOGIN {
      LoginUsers(w.objects, w.log, p.obj, p.req.username, p.req.granted);
      AccountWritten(w.objects, w.sessions, w.counter, w.log, p.obj, after.objects[p.obj]);
      RepliesStay(w.objects, after.objects, w.log);
      LivesWritten(w.objects, w.sessions, w.log, p.obj, after.objects[p.obj]);
    } else {
      UsersKept(w.objects, w.log, m);
      ActorIsLoggedIn(w.objects, w.log, conn, p);
    }
    ActsKept(w.log, m);
    PlacesKept(|w.objects|, w.places, w.log, m);
    GateKept(w.log, m, conn, p.obj, p.req.code, p.gate);
    DropsKept(after.objects, w.sessions, w.log, m);
    RepliesKept(after.objects, w.log, m);
    EndsKept(w.places, w.log, m);
    HasEndedKept(w.log, m, conn);
    LivesKept(after.objects, w.sessions, w.log, m);
  }

  lemma MoveKeeps(w: World, conn: nat, p: Place)
    requires Inv(w) && PlaceOk(|w.objects|, w.log, conn, p) && (SaysEnded(p) ==> HasEnded(w.log, conn))
    ensures Inv(Moved(w, conn, p))
  {
    EndsMoved(w.places, w.log, conn, p);
    PlaceTaken(|w.objects|, w.places, w.log, conn, p);
  }

  lemma PlaceThere(w: World, conn: nat)
    requires Inv(w) && conn in w.places
    ensures PlaceOk(|w.objects|, w.log, conn, w.places[conn]) && (SaysEnded(w.places[conn]) ==> HasEnded(w.log, conn))
  {
  }

  lemma ActMoves(a: World, conn: nat, p: Place)
    requires Inv(a) && p.Inside? && p.acts < Needed(p.req.code) && PlaceOk(|a.objects|, a.log, conn, p)
    requires SaysEnded(p) ==> HasEnded(a.log, conn)
    ensures Inv(Moved(a, conn, p.(acts := p.acts + 1)))
  {
    MoveKeeps(a, conn, p.(acts := p.acts + 1));
  }

  lemma ActKeeps(w: World, conn: nat, p: Place)
    requires Inv(w) && Enabled(w, Act(conn)) && conn in w.places && p == w.places[conn]
    ensures Inv(Next(w, Act(conn)))
  {
    PlaceThere(w, conn);
    ActingKeeps(w, conn, p);
    ActMoves(Acting(w, conn, p), conn, p);
  }

  /** A mark that is neither a gate nor a login attempt. */
  lemma MarkKept(w: World, m: Mark)
    requires Inv(w) && !m.Gated? && !m.Tried? && !m.Acted?
    requires m.Dropped? ==> HasEnded(w.log, m.conn)
    requires m.Replied? ==> && m.obj < |w.objects| && m.cookie == Cookie(w.objects[m.obj].id)
                            && GateOk(w.log, m.conn, m.obj, m.code, m.gate)
    ensures UsersOk(w.objects, w.log + [m]) && PlacesOk(|w.objects|, w.places, w.log + [m]) && ActsOk(w.log + [m])
    ensures RepliesOk(w.objects, w.log + [m]) && EndsOk(w.places, w.log + [m])
    ensures LivesOk(w.objects, w.sessions, w.log + [m])
    ensures m.Dropped? ==> WasDropped(w.log + [m], m.obj)
    ensures forall conn: nat :: HasEnded(w.log, conn) ==> HasEnded(w.log + [m], conn)
  {
    UsersKept(w.objects, w.log, m);
    ActsKept(w.log, m);
    PlacesKept(|w.objects|, w.places, w.log, m);
    RepliesKept(w.objects, w.log, m);
    EndsKept(w.places, w.log, m);
    LivesKept(w.objects, w.sessions, w.log, m);
    forall conn: nat ensures HasEnded(w.log, conn) ==> HasEnded(w.log + [m], conn) { HasEndedKept(w.log, m, conn); }
  }

  lemma KeysFewer(objects: seq<Object>, sessions: map<int, nat>, counter: int, id: int)
    requires IdsOk(objects, sessions, counter)
    ensures IdsOk(objects, sessions - {id}, counter)
  {
  }

  lemma DroppingKeeps(w: World, conn: nat, id: int)
    requires Inv(w) && HasEnded(w.log, conn)
    ensures Inv(Dropping(w, conn, id)) && HasEnded(Dropping(w, conn, id).log, conn)
  {
    if id in w.sessions {
      var m := Dropped(conn, w.sessions[id], id);
      MarkKept(w, m);
      KeysFewer(w.objects, w.sessions, w.counter, id);
      IdRemoved(w.objects, w.sessions, w.counter, w.log, conn, id);
      LivesRemoved(w.objects, w.sessions, w.log + [m], id);
    }
  }

  lemma ReplyKeeps(w: World, m: Mark)
    requires Inv(w) && m.Replied? && m.obj < |w.objects| && m.cookie == Cookie(w.objects[m.obj].id)
    requires GateOk(w.log, m.conn, m.obj, m.code, m.gate)
    ensures Inv(w.(log := w.log + [m]))
  {
    MarkKept(w, m);
    DropsKept(w.objects, w.sessions, w.log, m);
  }

  lemma FinishKeeps(w: World, conn: nat)
    requires Inv(w) && Enabled(w, Finish(conn))
    ensures Inv(Next(w, Finish(conn)))
  {
    var p := w.places[conn];
    var m := Replied(conn, p.obj, p.req.code, Cookie(w.objects[p.obj].id), p.gate);
    ReplyKeeps(w, m);
    HasEndedKept(w.log, m, conn);
    MoveKeeps(w.(log := w.log + [m]), conn,
              if p.ended || p.req.code == MSG_END then Ending(p.obj, p.req) else AfterRound(p.req, false));
  }

  lemma RemoveKeeps(w: World, conn: nat)
    requires Inv(w) && Enabled(w, Remove(conn))
    ensures Inv(Next(w, Remove(conn)))
  {
    var p := w.places[conn];
    DroppingKeeps(w, conn, w.objects[p.obj].id);
    MoveKeeps(Dropping(w, conn, w.objects[p.obj].id), conn, AfterRound(p.req, true));
  }

  lemma ReceiveKeeps(w: World, conn: nat, req: Request)
    requires Inv(w) && Enabled(w, Receive(conn, req))
    ensures Inv(Next(w, Receive(conn, req)))
  {
    RetrieveKeeps(w, conn, req.cookie);
    var (after, obj) := Retrieve(w, conn, req.cookie);
    if after.alive { MoveKeeps(after, conn, Found(obj, req, PlaceOf(w, conn).ended)); }
  }

  lemma LeaveKeeps(w: World, conn: nat)
    requires Inv(w) && Enabled(w, Leave(conn))
    ensures Inv(Next(w, Leave(conn)))
  {
    RetrieveKeeps(w, conn, w.places[conn].cookie);
    MoveKeeps(Retrieve(w, conn, w.places[conn].cookie).0, conn, Gone);
  }

  lemma StepKeeps(w: World, step: Step)
    requires Inv(w) && Enabled(w, step)
    ensures Inv(Next(w, step))
  {
    match step {
      case Receive(conn, req) => ReceiveKeeps(w, conn, req);
      case HangUp(conn) => MoveKeeps(w, conn, Out(""));
      case Gate(conn) => GateKeeps(w, conn);
      case Act(conn) => ActKeeps(w, conn, w.places[conn]);
      case Finish(conn) => FinishKeeps(w, conn);
      case Remove(conn) => RemoveKeeps(w, conn);
      case Leave(conn) => LeaveKeeps(w, conn);
    }
  }

  lemma {:induction false} AlwaysInv(worlds: seq<World>, steps: seq<Step>, i: nat)
    requires IsRun(worlds, steps) && i < |worlds|
    ensures Inv(worlds[i])
  {
    if i == 0 {
      assert Inv(START);
    } else {
      AlwaysInv(worlds, steps, i - 1);
      StepKeeps(worlds[i - 1], steps[i - 1]);
    }
  }

  // ---------------------------------------------------------------- over all runs

  /** Login, over all runs: a session is logged in iff the latest attempt on it succeeded, and its user is
      the name of the latest granted one. */
  lemma AccountsTellLogins(worlds: seq<World>, steps: seq<Step>, i: nat, obj: nat)
    requires IsRun(worlds, steps) && i < |worlds| && obj < |worlds[i].objects|
    ensures worlds[i].objects[obj].loggedIn <==> LastGranted(LatestTried(worlds[i].log, obj))
    ensures LatestGranted(worlds[i].log, obj).Some? ==>
              worlds[i].objects[obj].user == LatestGranted(worlds[i].log, obj).value
  {
    AlwaysInv(worlds, steps, i);
  }

  /** The login gate, over all runs.  Whenever a handler reads its session's user, its thread has passed the
      gate under a granted login, and the user read is the name of the latest granted login.  That login is
      also the latest attempt if and only if the last attempt since the gate, if there is one, was granted. */
  lemma HandlersActForLatestLogin(worlds: seq<World>, steps: seq<Step>, i: nat, k: nat)
    requires IsRun(worlds, steps) && i < |worlds| && k < |worlds[i].log| && worlds[i].log[k].Acted?
    ensures var log := worlds[i].log;
            var Acted(conn, obj, code, user, gate) := log[k];
            && code in HANDLED && gate < k && log[gate] == Gated(conn, obj, code)
            && LastGranted(LatestTried(log[..gate], obj))
            && LatestGranted(log[..k], obj) == Some(user)
            && (LatestTried(log[..k], obj) == Some(Login(user, true)) <==>
                  LatestTried(log[gate..k], obj) == None || LastGranted(LatestTried(log[gate..k], obj)))
  {
    AlwaysInv(worlds, steps, i);
    var log := worlds[i].log;
    assert ActOk(log, k);
    var Acted(conn, obj, code, user, gate) := log[k];
    assert log[..k][..gate] == log[..gate];
    LatestSplit(log, obj, gate, k);
    GrantedIfTried(log[..k], obj);
  }

  /** One push reads its user three times.  Two of its readings agree if and only if the latest login granted
      in between, if there is one, names the same user. */
  lemma ReadingsAgree(worlds: seq<World>, steps: seq<Step>, i: nat, j: nat, k: nat)
    requires IsRun(worlds, steps) && i < |worlds| && j < k < |worlds[i].log|
    requires worlds[i].log[j].Acted? && worlds[i].log[k].Acted? && worlds[i].log[j].conn == worlds[i].log[k].conn
    requires worlds[i].log[j].gate == worlds[i].log[k].gate
    ensures var log := worlds[i].log;
            log[j].user == log[k].user <==>
              LatestGranted(log[j..k], log[j].obj) == None || LatestGranted(log[j..k], log[j].obj) == Some(log[j].user)
  {
    AlwaysInv(worlds, steps, i);
    var log := worlds[i].log;
    assert ActOk(log, j) && ActOk(log, k);
    assert log[log[j].gate] == log[..j][log[j].gate] && log[log[k].gate] == log[..k][log[k].gate];
    LatestSplit(log, log[j].obj, j, k);
  }

  /** A push during which no login is granted on its session is one user's: the place on disk, the row's key and
      the row's user are that user's, as PushEffect has it. */
  lemma UndisturbedPush(worlds: seq<World>, steps: seq<Step>, i: nat, j: nat, k: nat, l: nat,
                        st: Server.Store, e: Server.Event)
    requires IsRun(worlds, steps) && i < |worlds| && j < k < l < |worlds[i].log|
    requires var log := worlds[i].log;
             && log[j].Acted? && log[k].Acted? && log[l].Acted?
             && log[j].conn == log[k].conn == log[l].conn && log[j].gate == log[k].gate == log[l].gate
             && LatestGranted(log[j..l], log[j].obj) == None
    ensures var log := worlds[i].log;
            Server.PushAs(st, log[j].user, log[k].user, log[l].user, e) == Server.PushEffect(st, log[j].user, e)
  {
    var log := worlds[i].log;
    NoneBetween(log, log[j].obj, j, k, l);
    ReadingsAgree(worlds, steps, i, j, k);
    ReadingsAgree(worlds, steps, i, j, l);
  }

  /** Session identity, over all runs: two sessions share an id exactly when a multiple of 2^32 creations lies
      between them. */
  lemma IdsRepeatEvery32Bits(worlds: seq<World>, steps: seq<Step>, i: nat, j: nat, k: nat)
    requires IsRun(worlds, steps) && i < |worlds| && j < k < |worlds[i].objects|
    ensures worlds[i].objects[j].id == worlds[i].objects[k].id <==> (k - j) % 0x1_0000_0000 == 0
  {
    AlwaysInv(worlds, steps, i);
    WrapsTogether(FIRST_ID + j, FIRST_ID + k);
  }

  /** Over all runs, however long: a session removed from the manager is never looked up again, neither for a
      request nor from within pause_session. */
  lemma RemovedStaysRemoved(worlds: seq<World>, steps: seq<Step>, i: nat, j: nat, k: nat)
    requires IsRun(worlds, steps) && i < |worlds|
    requires j < k < |worlds[i].log| && worlds[i].log[j].Dropped? && worlds[i].log[k].Retrieved?
    ensures worlds[i].log[k].obj != worlds[i].log[j].obj
  {
    AlwaysInv(worlds, steps, i);
  }

  /** As long as at most 2^32 sessions have been created, retrieve_session never returns a removed id, neither
      for a request nor from within pause_session. */
  lemma RemovedIsNeverRetrieved(worlds: seq<World>, steps: seq<Step>, i: nat, j: nat, k: nat)
    requires IsRun(worlds, steps) && i < |worlds| && |worlds[i].objects| <= 0x1_0000_0000
    requires j < k < |worlds[i].log| && worlds[i].log[j].Dropped? && worlds[i].log[k].Retrieved?
    ensures worlds[i].log[k].id != worlds[i].log[j].id
  {
    AlwaysInv(worlds, steps, i);
  }

  /** Cookies, over all runs: a reply of any code goes out behind a gate of its own, and a later request of any
      connection that shows its cookie is served by the same session if and only if that one is live and its id
      is not negative. */
  lemma CookiesLeadBack(worlds: seq<World>, steps: seq<Step>, i: nat, k: nat, conn: nat, req: Request)
    requires IsRun(worlds, steps) && i < |worlds| && k < |worlds[i].log| && worlds[i].log[k].Replied?
    requires Enabled(worlds[i], Receive(conn, req)) && req.cookie == worlds[i].log[k].cookie
    ensures var w := worlds[i];
            var Replied(peer, obj, code, cookie, gate) := w.log[k];
            && gate < k && w.log[gate] == Gated(peer, obj, code) && obj < |w.objects|
            && (PlaceOf(Next(w, Receive(conn, req)), conn) == Found(obj, req, PlaceOf(w, conn).ended) <==>
                  w.objects[obj].id >= 0 && Live(w.objects, w.sessions, obj))
  {
    AlwaysInv(worlds, steps, i);
    var w := worlds[i];
    assert ReplyOk(w.objects, w.log, k);
    var obj := w.log[k].obj;
    WrapNext(FIRST_ID + obj);
    CookieNames(ManagerOf(w), w.objects[obj].id);
  }

  /** A cookie whose number is no int is the last thing the server hears: the exception ends its process. */
  lemma LargeCookieEndsServer(worlds: seq<World>, steps: seq<Step>, i: nat, conn: nat, req: Request, n: nat)
    requires IsRun(worlds, steps) && i < |steps| && steps[i] == Receive(conn, req)
    requires req.cookie == Digits(n, 10)
    ensures n > 0x7fff_ffff <==> !worlds[i + 1].alive
    ensures !worlds[i + 1].alive ==> i + 1 == |steps|
  {
    AlwaysInv(worlds, steps, i);
    NumberNames(ManagerOf(worlds[i]), n, []);
    assert Digits(n, 10) + [] == Digits(n, 10);
    if i + 1 < |steps| { assert Enabled(worlds[i + 1], steps[i + 1]); }
  }

  /** As long as at most 2^32 sessions have been created, a session is live until it is removed, and only a thread
      that has had an end request removes one. */
  lemma LiveUntilEnd(worlds: seq<World>, steps: seq<Step>, i: nat, obj: nat)
    requires IsRun(worlds, steps) && i < |worlds| && obj < |worlds[i].objects| <= 0x1_0000_0000
    ensures var w := worlds[i];
            && (Live(w.objects, w.sessions, obj) <==> !WasDropped(w.log, obj))
            && (forall k: nat :: k < |w.log| && w.log[k].Dropped? ==>
                  exists j: nat :: j < k && w.log[j].Gated? && w.log[j].conn == w.log[k].conn && w.log[j].code == MSG_END)
  {
    AlwaysInv(worlds, steps, i);
    var w := worlds[i];
    forall k: nat | k < |w.log| && w.log[k].Dropped?
      ensures exists j: nat :: j < k && w.log[j].Gated? && w.log[j].conn == w.log[k].conn && w.log[j].code == MSG_END {
      var j: nat :| j < k && w.log[..k][j].Gated? && w.log[..k][j].conn == w.log[k].conn && w.log[..k][j].code == MSG_END;
      assert w.log[j] == w.log[..k][j];
    }
  }

  lemma LiveIdsBelowCounter(objects: seq<Object>, sessions: map<int, nat>, counter: int, id: int)
    requires IdsOk(objects, sessions, counter) && |objects| < 0x7fff_ffff && id in sessions
    ensures FIRST_ID <= id < counter && FitsInt32(id)
  {
    WrapNext(FIRST_ID + |objects|);
    WrapNext(FIRST_ID + sessions[id]);
  }

  /** Until the counter wraps every live id is below it, every key is its session's id, and every live session
      answers to its cookie. */
  lemma LiveIdsUntilWrap(worlds: seq<World>, steps: seq<Step>, i: nat, id: int)
    requires IsRun(worlds, steps) && i < |worlds| && |worlds[i].objects| < 0x7fff_ffff && id in worlds[i].sessions
    ensures 1 <= id < worlds[i].counter
    ensures worlds[i].sessions[id] < |worlds[i].objects| && worlds[i].objects[worlds[i].sessions[id]].id == id
    ensures WhoIs(ManagerOf(worlds[i]), Cookie(id)) == Existing(id)
  {
    AlwaysInv(worlds, steps, i);
    var w := worlds[i];
    LiveIdsBelowCounter(w.objects, w.sessions, w.counter, id);
    CookieFindsSession(ManagerOf(w), id);
  }

  // ---------------------------------------------------------------- one connection alone

  predicate Follows(w: World, steps: seq<Step>, after: World)
    decreases steps
  {
    if steps == [] then w == after else Enabled(w, steps[0]) && Follows(Next(w, steps[0]), steps[1..], after)
  }

  /** What a connection's thread has done for its peer: the work of handlers, and replies. */
  datatype Deed = Worked(code: int, user: string) | Sent(cookie: string)

  function DeedOf(m: Mark, conn: nat): seq<Deed> {
    match m
    case Acted(c, _, code, user, _) => if c == conn then [Worked(code, user)] else []
    case Replied(c, _, _, cookie, _) => if c == conn then [Sent(cookie)] else []
    case _ => []
  }

  function Deeds(log: seq<Mark>, conn: nat): seq<Deed> {
    if log == [] then [] else Deeds(log[..|log| - 1], conn) + DeedOf(log[|log| - 1], conn)
  }

  lemma DeedsSnoc(log: seq<Mark>, m: Mark, conn: nat)
    ensures Deeds(log + [m], conn) == Deeds(log, conn) + DeedOf(m, conn)
  {
    assert (log + [m])[..|log|] == log;
  }

  lemma RetrieveAdds(w: World, conn: nat, cookie: string)
    ensures Deeds(Retrieve(w, conn, cookie).0.log, conn) == Deeds(w.log, conn)
  {
    var after := Retrieve(w, conn, cookie).0;
    if after.alive && w.alive {
      DeedsSnoc(w.log, after.log[|w.log|], conn);
    }
  }

  lemma ActingAdds(w: World, conn: nat, p: Place)
    requires p.Inside? && p.obj < |w.objects|
    ensures Deeds(Acting(w, conn, p).log, conn)
            == Deeds(w.log, conn) + if p.req.code == MSG_LOGIN then [] else [Worked(p.req.code, w.objects[p.obj].user)]
  {
    DeedsSnoc(w.log, Acting(w, conn, p).log[|w.log|], conn);
  }

  lemma DropAdds(w: World, conn: nat, id: int)
    ensures Deeds(Dropping(w, conn, id).log, conn) == Deeds(w.log, conn)
  {
    if id in w.sessions { DeedsSnoc(w.log, Dropped(conn, w.sessions[id], id), conn); }
  }

  lemma ReceiveAdds(w: World, conn: nat, req: Request)
    requires Enabled(w, Receive(conn, req))
    ensures Deeds(Next(w, Receive(conn, req)).log, conn) == Deeds(w.log, conn)
  {
    RetrieveAdds(w, conn, req.cookie);
  }

  lemma GateAdds(w: World, conn: nat)
    requires Enabled(w, Gate(conn))
    ensures Deeds(Next(w, Gate(conn)).log, conn) == Deeds(w.log, conn)
  {
    DeedsSnoc(w.log, Gated(conn, w.places[conn].obj, w.places[conn].req.code), conn);
  }

  lemma FinishAdds(w: World, conn: nat)
    requires Enabled(w, Finish(conn))
    ensures Deeds(Next(w, Finish(conn)).log, conn)
            == Deeds(w.log, conn) + [Sent(Cookie(w.objects[PlaceOf(w, conn).obj].id))]
  {
    var p := w.places[conn];
    DeedsSnoc(w.log, Replied(conn, p.obj, p.req.code, Cookie(w.objects[p.obj].id), p.gate), conn);
  }

  function Times(d: Deed, n: nat): seq<Deed> {
    if n == 0 then [] else [d] + Times(d, n - 1)
  }

  /** What the sequential account of a round amounts to; a push reads its user three times. */
  function DeedsIn(log: seq<Occurrence>): seq<Deed> {
    if log == [] then []
    else (match log[0]
          case Ran(_, code, user) => Times(Worked(code, user), if code == MSG_PUSH then 3 else 1)
          case _ => [])
         + DeedsIn(log[1..])
  }

  lemma DeedsCons(o: Occurrence, log: seq<Occurrence>)
    ensures o.Ran? ==> DeedsIn([o] + log) == Times(Worked(o.code, o.user), if o.code == MSG_PUSH then 3 else 1) + DeedsIn(log)
    ensures !o.Ran? ==> DeedsIn([o] + log) == DeedsIn(log)
  {
    assert ([o] + log)[1..] == log;
  }

  function DeedsOf(r: Served): seq<Deed> {
    DeedsIn(r.log) + (match r.reply case Answered(cookie) => [Sent(cookie)] case _ => [])
  }

  lemma FollowsCons(w: World, step: Step, rest: seq<Step>, after: World)
    requires Enabled(w, step)
    ensures Follows(w, [step] + rest, after) <==> Follows(Next(w, step), rest, after)
  {
    assert ([step] + rest)[0] == step && ([step] + rest)[1..] == rest;
  }

  lemma FollowsOne(w: World, step: Step)
    requires Enabled(w, step)
    ensures Follows(w, [step], Next(w, step))
  {
    assert [step] + [] == [step];
    FollowsCons(w, step, [], Next(w, step));
  }

  lemma FollowsTwo(w: World, one: Step, two: Step)
    requires Enabled(w, one) && Enabled(Next(w, one), two)
    ensures Follows(w, [one, two], Next(Next(w, one), two))
  {
    FollowsOne(Next(w, one), two);
    assert [one] + [two] == [one, two];
    FollowsCons(w, one, [two], Next(Next(w, one), two));
  }

  lemma HeadFirst(steps: seq<Step>, more: seq<Step>)
    requires steps != []
    ensures steps + more == [steps[0]] + (steps[1..] + more)
  {
    assert steps == [steps[0]] + steps[1..];
  }

  lemma {:induction false} FollowsOn(w: World, steps: seq<Step>, between: World, more: seq<Step>, after: World)
    requires Follows(w, steps, between) && Follows(between, more, after)
    ensures Follows(w, steps + more, after)
    decreases steps
  {
    if steps == [] {
      assert steps + more == more;
    } else {
      var rest := steps[1..];
      HeadFirst(steps, more);
      FollowsOn(Next(w, steps[0]), rest, between, more, after);
      FollowsCons(w, steps[0], rest + more, after);
    }
  }

  lemma CreatedManager(w: World)
    requires IdsOk(w.objects, w.sessions, w.counter)
    ensures ManagerOf(Created(w)) == Create(ManagerOf(w))
  {
    assert ManagerOf(Created(w)).sessions == Create(ManagerOf(w)).sessions;
  }

  lemma LoginAccounts(objects: seq<Object>, sessions: map<int, nat>, counter: int, id: int, o: Object)
    requires IdsOk(objects, sessions, counter) && id in sessions
    ensures Accounts(objects[sessions[id] := o], sessions) == Accounts(objects, sessions)[id := Account(o.user, o.loggedIn)]
  {
    var got, want := Accounts(objects[sessions[id] := o], sessions), Accounts(objects, sessions)[id := Account(o.user, o.loggedIn)];
    forall k | k in sessions ensures got[k] == want[k] {
      if k != id { assert sessions[k] != sessions[id]; }
    }
  }

  lemma DropAccounts(objects: seq<Object>, sessions: map<int, nat>, id: int)
    ensures Accounts(objects, sessions - {id}) == Accounts(objects, sessions) - {id}
  {
  }

  /** `n` parts of a handler's work have been done and nothing else has happened. */
  ghost predicate OnlyActed(w: World, after: World, conn: nat, p: Place, n: nat) {
    && p.Inside? && p.obj < |w.objects| && PlaceOf(w, conn) == p && PlaceOf(after, conn) == p.(acts := p.acts + n)
    && after.alive && after.sessions == w.sessions && after.objects == w.objects && after.counter == w.counter
    && Deeds(after.log, conn) == Deeds(w.log, conn) + Times(Worked(p.req.code, w.objects[p.obj].user), n)
  }

  lemma ActAlone(w: World, conn: nat, p: Place)
    requires Enabled(w, Act(conn)) && PlaceOf(w, conn) == p && p.req.code != MSG_LOGIN
    ensures OnlyActed(w, Next(w, Act(conn)), conn, p, 1)
  {
    ActingAdds(w, conn, p);
    assert Times(Worked(p.req.code, w.objects[p.obj].user), 1) == [Worked(p.req.code, w.objects[p.obj].user)];
  }

  lemma ActedOn(w: World, next: World, after: World, conn: nat, p: Place, n: nat)
    requires OnlyActed(w, next, conn, p, 1) && OnlyActed(next, after, conn, p.(acts := p.acts + 1), n)
    ensures OnlyActed(w, after, conn, p, n + 1)
  {
    var d := Worked(p.req.code, w.objects[p.obj].user);
    assert Times(d, 1) == [d] && Times(d, n + 1) == [d] + Times(d, n);
  }

  /** A handler that is left alone to the end of its work changes no account. */
  lemma {:induction false} ActsAlone(w: World, conn: nat, p: Place, n: nat) returns (steps: seq<Step>, after: World)
    requires w.alive && PlaceOf(w, conn) == p && p.Inside? && p.obj < |w.objects|
    requires p.req.code != MSG_LOGIN && p.acts + n == Needed(p.req.code)
    ensures Follows(w, steps, after) && OnlyActed(w, after, conn, p, n)
    decreases n
  {
    if n == 0 {
      steps, after := [], w;
    } else {
      var next := Next(w, Act(conn));
      ActAlone(w, conn, p);
      var rest;
      rest, after := ActsAlone(next, conn, p.(acts := p.acts + 1), n - 1);
      ActedOn(w, next, after, conn, p, n - 1);
      FollowsCons(w, Act(conn), rest, after);
      steps := [Act(conn)] + rest;
    }
  }

  /** The end of the round: reply, and removal after an end request. */
  lemma FinishAlone(w: World, conn: nat, id: int) returns (after: World)
    requires w.alive && PlaceOf(w, conn).Inside? && PlaceOf(w, conn).obj < |w.objects|
    requires PlaceOf(w, conn).acts == Needed(PlaceOf(w, conn).req.code) && w.objects[PlaceOf(w, conn).obj].id == id
    ensures var p := PlaceOf(w, conn);
            var ended := p.ended || p.req.code == MSG_END;
            && Follows(w, if ended then [Finish(conn), Remove(conn)] else [Finish(conn)], after) && after.alive
            && ManagerOf(after) == Manager(if ended then ManagerOf(w).sessions - {id} else ManagerOf(w).sessions, w.counter)
            && PlaceOf(after, conn) == AfterRound(p.req, ended)
            && Deeds(after.log, conn) == Deeds(w.log, conn) + [Sent(Cookie(id))]
  {
    DropAccounts(w.objects, w.sessions, id);
    assert id !in w.sessions ==> ManagerOf(w).sessions - {id} == ManagerOf(w).sessions;
    var p := PlaceOf(w, conn);
    var replied := Next(w, Finish(conn));
    FinishAdds(w, conn);
    if p.ended || p.req.code == MSG_END {
      DropAdds(replied, conn, id);
      after := Next(replied, Remove(conn));
      FollowsTwo(w, Finish(conn), Remove(conn));
    } else {
      after := replied;
      FollowsOne(w, Finish(conn));
    }
  }

  lemma LoginAlone(w: World, conn: nat, id: int) returns (done: World)
    requires Inv(w) && w.alive && PlaceOf(w, conn).Inside? && PlaceOf(w, conn).acts == 0
    requires PlaceOf(w, conn).req.code == MSG_LOGIN && id in w.sessions && w.sessions[id] == PlaceOf(w, conn).obj
    ensures var p := PlaceOf(w, conn);
            var name := if p.req.granted then p.req.username else w.objects[p.obj].user;
            && Follows(w, [Act(conn)], done) && done.alive && done.counter == w.counter
            && PlaceOf(done, conn) == p.(acts := 1)
            && |done.objects| == |w.objects| && done.objects[p.obj].id == id
            && ManagerOf(done).sessions == ManagerOf(w).sessions[id := Account(name, p.req.granted)]
            && done == Next(w, Act(conn))
  {
    done := Next(w, Act(conn));
    LoginAccounts(w.objects, w.sessions, w.counter, id, done.objects[PlaceOf(w, conn).obj]);
    FollowsOne(w, Act(conn));
  }

  /** The handler's work: only a login changes an account, its own. */
  lemma WorkAlone(w: World, conn: nat, id: int) returns (steps: seq<Step>, done: World)
    requires Inv(w) && w.alive && PlaceOf(w, conn).Inside? && PlaceOf(w, conn).acts == 0
    requires id in w.sessions && w.sessions[id] == PlaceOf(w, conn).obj
    ensures var p := PlaceOf(w, conn);
            var o := w.objects[p.obj];
            && Follows(w, steps, done) && done.alive && done.counter == w.counter
            && PlaceOf(done, conn) == p.(acts := Needed(p.req.code))
            && |done.objects| == |w.objects| && done.objects[p.obj].id == id
            && Deeds(done.log, conn)
               == Deeds(w.log, conn)
                  + (if p.req.code == MSG_LOGIN then [] else Times(Worked(p.req.code, o.user), Needed(p.req.code)))
            && ManagerOf(done).sessions
               == if p.req.code != MSG_LOGIN then ManagerOf(w).sessions
                  else ManagerOf(w).sessions[id := Account(if p.req.granted then p.req.username else o.user, p.req.granted)]
  {
    if PlaceOf(w, conn).req.code == MSG_LOGIN {
      done := LoginAlone(w, conn, id);
      ActingAdds(w, conn, PlaceOf(w, conn));
      steps := [Act(conn)];
    } else {
      steps, done := ActsAlone(w, conn, PlaceOf(w, conn), Needed(PlaceOf(w, conn).req.code));
    }
  }

  lemma ReceiveAlone(w: World, conn: nat, req: Request) returns (found: World)
    requires Inv(w) && w.alive && PlaceOf(w, conn).Between?
    ensures Follows(w, [Receive(conn, req)], found) && Inv(found) && found == Next(w, Receive(conn, req))
    ensures var m := ManagerOf(w);
            match WhoIs(m, req.cookie)
            case OutOfRange => !found.alive && ManagerOf(found) == m
            case Existing(id) =>
              && found.alive && id in found.sessions && ManagerOf(found) == m
              && PlaceOf(found, conn) == Found(found.sessions[id], req, PlaceOf(w, conn).ended)
            case Fresh(id) =>
              && found.alive && id in found.sessions && ManagerOf(found) == Create(m)
              && PlaceOf(found, conn) == Found(found.sessions[id], req, PlaceOf(w, conn).ended)
  {
    found := Next(w, Receive(conn, req));
    ReceiveKeeps(w, conn, req);
    CreatedManager(w);
    FollowsOne(w, Receive(conn, req));
  }

  lemma GateAlone(w: World, conn: nat, id: int) returns (gated: World)
    requires Inv(w) && w.alive && PlaceOf(w, conn).Found?
    requires id in w.sessions && PlaceOf(w, conn).obj == w.sessions[id]
    ensures Follows(w, [Gate(conn)], gated) && Inv(gated) && gated.alive && ManagerOf(gated) == ManagerOf(w)
    ensures gated.sessions == w.sessions && gated.objects == w.objects && Deeds(gated.log, conn) == Deeds(w.log, conn)
    ensures var p := PlaceOf(w, conn);
            if p.req.code != MSG_LOGIN && !ManagerOf(w).sessions[id].loggedIn then PlaceOf(gated, conn) == Out(p.req.cookie)
            else PlaceOf(gated, conn) == Inside(p.obj, p.req, p.ended, |w.log|, 0)
  {
    gated := Next(w, Gate(conn));
    GateKeeps(w, conn);
    GateAdds(w, conn);
    FollowsOne(w, Gate(conn));
  }

  /** The world after a round agrees with what Serve says of it: the manager, where the thread stands, what its
      handler did and for whom, and the cookie of its reply. */
  predicate Agrees(w: World, after: World, conn: nat, r: Served, req: Request, ended: bool) {
    && ManagerOf(after) == r.m && after.alive == !r.reply.Thrown?
    && Deeds(after.log, conn) == Deeds(w.log, conn) + DeedsOf(r)
    && match r.reply
       case Thrown => true
       case Refused => PlaceOf(after, conn) == Out(req.cookie)
       case Answered(_) =>
         PlaceOf(after, conn) == if req.keepAlive then Between(ended || req.code == MSG_END) else Out(req.cookie)
  }

  /** What Handle writes down, in deeds. */
  lemma HandleDeeds(m: Manager, id: int, req: Request, ended: bool)
    requires id in m.sessions
    ensures var r := Handle(m, id, req, ended);
            && (r.reply.Refused? ==> DeedsOf(r) == [])
            && (!r.reply.Refused? ==>
                  DeedsOf(r) == (if req.code == MSG_LOGIN then [] else Times(Worked(req.code, m.sessions[id].user), Needed(req.code)))
                                + [Sent(Cookie(id))])
  {
    var r := Handle(m, id, req, ended);
    var last := if ended || req.code == MSG_END then [Removed(id)] else [];
    DeedsCons(Removed(id), []);
    assert [Removed(id)] + [] == [Removed(id)];
    if r.reply.Answered? {
      HandleLog(m, id, req, ended, last);
      if req.code == MSG_LOGIN { DeedsCons(LoginTried(id, req.username, req.granted), last); }
      else if req.code in HANDLED { DeedsCons(Ran(id, req.code, m.sessions[id].user), last); }
    }
  }

  lemma HandleLog(m: Manager, id: int, req: Request, ended: bool, last: seq<Occurrence>)
    requires id in m.sessions && last == if ended || req.code == MSG_END then [Removed(id)] else []
    ensures var r := Handle(m, id, req, ended);
            r.reply.Answered? ==>
              r.log == if req.code == MSG_LOGIN then [LoginTried(id, req.username, req.granted)] + last
                       else if req.code in HANDLED then [Ran(id, req.code, m.sessions[id].user)] + last else last
  {
  }

  /** A handler's work and the end of its round, put together. */
  lemma HandledAgrees(w: World, done: World, after: World, conn: nat, id: int, req: Request, ended: bool)
    requires id in w.sessions && (req.code == MSG_LOGIN || ManagerOf(w).sessions[id].loggedIn)
    requires var o := ManagerOf(w).sessions[id];
             && Deeds(done.log, conn)
                == Deeds(w.log, conn)
                   + (if req.code == MSG_LOGIN then [] else Times(Worked(req.code, o.user), Needed(req.code)))
             && ManagerOf(done).sessions
                == if req.code != MSG_LOGIN then ManagerOf(w).sessions
                   else ManagerOf(w).sessions[id := Account(if req.granted then req.username else o.user, req.granted)]
    requires Deeds(after.log, conn) == Deeds(done.log, conn) + [Sent(Cookie(id))] && after.alive
    requires PlaceOf(after, conn) == AfterRound(req, ended || req.code == MSG_END)
    requires ManagerOf(after) == Manager(if ended || req.code == MSG_END then ManagerOf(done).sessions - {id}
                                         else ManagerOf(done).sessions, w.counter)
    ensures Agrees(w, after, conn, Handle(ManagerOf(w), id, req, ended), req, ended)
  {
    assert ManagerOf(after) == Handle(ManagerOf(w), id, req, ended).m;
    HandleDeeds(ManagerOf(w), id, req, ended);
  }

  /** From behind the gate to the end of the round. */
  lemma InsideAlone(w: World, conn: nat, id: int, req: Request, ended: bool, gate: nat)
    returns (steps: seq<Step>, after: World)
    requires Inv(w) && w.alive && id in w.sessions && PlaceOf(w, conn) == Inside(w.sessions[id], req, ended, gate, 0)
    requires req.code == MSG_LOGIN || ManagerOf(w).sessions[id].loggedIn
    ensures Follows(w, steps, after) && Agrees(w, after, conn, Handle(ManagerOf(w), id, req, ended), req, ended)
  {
    var work, done := WorkAlone(w, conn, id);
    after := FinishAlone(done, conn, id);
    HandledAgrees(w, done, after, conn, id, req, ended);
    var finish := if ended || req.code == MSG_END then [Finish(conn), Remove(conn)] else [Finish(conn)];
    FollowsOn(w, work, done, finish, after);
    steps := work + finish;
  }

  /** From the gate on. */
  lemma HandledAlone(w: World, conn: nat, id: int, req: Request, ended: bool) returns (steps: seq<Step>, after: World)
    requires Inv(w) && w.alive && id in w.sessions && PlaceOf(w, conn) == Found(w.sessions[id], req, ended)
    ensures Follows(w, steps, after) && Agrees(w, after, conn, Handle(ManagerOf(w), id, req, ended), req, ended)
  {
    var gated := GateAlone(w, conn, id);
    if PlaceOf(gated, conn).Out? { return [Gate(conn)], gated; }
    var rest;
    rest, after := InsideAlone(gated, conn, id, req, ended, |w.log|);
    FollowsOn(w, [Gate(conn)], gated, rest, after);
    steps := [Gate(conn)] + rest;
  }

  lemma CreatedDeeds(r: Served, id: int)
    ensures DeedsOf(r.(log := [Occurrence.Created(id)] + r.log)) == DeedsOf(r)
  {
    DeedsCons(Occurrence.Created(id), r.log);
  }

  /** A round that nobody disturbs does what Serve says: the sequential account of a connection is one of the
      interleavings. */
  lemma RoundAlone(w: World, conn: nat, req: Request, ended: bool) returns (steps: seq<Step>, after: World)
    requires Inv(w) && w.alive && PlaceOf(w, conn) == Between(ended)
    ensures Follows(w, steps, after) && Agrees(w, after, conn, Serve(ManagerOf(w), req, ended), req, ended)
  {
    ReceiveAdds(w, conn, req);
    var found := ReceiveAlone(w, conn, req);
    steps, after := [Receive(conn, req)], found;
    if found.alive {
      var rest;
      var id := ServedBy(ManagerOf(w), req);
      rest, after := HandledAlone(found, conn, id, req, ended);
      CreatedDeeds(Handle(ManagerOf(found), id, req, ended), id);
      FollowsOn(w, steps, found, rest, after);
      steps := steps + rest;
    }
  }

  lemma {:induction false} FollowsKeeps(w: World, steps: seq<Step>, after: World)
    requires Inv(w) && Follows(w, steps, after)
    ensures Inv(after)
    decreases steps
  {
    if steps == [] {
    } else {
      StepKeeps(w, steps[0]);
      FollowsKeeps(Next(w, steps[0]), steps[1..], after);
    }
  }

  /** Out of the loop: the pause. */
  lemma LeaveAlone(w: World, conn: nat, cookie: string) returns (after: World)
    requires Inv(w) && w.alive && PlaceOf(w, conn) == Out(cookie)
    ensures Follows(w, [Leave(conn)], after) && ManagerOf(after) == Pause(ManagerOf(w), cookie).0
  {
    after := Next(w, Leave(conn));
    CreatedManager(w);
    assert Follows(after, [], after);
  }

  /** A whole connection that nobody disturbs does what Connection says. */
  lemma {:induction false} ConnectionAlone(w: World, conn: nat, inbox: seq<Request>, ended: bool)
    returns (steps: seq<Step>, after: World)
    requires Inv(w) && w.alive && PlaceOf(w, conn) == Between(ended)
    ensures Follows(w, steps, after) && ManagerOf(after) == Connection(ManagerOf(w), inbox, ended).0
    decreases inbox
  {
    if inbox == [] {
      var out := Next(w, HangUp(conn));
      assert Follows(out, [], out);
      MoveKeeps(w, conn, Out(""));
      after := LeaveAlone(out, conn, "");
      FollowsOn(w, [HangUp(conn)], out, [Leave(conn)], after);
      steps := [HangUp(conn)] + [Leave(conn)];
    } else {
      var round, between := RoundAlone(w, conn, inbox[0], ended);
      FollowsKeeps(w, round, between);
      var rest;
      rest, after := RestAlone(w, between, conn, inbox, ended);
      FollowsOn(w, round, between, rest, after);
      steps := round + rest;
    }
  }

  /** What follows the first round. */
  lemma {:induction false} RestAlone(w: World, between: World, conn: nat, inbox: seq<Request>, ended: bool)
    returns (steps: seq<Step>, after: World)
    requires Inv(between) && inbox != []
    requires Agrees(w, between, conn, Serve(ManagerOf(w), inbox[0], ended), inbox[0], ended)
    ensures Follows(between, steps, after) && ManagerOf(after) == Connection(ManagerOf(w), inbox, ended).0
    decreases inbox, 0
  {
    if !between.alive {
      steps, after := [], between;
    } else if PlaceOf(between, conn).Out? {
      after := LeaveAlone(between, conn, inbox[0].cookie);
      steps := [Leave(conn)];
    } else {
      steps, after := ConnectionAlone(between, conn, inbox[1..], ended || inbox[0].code == MSG_END);
    }
  }

  // ---------------------------------------------------------------- what interleaving breaks

  lemma RunOn(worlds: seq<World>, steps: seq<Step>, step: Step) returns (worlds': seq<World>, steps': seq<Step>)
    requires IsRun(worlds, steps) && Enabled(worlds[|worlds| - 1], step)
    ensures IsRun(worlds', steps') && worlds'[|worlds'| - 1] == Next(worlds[|worlds| - 1], step)
  {
    worlds', steps' := worlds + [Next(worlds[|worlds| - 1], step)], steps + [step];
  }

  const LOGIN_A := Request(MSG_LOGIN, "", "a", true, true)
  const PUSH_1 := Request(MSG_PUSH, "1", "", false, false)
  const LOGIN_X := Request(MSG_LOGIN, "1", "x", false, false)
  const END_1 := Request(MSG_END, "1", "", false, false)

  lemma CookieOne(m: Manager)
    ensures WhoIs(m, "1") == if 1 in m.sessions then Existing(1) else Fresh(m.counter)
    ensures Cookie(1) == "1"
  {
    assert Digits(1, 10) == ['1'];
    assert Cookie(1) == "1";
    CookieNames(m, 1);
  }

  const FIRST_MARKS := [Retrieved(1, 0, 1), Gated(1, 0, MSG_LOGIN), Tried(0, "a", true), Replied(1, 0, MSG_LOGIN, "1", 1)]

  const A_LOGGED_IN := World(true, [Object(1, "a", true)], map[1 := 0], 2, map[1 := Between(false)], FIRST_MARKS)

  const A_BEHIND_GATE := World(true, [Object(1, "a", true)], map[1 := 0], 2, map[1 := Inside(0, PUSH_1, false, 5, 0)],
                               FIRST_MARKS + [Retrieved(1, 0, 1), Gated(1, 0, MSG_PUSH)])

  lemma LoggedIn() returns (worlds: seq<World>, steps: seq<Step>)
    ensures IsRun(worlds, steps) && worlds[|worlds| - 1] == A_LOGGED_IN
  {
    CookieOne(ManagerOf(START));
    worlds, steps := [START], [];
    worlds, steps := RunOn(worlds, steps, Receive(1, LOGIN_A));
    worlds, steps := RunOn(worlds, steps, Gate(1));
    worlds, steps := RunOn(worlds, steps, Act(1));
    worlds, steps := RunOn(worlds, steps, Finish(1));
    assert worlds[|worlds| - 1].places == A_LOGGED_IN.places;
  }

  /** A run to the point where "a" has logged in and its next request, a push, has just passed the gate. */
  lemma BehindGate() returns (worlds: seq<World>, steps: seq<Step>)
    ensures IsRun(worlds, steps) && worlds[|worlds| - 1] == A_BEHIND_GATE
  {
    worlds, steps := LoggedIn();
    CookieOne(ManagerOf(A_LOGGED_IN));
    worlds, steps := RunOn(worlds, steps, Receive(1, PUSH_1));
    worlds, steps := RunOn(worlds, steps, Gate(1));
    assert worlds[|worlds| - 1].places == A_BEHIND_GATE.places;
  }

  /** The latest attempt need not be the one acted for: another connection shows the same cookie with a refused
      login while the push is behind the gate. */
  lemma RefusedLoginMeanwhile() returns (worlds: seq<World>, steps: seq<Step>)
    ensures IsRun(worlds, steps)
    ensures var log := worlds[|worlds| - 1].log;
            && |log| == 10 && log[9] == Acted(1, 0, MSG_PUSH, "a", 5)
            && LatestTried(log[..9], 0) == Some(Login("x", false))
  {
    worlds, steps := BehindGate();
    CookieOne(ManagerOf(A_BEHIND_GATE));
    worlds, steps := RunOn(worlds, steps, Receive(2, LOGIN_X));
    worlds, steps := RunOn(worlds, steps, Gate(2));
    worlds, steps := RunOn(worlds, steps, Act(2));
    var log := worlds[|worlds| - 1].log;
    assert log == log[..8] + [Tried(0, "x", false)];
    LatestSnoc(log[..8], Tried(0, "x", false), 0);
    worlds, steps := RunOn(worlds, steps, Act(1));
    assert worlds[|worlds| - 1].log[..9] == log;
  }

  /** A second connection ends the session of "a", up to the reply. */
  lemma EndArrives(before: seq<World>, done: seq<Step>) returns (worlds: seq<World>, steps: seq<Step>)
    requires IsRun(before, done)
    requires var w := before[|before| - 1];
             w.alive && w.objects == [Object(1, "a", true)] && w.sessions == map[1 := 0] && 2 !in w.places
    ensures IsRun(worlds, steps)
    ensures var w := before[|before| - 1];
            worlds[|worlds| - 1] == w.(places := w.places[2 := Ending(0, END_1)],
              log := w.log + [Retrieved(2, 0, 1), Gated(2, 0, MSG_END), Acted(2, 0, MSG_END, "a", |w.log| + 1),
                              Replied(2, 0, MSG_END, "1", |w.log| + 1)])
  {
    var w := before[|before| - 1];
    CookieOne(ManagerOf(w));
    worlds, steps := RunOn(before, done, Receive(2, END_1));
    worlds, steps := RunOn(worlds, steps, Gate(2));
    worlds, steps := RunOn(worlds, steps, Act(2));
    worlds, steps := RunOn(worlds, steps, Finish(2));
    assert worlds[|worlds| - 1].places == w.places[2 := Ending(0, END_1)];
  }

  /** A handler may act on a session that is no longer there: another connection ends it meanwhile. */
  lemma EndedMeanwhile() returns (worlds: seq<World>, steps: seq<Step>)
    ensures IsRun(worlds, steps)
    ensures var log := worlds[|worlds| - 1].log;
            && |log| == 12 && log[10] == Dropped(2, 0, 1) && log[11] == Acted(1, 0, MSG_PUSH, "a", 5)
  {
    worlds, steps := BehindGate();
    worlds, steps := EndArrives(worlds, steps);
    worlds, steps := RunOn(worlds, steps, Remove(2));
    worlds, steps := RunOn(worlds, steps, Act(1));
  }

  /** The reply to an end goes out before the removal: a request that shows its cookie in between is still served
      for the user. */
  lemma ServedAfterEnd() returns (worlds: seq<World>, steps: seq<Step>)
    ensures IsRun(worlds, steps)
    ensures var log := worlds[|worlds| - 1].log;
            && |log| == 10 && log[6] == Acted(2, 0, MSG_END, "a", 5) && log[7] == Replied(2, 0, MSG_END, "1", 5)
            && log[8] == Retrieved(1, 0, 1) && log[9] == Gated(1, 0, MSG_PUSH)
  {
    worlds, steps := LoggedIn();
    worlds, steps := EndArrives(worlds, steps);
    CookieOne(ManagerOf(worlds[|worlds| - 1]));
    worlds, steps := RunOn(worlds, steps, Receive(1, PUSH_1));
    worlds, steps := RunOn(worlds, steps, Gate(1));
  }
}

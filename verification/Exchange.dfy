/** One request under load: Client_socket_API::send_and_receive against a server that answers "retry later"
    while all its threads are taken.  No transport error happens except on a connection the server closed. */
module Exchange {
  import opened Header
  import opened Framing

  const COOKIE_KEEP_THE_SAME := "KEEP_THE_SAME"

  /** The client's socket: closed, served by a thread of the server, or still open here though the server
      has closed its end. */
  datatype Socket = Closed | Live | Dead

  /** The fields of Client_socket_API that an exchange touches. */
  datatype Client = Client(cookie: string, keepAlive: bool, prevKeepAlive: bool, socket: Socket)

  /** The answer of the request loop; `hangsUp` tells that it left the loop whatever was asked of it. */
  datatype Reply = Reply(code: int, cookie: string, hangsUp: bool)

  /** What an exchange leaves: the client, its result, how often a handler got the request, and how many
      further connections would have been met with "retry later". */
  datatype Result = Result(client: Client, ok: bool, dispatched: nat, busy: nat)

  /** The exchanges of the protocol: no request waits for just any answer or for "retry later", and no
      handler answers "retry later". */
  predicate IsExchange(expected: int, reply: Reply) {
    expected != MSG_UNDEFINED && expected != MSG_RETRY_LATER && reply.code != MSG_RETRY_LATER
  }

  predicate Reuses(c: Client) {
    c.socket != Closed && c.keepAlive
  }

  /** The end request asks the server not to keep the connection. */
  function Start(c: Client, code: int): Client {
    if code == MSG_END then c.(prevKeepAlive := c.keepAlive, keepAlive := false) else c
  }

  /** After an answer: the cookie, the restored flag, the closed connection. */
  function Finish(c: Client, code: int, ok: bool, got: string): Client {
    var named := if ok && got != COOKIE_KEEP_THE_SAME then c.(cookie := got) else c;
    var restored := if code == MSG_END then named.(keepAlive := named.prevKeepAlive) else named;
    if restored.keepAlive then restored else restored.(socket := Closed)
  }

  /** An answer is heard; the server keeps its end open if it was asked to and stays in its loop. */
  function Heard(c: Client, reply: Reply): Client {
    c.(socket := if c.keepAlive && !reply.hangsUp then Live else Dead)
  }

  /** A thread of the server answers. */
  function Answered(c: Client, code: int, expected: int, busy: nat, reply: Reply): Result {
    var heard := Heard(Start(c, code), reply);
    if IsUnexpected(expected, reply.code) then Result(heard, false, 1, busy)
    else Result(Finish(heard, code, true, reply.cookie), true, 1, busy)
  }

  /** send_and_receive; the next `busy` new connections are discarded, then `reply` is what a handler answers. */
  function Exchanged(c: Client, code: int, expected: int, busy: nat, reply: Reply): Result
    requires IsExchange(expected, reply)
    decreases busy
  {
    if Reuses(c) then
      if c.socket == Live then Answered(c, code, expected, busy, reply) else Result(Start(c, code), false, 0, busy)
    else if busy == 0 then Answered(c, code, expected, 0, reply)
    else
      var discarded := Start(c, code).(socket := Dead);
      var again := Exchanged(discarded, code, expected, busy - 1, reply);
      again.(client := Finish(again.client, code, again.ok, reply.cookie))
  }

  /** The request gets to a handler: over a connection still served, or over new ones as long as each retry
      opens one, which keep-alive prevents. */
  predicate GetsThrough(c: Client, code: int, busy: nat) {
    if Reuses(c) then c.socket == Live else busy == 0 || !c.keepAlive || code == MSG_END
  }

  /** Exactly once under load.  Whatever finite number of busy answers comes first, a handler gets the
      request once, and only once, if it gets through, and otherwise never; the result is true exactly when
      that one answer was the expected one or an error, and the cookie is that answer's. */
  lemma {:induction false} ExactlyOnce(c: Client, code: int, expected: int, busy: nat, reply: Reply)
    requires IsExchange(expected, reply)
    ensures var r := Exchanged(c, code, expected, busy, reply);
            && r.dispatched == (if GetsThrough(c, code, busy) then 1 else 0)
            && (r.ok <==> GetsThrough(c, code, busy) && reply.code in {expected, MSG_ERROR})
            && r.client.cookie == (if r.ok && reply.cookie != COOKIE_KEEP_THE_SAME then reply.cookie else c.cookie)
    decreases busy
  {
    if Reuses(c) || busy == 0 {
    } else {
      ExactlyOnce(Start(c, code).(socket := Dead), code, expected, busy - 1, reply);
    }
  }

  /** The workers of the pool do not keep connections: each of their requests gets through. */
  lemma WorkersAlwaysGetThrough(cookie: string, expected: int, busy: nat, reply: Reply)
    requires IsExchange(expected, reply)
    ensures Exchanged(Client(cookie, false, false, Closed), MSG_PUSH, expected, busy, reply).dispatched == 1
  {
    ExactlyOnce(Client(cookie, false, false, Closed), MSG_PUSH, expected, busy, reply);
  }

  lemma {:induction false} NoKeepAliveStays(c: Client, code: int, expected: int, busy: nat, reply: Reply)
    requires IsExchange(expected, reply) && !c.keepAlive && code == MSG_END
    ensures !Exchanged(c, code, expected, busy, reply).client.keepAlive
    ensures !Exchanged(c, code, expected, busy, reply).client.prevKeepAlive
    decreases busy
  {
    if busy == 0 {
    } else {
      NoKeepAliveStays(Start(c, code).(socket := Dead), code, expected, busy - 1, reply);
    }
  }

  /** Keep-alive survives a request, except that an end request loses it on a failure, and on the first busy
      answer too, since the retry takes the cleared flag for the one to restore. */
  lemma {:induction false} KeepAliveSurvives(c: Client, code: int, expected: int, busy: nat, reply: Reply)
    requires IsExchange(expected, reply)
    ensures var r := Exchanged(c, code, expected, busy, reply);
            r.client.keepAlive == c.keepAlive <==> code != MSG_END || !c.keepAlive || (r.ok && (Reuses(c) || busy == 0))
    decreases busy
  {
    if Reuses(c) || busy == 0 {
    } else {
      var discarded := Start(c, code).(socket := Dead);
      if code == MSG_END {
        NoKeepAliveStays(discarded, code, expected, busy - 1, reply);
      } else {
        KeepAliveSurvives(discarded, code, expected, busy - 1, reply);
      }
    }
  }

  /** What the next request finds: the connection is served on if it was to be kept and the server stayed in its
      loop; it is closed if it is not to be kept, unless the first answer was an unexpected one; and otherwise
      it is open here but not there. */
  lemma {:induction false} SocketAfter(c: Client, code: int, expected: int, busy: nat, reply: Reply)
    requires IsExchange(expected, reply)
    ensures var r := Exchanged(c, code, expected, busy, reply);
            var retried := busy > 0 && !Reuses(c);
            && (r.client.socket == Closed <==> !r.client.keepAlive && (r.ok || retried))
            && (r.client.socket == Live ==> GetsThrough(c, code, busy) && c.keepAlive && code != MSG_END && !reply.hangsUp)
            && (GetsThrough(c, code, busy) && c.keepAlive && code != MSG_END && !reply.hangsUp ==> r.client.socket == Live)
    decreases busy
  {
    KeepAliveSurvives(c, code, expected, busy, reply);
    if Reuses(c) || busy == 0 {
    } else {
      var discarded := Start(c, code).(socket := Dead);
      SocketAfter(discarded, code, expected, busy - 1, reply);
      if code == MSG_END { NoKeepAliveStays(discarded, code, expected, busy - 1, reply); }
    }
  }

  /** Only an end request touches the saved flag. */
  lemma {:induction false} SavedFlagStays(c: Client, code: int, expected: int, busy: nat, reply: Reply)
    requires IsExchange(expected, reply) && code != MSG_END
    ensures Exchanged(c, code, expected, busy, reply).client.prevKeepAlive == c.prevKeepAlive
    decreases busy
  {
    if Reuses(c) || busy == 0 {
    } else {
      SavedFlagStays(Start(c, code).(socket := Dead), code, expected, busy - 1, reply);
    }
  }

  /** The client's fields once an asynchronous request has saved the flag: if it was set, it is cleared and an
      okay message tells the server. */
  function Saved(c: Client, busy: nat, answer: Reply): Client
    requires IsExchange(MSG_OKAY, answer)
  {
    if c.keepAlive then Exchanged(c.(keepAlive := false, prevKeepAlive := true), MSG_OKAY, MSG_OKAY, busy, answer).client
    else c.(prevKeepAlive := false)
  }

  /** The saved flag is the old one, the flag is down, and the server has been told exactly once if it was up:
      on the connection that was kept, if it is served, or on a new one. */
  lemma SavedFlags(c: Client, busy: nat, answer: Reply)
    requires IsExchange(MSG_OKAY, answer)
    ensures var s := Saved(c, busy, answer);
            && s.prevKeepAlive == c.keepAlive && !s.keepAlive
            && (!c.keepAlive ==> s.cookie == c.cookie && s.socket == c.socket)
            && (c.keepAlive && answer.code in {MSG_OKAY, MSG_ERROR} ==>
                  s.cookie == if answer.cookie == COOKIE_KEEP_THE_SAME then c.cookie else answer.cookie)
  {
    if c.keepAlive {
      var t := c.(keepAlive := false, prevKeepAlive := true);
      KeepAliveSurvives(t, MSG_OKAY, MSG_OKAY, busy, answer);
      SavedFlagStays(t, MSG_OKAY, MSG_OKAY, busy, answer);
      ExactlyOnce(t, MSG_OKAY, MSG_OKAY, busy, answer);
    }
  }

  /** The answer to one okay message and the busy answers before it. */
  datatype Told = Told(busy: nat, answer: Reply)

  /** The client's fields after one asynchronous request for each of `told`. */
  function AfterAsync(c: Client, told: seq<Told>): Client
    requires forall t :: t in told ==> IsExchange(MSG_OKAY, t.answer)
  {
    if told == [] then c
    else
      var last := |told| - 1;
      Saved(AfterAsync(c, told[..last]), told[last].busy, told[last].answer)
  }

  /** A drain puts the saved flag back, and that is the old flag after exactly one asynchronous request; after more
      of them it is lost, since each saves the flag the one before has cleared. */
  lemma {:induction false} DrainRestoresOne(c: Client, told: seq<Told>)
    requires forall t :: t in told ==> IsExchange(MSG_OKAY, t.answer)
    ensures AfterAsync(c, told).prevKeepAlive
            == if told == [] then c.prevKeepAlive else if |told| == 1 then c.keepAlive else false
    ensures told != [] ==> !AfterAsync(c, told).keepAlive
  {
    if told == [] {
    } else {
      var last := |told| - 1;
      DrainRestoresOne(c, told[..last]);
      SavedFlags(AfterAsync(c, told[..last]), told[last].busy, told[last].answer);
    }
  }
}

/** Client_socket_API: a request with its retries and its cookie, and the pool: at most four asynchronous
    requests in flight, a table of their futures, and the drain that empties it. */
module ClientSocket {
  import opened Server
  import opened Header
  import opened Framing
  import opened Exchange

  const MAX_THREADS: nat := 4

  /** How one asynchronous request fares: what its worker will return, and, should the server have to be told
      not to keep the connection, the busy answers and the answer to that. */
  datatype Fate = Fate(outcome: bool, busy: nat, answer: Reply)

  /** A drain in which no worker failed and no wait ran into its time limit. */
  predicate Clear(outcomes: seq<bool>, late: nat -> bool) {
    forall id: nat :: id < |outcomes| ==> outcomes[id] && !late(id)
  }

  lemma ClearSnoc(outcomes: seq<bool>, n: nat, late: nat -> bool)
    requires n < |outcomes|
    ensures Clear(outcomes[..n + 1], late) <==> Clear(outcomes[..n], late) && outcomes[n] && !late(n)
  {
    assert forall id: nat :: id < n ==> outcomes[..n + 1][id] == outcomes[..n][id];
  }

  /** `ok` is the result the worker will return; `running` until it does. */
  datatype Future = Future(running: bool, ok: bool)

  class Client_socket_API {
    var threads: map<nat, Future>
    var threadId: nat
    var nActiveThreads: nat
    var cookie: string
    var keepAlive: bool
    var prevKeepAlive: bool
    var socket: Socket
    /** The requests sent since the last drain; request i is the one under key i. */
    ghost var requests: seq<Event>
    ghost var outcomes: seq<bool>
    ghost var running: set<nat>
    /** The requests of the last drain and what their workers returned. */
    ghost var drained: seq<Event>
    ghost var results: seq<bool>

    /** The counter counts the running workers, and there are at most four of them. */
    ghost predicate Counted()
      reads this
    {
      && (forall id :: id in running <==> id in threads && threads[id].running)
      && nActiveThreads == |running| <= MAX_THREADS
    }

    /** The keys are exactly 0 .. threadId-1, so a new future never falls on a key that is taken. */
    ghost predicate Valid()
      reads this
    {
      && (forall id :: id in threads <==> 0 <= id < threadId)
      && threadId == |requests| == |outcomes|
      && (forall id :: id in threads ==> threads[id].ok == outcomes[id])
      && Counted()
    }

    /** The fields of an exchange. */
    function Exchanging(): Client
      reads `cookie, `keepAlive, `prevKeepAlive, `socket
    {
      Client(cookie, keepAlive, prevKeepAlive, socket)
    }

    constructor (keepAlive: bool)
      ensures Valid() && requests == [] && outcomes == [] && Exchanging() == Client("", keepAlive, false, Closed)
    {
      cookie, this.keepAlive, prevKeepAlive, socket := "", keepAlive, false, Closed;
      threads, threadId, nActiveThreads := map[], 0, 0;
      requests, outcomes, running, drained, results := [], [], {}, [], [];
    }

    /** open_conn: `busyLeft` counts the connections still to be discarded; `discarded` tells that this one was. */
    method OpenConn(busy: nat) returns (busyLeft: nat, discarded: bool)
      modifies `socket
      ensures Reuses(old(Exchanging())) ==> socket == old(socket) && busyLeft == busy && !discarded
      ensures !Reuses(old(Exchanging())) ==> discarded == (busy > 0) && busyLeft == (if busy > 0 then busy - 1 else 0)
      ensures !Reuses(old(Exchanging())) ==> socket == if busy > 0 then Dead else Live
    {
      if socket != Closed && keepAlive { return busy, false; }
      socket := Closed;
      if busy > 0 {
        socket, busyLeft, discarded := Dead, busy - 1, true;
      } else {
        socket, busyLeft, discarded := Live, 0, false;
      }
    }

    method CloseConn()
      modifies `socket
      ensures socket == if keepAlive then old(socket) else Closed
    {
      if !keepAlive { socket := Closed; }
    }

    /** One try: connect, send, hear an answer.  `sent` is false when the server has closed the connection. */
    method TryOnce(code: int, busy: nat, reply: Reply) returns (sent: bool, received: int, gotCookie: string, busyLeft: nat)
      modifies `cookie, `keepAlive, `prevKeepAlive, `socket
      ensures sent <==> !Reuses(old(Exchanging())) || old(socket) == Live
      ensures !sent ==> Exchanging() == Start(old(Exchanging()), code) && busyLeft == busy
      ensures sent && (Reuses(old(Exchanging())) || busy == 0) ==> received == reply.code && gotCookie == reply.cookie
      ensures sent && (Reuses(old(Exchanging())) || busy == 0) ==>
                busyLeft == busy && Exchanging() == Heard(Start(old(Exchanging()), code), reply)
      ensures sent && !Reuses(old(Exchanging())) && busy > 0 ==>
                received == MSG_RETRY_LATER && gotCookie == COOKIE_KEEP_THE_SAME && busyLeft == busy - 1
      ensures sent && !Reuses(old(Exchanging())) && busy > 0 ==> Exchanging() == Start(old(Exchanging()), code).(socket := Dead)
    {
      var discarded;
      busyLeft, discarded := OpenConn(busy);
      if code == MSG_END {
        prevKeepAlive := keepAlive;
        keepAlive := false;
      }
      if discarded {
        return true, MSG_RETRY_LATER, COOKIE_KEEP_THE_SAME, busyLeft;
      }
      if socket == Dead {
        return false, 0, "", busyLeft;
      }
      socket := if keepAlive && !reply.hangsUp then Live else Dead;
      return true, reply.code, reply.cookie, busyLeft;
    }

    /** The cookie is taken, the flag restored, the connection closed. */
    method Conclude(code: int, ok: bool, gotCookie: string)
      modifies `cookie, `keepAlive, `prevKeepAlive, `socket
      ensures Exchanging() == Finish(old(Exchanging()), code, ok, gotCookie)
    {
      if ok && gotCookie != COOKIE_KEEP_THE_SAME { cookie := gotCookie; }
      if code == MSG_END { keepAlive := prevKeepAlive; }
      CloseConn();
    }

    /** `gotCookie` is the cookie of the last message received. */
    method SendAndReceive(code: int, expected: int, busy: nat, reply: Reply)
      returns (ok: bool, gotCookie: string, ghost dispatched: nat, ghost busyLeft: nat)
      requires IsExchange(expected, reply)
      modifies `cookie, `keepAlive, `prevKeepAlive, `socket
      ensures Result(Exchanging(), ok, dispatched, busyLeft) == Exchanged(old(Exchanging()), code, expected, busy, reply)
      ensures ok ==> gotCookie == reply.cookie
      decreases busy
    {
      var sent, received, left;
      sent, received, gotCookie, left := TryOnce(code, busy, reply);
      busyLeft := left;
      if !sent { return false, gotCookie, 0, left; }
      dispatched := if received == MSG_RETRY_LATER then 0 else 1;
      ok := !IsUnexpected(expected, received);
      if !ok {
        if received != MSG_RETRY_LATER { return; }
        ok, gotCookie, dispatched, busyLeft := SendAndReceive(code, expected, left, reply);
      }
      Conclude(code, ok, gotCookie);
    }

    /** A worker ends: n_active_threads_--, and its future becomes ready. */
    method WorkerReturns(id: nat)
      requires id in threads && threads[id].running && Counted()
      modifies `threads, `nActiveThreads, `running
      ensures Counted() && nActiveThreads == old(nActiveThreads) - 1
      ensures threads == old(threads)[id := Future(false, old(threads)[id].ok)]
    {
      threads := threads[id := Future(false, threads[id].ok)];
      running := running - {id};
      nActiveThreads := nActiveThreads - 1;
    }

    /** cv_.wait until n_active_threads_ < MAX_THREADS: workers return, in any order, until one place is free. */
    method WaitForPlace()
      requires Valid()
      modifies `threads, `nActiveThreads, `running
      ensures Valid() && nActiveThreads == if old(nActiveThreads) < 4 then old(nActiveThreads) else 3
      ensures old(nActiveThreads) < 4 ==> threads == old(threads)
    {
      while nActiveThreads >= MAX_THREADS
        invariant Valid()
        invariant if nActiveThreads == old(nActiveThreads) then threads == old(threads)
                  else old(nActiveThreads) == 4 && nActiveThreads == 3
        decreases nActiveThreads
      {
        assert running != {};
        var id :| id in threads && threads[id].running;
        WorkerReturns(id);
      }
    }

    /** A worker is started under the next key; `outcome` is the result it will return. */
    method Launch(request: Event, outcome: bool)
      requires Valid() && nActiveThreads < MAX_THREADS
      modifies `threads, `threadId, `nActiveThreads, `requests, `outcomes, `running
      ensures Valid() && nActiveThreads == old(nActiveThreads) + 1
      ensures requests == old(requests) + [request] && outcomes == old(outcomes) + [outcome]
      ensures threads == old(threads)[old(threadId) := Future(true, outcome)]
    {
      threads := threads[threadId := Future(true, outcome)];
      running := running + {threadId};
      requests := requests + [request];
      outcomes := outcomes + [outcome];
      threadId := threadId + 1;
      nActiveThreads := nActiveThreads + 1;
    }

    /** Saves the keep-alive flag; if it is set, clears it and tells the server, whose answer does not matter. */
    method SaveKeepAlive(busy: nat, answer: Reply)
      requires IsExchange(MSG_OKAY, answer)
      modifies `cookie, `keepAlive, `prevKeepAlive, `socket
      ensures Exchanging() == Saved(old(Exchanging()), busy, answer)
    {
      prevKeepAlive := keepAlive;
      if keepAlive {
        keepAlive := false;
        var ok, gotCookie, dispatched, busyLeft := SendAndReceive(MSG_OKAY, MSG_OKAY, busy, answer);
      }
    }

    /** Waits for a free place, saves and clears the keep-alive flag, then starts a worker. */
    method AsyncSendAndReceive(request: Event, fate: Fate) returns (ok: bool)
      requires Valid() && IsExchange(MSG_OKAY, fate.answer)
      modifies `threads, `threadId, `nActiveThreads, `requests, `outcomes, `running, `cookie, `keepAlive, `prevKeepAlive, `socket
      ensures Valid() && ok && nActiveThreads == if old(nActiveThreads) < 4 then old(nActiveThreads) + 1 else 4
      ensures requests == old(requests) + [request] && outcomes == old(outcomes) + [fate.outcome]
      ensures threads[old(threadId)].running
      ensures Exchanging() == Saved(old(Exchanging()), fate.busy, fate.answer)
    {
      WaitForPlace();
      SaveKeepAlive(fate.busy, fate.answer);
      Launch(request, fate.outcome);
      ok := true;
    }

    /** One round of the drain: wait_for and get on the future, then erase, whose destructor waits for a
        worker that is late.  `late` tells that the wait runs into its time limit. */
    method AwaitAndErase(id: nat, late: bool) returns (ok: bool)
      requires id in threads && Counted()
      modifies `threads, `nActiveThreads, `running
      ensures Counted() && threads == old(threads) - {id} && ok == (!late && old(threads)[id].ok)
    {
      if threads[id].running { WorkerReturns(id); }
      ok := !late && threads[id].ok;
      threads := threads - {id};
    }

    /** The loop of the drain: the futures in key order. */
    method EraseAll(late: nat -> bool) returns (status: bool)
      requires Valid()
      modifies `threads, `nActiveThreads, `running
      ensures Counted() && forall id :: id !in threads
      ensures status <==> Clear(outcomes, late)
    {
      status := true;
      var it := 0;
      while it < threadId
        invariant it <= threadId && Counted()
        invariant forall id :: id in threads <==> it <= id < threadId
        invariant forall id :: id in threads ==> threads[id].ok == outcomes[id]
        invariant status <==> Clear(outcomes[..it], late)
      {
        var ok := AwaitAndErase(it, late(it));
        if !ok { status := false; }
        ClearSnoc(outcomes, it, late);
        it := it + 1;
      }
      assert outcomes[..it] == outcomes;
    }

    /** The result is the conjunction of all results since the last drain, and false if a wait was late. */
    method WaitAllAsync(late: nat -> bool) returns (status: bool)
      requires Valid()
      modifies `threads, `threadId, `nActiveThreads, `requests, `outcomes, `running, `drained, `results, `keepAlive
      ensures Valid() && requests == [] && outcomes == [] && threads == map[] && nActiveThreads == 0
      ensures drained == old(requests) && results == old(outcomes)
      ensures status <==> Clear(old(outcomes), late)
      ensures keepAlive == prevKeepAlive
    {
      status := EraseAll(late);
      drained, results := requests, outcomes;
      threadId := 0;
      keepAlive := prevKeepAlive;
      requests, outcomes := [], [];
      assert threads == map[];
      assert running == {};
    }
  }
}

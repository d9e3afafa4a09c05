/** Server::accept and any number of clients in one machine: one thread accepts, at most 32 serve, the rest are
    told to come back, and every client runs its send_and_receive, retry by retry, against what it is told. */
module Admission {
  import opened Disk
  import opened Header
  import opened Framing
  import opened Exchange

  const MAX_THREADS: nat := 32

  /** A request on its way: it starts with no connection open. */
  datatype Ask = Ask(origin: Client, code: int, expected: int)

  /** Where the client is: before the answer that counts, its handler at work, on the way back through the
      retries with `depth` of them left, or done. */
  datatype Phase = Asking | Handled | Returning(depth: nat, ok: bool) | Done(ok: bool)

  /** `busy` counts its busy answers, `dispatched` how often the server handed it to a handler. */
  datatype Visit = Visit(client: Client, phase: Phase, busy: nat, dispatched: nat, heard: Option<Reply>)

  datatype State = State(
    nActive: int,             // n_active_threads_
    door: Option<nat>,        // the visit accept has found a place for and not yet counted
    running: set<nat>,        // the visits whose threads have not ended
    visits: map<nat, Visit>)

  /** Knock: the client connects, and accept looks at the counter and may discard the connection at once.
      Admit: accept counts and starts the thread.  Answer: the handler's answer is heard.  Leave: the thread
      ends and counts down.  GiveUp: the retry meets the connection that was discarded.  Return: one call of
      send_and_receive returns to the one before it. */
  datatype Step = Knock(id: nat) | Admit | Answer(id: nat, reply: Reply) | Leave(id: nat) | GiveUp(id: nat) | Return(id: nat)

  ghost predicate Init(asks: map<nat, Ask>, s: State) {
    && s.nActive == 0 && s.door == None && s.running == {} && s.visits.Keys == asks.Keys
    && forall id :: id in asks ==>
         asks[id].origin.socket == Closed && s.visits[id] == Visit(asks[id].origin, Asking, 0, 0, None)
  }

  predicate Enabled(asks: map<nat, Ask>, s: State, step: Step) {
    match step
    case Knock(id) =>
      s.door == None && id in s.visits && id in asks && s.visits[id].phase == Asking && !Reuses(s.visits[id].client)
    case Admit => s.door.Some? && s.door.value in s.visits
    case Answer(id, reply) =>
      id in s.visits && id in asks && s.visits[id].phase == Handled && IsExchange(asks[id].expected, reply)
    case Leave(id) => id in s.running && id in s.visits && s.visits[id].phase != Handled
    case GiveUp(id) =>
      s.door != Some(id) && id in s.visits && id in asks && s.visits[id].phase == Asking && Reuses(s.visits[id].client)
    case Return(id) => id in s.visits && id in asks && s.visits[id].phase.Returning?
  }

  /** The client after its connection was discarded. */
  function Discarded(c: Client, code: int): Client {
    Start(c, code).(socket := Dead)
  }

  function NextVisit(ask: Ask, v: Visit, step: Step): Visit {
    match step
    case Answer(_, reply) =>
      var heard := Heard(Start(v.client, ask.code), reply);
      if IsUnexpected(ask.expected, reply.code) then
        v.(client := heard, phase := Returning(v.busy, false), heard := Some(reply))
      else
        v.(client := Finish(heard, ask.code, true, reply.cookie), phase := Returning(v.busy, true), heard := Some(reply))
    case GiveUp(_) => v.(client := Start(v.client, ask.code), phase := Returning(v.busy, false))
    case Return(_) =>
      if !v.phase.Returning? then v
      else if v.phase.depth == 0 then v.(phase := Done(v.phase.ok))
      else
        v.(client := Finish(v.client, ask.code, v.phase.ok, Said(v)), phase := Returning(v.phase.depth - 1, v.phase.ok))
    case _ => v
  }

  /** The cookie of the last message received. */
  function Said(v: Visit): string {
    match v.heard case Some(reply) => reply.cookie case None => ""
  }

  function Next(asks: map<nat, Ask>, s: State, step: Step): State
    requires Enabled(asks, s, step)
  {
    match step
    case Knock(id) =>
      var v := s.visits[id];
      if s.nActive >= MAX_THREADS then
        s.(visits := s.visits[id := v.(client := Discarded(v.client, asks[id].code), busy := v.busy + 1)])
      else s.(door := Some(id))
    case Admit =>
      var id := s.door.value;
      var v := s.visits[id];
      State(s.nActive + 1, None, s.running + {id}, s.visits[id := v.(phase := Handled, dispatched := v.dispatched + 1)])
    case Leave(id) => s.(nActive := s.nActive - 1, running := s.running - {id})
    case Answer(id, _) => s.(visits := s.visits[id := NextVisit(asks[id], s.visits[id], step)])
    case GiveUp(id) => s.(visits := s.visits[id := NextVisit(asks[id], s.visits[id], step)])
    case Return(id) => s.(visits := s.visits[id := NextVisit(asks[id], s.visits[id], step)])
  }

  ghost predicate IsRun(asks: map<nat, Ask>, states: seq<State>, steps: seq<Step>) {
    && |states| == |steps| + 1 && Init(asks, states[0])
    && forall i: nat :: i < |steps| ==> Enabled(asks, states[i], steps[i]) && states[i + 1] == Next(asks, states[i], steps[i])
  }

  // ---------------------------------------------------------------- the client alone

  function Discards(c: Client, code: int, k: nat): Client
    decreases k
  {
    if k == 0 then c else Discards(Discarded(c, code), code, k - 1)
  }

  lemma {:induction false} DiscardsSnoc(c: Client, code: int, k: nat)
    ensures Discards(c, code, k + 1) == Discarded(Discards(c, code, k), code)
    decreases k
  {
    if k == 0 {
    } else {
      DiscardsSnoc(Discarded(c, code), code, k - 1);
    }
  }

  /** The way back through `k` calls. */
  function Unwound(c: Client, code: int, ok: bool, cookie: string, k: nat): Client {
    if k == 0 then c else Finish(Unwound(c, code, ok, cookie, k - 1), code, ok, cookie)
  }

  /** Each of the first `k` tries opened a connection of its own. */
  ghost predicate AllFresh(c: Client, code: int, k: nat) {
    forall j: nat :: j < k ==> !Reuses(Discards(c, code, j))
  }

  /** send_and_receive is its retries, the last try, and the way back. */
  lemma {:induction false} ExchangedUnrolled(c: Client, code: int, expected: int, k: nat, reply: Reply)
    requires IsExchange(expected, reply) && AllFresh(c, code, k)
    ensures var last := Exchanged(Discards(c, code, k), code, expected, 0, reply);
            Exchanged(c, code, expected, k, reply)
            == last.(client := Unwound(last.client, code, last.ok, reply.cookie, k))
    decreases k
  {
    if k == 0 {
    } else {
      assert !Reuses(Discards(c, code, 0));
      forall j: nat | j < k - 1 ensures !Reuses(Discards(Discarded(c, code), code, j)) {
        assert Discards(c, code, j + 1) == Discards(Discarded(c, code), code, j);
      }
      ExchangedUnrolled(Discarded(c, code), code, expected, k - 1, reply);
    }
  }

  // ---------------------------------------------------------------- the machine

  /** The last try of a visit that has heard its answer or given up. */
  function LastTry(ask: Ask, v: Visit): Result {
    var c := Discards(ask.origin, ask.code, v.busy);
    match v.heard
    case Some(reply) => Answered(c, ask.code, ask.expected, 0, reply)
    case None => Result(Start(c, ask.code), false, 0, 0)
  }

  ghost predicate Ended(ask: Ask, v: Visit, ok: bool, done: nat) {
    var c, last := Discards(ask.origin, ask.code, v.busy), LastTry(ask, v);
    && (v.heard.Some? ==> !Reuses(c) && IsExchange(ask.expected, v.heard.value))
    && (v.heard == None ==> Reuses(c) && c.socket == Dead)
    && ok == last.ok && v.dispatched == last.dispatched
    && v.client == Unwound(last.client, ask.code, ok, Said(v), done)
  }

  ghost predicate VisitOk(ask: Ask, v: Visit) {
    && ask.origin.socket == Closed && AllFresh(ask.origin, ask.code, v.busy)
    && match v.phase
       case Asking => v.client == Discards(ask.origin, ask.code, v.busy) && v.dispatched == 0 && v.heard == None
       case Handled =>
         v.client == Discards(ask.origin, ask.code, v.busy) && !Reuses(v.client) && v.dispatched == 1 && v.heard == None
       case Returning(depth, ok) => depth <= v.busy && Ended(ask, v, ok, v.busy - depth)
       case Done(ok) => Ended(ask, v, ok, v.busy)
  }

  ghost predicate VisitsOk(asks: map<nat, Ask>, visits: map<nat, Visit>) {
    visits.Keys == asks.Keys && forall id :: id in asks ==> VisitOk(asks[id], visits[id])
  }

  /** A place found is still there when it is taken, because only accept counts up. */
  ghost predicate PlacesOk(s: State) {
    && s.nActive == |s.running| <= MAX_THREADS
    && (s.door.Some? ==>
          && s.nActive < MAX_THREADS && s.door.value in s.visits && s.visits[s.door.value].phase == Asking
          && !Reuses(s.visits[s.door.value].client))
    && (forall id :: id in s.running ==> id in s.visits && s.visits[id].phase != Asking)
  }

  lemma PlacesStep(asks: map<nat, Ask>, s: State, step: Step)
    requires PlacesOk(s) && VisitsOk(asks, s.visits) && Enabled(asks, s, step)
    ensures PlacesOk(Next(asks, s, step))
  {
  }

  /** After a discard no connection of the client's is open but the dead one. */
  lemma {:induction false} DeadAfterDiscard(c: Client, code: int, k: nat)
    requires c.socket == Closed
    ensures Discards(c, code, k).socket == if k == 0 then Closed else Dead
  {
    if k == 0 {
    } else {
      DiscardsSnoc(c, code, k - 1);
    }
  }

  lemma KnockVisit(ask: Ask, v: Visit)
    requires VisitOk(ask, v) && v.phase == Asking && !Reuses(v.client)
    ensures VisitOk(ask, v.(client := Discarded(v.client, ask.code), busy := v.busy + 1))
  {
    DiscardsSnoc(ask.origin, ask.code, v.busy);
  }

  lemma NextVisitOk(ask: Ask, v: Visit, step: Step)
    requires VisitOk(ask, v)
    requires match step
             case Answer(_, reply) => v.phase == Handled && IsExchange(ask.expected, reply)
             case GiveUp(_) => v.phase == Asking && Reuses(v.client)
             case Return(_) => v.phase.Returning?
             case _ => true
    ensures VisitOk(ask, NextVisit(ask, v, step))
  {
    DeadAfterDiscard(ask.origin, ask.code, v.busy);
  }

  lemma OneVisitMoves(asks: map<nat, Ask>, visits: map<nat, Visit>, id: nat, v: Visit)
    requires VisitsOk(asks, visits) && id in visits && VisitOk(asks[id], v)
    ensures VisitsOk(asks, visits[id := v])
  {
    assert visits[id := v].Keys == visits.Keys;
  }

  lemma KnockStep(asks: map<nat, Ask>, s: State, id: nat)
    requires VisitsOk(asks, s.visits) && Enabled(asks, s, Knock(id))
    ensures VisitsOk(asks, Next(asks, s, Knock(id)).visits)
  {
    var v := s.visits[id];
    KnockVisit(asks[id], v);
    OneVisitMoves(asks, s.visits, id, v.(client := Discarded(v.client, asks[id].code), busy := v.busy + 1));
  }

  lemma AdmitStep(asks: map<nat, Ask>, s: State)
    requires PlacesOk(s) && VisitsOk(asks, s.visits) && Enabled(asks, s, Admit)
    ensures VisitsOk(asks, Next(asks, s, Admit).visits)
  {
    var v := s.visits[s.door.value];
    OneVisitMoves(asks, s.visits, s.door.value, v.(phase := Handled, dispatched := v.dispatched + 1));
  }

  lemma VisitsStep(asks: map<nat, Ask>, s: State, step: Step)
    requires PlacesOk(s) && VisitsOk(asks, s.visits) && Enabled(asks, s, step)
    ensures VisitsOk(asks, Next(asks, s, step).visits)
  {
    match step {
      case Knock(id) => KnockStep(asks, s, id);
      case Admit => AdmitStep(asks, s);
      case Leave(_) =>
      case _ =>
        NextVisitOk(asks[step.id], s.visits[step.id], step);
        OneVisitMoves(asks, s.visits, step.id, NextVisit(asks[step.id], s.visits[step.id], step));
    }
  }

  lemma {:induction false} AlwaysOk(asks: map<nat, Ask>, states: seq<State>, steps: seq<Step>, i: nat)
    requires IsRun(asks, states, steps) && i < |states|
    ensures PlacesOk(states[i]) && VisitsOk(asks, states[i].visits)
  {
    if i == 0 {
    } else {
      AlwaysOk(asks, states, steps, i - 1);
      PlacesStep(asks, states[i - 1], steps[i - 1]);
      VisitsStep(asks, states[i - 1], steps[i - 1]);
    }
  }

  /** In every run no more than 32 connections are served at once. */
  lemma NeverMoreThan32(asks: map<nat, Ask>, states: seq<State>, steps: seq<Step>, i: nat)
    requires IsRun(asks, states, steps) && i < |states|
    ensures states[i].nActive == |states[i].running| <= 32
  {
    AlwaysOk(asks, states, steps, i);
  }

  /** Who knocks gets the place if and only if fewer than 32 connections are being served, and is told to come
      back otherwise; the next to be served is the one that got it, whatever happened in between. */
  lemma AdmittedIfFree(asks: map<nat, Ask>, states: seq<State>, steps: seq<Step>, i: nat, id: nat)
    requires IsRun(asks, states, steps) && i < |steps| && id in states[i].visits
    ensures var s, t := states[i], states[i + 1];
            && (steps[i] == Knock(id) ==>
                  && (t.door == Some(id) <==> |s.running| < 32) && (t.door == None <==> |s.running| == 32)
                  && t.visits[id].busy == s.visits[id].busy + (if |s.running| < 32 then 0 else 1)
                  && t.running == s.running)
            && (s.door == Some(id) ==>
                  if steps[i] == Admit
                  then t.running == s.running + {id} && id !in s.running && t.visits[id].phase == Handled
                  else t.door == Some(id))
  {
    AlwaysOk(asks, states, steps, i);
  }

  /** A client that is done is where send_and_receive leaves it against as many busy answers as the server gave
      it and the answer it heard; and the handlers the server has given its request to, none or one, are those
      send_and_receive counts. */
  lemma VisitsAreExchanges(asks: map<nat, Ask>, states: seq<State>, steps: seq<Step>, i: nat, id: nat, reply: Reply)
    requires IsRun(asks, states, steps) && i < |states| && id in states[i].visits && states[i].visits[id].phase.Done?
    requires id in asks && IsExchange(asks[id].expected, reply)
    requires states[i].visits[id].heard in {None, Some(reply)}
    ensures var ask, v := asks[id], states[i].visits[id];
            Exchanged(ask.origin, ask.code, ask.expected, v.busy, reply) == Result(v.client, v.phase.ok, v.dispatched, 0)
  {
    AlwaysOk(asks, states, steps, i);
    var ask, v := asks[id], states[i].visits[id];
    ExchangedUnrolled(ask.origin, ask.code, ask.expected, v.busy, reply);
    UnwoundFailed(LastTry(ask, v).client, ask.code, Said(v), reply.cookie, v.busy);
  }

  /** On the way back from a failure the cookie does not matter. */
  lemma {:induction false} UnwoundFailed(c: Client, code: int, said: string, cookie: string, k: nat)
    ensures Unwound(c, code, false, said, k) == Unwound(c, code, false, cookie, k)
  {
    if k == 0 {
    } else {
      UnwoundFailed(c, code, said, cookie, k - 1);
    }
  }

  /** Exactly once, over all runs of the server and its clients: a request that is done was handed to a handler
      once if no retry had to use a discarded connection, that is, if it met no busy answer, or keeps no
      connection, or is an end request; otherwise never.  Its result is true exactly when it was handled and
      the answer was expected. */
  lemma HandledExactlyOnce(asks: map<nat, Ask>, states: seq<State>, steps: seq<Step>, i: nat, id: nat)
    requires IsRun(asks, states, steps) && i < |states| && id in states[i].visits && states[i].visits[id].phase.Done?
    requires id in asks && asks[id].expected != MSG_UNDEFINED && asks[id].expected != MSG_RETRY_LATER
    ensures var ask, v := asks[id], states[i].visits[id];
            && v.dispatched == (if v.busy == 0 || !ask.origin.keepAlive || ask.code == MSG_END then 1 else 0)
            && (v.phase.ok <==> v.heard.Some? && v.heard.value.code in {ask.expected, MSG_ERROR})
  {
    AlwaysOk(asks, states, steps, i);
    var ask, v := asks[id], states[i].visits[id];
    var reply := match v.heard case Some(reply) => reply case None => Reply(MSG_OKAY, "", false);
    VisitsAreExchanges(asks, states, steps, i, id, reply);
    ExactlyOnce(ask.origin, ask.code, ask.expected, v.busy, reply);
  }

  // ---------------------------------------------------------------- what can happen

  ghost predicate Leads(asks: map<nat, Ask>, s: State, steps: seq<Step>, t: State)
    decreases steps
  {
    if steps == [] then s == t else Enabled(asks, s, steps[0]) && Leads(asks, Next(asks, s, steps[0]), steps[1..], t)
  }

  lemma LeadsCons(asks: map<nat, Ask>, s: State, step: Step, rest: seq<Step>, t: State)
    requires Enabled(asks, s, step) && Leads(asks, Next(asks, s, step), rest, t)
    ensures Leads(asks, s, [step] + rest, t)
  {
    assert ([step] + rest)[0] == step && ([step] + rest)[1..] == rest;
  }

  lemma HeadFirst(steps: seq<Step>, more: seq<Step>)
    requires steps != []
    ensures steps + more == [steps[0]] + (steps[1..] + more)
  {
    assert steps == [steps[0]] + steps[1..];
  }

  lemma {:induction false} LeadsOn(asks: map<nat, Ask>, s: State, steps: seq<Step>, m: State, more: seq<Step>, t: State)
    requires Leads(asks, s, steps, m) && Leads(asks, m, more, t)
    ensures Leads(asks, s, steps + more, t)
    decreases steps
  {
    if steps == [] {
      assert steps + more == more;
    } else {
      LeadsOn(asks, Next(asks, s, steps[0]), steps[1..], m, more, t);
      LeadsCons(asks, s, steps[0], steps[1..] + more, t);
      HeadFirst(steps, more);
    }
  }

  ghost predicate Ok(asks: map<nat, Ask>, s: State) {
    PlacesOk(s) && VisitsOk(asks, s.visits)
  }

  lemma StepOk(asks: map<nat, Ask>, s: State, step: Step)
    requires Ok(asks, s) && Enabled(asks, s, step)
    ensures Ok(asks, Next(asks, s, step))
  {
    PlacesStep(asks, s, step);
    VisitsStep(asks, s, step);
  }

  /** The way back, to the end. */
  lemma {:induction false} Unwinds(asks: map<nat, Ask>, s: State, id: nat) returns (steps: seq<Step>, t: State)
    requires Ok(asks, s) && id in asks && id in s.visits && s.visits[id].phase.Returning?
    ensures Leads(asks, s, steps, t) && Ok(asks, t) && id in t.visits && t.visits[id].phase.Done?
    decreases s.visits[id].phase.depth
  {
    var next := Next(asks, s, Return(id));
    StepOk(asks, s, Return(id));
    if s.visits[id].phase.depth == 0 {
      steps, t := [], next;
    } else {
      steps, t := Unwinds(asks, next, id);
    }
    LeadsCons(asks, s, Return(id), steps, t);
    steps := [Return(id)] + steps;
  }

  /** No request of the protocol waits for just any answer. */
  ghost predicate ProtocolAsks(asks: map<nat, Ask>) {
    forall id :: id in asks ==> asks[id].expected != MSG_UNDEFINED && asks[id].expected != MSG_RETRY_LATER
  }

  lemma AnswerEnds(asks: map<nat, Ask>, s: State, id: nat) returns (steps: seq<Step>, t: State)
    requires Ok(asks, s) && ProtocolAsks(asks) && id in asks && id in s.visits && s.visits[id].phase == Handled
    ensures Leads(asks, s, steps, t) && Ok(asks, t) && id in t.visits && t.visits[id].phase.Done?
  {
    var step := Answer(id, Reply(MSG_ERROR, "", true));
    StepOk(asks, s, step);
    steps, t := Unwinds(asks, Next(asks, s, step), id);
    LeadsCons(asks, s, step, steps, t);
    steps := [step] + steps;
  }

  /** Whoever has a place is let in. */
  lemma DoorEmptied(asks: map<nat, Ask>, s: State) returns (steps: seq<Step>, t: State)
    requires Ok(asks, s)
    ensures Leads(asks, s, steps, t) && Ok(asks, t) && t.door == None
    ensures forall id :: id in s.visits ==> id in t.visits && (t.visits[id] == s.visits[id] || t.visits[id].phase == Handled)
  {
    if s.door == None { return [], s; }
    StepOk(asks, s, Admit);
    t := Next(asks, s, Admit);
    assert Leads(asks, t, [], t);
    LeadsCons(asks, s, Admit, [], t);
    steps := [Admit] + [];
  }

  /** If all places are taken, one of those served is answered and leaves. */
  lemma PlaceFreed(asks: map<nat, Ask>, s: State, id: nat) returns (steps: seq<Step>, t: State)
    requires Ok(asks, s) && ProtocolAsks(asks) && s.door == None && id in s.visits && s.visits[id].phase == Asking
    ensures Leads(asks, s, steps, t) && Ok(asks, t) && t.door == None && |t.running| < 32
    ensures id in t.visits && t.visits[id] == s.visits[id]
  {
    if |s.running| < 32 { return [], s; }
    var r :| r in s.running;
    if s.visits[r].phase == Handled {
      var step := Answer(r, Reply(MSG_ERROR, "", true));
      StepOk(asks, s, step);
      var m := Next(asks, s, step);
      steps, t := LeavesAlone(asks, m, r);
      LeadsCons(asks, s, step, steps, t);
      steps := [step] + steps;
    } else {
      steps, t := LeavesAlone(asks, s, r);
    }
  }

  lemma LeavesAlone(asks: map<nat, Ask>, s: State, r: nat) returns (steps: seq<Step>, t: State)
    requires Ok(asks, s) && r in s.running && r in s.visits && s.visits[r].phase != Handled
    ensures Leads(asks, s, steps, t) && Ok(asks, t) && t.door == s.door && |t.running| == |s.running| - 1
    ensures t.visits == s.visits
  {
    StepOk(asks, s, Leave(r));
    t := Next(asks, s, Leave(r));
    assert Leads(asks, t, [], t);
    LeadsCons(asks, s, Leave(r), [], t);
    steps := [Leave(r)] + [];
  }

  /** A free place: in, answered, and back. */
  lemma EntersAndEnds(asks: map<nat, Ask>, s: State, id: nat) returns (steps: seq<Step>, t: State)
    requires Ok(asks, s) && ProtocolAsks(asks) && id in asks && id in s.visits && s.visits[id].phase == Asking
    requires !Reuses(s.visits[id].client) && s.door == None && |s.running| < 32
    ensures Leads(asks, s, steps, t) && Ok(asks, t) && id in t.visits && t.visits[id].phase.Done?
  {
    StepOk(asks, s, Knock(id));
    var knocked := Next(asks, s, Knock(id));
    StepOk(asks, knocked, Admit);
    steps, t := AnswerEnds(asks, Next(asks, knocked, Admit), id);
    LeadsCons(asks, knocked, Admit, steps, t);
    LeadsCons(asks, s, Knock(id), [Admit] + steps, t);
    steps := [Knock(id)] + ([Admit] + steps);
  }

  /** Nobody waits for ever by necessity: from every state of every run, whoever is being served, every client can
      be brought to the end of its request. */
  lemma EveryVisitCanEnd(asks: map<nat, Ask>, states: seq<State>, steps: seq<Step>, i: nat, id: nat)
    returns (more: seq<Step>, t: State)
    requires IsRun(asks, states, steps) && i < |states| && ProtocolAsks(asks) && id in asks
    ensures Leads(asks, states[i], more, t) && id in t.visits && t.visits[id].phase.Done?
  {
    AlwaysOk(asks, states, steps, i);
    more, t := VisitEnds(asks, states[i], id);
  }

  lemma VisitEnds(asks: map<nat, Ask>, s: State, id: nat) returns (steps: seq<Step>, t: State)
    requires Ok(asks, s) && ProtocolAsks(asks) && id in asks
    ensures Leads(asks, s, steps, t) && id in t.visits && t.visits[id].phase.Done?
  {
    match s.visits[id].phase {
      case Done(_) => steps, t := [], s;
      case Returning(_, _) => steps, t := Unwinds(asks, s, id);
      case Handled => steps, t := AnswerEnds(asks, s, id);
      case Asking =>
        if Reuses(s.visits[id].client) {
          StepOk(asks, s, GiveUp(id));
          steps, t := Unwinds(asks, Next(asks, s, GiveUp(id)), id);
          LeadsCons(asks, s, GiveUp(id), steps, t);
          steps := [GiveUp(id)] + steps;
        } else {
          steps, t := AskerEnds(asks, s, id);
        }
    }
  }

  lemma AskerEnds(asks: map<nat, Ask>, s: State, id: nat) returns (steps: seq<Step>, t: State)
    requires Ok(asks, s) && ProtocolAsks(asks) && id in asks && s.visits[id].phase == Asking && !Reuses(s.visits[id].client)
    ensures Leads(asks, s, steps, t) && id in t.visits && t.visits[id].phase.Done?
  {
    var first, quiet := DoorEmptied(asks, s);
    var rest;
    if quiet.visits[id].phase == Handled {
      rest, t := AnswerEnds(asks, quiet, id);
    } else {
      var freeing, free := PlaceFreed(asks, quiet, id);
      var last;
      last, t := EntersAndEnds(asks, free, id);
      LeadsOn(asks, quiet, freeing, free, last, t);
      rest := freeing + last;
    }
    LeadsOn(asks, s, first, quiet, rest, t);
    steps := first + rest;
  }

  lemma RunOn(asks: map<nat, Ask>, states: seq<State>, steps: seq<Step>, step: Step)
    returns (states': seq<State>, steps': seq<Step>)
    requires IsRun(asks, states, steps) && Enabled(asks, states[|steps|], step)
    ensures IsRun(asks, states', steps') && states'[|steps'|] == Next(asks, states[|steps|], step)
    ensures states'[0] == states[0] && steps' == steps + [step]
  {
    states', steps' := states + [Next(asks, states[|steps|], step)], steps + [step];
  }

  lemma SomeoneOutside(asks: map<nat, Ask>, running: set<nat>) returns (id: nat)
    requires |asks| > |running|
    ensures id in asks && id !in running
  {
    assert |asks| == |asks.Keys|;
    if asks.Keys <= running { SubsetSize(asks.Keys, running); }
    id :| id in asks.Keys && id !in running;
  }

  lemma {:induction false} SubsetSize(a: set<nat>, b: set<nat>)
    requires a <= b
    ensures |a| <= |b|
  {
    if a == {} {
    } else {
      var x :| x in a;
      SubsetSize(a - {x}, b - {x});
    }
  }

  ghost predicate Serves(asks: map<nat, Ask>, s: State, n: nat) {
    && s.door == None && |s.running| == s.nActive == n && s.visits.Keys == asks.Keys
    && forall id :: id in asks && id !in s.running ==> s.visits[id] == Visit(asks[id].origin, Asking, 0, 0, None)
  }

  lemma {:induction false} ServesMany(asks: map<nat, Ask>, s: State, n: nat) returns (states: seq<State>, steps: seq<Step>)
    requires Init(asks, s) && n <= 32 && n <= |asks|
    ensures IsRun(asks, states, steps) && states[0] == s && Serves(asks, states[|steps|], n)
  {
    if n == 0 {
      states, steps := [s], [];
    } else {
      states, steps := ServesMany(asks, s, n - 1);
      var id := SomeoneOutside(asks, states[|steps|].running);
      states, steps := RunOn(asks, states, steps, Knock(id));
      states, steps := RunOn(asks, states, steps, Admit);
    }
  }

  /** With 33 clients or more, 32 can be served at once, and then any other that knocks is told to come back. */
  lemma FullHouse(asks: map<nat, Ask>, s: State) returns (states: seq<State>, steps: seq<Step>, id: nat)
    requires Init(asks, s) && |asks| > 32
    ensures IsRun(asks, states, steps) && states[0] == s && |steps| > 0 && steps[|steps| - 1] == Knock(id) && id in asks
    ensures states[|steps|].nActive == |states[|steps|].running| == 32 && states[|steps|].door == None
    ensures id in states[|steps|].visits && states[|steps|].visits[id].busy == 1
  {
    states, steps := ServesMany(asks, s, 32);
    id := SomeoneOutside(asks, states[|steps|].running);
    states, steps := RunOn(asks, states, steps, Knock(id));
  }
}

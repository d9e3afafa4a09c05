/** What the delivery can do, beside what it never does: as long as nothing fails every run can be finished with
    each batch executed whole, no state is stuck before the watcher stops, and four workers do run at once. */
module Completion {
  import opened Paths
  import opened Disk
  import opened Server
  import opened Diff
  import opened Confluence
  import opened Delivery

  /** A step of the client or the server in which nothing goes wrong and no wait runs out. */
  predicate Clean(step: Step) {
    !step.Fault? && !step.Lost? && !step.Foreign? && step != Reap(true)
  }

  predicate Leads(c: Config, s: State, steps: seq<Step>, t: State)
    decreases steps
  {
    if steps == [] then s == t
    else Enabled(c, s, steps[0]) && Clean(steps[0]) && Leads(c, Next(c, s, steps[0]), steps[1..], t)
  }

  lemma LeadsCons(c: Config, s: State, step: Step, rest: seq<Step>, t: State)
    requires Enabled(c, s, step) && Clean(step) && Leads(c, Next(c, s, step), rest, t)
    ensures Leads(c, s, [step] + rest, t)
  {
    assert ([step] + rest)[0] == step && ([step] + rest)[1..] == rest;
  }

  lemma HeadFirst(steps: seq<Step>, more: seq<Step>)
    requires steps != []
    ensures steps + more == [steps[0]] + (steps[1..] + more)
  {
    assert steps == [steps[0]] + steps[1..];
  }

  lemma {:induction false} LeadsOn(c: Config, s: State, steps: seq<Step>, m: State, more: seq<Step>, t: State)
    requires Leads(c, s, steps, m) && Leads(c, m, more, t)
    ensures Leads(c, s, steps + more, t)
    decreases steps
  {
    if steps == [] {
      assert steps + more == more;
    } else {
      LeadsOn(c, Next(c, s, steps[0]), steps[1..], m, more, t);
      LeadsCons(c, s, steps[0], steps[1..] + more, t);
      HeadFirst(steps, more);
    }
  }

  /** Nothing has failed and no wait has run out. */
  ghost predicate Healthy(c: Config, s: State)
    requires ValidConfig(c)
  {
    Inv(c, s) && s.failedAt == None && (s.mode == Scanning || (s.mode.Draining? && s.mode.status))
  }

  /** The server refuses nothing by itself, the drain keeps its status, and its end lets the watcher on. */
  lemma CleanStep(c: Config, s: State, step: Step)
    requires ValidConfig(c) && Healthy(c, s) && Enabled(c, s, step) && Clean(step)
    ensures Healthy(c, Next(c, s, step))
  {
    StepInv(c, s, step);
    match step {
      case Apply(id) =>
        assert Unfinished(s.threads, id);
        DataApplied(c, s.parts, s.pushCycle, s.store, s.threads[id].event, PushEffect(s.store, c.user, s.threads[id].event));
      case Return(id) =>
      case Reap(_) => assert !FinishedBadly(s.threads, s.mode.reaped);
      case _ =>
    }
  }

  /** The watcher thread has not moved. */
  predicate SameClient(s: State, t: State) {
    && t.cycle == s.cycle && t.pos == s.pos && t.mode == s.mode && t.pushCycle == s.pushCycle
    && t.threadId == s.threadId && t.threads.Keys == s.threads.Keys
  }

  lemma WorkerStep(c: Config, s: State, step: Step, id: nat)
    requires ValidConfig(c) && Healthy(c, s) && Enabled(c, s, step)
    requires step == Acquire(id) || step == Apply(id) || step == Return(id)
    ensures SameClient(s, Next(c, s, step)) && id in s.threads
    ensures Next(c, s, step).busy == if step.Return? then s.busy - {id} else s.busy
    ensures step.Acquire? ==> InPhase(Next(c, s, step).threads, id, Inside)
    ensures step.Apply? ==> InPhase(Next(c, s, step).threads, id, Replied(Next(c, s, step).threads[id].phase.ok))
  {
  }

  function Togo(phase: Phase): nat {
    match phase case Waiting => 3 case Inside => 2 case Replied(_) => 1 case Returned(_) => 0
  }

  /** One worker goes through to its end. */
  lemma {:induction false} BringHome(c: Config, s: State, id: nat) returns (steps: seq<Step>, t: State)
    requires ValidConfig(c) && Healthy(c, s) && id in s.threads && !s.threads[id].phase.Returned?
    requires s.threads[id].phase.Waiting? ==> !s.flag
    ensures Leads(c, s, steps, t) && Healthy(c, t) && SameClient(s, t) && t.busy == s.busy - {id}
    decreases Togo(s.threads[id].phase)
  {
    var phase := s.threads[id].phase;
    var step := if phase.Waiting? then Acquire(id) else if phase.Inside? then Apply(id) else Return(id);
    CleanStep(c, s, step);
    WorkerStep(c, s, step, id);
    var next := Next(c, s, step);
    if phase.Replied? {
      steps, t := [], next;
    } else {
      steps, t := BringHome(c, next, id);
    }
    LeadsCons(c, s, step, steps, t);
    steps := [step] + steps;
  }

  /** The one inside, or anybody when nobody is. */
  lemma NextHome(c: Config, s: State) returns (id: nat)
    requires ValidConfig(c) && Healthy(c, s) && s.busy != {}
    ensures id in s.busy && id in s.threads && !s.threads[id].phase.Returned? && (s.threads[id].phase.Waiting? ==> !s.flag)
  {
    if s.flag {
      id :| InPhase(s.threads, id, Inside);
    } else {
      id :| id in s.busy;
    }
  }

  /** All workers come home. */
  lemma {:induction false} AllHome(c: Config, s: State) returns (steps: seq<Step>, t: State)
    requires ValidConfig(c) && Healthy(c, s)
    ensures Leads(c, s, steps, t) && Healthy(c, t) && SameClient(s, t) && t.busy == {}
    decreases |s.busy|
  {
    if s.busy == {} {
      steps, t := [], s;
    } else {
      var id := NextHome(c, s);
      var one, m := BringHome(c, s, id);
      var rest;
      rest, t := AllHome(c, m);
      LeadsOn(c, s, one, m, rest, t);
      steps := one + rest;
    }
  }

  /** A drain with all workers home erases their futures and lets the watcher on. */
  lemma {:induction false} DrainEnds(c: Config, s: State) returns (steps: seq<Step>, t: State)
    requires ValidConfig(c) && Healthy(c, s) && s.mode.Draining? && s.busy == {}
    ensures Leads(c, s, steps, t) && Healthy(c, t) && t.mode == Scanning && t.busy == {}
    ensures t.cycle == s.cycle && t.pos == s.pos && t.pushCycle == s.cycle
    decreases s.threadId - s.mode.reaped
  {
    var step := if s.mode.reaped < s.threadId then Reap(false) else EndDrain;
    assert s.mode.reaped < s.threadId ==> s.mode.reaped in s.threads && s.threads[s.mode.reaped].phase.Returned?;
    assert s.mode.reaped >= s.threadId ==> s.threads == map[];
    CleanStep(c, s, step);
    var next := Next(c, s, step);
    if step.EndDrain? {
      steps, t := [], next;
    } else {
      steps, t := DrainEnds(c, next);
    }
    LeadsCons(c, s, step, steps, t);
    steps := [step] + steps;
  }

  /** The rest of a batch goes out, one event after the other. */
  lemma {:induction false} RestSent(c: Config, s: State) returns (steps: seq<Step>, t: State)
    requires ValidConfig(c) && Healthy(c, s) && s.mode == Scanning && s.busy == {}
    requires s.pos == |c.batches[s.cycle]| || s.pushCycle == s.cycle
    ensures Leads(c, s, steps, t) && Healthy(c, t) && t.mode == Scanning && t.busy == {}
    ensures t.cycle == s.cycle && t.pos == |c.batches[s.cycle]|
    decreases |c.batches[s.cycle]| - s.pos
  {
    if s.pos == |c.batches[s.cycle]| {
      steps, t := [], s;
    } else {
      CleanStep(c, s, Send);
      var one, m := AllHome(c, Next(c, s, Send));
      var rest;
      rest, t := RestSent(c, m);
      LeadsOn(c, Next(c, s, Send), one, m, rest, t);
      LeadsCons(c, s, Send, one + rest, t);
      steps := [Send] + (one + rest);
    }
  }

  /** The barrier before the first event of a batch, or what is left of it. */
  lemma BarrierPassed(c: Config, s: State) returns (steps: seq<Step>, t: State)
    requires ValidConfig(c) && Healthy(c, s) && s.busy == {}
    ensures Leads(c, s, steps, t) && Healthy(c, t) && t.mode == Scanning && t.busy == {}
    ensures t.cycle == s.cycle && t.pos == s.pos && (t.pos == |c.batches[s.cycle]| || t.pushCycle == s.cycle)
  {
    if s.mode.Draining? {
      steps, t := DrainEnds(c, s);
    } else if s.pos == |c.batches[s.cycle]| || s.pushCycle == s.cycle {
      steps, t := [], s;
    } else {
      CleanStep(c, s, BeginDrain);
      steps, t := DrainEnds(c, Next(c, s, BeginDrain));
      LeadsCons(c, s, BeginDrain, steps, t);
      steps := [BeginDrain] + steps;
    }
  }

  /** To the end of the batch that is out. */
  lemma BatchEnds(c: Config, s: State) returns (steps: seq<Step>, t: State)
    requires ValidConfig(c) && Healthy(c, s)
    ensures Leads(c, s, steps, t) && Healthy(c, t) && t.mode == Scanning && t.busy == {}
    ensures t.cycle == s.cycle && t.pos == |c.batches[s.cycle]|
  {
    var home, quiet := AllHome(c, s);
    var barrier, open := BarrierPassed(c, quiet);
    var rest;
    rest, t := RestSent(c, open);
    LeadsOn(c, quiet, barrier, open, rest, t);
    LeadsOn(c, s, home, quiet, barrier + rest, t);
    steps := home + (barrier + rest);
  }

  /** To the end of the last batch. */
  lemma {:induction false} LastBatchEnds(c: Config, s: State) returns (steps: seq<Step>, t: State)
    requires ValidConfig(c) && Healthy(c, s)
    ensures Leads(c, s, steps, t) && Healthy(c, t) && t.mode == Scanning && t.busy == {}
    ensures t.cycle + 1 == |c.batches| && t.pos == |c.batches[t.cycle]|
    decreases |c.batches| - s.cycle
  {
    steps, t := BatchEnds(c, s);
    if s.cycle + 1 < |c.batches| {
      CleanStep(c, t, NextScan);
      var next := Next(c, t, NextScan);
      var rest, final := LastBatchEnds(c, next);
      LeadsCons(c, t, NextScan, rest, final);
      LeadsOn(c, s, steps, t, [NextScan] + rest, final);
      steps, t := steps + ([NextScan] + rest), final;
    }
  }

  /** Every batch has been executed whole, and the replica is the last snapshot. */
  ghost predicate Finished(c: Config, t: State)
    requires ValidConfig(c)
  {
    && t.mode == Scanning && t.cycle == |c.batches| - 1 && t.pos == |c.batches[t.cycle]| && t.busy == {} && t.nActive == 0
    && t.failedAt == None && |t.parts| == |c.batches|
    && (forall j: nat :: j < |c.batches| ==> multiset(t.parts[j]) == multiset(c.batches[j]))
    && Mirrors(c.h, c.user, c.snaps[|c.batches|], t.store)
  }

  lemma AllExecuted(c: Config, t: State)
    requires ValidConfig(c) && Healthy(c, t) && t.mode == Scanning && t.busy == {} && t.pushCycle >= 0
    requires t.cycle + 1 == |c.batches| && t.pos == |c.batches[t.cycle]|
    ensures forall e :: e in c.batches[t.pushCycle] ==> e in t.parts[t.pushCycle]
  {
    var batch := c.batches[t.pushCycle];
    forall e | e in batch ensures e in t.parts[t.pushCycle] {
      var id: nat :| id < |batch| && batch[id] == e;
      assert id < t.threadId && !Unfinished(t.threads, id);
    }
  }

  lemma EndIsFinished(c: Config, t: State)
    requires ValidConfig(c) && Healthy(c, t) && t.mode == Scanning && t.busy == {}
    requires t.cycle + 1 == |c.batches| && t.pos == |c.batches[t.cycle]|
    ensures Finished(c, t)
  {
    var k := t.pushCycle;
    if k >= 0 {
      AllExecuted(c, t);
      WholeReplica(c, k, t.parts[k], t.store);
    }
    PartsWhole(c, t.parts, k, |c.batches|);
    EmptyScans(c, k + 1, |c.batches|, t.store);
    forall j: nat | j < |c.batches| ensures multiset(t.parts[j]) == multiset(c.batches[j]) {
      assert GoodScan(c, j);
      SameEventsSameMultiset(c.h, Known(c.h, c.snaps[j]), c.snaps[j + 1], t.parts[j], c.batches[j]);
    }
  }

  /** Progress, over all runs: from every state in which nothing has failed and no wait has run out, whatever
      is in flight, clean steps lead on to a state in which every batch has been executed whole and the replica
      is the last snapshot. */
  lemma EveryRunCanFinish(c: Config, states: seq<State>, steps: seq<Step>, i: nat) returns (more: seq<Step>, t: State)
    requires ValidConfig(c) && IsRun(c, states, steps) && i < |states| && states[i].failedAt == None
    requires states[i].mode != Stopped && (states[i].mode.Draining? ==> states[i].mode.status)
    ensures Leads(c, states[i], more, t) && Finished(c, t)
  {
    AlwaysInv(c, states, steps, i);
    more, t := LastBatchEnds(c, states[i]);
    EndIsFinished(c, t);
  }

  /** The states along a way. */
  lemma {:induction false} Unrolled(c: Config, s: State, steps: seq<Step>, t: State) returns (states: seq<State>)
    requires Leads(c, s, steps, t)
    ensures |states| == |steps| + 1 && states[0] == s && states[|steps|] == t
    ensures forall i: nat :: i < |steps| ==>
              Enabled(c, states[i], steps[i]) && Clean(steps[i]) && states[i + 1] == Next(c, states[i], steps[i])
    decreases steps
  {
    if steps == [] {
      states := [s];
    } else {
      var rest := Unrolled(c, Next(c, s, steps[0]), steps[1..], t);
      states := [s] + rest;
      forall i: nat | i < |steps|
        ensures Enabled(c, states[i], steps[i]) && Clean(steps[i]) && states[i + 1] == Next(c, states[i], steps[i]) {
        if i > 0 { assert states[i] == rest[i - 1] && steps[i] == steps[1..][i - 1]; }
      }
    }
  }

  /** From every initial state of every configuration there is a run without a fault that executes each batch
      whole, up to the last. */
  lemma CleanRunExists(c: Config, s: State) returns (states: seq<State>, steps: seq<Step>)
    requires ValidConfig(c) && Init(c, s)
    ensures IsRun(c, states, steps) && states[0] == s && (forall step :: step in steps ==> Clean(step))
    ensures Finished(c, states[|steps|])
  {
    var t;
    assert IsRun(c, [s], []);
    steps, t := EveryRunCanFinish(c, [s], [], 0);
    states := Unrolled(c, s, steps, t);
  }

  // ---------------------------------------------------------------- four at once

  /** The watcher goes on sending until four workers run or the batch is out. */
  lemma {:induction false} FillsUp(c: Config, s: State) returns (steps: seq<Step>, t: State)
    requires ValidConfig(c) && Healthy(c, s) && s.mode == Scanning && s.pushCycle == s.cycle
    ensures Leads(c, s, steps, t) && Healthy(c, t) && t.mode == Scanning && t.cycle == s.cycle == t.pushCycle
    ensures t.nActive == 4 || t.pos == |c.batches[s.cycle]|
    ensures t.nActive - s.nActive == t.pos - s.pos
    decreases |c.batches[s.cycle]| - s.pos
  {
    if s.nActive == 4 || s.pos == |c.batches[s.cycle]| {
      steps, t := [], s;
    } else {
      CleanStep(c, s, Send);
      steps, t := FillsUp(c, Next(c, s, Send));
      LeadsCons(c, s, Send, steps, t);
      steps := [Send] + steps;
    }
  }

  lemma FirstBarrier(c: Config, s: State) returns (steps: seq<Step>, t: State)
    requires ValidConfig(c) && Init(c, s) && |c.batches[0]| > 4
    ensures Leads(c, s, steps, t) && Healthy(c, t) && t.mode == Scanning
    ensures t.cycle == t.pushCycle == 0 && t.pos == 0 && t.nActive == 0
  {
    InitInv(c, s);
    steps, t := BarrierPassed(c, s);
  }

  lemma FourRun(c: Config, t: State)
    requires ValidConfig(c) && Inv(c, t) && t.nActive == 4
    ensures |t.busy| == 4 && !Enabled(c, t, Send)
  {
  }

  /** Whenever the first scan finds more than four events, four workers can run at once, and while they do
      the fifth event is not sent. */
  lemma FourAtOnce(c: Config, s: State) returns (states: seq<State>, steps: seq<Step>)
    requires ValidConfig(c) && Init(c, s) && |c.batches[0]| > 4
    ensures IsRun(c, states, steps) && states[0] == s
    ensures var t := states[|steps|];
            |t.busy| == t.nActive == 4 && t.pos == 4 && t.pushCycle == t.cycle == 0 && !Enabled(c, t, Send)
  {
    var barrier, open := FirstBarrier(c, s);
    var rest, t := FillsUp(c, open);
    LeadsOn(c, s, barrier, open, rest, t);
    steps := barrier + rest;
    FourRun(c, t);
    states := Unrolled(c, s, steps, t);
  }

  // ---------------------------------------------------------------- what may go wrong

  /** The runs leave nothing out: a push that is inside may fail and leave any store whatever, one that waits may get
      lost, and another user's push may come at any moment and have its whole effect. */
  lemma AnythingMayHappen(c: Config, s: State, inside: nat, left: Store, waiting: nat, w: string, e: Event)
    returns (fault: Step, lost: Step, foreign: Step)
    requires s.cycle < |c.batches| && InPhase(s.threads, inside, Inside) && InPhase(s.threads, waiting, Waiting)
    requires ValidUser(w) && w != c.user
    ensures Enabled(c, s, fault) && Enabled(c, s, lost) && Enabled(c, s, foreign)
    ensures var t := Next(c, s, fault);
            t.store == left && InPhase(t.threads, inside, Replied(false)) && !t.flag && t.failedAt.Some?
    ensures var t := Next(c, s, lost);
            t.store == s.store && InPhase(t.threads, waiting, Replied(false)) && t.serial == s.serial && t.failedAt.Some?
    ensures Next(c, s, foreign) == s.(store := PushEffect(s.store, w, e).store)
  {
    fault, lost, foreign := Fault(inside, left), Lost(waiting), Foreign(w, e);
  }

  // ---------------------------------------------------------------- nothing gets stuck

  lemma WorkerCanMove(c: Config, s: State) returns (step: Step)
    requires ValidConfig(c) && Inv(c, s) && s.busy != {}
    ensures Enabled(c, s, step) && Clean(step)
  {
    if s.flag {
      var id: nat :| InPhase(s.threads, id, Inside);
      step := Apply(id);
    } else {
      var id: nat :| id in s.busy;
      assert !InPhase(s.threads, id, Inside);
      step := if s.threads[id].phase.Waiting? then Acquire(id) else Return(id);
    }
  }

  lemma WatcherCanMove(c: Config, s: State) returns (step: Step)
    requires ValidConfig(c) && Inv(c, s) && s.busy == {} && s.mode != Stopped
    requires s.cycle + 1 < |c.batches| || s.pos < |c.batches[s.cycle]| || s.mode.Draining?
    ensures Enabled(c, s, step) && Clean(step)
  {
    if s.mode.Draining? {
      step := if s.mode.reaped < s.threadId then Reap(false) else EndDrain;
      if s.mode.reaped >= s.threadId { assert s.threads == map[]; }
    } else if s.pos == |c.batches[s.cycle]| {
      step := NextScan;
    } else {
      step := if s.pushCycle == s.cycle then Send else BeginDrain;
    }
  }

  /** In every state of every run, failures or not, something can go on without a fault, unless the watcher has
      stopped or has sent the last batch and all workers are home. */
  lemma NeverStuck(c: Config, states: seq<State>, steps: seq<Step>, i: nat) returns (step: Step)
    requires ValidConfig(c) && IsRun(c, states, steps) && i < |states|
    requires var s := states[i];
             || s.busy != {}
             || (s.mode != Stopped
                 && (s.cycle + 1 < |c.batches| || s.pos < |BatchOf(c, s.cycle)| || s.mode.Draining?))
    ensures Enabled(c, states[i], step) && Clean(step)
  {
    AlwaysInv(c, states, steps, i);
    if states[i].busy != {} {
      step := WorkerCanMove(c, states[i]);
    } else {
      step := WatcherCanMove(c, states[i]);
    }
  }
}

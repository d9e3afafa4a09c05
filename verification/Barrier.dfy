/** What a barrier decides, over all runs of the delivery: the watcher goes on if and only if every request sent
    since the last barrier came back true and no wait ran out, and then the replica is the snapshot. */
module Barrier {
  import opened Disk
  import opened Server
  import opened Diff
  import opened Confluence
  import opened Delivery

  /** Whether the future to be erased next holds true. */
  predicate HoldsTrue(s: State) {
    s.mode.Draining? && InPhase(s.threads, s.mode.reaped, Returned(true))
  }

  /** What the barrier has heard since the barrier before it, one result for each wait: false when the wait ran out
      or the request failed. */
  function Heard(states: seq<State>, steps: seq<Step>, i: nat): seq<bool>
    requires |states| == |steps| + 1 && i <= |steps|
  {
    if i == 0 then []
    else
      match steps[i - 1]
      case Reap(late) => Heard(states, steps, i - 1) + [!late && HoldsTrue(states[i - 1])]
      case EndDrain => []
      case _ => Heard(states, steps, i - 1)
  }

  /** A wait has run out since the barrier before. */
  predicate RanOut(steps: seq<Step>, i: nat)
    requires i <= |steps|
  {
    i > 0 && match steps[i - 1]
             case Reap(late) => late || RanOut(steps, i - 1)
             case EndDrain => false
             case _ => RanOut(steps, i - 1)
  }

  /** The drain's status and count are those of what it has heard. */
  ghost predicate Tells(s: State, heard: seq<bool>, ranOut: bool) {
    && (if s.mode.Draining? then |heard| == s.mode.reaped && (s.mode.status <==> false !in heard)
        else heard == [] && !ranOut)
    && (ranOut ==> false in heard)
    && (s.failedAt == None && false in heard ==> ranOut)
  }

  lemma TellsStep(c: Config, s: State, step: Step, heard: seq<bool>, ranOut: bool, heard': seq<bool>, ranOut': bool)
    requires ValidConfig(c) && Inv(c, s) && Enabled(c, s, step) && Tells(s, heard, ranOut)
    requires step.Reap? ==> heard' == heard + [!step.late && HoldsTrue(s)] && ranOut' == (step.late || ranOut)
    requires step.EndDrain? ==> heard' == [] && !ranOut'
    requires !step.Reap? && !step.EndDrain? ==> heard' == heard && ranOut' == ranOut
    ensures Tells(Next(c, s, step), heard', ranOut')
  {
    if step.Reap? {
      assert s.failedAt == None ==> !FinishedBadly(s.threads, s.mode.reaped);
      assert HoldsTrue(s) == s.threads[s.mode.reaped].phase.ok;
      assert false in heard' <==> false in heard || !(!step.late && HoldsTrue(s));
    }
  }

  lemma {:induction false} AlwaysTells(c: Config, states: seq<State>, steps: seq<Step>, i: nat)
    requires ValidConfig(c) && IsRun(c, states, steps) && i <= |steps|
    ensures Tells(states[i], Heard(states, steps, i), RanOut(steps, i))
  {
    if i == 0 {
    } else {
      AlwaysTells(c, states, steps, i - 1);
      AlwaysInv(c, states, steps, i - 1);
      TellsStep(c, states[i - 1], steps[i - 1], Heard(states, steps, i - 1), RanOut(steps, i - 1),
                Heard(states, steps, i), RanOut(steps, i));
    }
  }

  /** When the table is empty all workers are home and each has been heard. */
  lemma NobodyLeft(c: Config, s: State)
    requires ValidConfig(c) && Inv(c, s) && Enabled(c, s, EndDrain)
    ensures s.mode.reaped == s.threadId && s.busy == {} && s.pushCycle < s.cycle
    ensures s.mode.status ==> s.failedAt == None
  {
    assert s.mode.reaped !in s.threads;
    assert forall id: nat :: id !in s.busy;
    assert forall id: nat :: !FinishedBadly(s.threads, id);
  }

  /** The barrier, over all runs.  When it ends it has heard of each request sent since the last one.  It lets the
      watcher on to send its next batch if and only if all it has heard is true, that is, if and only if no push
      has ever failed and no wait has run out; then the replica, disk and table, is the snapshot the next scan
      started from.  Otherwise it stops the watcher for good. */
  lemma BarrierDecides(c: Config, states: seq<State>, steps: seq<Step>, i: nat)
    requires ValidConfig(c) && IsRun(c, states, steps) && i < |steps| && steps[i] == EndDrain
    ensures var s, t, heard := states[i], states[i + 1], Heard(states, steps, i);
            && |heard| == s.threadId && s.busy == {} && t.threadId == 0 && t.threads == map[]
            && (t.mode == Scanning && t.pushCycle == s.cycle <==> false !in heard)
            && (t.mode == Stopped && t.pushCycle == s.pushCycle <==> false in heard)
            && (false !in heard <==> s.failedAt == None && !RanOut(steps, i))
            && (false !in heard ==> Mirrors(c.h, c.user, c.snaps[s.cycle], t.store))
  {
    AlwaysInv(c, states, steps, i);
    AlwaysTells(c, states, steps, i);
    var s := states[i];
    NobodyLeft(c, s);
    if s.mode.status { BarrierMeansReplica(c, states, steps, i); }
  }

  /** A further event goes out if and only if the barrier of its batch has passed and fewer than four workers run. */
  lemma SentWhile(c: Config, states: seq<State>, steps: seq<Step>, i: nat)
    requires ValidConfig(c) && IsRun(c, states, steps) && i < |states|
    requires states[i].mode == Scanning && states[i].pos < |BatchOf(c, states[i].cycle)|
    ensures Enabled(c, states[i], Send) <==> states[i].pushCycle == states[i].cycle && |states[i].busy| < 4
    ensures i < |steps| && steps[i] == Send ==>
              && states[i].threadId !in states[i].threads && states[i].threadId == states[i].pos
              && states[i + 1].threads == states[i].threads[states[i].pos :=
                   Worker(states[i].cycle, c.batches[states[i].cycle][states[i].pos], Waiting)]
  {
    AlwaysInv(c, states, steps, i);
  }
}

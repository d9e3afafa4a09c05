/** The whole delivery protocol as a state machine: the watcher thread sends one batch after another, at
    most four workers carry the requests, and the server applies them one at a time under the session's
    flag.  Any interleaving, any failure of a push and any pushes of other users are steps. */
module Delivery {
  import opened Paths
  import opened Disk
  import opened PathTable
  import opened Server
  import opened Diff
  import opened Confluence
  import opened ClientSocket

  /** One watching run: the successive snapshots and, for each scan, the events it emitted. */
  datatype Config = Config(h: Hash, user: string, snaps: seq<FileSystem>, batches: seq<seq<Event>>)

  ghost predicate GoodScan(c: Config, k: nat)
    requires k < |c.batches| && |c.snaps| == |c.batches| + 1
  {
    && Setting(c.h, c.snaps[k], c.snaps[k + 1])
    && NoCollision(c.h, c.snaps[k], c.snaps[k + 1])
    && IsBatch(c.h, Known(c.h, c.snaps[k]), c.snaps[k + 1], c.batches[k])
  }

  ghost predicate ValidConfig(c: Config) {
    && ValidUser(c.user) && |c.batches| > 0 && |c.snaps| == |c.batches| + 1
    && forall k: nat :: k < |c.batches| ==> GoodScan(c, k)
  }

  /** Waiting for the session's flag; inside Server::push; answered; returned from the callback. */
  datatype Phase = Waiting | Inside | Replied(ok: bool) | Returned(ok: bool)

  datatype Worker = Worker(cycle: int, event: Event, phase: Phase)

  /** What the watcher thread is doing; `reaped` counts the futures the drain has erased. */
  datatype Mode = Scanning | Draining(status: bool, reaped: nat) | Stopped

  datatype State = State(
    cycle: nat,                 // FileWatcher::fw_cycle_: the scan whose events are being sent
    pos: nat,                   // the next event of that scan
    mode: Mode,
    pushCycle: int,             // Client_API::fw_cycle_: the cycle of the last push
    threads: map<nat, Worker>,  // threads_
    threadId: nat,              // thread_id_
    nActive: int,               // n_active_threads_
    busy: set<nat>,             // the workers that have not returned
    flag: bool,                 // Session::active_thread_
    store: Store,
    serial: seq<Event>,         // the session's pushes in the order the server executed them
    parts: seq<seq<Event>>,     // the same pushes, by cycle
    failedAt: Option<int>)      // the cycle of the first push that failed

  datatype Step =
    | Send
    | BeginDrain
    | Reap(late: bool)
    | EndDrain
    | NextScan
    | Acquire(id: nat)
    | Apply(id: nat)
    | Fault(id: nat, left: Store)
    | Lost(id: nat)
    | Return(id: nat)
    | Foreign(user: string, event: Event)

  ghost predicate Init(c: Config, s: State)
    requires ValidConfig(c)
  {
    && s.cycle == 0 && s.pos == 0 && s.mode == Scanning && s.pushCycle == -1
    && s.threads == map[] && s.threadId == 0 && s.nActive == 0 && s.busy == {} && !s.flag
    && s.serial == [] && s.parts == seq(|c.batches|, _ => []) && s.failedAt == None
    && Mirrors(c.h, c.user, c.snaps[0], s.store)
  }

  predicate InPhase(threads: map<nat, Worker>, id: nat, phase: Phase) {
    id in threads && threads[id].phase == phase
  }

  predicate Unfinished(threads: map<nat, Worker>, id: nat) {
    InPhase(threads, id, Waiting) || InPhase(threads, id, Inside)
  }

  predicate FinishedBadly(threads: map<nat, Worker>, id: nat) {
    InPhase(threads, id, Replied(false)) || InPhase(threads, id, Returned(false))
  }

  /** The events of one cycle; none before the first. */
  function BatchOf(c: Config, cycle: int): seq<Event> {
    if 0 <= cycle < |c.batches| then c.batches[cycle] else []
  }

  predicate Enabled(c: Config, s: State, step: Step) {
    && s.cycle < |c.batches|
    && match step
       case Send => s.mode == Scanning && s.pos < |c.batches[s.cycle]| && s.pushCycle == s.cycle && s.nActive < MAX_THREADS
       case BeginDrain => s.mode == Scanning && s.pos < |c.batches[s.cycle]| && s.pushCycle != s.cycle
       case Reap(_) => s.mode.Draining? && s.mode.reaped in s.threads && s.threads[s.mode.reaped].phase.Returned?
       case EndDrain => s.mode.Draining? && s.threads == map[]
       case NextScan => s.mode == Scanning && s.pos == |c.batches[s.cycle]| && s.cycle + 1 < |c.batches|
       case Acquire(id) => InPhase(s.threads, id, Waiting) && !s.flag
       case Apply(id) => InPhase(s.threads, id, Inside)
       case Fault(id, _) => InPhase(s.threads, id, Inside)
       case Lost(id) => InPhase(s.threads, id, Waiting)
       case Return(id) => id in s.threads && s.threads[id].phase.Replied?
       case Foreign(w, _) => ValidUser(w) && w != c.user
  }

  function InPhaseNow(s: State, id: nat, phase: Phase): map<nat, Worker>
    requires id in s.threads
  {
    s.threads[id := s.threads[id].(phase := phase)]
  }

  function FirstFailure(s: State, ok: bool): Option<int> {
    if ok || s.failedAt.Some? then s.failedAt else Some(s.pushCycle)
  }

  /** The server has executed the request of worker `id`, leaving `left`: the flag is released. */
  function Executed(s: State, id: nat, left: Store, ok: bool): State
    requires id in s.threads
  {
    var w := s.threads[id];
    s.(threads := InPhaseNow(s, id, Replied(ok)), flag := false, store := left,
       serial := s.serial + [w.event],
       parts := if 0 <= w.cycle < |s.parts| then s.parts[w.cycle := s.parts[w.cycle] + [w.event]] else s.parts,
       failedAt := FirstFailure(s, ok))
  }

  function Next(c: Config, s: State, step: Step): State
    requires Enabled(c, s, step)
  {
    match step
    case Send =>
      s.(threads := s.threads[s.threadId := Worker(s.cycle, c.batches[s.cycle][s.pos], Waiting)],
         threadId := s.threadId + 1, nActive := s.nActive + 1, busy := s.busy + {s.threadId}, pos := s.pos + 1)
    case BeginDrain => s.(mode := Draining(true, 0))
    case Reap(late) =>
      var id := s.mode.reaped;
      s.(threads := s.threads - {id}, mode := Draining(s.mode.status && !late && s.threads[id].phase.ok, id + 1))
    case EndDrain =>
      if s.mode.status then s.(threadId := 0, mode := Scanning, pushCycle := s.cycle)
      else s.(threadId := 0, mode := Stopped)
    case NextScan => s.(cycle := s.cycle + 1, pos := 0)
    case Acquire(id) => s.(threads := InPhaseNow(s, id, Inside), flag := true)
    case Apply(id) =>
      var r := PushEffect(s.store, c.user, s.threads[id].event);
      Executed(s, id, r.store, r.ok)
    case Fault(id, left) => Executed(s, id, left, false)
    case Lost(id) => s.(threads := InPhaseNow(s, id, Replied(false)), failedAt := FirstFailure(s, false))
    case Return(id) =>
      s.(threads := InPhaseNow(s, id, Returned(s.threads[id].phase.ok)), nActive := s.nActive - 1,
         busy := s.busy - {id})
    case Foreign(w, e) => s.(store := PushEffect(s.store, w, e).store)
  }

  // ---------------------------------------------------------------- the invariant

  function Erased(s: State): nat {
    if s.mode.Draining? then s.mode.reaped else 0
  }

  /** The busy set, its counter, and the consecutive keys lo .. hi-1 of the futures. */
  ghost predicate PoolInv(threads: map<nat, Worker>, busy: set<nat>, nActive: int, lo: nat, hi: nat) {
    && (forall id: nat :: id in busy <==> id in threads && !threads[id].phase.Returned?)
    && nActive == |busy| <= MAX_THREADS
    && (forall id: nat :: id in threads <==> lo <= id < hi)
    && lo <= hi
  }

  /** n_active_threads_ counts the running workers, at most four; the futures sit under consecutive keys,
      from 0 when no drain is under way. */
  ghost predicate PoolOk(s: State) {
    PoolInv(s.threads, s.busy, s.nActive, Erased(s), s.threadId) && (s.mode == Stopped ==> s.threadId == 0)
  }

  /** The session's flag is up exactly while one worker is inside push, and never two are. */
  ghost predicate FlagInv(threads: map<nat, Worker>, flag: bool) {
    && (flag <==> exists id: nat :: InPhase(threads, id, Inside))
    && (forall i: nat, j: nat :: InPhase(threads, i, Inside) && InPhase(threads, j, Inside) ==> i == j)
  }

  ghost predicate FlagOk(s: State) {
    FlagInv(s.threads, s.flag)
  }

  /** Every worker carries the event at its own key of the one batch that is out. */
  ghost predicate Labelled(threads: map<nat, Worker>, cycle: int, batch: seq<Event>) {
    forall id: nat :: id in threads ==>
      threads[id].cycle == cycle && id < |batch| && threads[id].event == batch[id]
  }

  /** Which events are out: those of one cycle, each under its own position as key. */
  ghost predicate LabelsOk(c: Config, s: State) {
    && s.cycle < |c.batches| && s.pos <= |c.batches[s.cycle]| && -1 <= s.pushCycle <= s.cycle
    && (s.pushCycle < s.cycle ==> s.pos == 0)
    && (forall j: nat :: s.pushCycle < j < s.cycle ==> c.batches[j] == [])
    && (s.mode.Draining? ==> s.pushCycle < s.cycle)
    && (s.mode != Stopped ==>
          s.threadId == if s.pushCycle == s.cycle then s.pos else |BatchOf(c, s.pushCycle)|)
    && Labelled(s.threads, s.pushCycle, BatchOf(c, s.pushCycle))
  }

  function Flatten(parts: seq<seq<Event>>): seq<Event> {
    if parts == [] then [] else Flatten(parts[..|parts| - 1]) + parts[|parts| - 1]
  }

  function PathsOf(events: seq<Event>): set<string> {
    set e | e in events :: e.path
  }

  /** Some of the events of `batch`, none twice. */
  ghost predicate PartOf(part: seq<Event>, batch: seq<Event>) {
    && (forall e :: e in part ==> e in batch)
    && (forall i, j :: 0 <= i < j < |part| ==> part[i].path != part[j].path)
  }

  /** No outstanding event has been executed. */
  ghost predicate Outstanding(threads: map<nat, Worker>, part: seq<Event>) {
    forall id: nat :: Unfinished(threads, id) ==> threads[id].event.path !in PathsOf(part)
  }

  /** Only events that have been sent have been executed. */
  ghost predicate Sent(part: seq<Event>, batch: seq<Event>, threadId: nat) {
    forall e :: e in part ==> exists i: nat :: i < threadId && i < |batch| && batch[i] == e
  }

  function PartAt(parts: seq<seq<Event>>, cycle: int): seq<Event> {
    if 0 <= cycle < |parts| then parts[cycle] else []
  }

  /** The serial history is the parts one after the other; nothing of a later cycle has been executed. */
  ghost predicate HistoryInv(c: Config, serial: seq<Event>, parts: seq<seq<Event>>, pushCycle: int) {
    && |parts| == |c.batches| && serial == Flatten(parts)
    && (forall j: nat :: j < |parts| ==> PartOf(parts[j], c.batches[j]))
    && (forall j: nat :: j < |parts| && j > pushCycle ==> parts[j] == [])
  }

  ghost predicate HistoryOk(c: Config, s: State) {
    && HistoryInv(c, s.serial, s.parts, s.pushCycle)
    && Outstanding(s.threads, PartAt(s.parts, s.pushCycle))
    && (s.mode != Stopped ==> Sent(PartAt(s.parts, s.pushCycle), BatchOf(c, s.pushCycle), s.threadId))
  }

  /** A failure stays visible to the barrier of its own cycle until that barrier has seen it. */
  ghost predicate FailInv(failedAt: Option<int>, pushCycle: int, mode: Mode, threads: map<nat, Worker>) {
    match failedAt
    case Some(k) =>
      k == pushCycle
      && (mode == Stopped || (mode.Draining? && !mode.status) || exists id: nat :: FinishedBadly(threads, id))
    case None => forall id: nat :: !FinishedBadly(threads, id)
  }

  ghost predicate FailOk(s: State) {
    FailInv(s.failedAt, s.pushCycle, s.mode, s.threads)
  }

  // ---------------------------------------------------------------- every step keeps it

  lemma PoolSend(threads: map<nat, Worker>, busy: set<nat>, nActive: int, lo: nat, hi: nat, w: Worker)
    requires PoolInv(threads, busy, nActive, lo, hi) && nActive < MAX_THREADS && !w.phase.Returned?
    ensures PoolInv(threads[hi := w], busy + {hi}, nActive + 1, lo, hi + 1)
  {
  }

  lemma PoolPhase(threads: map<nat, Worker>, busy: set<nat>, nActive: int, lo: nat, hi: nat, id: nat, w: Worker)
    requires PoolInv(threads, busy, nActive, lo, hi)
    requires id in threads && !threads[id].phase.Returned? && !w.phase.Returned?
    ensures PoolInv(threads[id := w], busy, nActive, lo, hi)
  {
  }

  lemma PoolReturn(threads: map<nat, Worker>, busy: set<nat>, nActive: int, lo: nat, hi: nat, id: nat, w: Worker)
    requires PoolInv(threads, busy, nActive, lo, hi)
    requires id in threads && !threads[id].phase.Returned? && w.phase.Returned?
    ensures PoolInv(threads[id := w], busy - {id}, nActive - 1, lo, hi)
  {
  }

  lemma PoolReap(threads: map<nat, Worker>, busy: set<nat>, nActive: int, lo: nat, hi: nat)
    requires PoolInv(threads, busy, nActive, lo, hi) && lo in threads && threads[lo].phase.Returned?
    ensures PoolInv(threads - {lo}, busy, nActive, lo + 1, hi)
  {
  }

  lemma PoolStep(c: Config, s: State, step: Step)
    requires Enabled(c, s, step) && PoolOk(s)
    ensures PoolOk(Next(c, s, step))
  {
    var t := Next(c, s, step);
    match step {
      case Send => PoolSend(s.threads, s.busy, s.nActive, 0, s.threadId, t.threads[s.threadId]);
      case Reap(_) => PoolReap(s.threads, s.busy, s.nActive, s.mode.reaped, s.threadId);
      case Acquire(id) => PoolPhase(s.threads, s.busy, s.nActive, Erased(s), s.threadId, id, t.threads[id]);
      case Apply(id) => PoolPhase(s.threads, s.busy, s.nActive, Erased(s), s.threadId, id, t.threads[id]);
      case Fault(id, _) => PoolPhase(s.threads, s.busy, s.nActive, Erased(s), s.threadId, id, t.threads[id]);
      case Lost(id) => PoolPhase(s.threads, s.busy, s.nActive, Erased(s), s.threadId, id, t.threads[id]);
      case Return(id) => PoolReturn(s.threads, s.busy, s.nActive, Erased(s), s.threadId, id, t.threads[id]);
      case EndDrain => assert s.threads == map[];
      case _ =>
    }
  }

  lemma FlagPut(threads: map<nat, Worker>, flag: bool, id: nat, w: Worker, flag': bool)
    requires FlagInv(threads, flag)
    requires w.phase.Inside? ==> !flag && flag'
    requires !w.phase.Inside? ==> flag' == (flag && !InPhase(threads, id, Inside))
    ensures FlagInv(threads[id := w], flag')
  {
    var after := threads[id := w];
    assert forall i: nat :: i != id ==> (InPhase(after, i, Inside) <==> InPhase(threads, i, Inside));
    assert InPhase(after, id, Inside) <==> w.phase.Inside?;
  }

  lemma FlagDrop(threads: map<nat, Worker>, flag: bool, id: nat)
    requires FlagInv(threads, flag) && !InPhase(threads, id, Inside)
    ensures FlagInv(threads - {id}, flag)
  {
    assert forall i: nat :: InPhase(threads - {id}, i, Inside) <==> InPhase(threads, i, Inside);
  }

  lemma FlagStep(c: Config, s: State, step: Step)
    requires Enabled(c, s, step) && PoolOk(s) && FlagOk(s)
    ensures FlagOk(Next(c, s, step))
  {
    var t := Next(c, s, step);
    match step {
      case Send => FlagPut(s.threads, s.flag, s.threadId, t.threads[s.threadId], t.flag);
      case Reap(_) => FlagDrop(s.threads, s.flag, s.mode.reaped);
      case Acquire(id) => FlagPut(s.threads, s.flag, id, t.threads[id], t.flag);
      case Apply(id) => FlagPut(s.threads, s.flag, id, t.threads[id], t.flag);
      case Fault(id, _) => FlagPut(s.threads, s.flag, id, t.threads[id], t.flag);
      case Lost(id) => FlagPut(s.threads, s.flag, id, t.threads[id], t.flag);
      case Return(id) => FlagPut(s.threads, s.flag, id, t.threads[id], t.flag);
      case _ =>
    }
  }

  lemma LabelledPut(threads: map<nat, Worker>, cycle: int, batch: seq<Event>, id: nat, w: Worker)
    requires Labelled(threads, cycle, batch) && id < |batch| && w.cycle == cycle && w.event == batch[id]
    ensures Labelled(threads[id := w], cycle, batch)
  {
  }

  lemma LabelledPhase(threads: map<nat, Worker>, cycle: int, batch: seq<Event>, id: nat, phase: Phase)
    requires Labelled(threads, cycle, batch) && id in threads
    ensures Labelled(threads[id := threads[id].(phase := phase)], cycle, batch)
  {
  }

  lemma LabelsStep(c: Config, s: State, step: Step)
    requires Enabled(c, s, step) && PoolOk(s) && LabelsOk(c, s)
    ensures LabelsOk(c, Next(c, s, step))
  {
    var t := Next(c, s, step);
    var batch := BatchOf(c, s.pushCycle);
    match step {
      case Send => LabelledPut(s.threads, s.cycle, batch, s.threadId, t.threads[s.threadId]);
      case Acquire(id) => LabelledPhase(s.threads, s.pushCycle, batch, id, Inside);
      case Apply(id) => LabelledPhase(s.threads, s.pushCycle, batch, id, t.threads[id].phase);
      case Fault(id, _) => LabelledPhase(s.threads, s.pushCycle, batch, id, Replied(false));
      case Lost(id) => LabelledPhase(s.threads, s.pushCycle, batch, id, Replied(false));
      case Return(id) => LabelledPhase(s.threads, s.pushCycle, batch, id, t.threads[id].phase);
      case _ =>
    }
  }

  /** A failed worker of `before` is still there in `after`. */
  lemma BadStays(before: map<nat, Worker>, after: map<nat, Worker>, changed: nat)
    requires exists id: nat :: FinishedBadly(before, id)
    requires forall id: nat :: id != changed && id in before ==> id in after && after[id] == before[id]
    requires FinishedBadly(before, changed) ==> FinishedBadly(after, changed)
    ensures exists id: nat :: FinishedBadly(after, id)
  {
    var id: nat :| FinishedBadly(before, id);
    assert FinishedBadly(after, id);
  }

  lemma FailPut(failedAt: Option<int>, pushCycle: int, mode: Mode, threads: map<nat, Worker>,
                id: nat, w: Worker, failedAt': Option<int>)
    requires FailInv(failedAt, pushCycle, mode, threads)
    requires id in threads && FinishedBadly(threads, id) ==> w.phase == Returned(false)
    requires var bad := w.phase == Replied(false) || w.phase == Returned(false);
             failedAt' == if bad && failedAt.None? then Some(pushCycle) else failedAt
    ensures FailInv(failedAt', pushCycle, mode, threads[id := w])
  {
    var after := threads[id := w];
    if exists bad: nat :: FinishedBadly(threads, bad) { BadStays(threads, after, id); }
    if failedAt'.Some? && failedAt.None? { assert FinishedBadly(after, id); }
    assert forall i: nat :: i != id ==> (FinishedBadly(after, i) <==> FinishedBadly(threads, i));
  }

  lemma FailReap(failedAt: Option<int>, pushCycle: int, mode: Mode, threads: map<nat, Worker>, id: nat, mode': Mode)
    requires FailInv(failedAt, pushCycle, mode, threads) && mode.Draining? && mode'.Draining?
    requires id in threads && threads[id].phase.Returned?
    requires mode'.status ==> mode.status && threads[id].phase.ok
    ensures FailInv(failedAt, pushCycle, mode', threads - {id})
  {
    assert forall i: nat :: FinishedBadly(threads - {id}, i) ==> FinishedBadly(threads, i);
    if mode'.status && failedAt.Some? { BadStays(threads, threads - {id}, id); }
  }

  lemma FailStep(c: Config, s: State, step: Step)
    requires Enabled(c, s, step) && PoolOk(s) && LabelsOk(c, s) && FailOk(s)
    ensures FailOk(Next(c, s, step))
  {
    var t := Next(c, s, step);
    match step {
      case Send => FailPut(s.failedAt, s.pushCycle, s.mode, s.threads, s.threadId, t.threads[s.threadId], t.failedAt);
      case Reap(_) => FailReap(s.failedAt, s.pushCycle, s.mode, s.threads, s.mode.reaped, t.mode);
      case Acquire(id) => FailPut(s.failedAt, s.pushCycle, s.mode, s.threads, id, t.threads[id], t.failedAt);
      case Apply(id) => FailPut(s.failedAt, s.pushCycle, s.mode, s.threads, id, t.threads[id], t.failedAt);
      case Fault(id, _) => FailPut(s.failedAt, s.pushCycle, s.mode, s.threads, id, t.threads[id], t.failedAt);
      case Lost(id) => FailPut(s.failedAt, s.pushCycle, s.mode, s.threads, id, t.threads[id], t.failedAt);
      case Return(id) =>
        assert FinishedBadly(s.threads, id) <==> FinishedBadly(t.threads, id);
        FailPut(s.failedAt, s.pushCycle, s.mode, s.threads, id, t.threads[id], t.failedAt);
      case EndDrain => assert forall id: nat :: !FinishedBadly(s.threads, id);
      case _ =>
    }
  }

  // ---------------------------------------------------------------- the history

  lemma {:induction false} FlattenAppend(parts: seq<seq<Event>>, k: nat, e: Event)
    requires k < |parts| && forall j: nat :: k < j < |parts| ==> parts[j] == []
    ensures Flatten(parts[k := parts[k] + [e]]) == Flatten(parts) + [e]
  {
    var last := |parts| - 1;
    var after := parts[k := parts[k] + [e]];
    if k == last {
      assert after[..last] == parts[..last];
    } else {
      FlattenAppend(parts[..last], k, e);
      assert after[..last] == parts[..last][k := parts[k] + [e]];
    }
  }

  lemma PathsAppend(part: seq<Event>, e: Event)
    ensures PathsOf(part + [e]) == PathsOf(part) + {e.path}
  {
    assert forall x :: x in part + [e] <==> x in part || x == e;
    assert e in part + [e];
  }

  /** Two positions of a batch have two paths, so an event is met again only at its own key. */
  lemma SentElsewhere(c: Config, k: nat, part: seq<Event>, threadId: nat)
    requires ValidConfig(c) && k < |c.batches| && threadId < |c.batches[k]|
    requires Sent(part, c.batches[k], threadId)
    ensures c.batches[k][threadId].path !in PathsOf(part)
  {
    assert GoodScan(c, k);
  }

  lemma SentGrows(part: seq<Event>, batch: seq<Event>, threadId: nat)
    requires Sent(part, batch, threadId)
    ensures Sent(part, batch, threadId + 1)
  {
    forall e | e in part ensures exists i: nat :: i < threadId + 1 && i < |batch| && batch[i] == e {
      var i: nat :| i < threadId && i < |batch| && batch[i] == e;
      assert i < threadId + 1;
    }
  }

  lemma HistoryInvExecuted(c: Config, serial: seq<Event>, parts: seq<seq<Event>>, k: nat, e: Event)
    requires HistoryInv(c, serial, parts, k) && k < |parts|
    requires e in c.batches[k] && e.path !in PathsOf(parts[k])
    ensures HistoryInv(c, serial + [e], parts[k := parts[k] + [e]], k)
  {
    FlattenAppend(parts, k, e);
    assert forall i :: 0 <= i < |parts[k]| ==> parts[k][i] in parts[k];
    assert PartOf(parts[k] + [e], c.batches[k]);
  }

  lemma OutstandingExecuted(threads: map<nat, Worker>, cycle: int, batch: seq<Event>, part: seq<Event>, id: nat, w: Worker)
    requires Labelled(threads, cycle, batch) && Outstanding(threads, part) && id in threads
    requires forall i, j :: 0 <= i < j < |batch| ==> batch[i].path != batch[j].path
    requires w.phase.Replied?
    ensures Outstanding(threads[id := w], part + [threads[id].event])
  {
    var e, after := threads[id].event, threads[id := w];
    PathsAppend(part, e);
    forall i: nat | Unfinished(after, i) ensures after[i].event.path !in PathsOf(part + [e]) {
      assert i != id && Unfinished(threads, i);
    }
  }

  lemma SentExecuted(part: seq<Event>, batch: seq<Event>, threadId: nat, id: nat)
    requires Sent(part, batch, threadId) && id < threadId && id < |batch|
    ensures Sent(part + [batch[id]], batch, threadId)
  {
    forall x | x in part + [batch[id]] ensures exists i: nat :: i < threadId && i < |batch| && batch[i] == x {
      if x != batch[id] { assert x in part; }
    }
  }

  lemma HistoryExecuted(c: Config, s: State, id: nat, left: Store, ok: bool)
    requires ValidConfig(c) && PoolOk(s) && LabelsOk(c, s) && HistoryOk(c, s)
    requires InPhase(s.threads, id, Inside)
    ensures HistoryOk(c, Executed(s, id, left, ok))
  {
    var k: nat := s.pushCycle;
    var e := s.threads[id].event;
    assert GoodScan(c, k);
    assert Unfinished(s.threads, id);
    HistoryInvExecuted(c, s.serial, s.parts, k, e);
    OutstandingExecuted(s.threads, k, c.batches[k], s.parts[k], id, s.threads[id].(phase := Replied(ok)));
    if s.mode != Stopped { SentExecuted(s.parts[k], c.batches[k], s.threadId, id); }
  }

  lemma HistorySent(c: Config, s: State)
    requires ValidConfig(c) && Enabled(c, s, Send) && PoolOk(s) && LabelsOk(c, s) && HistoryOk(c, s)
    ensures HistoryOk(c, Next(c, s, Send))
  {
    var t := Next(c, s, Send);
    var part := PartAt(s.parts, s.pushCycle);
    SentElsewhere(c, s.cycle, part, s.threadId);
    SentGrows(part, c.batches[s.cycle], s.threadId);
    forall id: nat | Unfinished(t.threads, id) ensures t.threads[id].event.path !in PathsOf(part) {
      assert id == s.threadId || Unfinished(s.threads, id);
    }
  }

  lemma OutstandingPhase(threads: map<nat, Worker>, part: seq<Event>, id: nat, phase: Phase)
    requires Outstanding(threads, part) && id in threads
    requires phase == Waiting || phase == Inside ==> Unfinished(threads, id)
    ensures Outstanding(threads[id := threads[id].(phase := phase)], part)
  {
    var after := threads[id := threads[id].(phase := phase)];
    forall i: nat | Unfinished(after, i) ensures after[i].event.path !in PathsOf(part) {
      assert Unfinished(threads, i);
    }
  }

  lemma OutstandingDrop(threads: map<nat, Worker>, part: seq<Event>, id: nat)
    requires Outstanding(threads, part)
    ensures Outstanding(threads - {id}, part)
  {
    forall i: nat | Unfinished(threads - {id}, i) ensures threads[i].event.path !in PathsOf(part) {
      assert Unfinished(threads, i);
    }
  }

  lemma HistoryStep(c: Config, s: State, step: Step)
    requires ValidConfig(c) && Enabled(c, s, step) && PoolOk(s) && LabelsOk(c, s) && HistoryOk(c, s)
    ensures HistoryOk(c, Next(c, s, step))
  {
    var t := Next(c, s, step);
    var part := PartAt(s.parts, s.pushCycle);
    match step {
      case Send => HistorySent(c, s);
      case Apply(id) =>
        var r := PushEffect(s.store, c.user, s.threads[id].event);
        HistoryExecuted(c, s, id, r.store, r.ok);
      case Fault(id, left) => HistoryExecuted(c, s, id, left, false);
      case EndDrain => assert t.threads == map[];
      case Reap(_) => OutstandingDrop(s.threads, part, s.mode.reaped);
      case Acquire(id) => OutstandingPhase(s.threads, part, id, Inside);
      case Lost(id) => OutstandingPhase(s.threads, part, id, Replied(false));
      case Return(id) => OutstandingPhase(s.threads, part, id, t.threads[id].phase);
      case _ =>
    }
  }

  // ---------------------------------------------------------------- the replica

  /** Until something fails, the finished cycles are complete batches and the store is the closed form of
      the current one. */
  ghost predicate DataInv(c: Config, parts: seq<seq<Event>>, pushCycle: int, store: Store)
    requires ValidConfig(c) && |parts| == |c.batches| && -1 <= pushCycle < |c.batches|
  {
    && (forall j: nat :: j < pushCycle ==> IsBatch(c.h, Known(c.h, c.snaps[j]), c.snaps[j + 1], parts[j]))
    && (if pushCycle == -1 then Mirrors(c.h, c.user, c.snaps[0], store)
        else After(c.h, c.user, c.snaps[pushCycle], c.snaps[pushCycle + 1], PathsOf(parts[pushCycle]), store))
  }

  /** Every event that was sent is outstanding or executed. */
  ghost predicate Covered(threads: map<nat, Worker>, part: seq<Event>, batch: seq<Event>, threadId: nat) {
    forall id: nat :: id < threadId && id < |batch| ==> Unfinished(threads, id) || batch[id] in part
  }

  ghost predicate DataOk(c: Config, s: State)
    requires ValidConfig(c) && LabelsOk(c, s) && HistoryOk(c, s)
  {
    s.failedAt == None ==>
      && DataInv(c, s.parts, s.pushCycle, s.store)
      && (s.mode != Stopped ==> Covered(s.threads, PartAt(s.parts, s.pushCycle), BatchOf(c, s.pushCycle), s.threadId))
  }

  /** A part of a batch that covers all of it is that batch, in another order. */
  lemma CoveredIsBatch(h: Hash, known: map<string, string>, tree: FileSystem, batch: seq<Event>, part: seq<Event>)
    requires IsBatch(h, known, tree, batch) && PartOf(part, batch) && forall e :: e in batch ==> e in part
    ensures IsBatch(h, known, tree, part)
    ensures forall p :: EventAt(h, known, tree, p).Some? ==> p in PathsOf(part)
  {
  }

  /** Scans that found nothing leave the replica of one snapshot a replica of the next. */
  lemma {:induction false} EmptyScans(c: Config, from: nat, to: nat, store: Store)
    requires ValidConfig(c) && from <= to <= |c.batches|
    requires forall j: nat :: from <= j < to ==> c.batches[j] == []
    requires Mirrors(c.h, c.user, c.snaps[from], store)
    ensures Mirrors(c.h, c.user, c.snaps[to], store)
    decreases if from < to then to - from else 0
  {
    if from == to {
    } else {
      assert GoodScan(c, from) && c.batches[from] == [];
      NothingDelivered(c.h, c.user, c.snaps[from], c.snaps[from + 1], store);
      AllDelivered(c.h, c.user, c.snaps[from], c.snaps[from + 1], {}, store);
      EmptyScans(c, from + 1, to, store);
    }
  }

  /** The parts of scans that found nothing are complete. */
  lemma EmptyPart(c: Config, j: nat, part: seq<Event>)
    requires ValidConfig(c) && j < |c.batches| && c.batches[j] == [] && part == []
    ensures IsBatch(c.h, Known(c.h, c.snaps[j]), c.snaps[j + 1], part)
  {
    assert GoodScan(c, j);
  }

  /** The last batch sent has been executed whole. */
  lemma LastPartWhole(c: Config, s: State)
    requires ValidConfig(c) && LabelsOk(c, s) && HistoryOk(c, s) && DataOk(c, s)
    requires s.mode.Draining? && s.threads == map[] && s.failedAt == None && s.pushCycle >= 0
    ensures forall e :: e in c.batches[s.pushCycle] ==> e in s.parts[s.pushCycle]
  {
    var batch := c.batches[s.pushCycle];
    forall e | e in batch ensures e in s.parts[s.pushCycle] {
      var id: nat :| id < |batch| && batch[id] == e;
      assert !Unfinished(s.threads, id);
    }
  }

  /** The drain came back without failure: the replica equals the snapshot the next scan starts from. */
  lemma DrainedReplica(c: Config, s: State)
    requires ValidConfig(c) && LabelsOk(c, s) && HistoryOk(c, s) && DataOk(c, s)
    requires s.mode.Draining? && s.threads == map[] && s.failedAt == None
    ensures Mirrors(c.h, c.user, c.snaps[s.cycle], s.store)
  {
    var k := s.pushCycle;
    if k >= 0 {
      LastPartWhole(c, s);
      WholeReplica(c, k, s.parts[k], s.store);
    }
    EmptyScans(c, k + 1, s.cycle, s.store);
  }

  lemma WholeReplica(c: Config, k: nat, part: seq<Event>, store: Store)
    requires ValidConfig(c) && k < |c.batches| && PartOf(part, c.batches[k])
    requires forall e :: e in c.batches[k] ==> e in part
    requires After(c.h, c.user, c.snaps[k], c.snaps[k + 1], PathsOf(part), store)
    ensures Mirrors(c.h, c.user, c.snaps[k + 1], store)
    ensures IsBatch(c.h, Known(c.h, c.snaps[k]), c.snaps[k + 1], part)
  {
    assert GoodScan(c, k);
    CoveredIsBatch(c.h, Known(c.h, c.snaps[k]), c.snaps[k + 1], c.batches[k], part);
    AllDelivered(c.h, c.user, c.snaps[k], c.snaps[k + 1], PathsOf(part), store);
  }

  /** And every batch so far has been executed whole. */
  lemma DrainedHistory(c: Config, s: State)
    requires ValidConfig(c) && LabelsOk(c, s) && HistoryOk(c, s) && DataOk(c, s)
    requires s.mode.Draining? && s.threads == map[] && s.failedAt == None
    ensures forall j: nat :: j < s.cycle ==> IsBatch(c.h, Known(c.h, c.snaps[j]), c.snaps[j + 1], s.parts[j])
  {
    var k := s.pushCycle;
    if k >= 0 {
      LastPartWhole(c, s);
      WholeReplica(c, k, s.parts[k], s.store);
    }
    PartsWhole(c, s.parts, k, s.cycle);
  }

  lemma PartsWhole(c: Config, parts: seq<seq<Event>>, k: int, cycle: nat)
    requires ValidConfig(c) && |parts| == |c.batches| && -1 <= k <= cycle <= |c.batches|
    requires forall j: nat :: j <= k && j < |c.batches| ==> IsBatch(c.h, Known(c.h, c.snaps[j]), c.snaps[j + 1], parts[j])
    requires forall j: nat :: k < j < cycle ==> c.batches[j] == [] && parts[j] == []
    ensures forall j: nat :: j < cycle ==> IsBatch(c.h, Known(c.h, c.snaps[j]), c.snaps[j + 1], parts[j])
  {
    forall j: nat | k < j < cycle ensures IsBatch(c.h, Known(c.h, c.snaps[j]), c.snaps[j + 1], parts[j]) {
      EmptyPart(c, j, parts[j]);
    }
  }

  lemma ForeignKeeps(c: Config, parts: seq<seq<Event>>, pushCycle: int, store: Store, w: string, e: Event)
    requires ValidConfig(c) && |parts| == |c.batches| && -1 <= pushCycle < |c.batches|
    requires DataInv(c, parts, pushCycle, store) && ValidUser(w) && w != c.user
    ensures DataInv(c, parts, pushCycle, PushEffect(store, w, e).store)
  {
    assert GoodScan(c, 0);
    OtherUserUntouched(store, w, e, c.user);
  }

  lemma DataExtended(c: Config, parts: seq<seq<Event>>, k: nat, store: Store, e: Event, left: Store)
    requires ValidConfig(c) && |parts| == |c.batches| && k < |c.batches|
    requires DataInv(c, parts, k, store)
    requires After(c.h, c.user, c.snaps[k], c.snaps[k + 1], PathsOf(parts[k]) + {e.path}, left)
    ensures DataInv(c, parts[k := parts[k] + [e]], k, left)
  {
    PathsAppend(parts[k], e);
  }

  /** Without an earlier failure a push of the batch succeeds and extends the closed form. */
  lemma DataApplied(c: Config, parts: seq<seq<Event>>, k: nat, store: Store, e: Event, r: Outcome)
    requires ValidConfig(c) && |parts| == |c.batches| && k < |c.batches|
    requires DataInv(c, parts, k, store) && e in c.batches[k] && e.path !in PathsOf(parts[k])
    requires r == PushEffect(store, c.user, e)
    ensures r.ok && DataInv(c, parts[k := parts[k] + [e]], k, r.store)
  {
    assert GoodScan(c, k);
    PushStep(c.h, c.user, c.snaps[k], c.snaps[k + 1], PathsOf(parts[k]), store, e);
    DataExtended(c, parts, k, store, e, r.store);
  }

  lemma CoveredPut(threads: map<nat, Worker>, part: seq<Event>, batch: seq<Event>, threadId: nat, id: nat, w: Worker,
                   part': seq<Event>)
    requires Covered(threads, part, batch, threadId) && id < |batch|
    requires forall e :: e in part ==> e in part'
    requires w.phase == Waiting || w.phase == Inside || batch[id] in part' || (id < threadId && !Unfinished(threads, id))
    ensures Covered(threads[id := w], part', batch, if id == threadId then threadId + 1 else threadId)
  {
    forall i: nat | i <= threadId && i < |batch| && (i == threadId ==> id == threadId)
      ensures Unfinished(threads[id := w], i) || batch[i] in part' {
      if i != id && Unfinished(threads, i) { assert Unfinished(threads[id := w], i); }
      if i == id && (w.phase == Waiting || w.phase == Inside) { assert Unfinished(threads[id := w], i); }
    }
  }

  lemma CoveredDrop(threads: map<nat, Worker>, part: seq<Event>, batch: seq<Event>, threadId: nat, id: nat)
    requires Covered(threads, part, batch, threadId) && !Unfinished(threads, id)
    ensures Covered(threads - {id}, part, batch, threadId)
  {
    forall i: nat | i < threadId && i < |batch| ensures Unfinished(threads - {id}, i) || batch[i] in part {
      if Unfinished(threads, i) { assert Unfinished(threads - {id}, i); }
    }
  }

  /** The invariant before a step, with what the other lemmas say of the state after it. */
  ghost predicate Stepping(c: Config, s: State, step: Step) {
    && ValidConfig(c) && Enabled(c, s, step)
    && PoolOk(s) && LabelsOk(c, s) && HistoryOk(c, s) && FailOk(s) && DataOk(c, s)
    && LabelsOk(c, Next(c, s, step)) && HistoryOk(c, Next(c, s, step))
  }

  lemma DataApply(c: Config, s: State, id: nat)
    requires Stepping(c, s, Apply(id))
    ensures DataOk(c, Next(c, s, Apply(id)))
  {
    var t := Next(c, s, Apply(id));
    if t.failedAt == None {
      var k: nat, e := s.pushCycle, s.threads[id].event;
      assert Unfinished(s.threads, id);
      DataApplied(c, s.parts, k, s.store, e, PushEffect(s.store, c.user, e));
      if s.mode != Stopped {
        CoveredPut(s.threads, s.parts[k], c.batches[k], s.threadId, id, t.threads[id], s.parts[k] + [e]);
      }
    }
  }

  lemma DataEndDrain(c: Config, s: State)
    requires Stepping(c, s, EndDrain)
    ensures DataOk(c, Next(c, s, EndDrain))
  {
    if s.failedAt == None && s.mode.status {
      DrainedReplica(c, s);
      DrainedHistory(c, s);
      assert s.parts[s.cycle] == [] && PathsOf([]) == {};
      NothingDelivered(c.h, c.user, c.snaps[s.cycle], c.snaps[s.cycle + 1], s.store);
    }
  }

  lemma DataClient(c: Config, s: State, step: Step)
    requires Stepping(c, s, step) && (step.Send? || step.BeginDrain? || step.Reap? || step.NextScan?)
    ensures DataOk(c, Next(c, s, step))
  {
    var t := Next(c, s, step);
    if s.failedAt == None {
      var part, batch := PartAt(s.parts, s.pushCycle), BatchOf(c, s.pushCycle);
      match step {
        case Send => CoveredPut(s.threads, part, batch, s.threadId, s.threadId, t.threads[s.threadId], part);
        case Reap(_) => CoveredDrop(s.threads, part, batch, s.threadId, s.mode.reaped);
        case _ =>
      }
    }
  }

  lemma CoveredMoves(threads: map<nat, Worker>, part: seq<Event>, batch: seq<Event>, threadId: nat, id: nat, w: Worker)
    requires Covered(threads, part, batch, threadId) && id < threadId && id in threads
    requires w.phase == Inside || !Unfinished(threads, id)
    ensures Covered(threads[id := w], part, batch, threadId)
  {
    forall i: nat | i < threadId && i < |batch| ensures Unfinished(threads[id := w], i) || batch[i] in part {
      if i != id && Unfinished(threads, i) { assert Unfinished(threads[id := w], i); }
      if i == id && w.phase == Inside { assert Unfinished(threads[id := w], i); }
    }
  }

  lemma DataWorker(c: Config, s: State, id: nat, step: Step)
    requires ValidConfig(c) && Enabled(c, s, step) && LabelsOk(c, s) && HistoryOk(c, s) && DataOk(c, s)
    requires LabelsOk(c, Next(c, s, step)) && HistoryOk(c, Next(c, s, step))
    requires (step == Acquire(id) || step == Return(id)) && id < s.threadId
    ensures DataOk(c, Next(c, s, step))
  {
    if s.failedAt == None && s.mode != Stopped {
      CoveredMoves(s.threads, PartAt(s.parts, s.pushCycle), BatchOf(c, s.pushCycle), s.threadId, id,
                   Next(c, s, step).threads[id]);
    }
  }

  lemma DataForeign(c: Config, s: State, w: string, e: Event)
    requires ValidConfig(c) && Enabled(c, s, Foreign(w, e)) && LabelsOk(c, s) && HistoryOk(c, s) && DataOk(c, s)
    requires LabelsOk(c, Next(c, s, Foreign(w, e))) && HistoryOk(c, Next(c, s, Foreign(w, e)))
    ensures DataOk(c, Next(c, s, Foreign(w, e)))
  {
    if s.failedAt == None { ForeignKeeps(c, s.parts, s.pushCycle, s.store, w, e); }
  }

  lemma DataFailed(c: Config, s: State, step: Step)
    requires ValidConfig(c) && Enabled(c, s, step) && (step.Fault? || step.Lost?)
    requires LabelsOk(c, Next(c, s, step)) && HistoryOk(c, Next(c, s, step))
    ensures DataOk(c, Next(c, s, step))
  {
    assert Next(c, s, step).failedAt.Some?;
  }

  lemma DataStep(c: Config, s: State, step: Step)
    requires Stepping(c, s, step)
    ensures DataOk(c, Next(c, s, step))
  {
    match step {
      case Apply(id) => DataApply(c, s, id);
      case EndDrain => DataEndDrain(c, s);
      case Acquire(id) => DataWorker(c, s, id, step);
      case Return(id) => DataWorker(c, s, id, step);
      case Foreign(w, e) => DataForeign(c, s, w, e);
      case Fault(_, _) => DataFailed(c, s, step);
      case Lost(_) => DataFailed(c, s, step);
      case _ => DataClient(c, s, step);
    }
  }

  // ---------------------------------------------------------------- all runs

  ghost predicate Inv(c: Config, s: State)
    requires ValidConfig(c)
  {
    PoolOk(s) && FlagOk(s) && LabelsOk(c, s) && HistoryOk(c, s) && FailOk(s) && DataOk(c, s)
  }

  /** One interleaving, of any length. */
  ghost predicate IsRun(c: Config, states: seq<State>, steps: seq<Step>)
    requires ValidConfig(c)
  {
    && |states| == |steps| + 1 && Init(c, states[0])
    && forall i: nat :: i < |steps| ==> Enabled(c, states[i], steps[i]) && states[i + 1] == Next(c, states[i], steps[i])
  }

  lemma {:induction false} FlattenNothing(parts: seq<seq<Event>>)
    requires forall j: nat :: j < |parts| ==> parts[j] == []
    ensures Flatten(parts) == []
  {
    if parts == [] {
    } else {
      FlattenNothing(parts[..|parts| - 1]);
    }
  }

  lemma InitInv(c: Config, s: State)
    requires ValidConfig(c) && Init(c, s)
    ensures Inv(c, s)
  {
    FlattenNothing(s.parts);
  }

  lemma StepInv(c: Config, s: State, step: Step)
    requires ValidConfig(c) && Inv(c, s) && Enabled(c, s, step)
    ensures Inv(c, Next(c, s, step))
  {
    PoolStep(c, s, step);
    FlagStep(c, s, step);
    LabelsStep(c, s, step);
    HistoryStep(c, s, step);
    FailStep(c, s, step);
    DataStep(c, s, step);
  }

  lemma {:induction false} AlwaysInv(c: Config, states: seq<State>, steps: seq<Step>, i: nat)
    requires ValidConfig(c) && IsRun(c, states, steps) && i < |states|
    ensures Inv(c, states[i])
  {
    if i == 0 {
      InitInv(c, states[0]);
    } else {
      AlwaysInv(c, states, steps, i - 1);
      StepInv(c, states[i - 1], steps[i - 1]);
    }
  }

  /** Thread pool, over all runs: the counter is the number of running workers and never exceeds four, the
      keys of the table are consecutive and start at 0 outside a drain, so the next future's key is free;
      and a finished drain leaves table and counter empty. */
  lemma PoolAlways(c: Config, states: seq<State>, steps: seq<Step>, i: nat)
    requires ValidConfig(c) && IsRun(c, states, steps) && i < |states|
    ensures var s := states[i];
            && s.nActive == |s.busy| <= 4
            && (forall id: nat :: id in s.busy <==> id in s.threads && !s.threads[id].phase.Returned?)
            && s.threadId !in s.threads
            && (s.mode == Scanning ==> forall id: nat :: id in s.threads <==> id < s.threadId)
            && (i < |steps| && steps[i] == EndDrain ==> s.nActive == 0)
  {
    AlwaysInv(c, states, steps, i);
    if i < |steps| && steps[i] == EndDrain { assert states[i].busy == {}; }
  }

  /** Linearisation: the flag is up iff exactly one worker is inside Server::push. */
  lemma OneInsideAlways(c: Config, states: seq<State>, steps: seq<Step>, i: nat)
    requires ValidConfig(c) && IsRun(c, states, steps) && i < |states|
    ensures states[i].flag <==> exists id: nat :: InPhase(states[i].threads, id, Inside)
    ensures forall id: nat, other: nat ::
              InPhase(states[i].threads, id, Inside) && InPhase(states[i].threads, other, Inside) ==> id == other
  {
    AlwaysInv(c, states, steps, i);
  }

  /** Whole-run refinement.  At every moment of every interleaving the server's history is the finished
      cycles one after the other, then part of the current one: no event twice, none of a later cycle, and
      the workers at large belong to the current cycle.  As long as nothing has failed, each finished cycle
      is a permutation of its batch. */
  lemma HistoryIsBatchesInOrder(c: Config, states: seq<State>, steps: seq<Step>, i: nat)
    requires ValidConfig(c) && IsRun(c, states, steps) && i < |states|
    ensures var s := states[i];
            && |s.parts| == |c.batches| && s.serial == Flatten(s.parts)
            && (forall j: nat :: j < |s.parts| ==> PartOf(s.parts[j], c.batches[j]))
            && (forall j: nat :: j < |s.parts| && j > s.pushCycle ==> s.parts[j] == [])
            && (forall id: nat :: id in s.threads ==> s.threads[id].cycle == s.pushCycle)
            && (s.failedAt == None ==> forall j: nat :: j < s.pushCycle && j < |s.parts| ==>
                  multiset(s.parts[j]) == multiset(c.batches[j]))
  {
    AlwaysInv(c, states, steps, i);
    var s := states[i];
    if s.failedAt == None {
      forall j: nat | j < s.pushCycle ensures multiset(s.parts[j]) == multiset(c.batches[j]) {
        assert GoodScan(c, j);
        SameEventsSameMultiset(c.h, Known(c.h, c.snaps[j]), c.snaps[j + 1], s.parts[j], c.batches[j]);
      }
    }
  }

  lemma SameEventsSameMultiset(h: Hash, known: map<string, string>, tree: FileSystem, a: seq<Event>, b: seq<Event>)
    requires IsBatch(h, known, tree, a) && IsBatch(h, known, tree, b)
    ensures multiset(a) == multiset(b)
  {
    forall e ensures multiset(a)[e] == multiset(b)[e] {
      OnceInMultiset(a, e);
      OnceInMultiset(b, e);
      assert e in a <==> e in b;
      assert e in multiset(a) <==> e in a;
      assert e in multiset(b) <==> e in b;
    }
  }

  /** Whenever a barrier lets the watcher on to scan k, nothing has failed and the replica, disk and table,
      equals the snapshot scan k started from, whatever the interleaving and the other users did. */
  lemma BarrierMeansReplica(c: Config, states: seq<State>, steps: seq<Step>, i: nat)
    requires ValidConfig(c) && IsRun(c, states, steps) && i < |steps|
    requires steps[i] == EndDrain && states[i + 1].mode == Scanning
    ensures states[i].failedAt == None
    ensures Mirrors(c.h, c.user, c.snaps[states[i].cycle], states[i + 1].store)
  {
    AlwaysInv(c, states, steps, i);
    var s := states[i];
    assert forall id: nat :: !FinishedBadly(s.threads, id);
    DrainedReplica(c, s);
  }

  /** A push of a batch is refused only after a fault: on its own the protocol never produces one. */
  lemma NoPushFailsByItself(c: Config, states: seq<State>, steps: seq<Step>, i: nat, id: nat)
    requires ValidConfig(c) && IsRun(c, states, steps) && i < |steps|
    requires steps[i] == Apply(id) && states[i].failedAt == None
    ensures states[i + 1].failedAt == None
  {
    AlwaysInv(c, states, steps, i);
    var s := states[i];
    assert Unfinished(s.threads, id);
    DataApplied(c, s.parts, s.pushCycle, s.store, s.threads[id].event, PushEffect(s.store, c.user, s.threads[id].event));
  }

  lemma {:induction false} FailureSticks(c: Config, states: seq<State>, steps: seq<Step>, i: nat, j: nat)
    requires ValidConfig(c) && IsRun(c, states, steps) && i <= j < |states|
    requires states[i].failedAt.Some?
    ensures states[j].failedAt == states[i].failedAt
    decreases j
  {
    if i == j {
    } else {
      FailureSticks(c, states, steps, i, j - 1);
      assert states[j] == Next(c, states[j - 1], steps[j - 1]);
    }
  }

  /** Fail-stop.  Once a push of cycle k has failed, no event of a later batch is sent any more, and the
      next barrier stops the watcher for good. */
  lemma FailStop(c: Config, states: seq<State>, steps: seq<Step>, i: nat, j: nat)
    requires ValidConfig(c) && IsRun(c, states, steps) && i <= j < |steps|
    requires states[i].failedAt.Some?
    ensures states[j].pushCycle == states[i].failedAt.value
    ensures steps[j] == Send ==> states[j].cycle == states[i].failedAt.value
    ensures steps[j] == EndDrain ==> states[j + 1].mode == Stopped
    ensures states[j].mode == Stopped ==> states[j + 1].mode == Stopped && steps[j] != Send
  {
    FailureSticks(c, states, steps, i, j);
    AlwaysInv(c, states, steps, j);
    if steps[j] == EndDrain { assert forall id: nat :: !FinishedBadly(states[j].threads, id); }
  }
}

/** One set of asynchronous requests and the drain after it, as the probe and the restore use the pool.  Any
    number of workers run at once, requests may fail or get lost, replies may get lost, and others act in
    between.  What a drain that returns true means is proved once and used for both. */
module Draining {
  import opened Paths
  import opened Disk
  import opened PathTable
  import opened Server
  import opened Diff
  import opened Confluence
  import opened Reconcile
  import opened Restoring

  /** What happens: request `id` is carried out, to a good end or not, or somebody else does something. */
  datatype Deed<X> = Task(id: nat, ok: bool) | Other(deed: X)

  datatype Mode = Sending | Reaping(status: bool, reaped: nat) | Over(status: bool)

  /** `threads` holds the futures not yet erased: None while the worker runs, then its result. */
  datatype State<X> = State(sent: nat, mode: Mode, threads: map<nat, Option<bool>>, history: seq<Deed<X>>)

  datatype Step<X> =
    | Send
    | Answer(id: nat, done: bool, told: bool)
    | Lose(id: nat)
    | Act(deed: X)
    | BeginDrain
    | Reap(late: bool)
    | EndDrain

  predicate Enabled<X>(total: nat, s: State<X>, step: Step<X>) {
    match step
    case Send => s.mode == Sending && s.sent < total
    case Answer(id, done, told) => id in s.threads && s.threads[id] == None && (told ==> done)
    case Lose(id) => id in s.threads && s.threads[id] == None
    case Act(_) => true
    case BeginDrain => s.mode == Sending && s.sent == total
    case Reap(_) => s.mode.Reaping? && s.mode.reaped in s.threads && s.threads[s.mode.reaped].Some?
    case EndDrain => s.mode.Reaping? && s.threads == map[]
  }

  function Next<X>(total: nat, s: State<X>, step: Step<X>): State<X>
    requires Enabled(total, s, step)
  {
    match step
    case Send => s.(sent := s.sent + 1, threads := s.threads[s.sent := None])
    case Answer(id, done, told) => s.(threads := s.threads[id := Some(told)], history := s.history + [Task(id, done)])
    case Lose(id) => s.(threads := s.threads[id := Some(false)])
    case Act(deed) => s.(history := s.history + [Other(deed)])
    case BeginDrain => s.(mode := Reaping(true, 0))
    case Reap(late) =>
      var id := s.mode.reaped;
      s.(threads := s.threads - {id}, mode := Reaping(s.mode.status && !late && s.threads[id].value, id + 1))
    case EndDrain => s.(mode := Over(s.mode.status))
  }

  ghost predicate IsRun<X(!new)>(total: nat, states: seq<State<X>>, steps: seq<Step<X>>) {
    && |states| == |steps| + 1 && states[0] == State(0, Sending, map[], [])
    && forall i: nat :: i < |steps| ==> Enabled(total, states[i], steps[i]) && states[i + 1] == Next(total, states[i], steps[i])
  }

  ghost predicate CarriedOut<X(!new)>(history: seq<Deed<X>>, id: nat) {
    exists k :: 0 <= k < |history| && history[k] == Task(id, true)
  }

  /** No request is carried out twice. */
  ghost predicate Once<X(!new)>(history: seq<Deed<X>>) {
    forall j, k :: 0 <= j < k < |history| && history[j].Task? && history[k].Task? ==> history[j].id != history[k].id
  }

  function Reaped(mode: Mode, sent: nat): nat {
    match mode case Sending => 0 case Reaping(_, reaped) => reaped case Over(_) => sent
  }

  ghost predicate Inv<X(!new)>(total: nat, s: State<X>) {
    && s.sent <= total && (s.mode != Sending ==> s.sent == total)
    && (forall id: nat :: id in s.threads <==> Reaped(s.mode, s.sent) <= id < s.sent)
    && Once(s.history)
    && (forall k :: 0 <= k < |s.history| && s.history[k].Task? ==>
          s.history[k].id < s.sent && (s.history[k].id in s.threads ==> s.threads[s.history[k].id].Some?))
    && (forall id: nat :: id in s.threads && s.threads[id] == Some(true) ==> CarriedOut(s.history, id))
    && (s.mode.Reaping? && s.mode.status ==> forall id: nat :: id < s.mode.reaped ==> CarriedOut(s.history, id))
    && (s.mode.Over? && s.mode.status ==> forall id: nat :: id < total ==> CarriedOut(s.history, id))
  }

  lemma CarriedOutStays<X(!new)>(history: seq<Deed<X>>, deed: Deed<X>)
    ensures forall id: nat :: CarriedOut(history, id) ==> CarriedOut(history + [deed], id)
    ensures deed.Task? && deed.ok ==> CarriedOut(history + [deed], deed.id)
  {
    forall id: nat | CarriedOut(history, id) ensures CarriedOut(history + [deed], id) {
      var k :| 0 <= k < |history| && history[k] == Task(id, true);
      assert (history + [deed])[k] == Task(id, true);
    }
    assert (history + [deed])[|history|] == deed;
  }

  lemma AnswerInv<X(!new)>(total: nat, s: State<X>, id: nat, done: bool, told: bool)
    requires Inv(total, s) && Enabled(total, s, Answer(id, done, told))
    ensures Inv(total, Next(total, s, Answer(id, done, told)))
  {
    CarriedOutStays(s.history, Task(id, done));
    assert Once(s.history + [Task(id, done)]);
  }

  lemma StepInv<X(!new)>(total: nat, s: State<X>, step: Step<X>)
    requires Inv(total, s) && Enabled(total, s, step)
    ensures Inv(total, Next(total, s, step))
  {
    match step {
      case Answer(id, done, told) => AnswerInv(total, s, id, done, told);
      case Act(deed) => CarriedOutStays(s.history, Other(deed));
      case _ =>
    }
  }

  lemma {:induction false} AlwaysInv<X(!new)>(total: nat, states: seq<State<X>>, steps: seq<Step<X>>, i: nat)
    requires IsRun(total, states, steps) && i < |states|
    ensures Inv(total, states[i])
  {
    if i == 0 {
    } else {
      AlwaysInv(total, states, steps, i - 1);
      StepInv(total, states[i - 1], steps[i - 1]);
    }
  }

  /** A history in which every request was carried out once, and well. */
  ghost predicate Clean<X(!new)>(total: nat, history: seq<Deed<X>>) {
    && Once(history)
    && (forall id: nat :: id < total ==> CarriedOut(history, id))
    && (forall k :: 0 <= k < |history| && history[k].Task? ==> history[k].id < total && history[k].ok)
  }

  /** When a drain returns true, every request has been carried out exactly once, and none of them badly. */
  lemma TrueMeansClean<X(!new)>(total: nat, states: seq<State<X>>, steps: seq<Step<X>>, i: nat)
    requires IsRun(total, states, steps) && i < |states| && states[i].mode == Over(true)
    ensures Clean(total, states[i].history)
  {
    AlwaysInv(total, states, steps, i);
    var history := states[i].history;
    forall k | 0 <= k < |history| && history[k].Task? ensures history[k].ok {
      assert CarriedOut(history, history[k].id);
    }
  }

  // ---------------------------------------------------------------- what the drain returns

  /** Something went wrong: a request was answered badly or lost, or a wait ran out. */
  predicate Wrong<X>(step: Step<X>) {
    match step
    case Answer(_, _, told) => !told
    case Lose(_) => true
    case Reap(late) => late
    case _ => false
  }

  predicate AnyWrong<X>(steps: seq<Step<X>>, i: nat)
    requires i <= |steps|
  {
    i > 0 && (AnyWrong(steps, i - 1) || Wrong(steps[i - 1]))
  }

  ghost predicate HoldsFalse(threads: map<nat, Option<bool>>) {
    exists id: nat :: id in threads && threads[id] == Some(false)
  }

  /** What went wrong is in the table or in the status, until the drain is over, and nothing else is. */
  ghost predicate Tells<X(!new)>(s: State<X>, wrong: bool) {
    match s.mode
    case Sending => wrong == HoldsFalse(s.threads)
    case Reaping(status, _) => wrong == (!status || HoldsFalse(s.threads))
    case Over(status) => true
  }

  lemma HoldsFalsePut(threads: map<nat, Option<bool>>, id: nat, held: Option<bool>)
    requires id in threads ==> threads[id] == None
    ensures HoldsFalse(threads[id := held]) <==> HoldsFalse(threads) || held == Some(false)
  {
    if HoldsFalse(threads) {
      var k: nat :| k in threads && threads[k] == Some(false);
      assert threads[id := held][k] == Some(false);
    }
    if held == Some(false) { assert threads[id := held][id] == Some(false); }
  }

  lemma HoldsFalseDrop(threads: map<nat, Option<bool>>, id: nat)
    requires id in threads
    ensures HoldsFalse(threads) <==> HoldsFalse(threads - {id}) || threads[id] == Some(false)
  {
    if HoldsFalse(threads) && threads[id] != Some(false) {
      var k: nat :| k in threads && threads[k] == Some(false);
      assert (threads - {id})[k] == Some(false);
    }
  }

  lemma TellsStep<X(!new)>(total: nat, s: State<X>, step: Step<X>, wrong: bool)
    requires Inv(total, s) && Enabled(total, s, step) && Tells(s, wrong)
    ensures Tells(Next(total, s, step), wrong || Wrong(step))
  {
    match step {
      case Send => HoldsFalsePut(s.threads, s.sent, None);
      case Answer(id, _, told) => HoldsFalsePut(s.threads, id, Some(told));
      case Lose(id) => HoldsFalsePut(s.threads, id, Some(false));
      case Reap(_) => HoldsFalseDrop(s.threads, s.mode.reaped);
      case _ =>
    }
  }

  lemma {:induction false} AlwaysTells<X(!new)>(total: nat, states: seq<State<X>>, steps: seq<Step<X>>, i: nat)
    requires IsRun(total, states, steps) && i <= |steps|
    ensures Tells(states[i], AnyWrong(steps, i))
  {
    if i == 0 {
    } else {
      AlwaysTells(total, states, steps, i - 1);
      AlwaysInv(total, states, steps, i - 1);
      TellsStep(total, states[i - 1], steps[i - 1], AnyWrong(steps, i - 1));
    }
  }

  lemma {:induction false} AnyWrongIsSome<X>(steps: seq<Step<X>>, i: nat)
    requires i <= |steps|
    ensures AnyWrong(steps, i) <==> exists j: nat :: j < i && Wrong(steps[j])
  {
    if i > 0 { AnyWrongIsSome(steps, i - 1); }
  }

  /** The drain's result, over all runs: true if and only if every request was answered well and none got lost,
      and no wait ran out; and by then every request has been sent and has left the table. */
  lemma DrainDecides<X(!new)>(total: nat, states: seq<State<X>>, steps: seq<Step<X>>, i: nat)
    requires IsRun(total, states, steps) && i < |steps| && steps[i] == EndDrain
    ensures states[i + 1].sent == total && states[i + 1].threads == map[]
    ensures states[i + 1].mode
            == Over(forall j: nat :: j < i ==>
                      !steps[j].Lose? && (steps[j].Answer? ==> steps[j].told) && (steps[j].Reap? ==> !steps[j].late))
  {
    AlwaysInv(total, states, steps, i);
    AlwaysTells(total, states, steps, i);
    AnyWrongIsSome(steps, i);
    assert !HoldsFalse(states[i].threads);
    assert forall j: nat :: j < i ==>
      (Wrong(steps[j]) <==>
         !(!steps[j].Lose? && (steps[j].Answer? ==> steps[j].told) && (steps[j].Reap? ==> !steps[j].late)));
  }

  lemma RunOn<X(!new)>(total: nat, states: seq<State<X>>, steps: seq<Step<X>>, step: Step<X>)
    returns (states': seq<State<X>>, steps': seq<Step<X>>)
    requires IsRun(total, states, steps) && Enabled(total, states[|steps|], step)
    ensures IsRun(total, states', steps') && states'[|steps'|] == Next(total, states[|steps|], step)
  {
    states', steps' := states + [Next(total, states[|steps|], step)], steps + [step];
  }

  /** The runs leave nothing out: whoever is at work may get lost, may fail and say so, may succeed and be heard or
      not, and others may do anything at any moment. */
  lemma AnythingMayHappen<X(!new)>(total: nat, s: State<X>, id: nat, done: bool, told: bool, deed: X)
    returns (answer: Step<X>, lose: Step<X>, act: Step<X>)
    requires id in s.threads && s.threads[id] == None && (told ==> done)
    ensures Enabled(total, s, answer) && Enabled(total, s, lose) && Enabled(total, s, act)
    ensures Next(total, s, answer) == s.(threads := s.threads[id := Some(told)], history := s.history + [Task(id, done)])
    ensures Next(total, s, lose) == s.(threads := s.threads[id := Some(false)])
    ensures Next(total, s, act) == s.(history := s.history + [Other(deed)])
  {
    answer, lose, act := Answer(id, done, told), Lose(id), Act(deed);
  }

  /** Futures `lo` up to `hi`, each with a true result. */
  function Held(lo: nat, hi: nat): (m: map<nat, Option<bool>>)
    ensures forall id: nat :: id in m <==> lo <= id < hi
    ensures forall id: nat :: id in m ==> m[id] == Some(true)
    decreases if lo < hi then hi - lo else 0
  {
    if lo >= hi then map[] else Held(lo + 1, hi)[lo := Some(true)]
  }

  function InOrder<X>(n: nat): seq<Deed<X>> {
    seq(n, id requires 0 <= id < n => Task(id, true))
  }

  lemma {:induction false} AnsweredAtOnce<X(!new)>(total: nat, n: nat) returns (states: seq<State<X>>, steps: seq<Step<X>>)
    requires n <= total
    ensures IsRun(total, states, steps) && states[|steps|] == State(n, Sending, Held(0, n), InOrder(n))
  {
    if n == 0 {
      states, steps := [State(0, Sending, map[], [])], [];
    } else {
      states, steps := AnsweredAtOnce(total, n - 1);
      states, steps := RunOn(total, states, steps, Send);
      states, steps := RunOn(total, states, steps, Answer(n - 1, true, true));
      assert states[|steps|].threads == Held(0, n);
    }
  }

  lemma {:induction false} Erased<X(!new)>(total: nat, n: nat) returns (states: seq<State<X>>, steps: seq<Step<X>>)
    requires n <= total
    ensures IsRun(total, states, steps) && states[|steps|] == State(total, Reaping(true, n), Held(n, total), InOrder(total))
  {
    if n == 0 {
      states, steps := AnsweredAtOnce(total, total);
      states, steps := RunOn(total, states, steps, BeginDrain);
    } else {
      states, steps := Erased(total, n - 1);
      states, steps := RunOn(total, states, steps, Reap(false));
      assert states[|steps|].threads == Held(n, total);
    }
  }

  /** Whatever their number, there is a run that carries the requests out in order and whose drain returns true. */
  lemma CleanDrainExists<X(!new)>(total: nat) returns (states: seq<State<X>>, steps: seq<Step<X>>)
    ensures IsRun(total, states, steps) && states[|steps|].mode == Over(true) && |states[|steps|].history| == total
    ensures forall id: nat :: id < total ==> states[|steps|].history[id] == Task(id, true)
  {
    states, steps := Erased(total, total);
    assert states[|steps|].threads == map[];
    states, steps := RunOn(total, states, steps, EndDrain);
  }

  // ---------------------------------------------------------------- the probe

  /** The server's history: the probe's own pushes and those of others. */
  function CallOf(u: string, batch: seq<Event>, deed: Deed<Call>): Call {
    match deed
    case Task(id, _) => Call(u, if id < |batch| then batch[id] else Unknown(""))
    case Other(call) => call
  }

  function CallsOf(u: string, batch: seq<Event>, history: seq<Deed<Call>>): (calls: seq<Call>)
    ensures |calls| == |history|
    ensures forall k :: 0 <= k < |history| ==> calls[k] == CallOf(u, batch, history[k])
  {
    seq(|history|, k requires 0 <= k < |history| => CallOf(u, batch, history[k]))
  }

  /** The server's answers are Server::push's: as long as nothing has gone wrong, a push is answered well only
      if it was accepted on the store as it then was.  The others are other users. */
  ghost predicate ServerAnswers(st: Store, u: string, batch: seq<Event>, history: seq<Deed<Call>>) {
    && (forall k :: 0 <= k < |history| && history[k].Other? ==> ValidUser(history[k].deed.user) && history[k].deed.user != u)
    && ((forall k :: 0 <= k < |history| && history[k].Task? ==> history[k].ok) ==>
          forall k: nat :: k < |history| && history[k].Task? ==>
            PushEffect(ReplayTo(st, CallsOf(u, batch, history), k), u, CallOf(u, batch, history[k]).event).ok)
  }

  /** In a clean history the user's calls are the requests, each once. */
  lemma CleanCarriesBatch(h: Hash, u: string, schema: map<string, string>, now: FileSystem, st: Store,
                          batch: seq<Event>, history: seq<Deed<Call>>)
    requires ValidUser(u) && IsBatch(h, schema, now, batch)
    requires Clean(|batch|, history) && ServerAnswers(st, u, batch, history)
    ensures CarriesBatch(h, u, schema, now, CallsOf(u, batch, history))
    ensures AllAccepted(st, u, CallsOf(u, batch, history))
  {
    var calls := CallsOf(u, batch, history);
    forall i | 0 <= i < |calls| && calls[i].user == u
      ensures history[i].Task? && history[i].id < |batch| && calls[i].event == batch[history[i].id] {
    }
    forall i, j | 0 <= i < j < |calls| && calls[i].user == u && calls[j].user == u
      ensures calls[i].event.path != calls[j].event.path {
      assert history[i].id != history[j].id;
    }
  }

  /** And nothing the diff calls for is missing. */
  lemma CleanDelivers(h: Hash, u: string, schema: map<string, string>, now: FileSystem,
                      batch: seq<Event>, history: seq<Deed<Call>>, p: string)
    requires IsBatch(h, schema, now, batch) && Clean(|batch|, history) && EventAt(h, schema, now, p).Some?
    ensures p in DeliveredTo(CallsOf(u, batch, history), u, |history|)
  {
    var calls := CallsOf(u, batch, history);
    var id: nat :| id < |batch| && batch[id] == EventAt(h, schema, now, p).value;
    assert CarriedOut(history, id);
    var k :| 0 <= k < |history| && history[k] == Task(id, true);
    assert calls[k] == Call(u, batch[id]);
  }

  lemma CleanCarriesAll(h: Hash, u: string, schema: map<string, string>, now: FileSystem, st: Store,
                        batch: seq<Event>, history: seq<Deed<Call>>)
    requires ValidUser(u) && IsBatch(h, schema, now, batch)
    requires Clean(|batch|, history) && ServerAnswers(st, u, batch, history)
    ensures CarriesAll(h, u, schema, now, CallsOf(u, batch, history))
    ensures AllAccepted(st, u, CallsOf(u, batch, history))
  {
    CleanCarriesBatch(h, u, schema, now, st, batch, history);
    forall p | EventAt(h, schema, now, p).Some? ensures p in DeliveredTo(CallsOf(u, batch, history), u, |history|) {
      CleanDelivers(h, u, schema, now, batch, history, p);
    }
  }

  /** Reconciliation through the pool.  When the drain that ends a probe returns true, whatever the
      interleaving of its workers and of other users, and from any starting store, the user's schema is the
      client's map if and only if no path was a file on one side and a directory on the other. */
  lemma ProbeThroughPool(h: Hash, u: string, schema: map<string, string>, now: FileSystem, st: Store, batch: seq<Event>,
                         states: seq<State<Call>>, steps: seq<Step<Call>>, i: nat)
    requires NonEmpty(h) && ValidUser(u) && IsSchema(st.rows, u, schema) && HashedRows(st.rows, u)
    requires IsBatch(h, schema, now, batch)
    requires IsRun(|batch|, states, steps) && i < |states| && states[i].mode == Over(true)
    requires ServerAnswers(st, u, batch, states[i].history)
    ensures var calls := CallsOf(u, batch, states[i].history);
            IsSchema(ReplayTo(st, calls, |calls|).rows, u, Known(h, now)) <==> KindsAgree(schema, now)
  {
    TrueMeansClean(|batch|, states, steps, i);
    CleanCarriesAll(h, u, schema, now, st, batch, states[i].history);
    ProbeReconciles(h, u, schema, now, st, CallsOf(u, batch, states[i].history));
  }

  // ---------------------------------------------------------------- the restore

  /** The requests carried out, in that order. */
  function TasksOf<X>(history: seq<Deed<X>>): seq<nat> {
    if history == [] then []
    else
      var last := history[|history| - 1];
      TasksOf(history[..|history| - 1]) + if last.Task? then [last.id] else []
  }

  ghost predicate HasTask<X(!new)>(history: seq<Deed<X>>, id: nat) {
    exists k :: 0 <= k < |history| && history[k].Task? && history[k].id == id
  }

  lemma HasTaskSnoc<X(!new)>(history: seq<Deed<X>>, last: Deed<X>, id: nat)
    ensures HasTask(history + [last], id) <==> HasTask(history, id) || (last.Task? && last.id == id)
  {
    var more := history + [last];
    assert more[|history|] == last;
    if HasTask(history, id) {
      var k :| 0 <= k < |history| && history[k].Task? && history[k].id == id;
      assert more[k] == history[k];
    }
  }

  lemma {:induction false} TasksOnce<X(!new)>(history: seq<Deed<X>>)
    requires Once(history)
    ensures forall j, k :: 0 <= j < k < |TasksOf(history)| ==> TasksOf(history)[j] != TasksOf(history)[k]
    ensures forall id: nat :: id in TasksOf(history) <==> HasTask(history, id)
  {
    if history == [] {
    } else {
      var before, last := history[..|history| - 1], history[|history| - 1];
      assert history == before + [last];
      TasksOnce(before);
      forall id: nat ensures HasTask(history, id) <==> HasTask(before, id) || (last.Task? && last.id == id) {
        HasTaskSnoc(before, last, id);
      }
      assert last.Task? ==> !HasTask(before, last.id);
    }
  }

  function RepliesTo(st: Store, u: string, paths: seq<string>, order: seq<nat>): (replies: seq<Content>)
    requires forall k :: 0 <= k < |order| ==> order[k] < |paths|
    ensures |replies| == |order|
    ensures forall k :: 0 <= k < |order| ==> replies[k] == GetReply(st.disk, u, paths[order[k]])
  {
    seq(|order|, k requires 0 <= k < |order| => GetReply(st.disk, u, paths[order[k]]))
  }

  /** Restoring through the pool.  When the drain that ends a restore returns true, whatever the interleaving
      of its workers, the emptied directory has become the tree the server holds. */
  lemma RestoreThroughPool<X(!new)>(h: Hash, u: string, tree: FileSystem, st: Store, paths: seq<string>,
                                    disk: FileSystem, root: string,
                                    states: seq<State<X>>, steps: seq<Step<X>>, i: nat)
    requires NonEmpty(h) && ParentClosed(tree) && Mirrors(h, u, tree, st) && ParentIsDir(RemoveAll(disk, root), root)
    requires forall p :: p in paths <==> RowAt(st.rows, u, p).Some?
    requires forall j, k :: 0 <= j < k < |paths| ==> paths[j] != paths[k]
    requires IsRun(|paths|, states, steps) && i < |states| && states[i].mode == Over(true)
    ensures var order := TasksOf(states[i].history);
            && (forall k :: 0 <= k < |order| ==> order[k] < |paths|)
            && var replies := RepliesTo(st, u, paths, order);
               forall p :: At(SavedTo(Emptied(disk, root), root, replies, |replies|), root, p) == Lookup(tree, p)
  {
    var history := states[i].history;
    TrueMeansClean(|paths|, states, steps, i);
    TasksOnce(history);
    var order := TasksOf(history);
    forall k | 0 <= k < |order| ensures order[k] < |paths| { assert order[k] in order; }
    EmptiedIsEmpty(disk, root);
    AllReplied(h, u, tree, st, paths, history);
    RestoreRebuildsTree(h, u, tree, st, Emptied(disk, root), root, RepliesTo(st, u, paths, order));
  }

  lemma AllReplied<X(!new)>(h: Hash, u: string, tree: FileSystem, st: Store, paths: seq<string>, history: seq<Deed<X>>)
    requires Mirrors(h, u, tree, st) && Clean(|paths|, history)
    requires forall p :: p in paths <==> RowAt(st.rows, u, p).Some?
    requires forall j, k :: 0 <= j < k < |paths| ==> paths[j] != paths[k]
    requires forall k :: 0 <= k < |TasksOf(history)| ==> TasksOf(history)[k] < |paths|
    ensures RepliesFor(st, u, tree, RepliesTo(st, u, paths, TasksOf(history)))
  {
    TasksOnce(history);
    StoredPathsAreTree(h, u, tree, st, paths);
    var replies := RepliesTo(st, u, paths, TasksOf(history));
    RepliesDistinct(st, u, paths, TasksOf(history));
    forall p | p in tree ensures p in SavedPaths(replies, |replies|) { PathReplied(st, u, paths, history, p); }
    assert SavedPaths(replies, |replies|) == tree.Keys;
  }

  /** Each reply is the server's, to a path of the list, and no two are to the same. */
  lemma RepliesDistinct(st: Store, u: string, paths: seq<string>, order: seq<nat>)
    requires forall k :: 0 <= k < |order| ==> order[k] < |paths|
    requires forall j, k :: 0 <= j < k < |order| ==> order[j] != order[k]
    requires forall j, k :: 0 <= j < k < |paths| ==> paths[j] != paths[k]
    ensures var replies := RepliesTo(st, u, paths, order);
            && (forall i :: 0 <= i < |replies| ==> replies[i] == GetReply(st.disk, u, replies[i].path))
            && (forall i, j :: 0 <= i < j < |replies| ==> replies[i].path != replies[j].path)
            && (forall i :: 0 <= i < |replies| ==> replies[i].path in paths)
  {
    var replies := RepliesTo(st, u, paths, order);
    forall i | 0 <= i < |replies| ensures replies[i].path == paths[order[i]] { }
    forall i, j | 0 <= i < j < |replies| ensures replies[i].path != replies[j].path {
      assert order[i] != order[j];
    }
  }

  lemma PathReplied<X(!new)>(st: Store, u: string, paths: seq<string>, history: seq<Deed<X>>, p: string)
    requires Clean(|paths|, history) && p in paths
    requires forall k :: 0 <= k < |TasksOf(history)| ==> TasksOf(history)[k] < |paths|
    ensures var replies := RepliesTo(st, u, paths, TasksOf(history));
            p in SavedPaths(replies, |replies|)
  {
    var id: nat :| id < |paths| && paths[id] == p;
    TaskDone(history, |paths|, id);
    var k :| 0 <= k < |TasksOf(history)| && TasksOf(history)[k] == id;
    assert RepliesTo(st, u, paths, TasksOf(history))[k].path == p;
  }

  lemma TaskDone<X(!new)>(history: seq<Deed<X>>, total: nat, id: nat)
    requires Clean(total, history) && id < total
    ensures id in TasksOf(history)
  {
    TasksOnce(history);
    assert CarriedOut(history, id);
    assert HasTask(history, id);
  }
}

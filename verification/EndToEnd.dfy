/** From the watched directory to the restored one, across all the parts. */
module EndToEnd {
  import opened Paths
  import opened Disk
  import opened Server
  import opened Diff
  import opened Confluence
  import opened Delivery
  import opened Restoring
  import opened Watcher

  /** A watch whose scans can be exact: whole trees, steady from one snapshot to the next, no hash repeated
      by a change; `batches` are the events its scans emitted. */
  ghost predicate IsWatch(h: Hash, user: string, snaps: seq<Snapshot>, batches: seq<seq<Event>>) {
    && ValidUser(user) && NonEmpty(h) && |snaps| == |batches| + 1 && |batches| > 0
    && (forall k: nat :: k < |snaps| ==> ParentClosed(TreeOf(snaps[k])))
    && (forall k: nat :: k < |batches| ==>
          Steady(h, snaps[k], snaps[k + 1]) && NoCollision(h, TreeOf(snaps[k]), TreeOf(snaps[k + 1])))
    && BatchChain(h, snaps, batches, |batches|)
  }

  /** What a watch emits is what the delivery protocol takes: the theorems about its runs apply. */
  ghost function ConfigOf(h: Hash, user: string, snaps: seq<Snapshot>, batches: seq<seq<Event>>): (c: Config)
    requires IsWatch(h, user, snaps, batches)
    ensures ValidConfig(c) && c.batches == batches && |c.snaps| == |snaps|
    ensures forall k: nat :: k < |snaps| ==> c.snaps[k] == TreeOf(snaps[k])
  {
    Config(h, user, seq(|snaps|, k requires 0 <= k < |snaps| => TreeOf(snaps[k])), batches)
  }

  /** Snapshot, delivery, restore.  Take any watch, any run of its delivery with any interleaving of workers
      and other users, and any barrier of that run that let the watcher on.  Restoring from the server as
      the barrier left it, in any order of the restore workers, into an emptied directory, gives back the
      snapshot the barrier stands for. */
  lemma {:induction false} WatchThenRestore(h: Hash, user: string, snaps: seq<Snapshot>, batches: seq<seq<Event>>,
                         states: seq<State>, steps: seq<Step>, i: nat,
                         disk: FileSystem, root: string, replies: seq<Content>)
    requires IsWatch(h, user, snaps, batches)
    requires IsRun(ConfigOf(h, user, snaps, batches), states, steps) && i < |steps|
    requires steps[i] == EndDrain && states[i + 1].mode == Scanning
    requires RepliesFor(states[i + 1].store, user, TreeOf(snaps[states[i].cycle]), replies)
    requires ParentIsDir(RemoveAll(disk, root), root)
    ensures forall p :: At(SavedTo(Emptied(disk, root), root, replies, |replies|), root, p)
                        == Lookup(TreeOf(snaps[states[i].cycle]), p)
  {
    var c := ConfigOf(h, user, snaps, batches);
    BarrierMeansReplica(c, states, steps, i);
    EmptiedIsEmpty(disk, root);
    RestoreRebuildsTree(h, user, c.snaps[states[i].cycle], states[i + 1].store, Emptied(disk, root), root, replies);
  }
}

/** Restoring a tree: the client asks for every stored path and its workers save the replies, in whatever
    order they come, into an emptied directory. */
module Restoring {
  import opened Paths
  import opened Disk
  import opened PathTable
  import opened Server
  import opened Diff
  import opened Confluence

  /** The part of get_and_save_ that runs under the client's flag. */
  function SaveEffect(disk: FileSystem, root: string, reply: Content): Attempt {
    var v := Join(root, reply.path);
    var made := MakeDirs(disk, root, reply.path);
    if !made.ok then made
    else if reply.isFile then Attempt(WriteFile(made.disk, v, reply.data), true)
    else EnsureDirectory(made.disk, v)
  }

  /** fs::remove_all(root); fs::create_directory(root) */
  function Emptied(disk: FileSystem, root: string): FileSystem {
    CreateDirectory(RemoveAll(disk, root), root).disk
  }

  /** `root` is an existing directory with nothing in it. */
  ghost predicate IsEmptyRoot(disk: FileSystem, root: string) {
    IsDir(disk, root) && forall p :: At(disk, root, p) == None
  }

  lemma EmptiedIsEmpty(disk: FileSystem, root: string)
    requires ParentIsDir(RemoveAll(disk, root), root)
    ensures IsEmptyRoot(Emptied(disk, root), root)
  {
    forall p ensures At(Emptied(disk, root), root, p) == None {
      JoinUnder(root, p);
    }
  }

  /** Nothing outside the root is touched. */
  lemma EmptiedElsewhere(disk: FileSystem, root: string)
    ensures forall v :: v != root && !Under(root, v) ==> Lookup(Emptied(disk, root), v) == Lookup(disk, v)
  {
  }

  lemma SaveElsewhere(disk: FileSystem, root: string, reply: Content)
    ensures SameElsewhere(root, disk, SaveEffect(disk, root, reply).disk)
  {
    MakeDirsLocal(disk, root, reply.path, 0);
    JoinUnder(root, reply.path);
  }

  /** Which saves succeed, on any disk: those whose way can be made, and a directory only where there is something
      already or it can be made.  One that fails has made what it could of the way, and nothing else. */
  lemma SaveSucceeds(disk: FileSystem, root: string, reply: Content)
    ensures var r, made, v := SaveEffect(disk, root, reply), MakeDirs(disk, root, reply.path), Join(root, reply.path);
            && (r.ok <==> made.ok && (reply.isFile || v in made.disk || ParentIsDir(made.disk, v)))
            && (!r.ok ==> r.disk == made.disk)
            && (r.ok && reply.isFile && At(r.disk, root, reply.path) != Some(File(reply.data)) ==>
                  IsDir(made.disk, v) || !ParentIsDir(made.disk, v))
  {
  }

  /** The replies a server that mirrors `tree` gives are the tree's own nodes. */
  lemma RepliesAreTree(h: Hash, u: string, tree: FileSystem, st: Store, p: string)
    requires Mirrors(h, u, tree, st) && p in tree
    ensures var reply := GetReply(st.disk, u, p);
            reply.path == p && reply.isFile == tree[p].File? && (reply.isFile ==> reply.data == tree[p].data)
  {
    assert At(st.disk, u, p) == Lookup(tree, p);
  }

  /** The path schema of such a server lists exactly the tree's paths. */
  lemma StoredPathsAreTree(h: Hash, u: string, tree: FileSystem, st: Store, paths: seq<string>)
    requires Mirrors(h, u, tree, st)
    requires forall p :: p in paths <==> RowAt(st.rows, u, p).Some?
    ensures forall p :: p in paths <==> p in tree
  {
    forall p ensures p in paths <==> p in tree {
      assert RowAt(st.rows, u, p) == RowFor(h, u, tree, p);
    }
  }

  /** Saving one more reply: it succeeds and the disk is the closed form with its path added. */
  lemma SaveStep(h: Hash, root: string, tree: FileSystem, done: set<string>, disk: FileSystem, reply: Content)
    requires NonEmpty(h) && ParentClosed(tree) && DiskAfter(root, map[], tree, done, disk)
    requires reply.path in tree && reply.path !in done
    requires reply.isFile == tree[reply.path].File? && (reply.isFile ==> reply.data == tree[reply.path].data)
    ensures SaveEffect(disk, root, reply).ok
    ensures DiskAfter(root, map[], tree, done + {reply.path}, SaveEffect(disk, root, reply).disk)
  {
    if reply.isFile {
      CreatedFileDisk(h, root, map[], tree, done, disk, reply.path);
    } else {
      CreatedDirDisk(h, root, map[], tree, done, disk, reply.path);
    }
  }

  /** The local disk after the first `k` workers have saved their replies. */
  function SavedTo(disk: FileSystem, root: string, replies: seq<Content>, k: nat): FileSystem
    requires k <= |replies|
  {
    if k == 0 then disk else SaveEffect(SavedTo(disk, root, replies, k - 1), root, replies[k - 1]).disk
  }

  function SavedPaths(replies: seq<Content>, k: nat): set<string>
    requires k <= |replies|
  {
    set i | 0 <= i < k :: replies[i].path
  }

  /** One reply of the server for each path of `tree`, in any order. */
  ghost predicate RepliesFor(st: Store, u: string, tree: FileSystem, replies: seq<Content>) {
    && (forall i :: 0 <= i < |replies| ==> replies[i] == GetReply(st.disk, u, replies[i].path))
    && (forall i, j :: 0 <= i < j < |replies| ==> replies[i].path != replies[j].path)
    && SavedPaths(replies, |replies|) == tree.Keys
  }

  lemma NextSave(h: Hash, u: string, tree: FileSystem, st: Store,
                 disk: FileSystem, root: string, replies: seq<Content>, k: nat)
    requires NonEmpty(h) && ParentClosed(tree) && Mirrors(h, u, tree, st)
    requires RepliesFor(st, u, tree, replies) && k < |replies|
    requires DiskAfter(root, map[], tree, SavedPaths(replies, k), disk)
    ensures SaveEffect(disk, root, replies[k]).ok
    ensures DiskAfter(root, map[], tree, SavedPaths(replies, k + 1), SaveEffect(disk, root, replies[k]).disk)
  {
    assert replies[k].path in SavedPaths(replies, |replies|);
    RepliesAreTree(h, u, tree, st, replies[k].path);
    assert SavedPaths(replies, k + 1) == SavedPaths(replies, k) + {replies[k].path};
    SaveStep(h, root, tree, SavedPaths(replies, k), disk, replies[k]);
  }

  lemma NothingSaved(root: string, tree: FileSystem, disk: FileSystem)
    requires IsEmptyRoot(disk, root)
    ensures DiskAfter(root, map[], tree, {}, disk)
  {
  }

  lemma EverythingSaved(root: string, tree: FileSystem, disk: FileSystem)
    requires DiskAfter(root, map[], tree, tree.Keys, disk)
    ensures forall p :: At(disk, root, p) == Lookup(tree, p)
  {
  }

  lemma {:induction false} EverySave(h: Hash, u: string, tree: FileSystem, st: Store,
                                     disk: FileSystem, root: string, replies: seq<Content>, k: nat)
    requires NonEmpty(h) && ParentClosed(tree) && Mirrors(h, u, tree, st)
    requires IsEmptyRoot(disk, root) && RepliesFor(st, u, tree, replies) && k <= |replies|
    ensures DiskAfter(root, map[], tree, SavedPaths(replies, k), SavedTo(disk, root, replies, k))
  {
    if k == 0 {
      assert SavedPaths(replies, 0) == {};
      NothingSaved(root, tree, disk);
    } else {
      EverySave(h, u, tree, st, disk, root, replies, k - 1);
      NextSave(h, u, tree, st, SavedTo(disk, root, replies, k - 1), root, replies, k - 1);
    }
  }

  /** From a server that mirrors `tree`, saving the replies in any order into an empty directory rebuilds
      `tree`, contents and empty directories included, and no worker fails. */
  lemma RestoreRebuildsTree(h: Hash, u: string, tree: FileSystem, st: Store,
                            disk: FileSystem, root: string, replies: seq<Content>)
    requires NonEmpty(h) && ParentClosed(tree) && Mirrors(h, u, tree, st)
    requires IsEmptyRoot(disk, root) && RepliesFor(st, u, tree, replies)
    ensures forall k: nat :: k < |replies| ==> SaveEffect(SavedTo(disk, root, replies, k), root, replies[k]).ok
    ensures forall p :: At(SavedTo(disk, root, replies, |replies|), root, p) == Lookup(tree, p)
  {
    forall k: nat | k < |replies| ensures SaveEffect(SavedTo(disk, root, replies, k), root, replies[k]).ok {
      EverySave(h, u, tree, st, disk, root, replies, k);
      NextSave(h, u, tree, st, SavedTo(disk, root, replies, k), root, replies, k);
    }
    EverySave(h, u, tree, st, disk, root, replies, |replies|);
    EverythingSaved(root, tree, SavedTo(disk, root, replies, |replies|));
  }

  /** Backup and restore.  The probe's pushes bring a replica of any earlier tree to `tree`, in any order
      and among any pushes of other users; restoring from there into an emptied directory gives `tree`
      back, in any order of the workers. */
  lemma {:induction false} BackupThenRestore(h: Hash, u: string, was: FileSystem, tree: FileSystem, st: Store, calls: seq<Call>,
                          disk: FileSystem, root: string, replies: seq<Content>)
    requires Setting(h, was, tree) && NoCollision(h, was, tree) && Mirrors(h, u, was, st)
    requires CarriesAll(h, u, Known(h, was), tree, calls)
    requires ParentIsDir(RemoveAll(disk, root), root)
    requires RepliesFor(ReplayTo(st, calls, |calls|), u, tree, replies)
    ensures forall p :: RowAt(ReplayTo(st, calls, |calls|).rows, u, p).Some? <==> p in tree
    ensures forall p :: At(SavedTo(Emptied(disk, root), root, replies, |replies|), root, p) == Lookup(tree, p)
  {
    AnyInterleavingReachesNewTree(h, u, was, tree, st, calls);
    EmptiedIsEmpty(disk, root);
    RestoreRebuildsTree(h, u, tree, ReplayTo(st, calls, |calls|), Emptied(disk, root), root, replies);
  }
}

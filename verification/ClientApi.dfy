/** Client_API: the push with its barrier, the probe, and the restore with its workers' flag. */
module ClientApi {
  import opened Paths
  import opened Disk
  import opened PathTable
  import opened Server
  import opened Diff
  import opened Confluence
  import opened ClientSocket
  import opened Exchange
  import opened Header
  import opened Restoring

  /** `sent` is what the diff calls for at the paths `seen`, each event once. */
  ghost predicate Collected(h: Hash, known: map<string, string>, tree: FileSystem, seen: set<string>, sent: seq<Event>) {
    && (forall i, j :: 0 <= i < j < |sent| ==> sent[i].path != sent[j].path)
    && (forall e :: e in sent ==> e.path in seen && EventAt(h, known, tree, e.path) == Some(e))
    && (forall p :: p in seen && EventAt(h, known, tree, p).Some? ==> EventAt(h, known, tree, p).value in sent)
  }

  lemma CollectOne(h: Hash, known: map<string, string>, tree: FileSystem, seen: set<string>, sent: seq<Event>, p: string)
    requires Collected(h, known, tree, seen, sent) && p !in seen
    ensures Collected(h, known, tree, seen + {p}, sent + EventList(EventAt(h, known, tree, p)))
  {
    var more := EventList(EventAt(h, known, tree, p));
    assert forall i :: 0 <= i < |sent| ==> sent[i] in sent;
    assert more == [] ==> sent + more == sent;
  }

  /** Once both maps have been walked the collected events are the whole batch. */
  lemma CollectedAll(h: Hash, known: map<string, string>, tree: FileSystem, seen: set<string>, sent: seq<Event>)
    requires Collected(h, known, tree, seen, sent)
    requires forall p :: p in known || p in tree ==> p in seen
    ensures IsBatch(h, known, tree, sent)
  {
  }

  ghost predicate NothingAt(h: Hash, known: map<string, string>, tree: FileSystem, paths: set<string>) {
    forall p :: p in paths ==> EventAt(h, known, tree, p) == None
  }

  /** The paths of the tree whose replies are okay. */
  function OkayPaths(tree: FileSystem, okay: string -> bool): set<string> {
    set p | p in tree && okay(p)
  }

  /** One loop of the probe over `paths` with `todo` still ahead, after the events `before`. */
  ghost predicate Walked(h: Hash, known: map<string, string>, tree: FileSystem, paths: set<string>, todo: set<string>,
                         seen: set<string>, visited: set<string>, before: seq<Event>, sent: seq<Event>) {
    && (forall p :: p in todo ==> p in paths && p !in visited)
    && (forall p :: p in visited || p in todo <==> p in seen || p in paths)
    && Collected(h, known, tree, visited, before + sent)
    && (sent == [] <==> NothingAt(h, known, tree, paths - todo))
  }

  lemma WalkOne(h: Hash, known: map<string, string>, tree: FileSystem, paths: set<string>, todo: set<string>,
                seen: set<string>, visited: set<string>, before: seq<Event>, sent: seq<Event>, path: string)
    requires Walked(h, known, tree, paths, todo, seen, visited, before, sent) && path in todo
    ensures Walked(h, known, tree, paths, todo - {path}, seen, visited + {path}, before,
                   sent + EventList(EventAt(h, known, tree, path)))
  {
    var more := EventList(EventAt(h, known, tree, path));
    CollectOne(h, known, tree, visited, before + sent, path);
    Regroup(before, sent, more);
    assert paths - (todo - {path}) == (paths - todo) + {path};
    assert more == [] ==> sent + more == sent;
  }

  lemma WalkStart(h: Hash, known: map<string, string>, tree: FileSystem, paths: set<string>, seen: set<string>,
                  before: seq<Event>)
    requires Collected(h, known, tree, seen, before) && forall p :: p in paths ==> p !in seen
    ensures Walked(h, known, tree, paths, paths, seen, seen, before, [])
  {
    assert before + [] == before && paths - paths == {};
  }

  lemma WalkEnd(h: Hash, known: map<string, string>, tree: FileSystem, paths: set<string>,
                seen: set<string>, visited: set<string>, before: seq<Event>, sent: seq<Event>)
    requires Walked(h, known, tree, paths, {}, seen, visited, before, sent)
    ensures Collected(h, known, tree, visited, before + sent) && (sent == [] <==> NothingAt(h, known, tree, paths))
    ensures forall p :: p in visited <==> p in seen || p in paths
  {
    assert paths - {} == paths;
  }

  /** What the workers of these requests return. */
  function Outcomes(sent: seq<Event>, fates: string -> Fate): (r: seq<bool>)
    ensures |r| == |sent| && forall k :: 0 <= k < |sent| ==> r[k] == fates(sent[k].path).outcome
  {
    seq(|sent|, k requires 0 <= k < |sent| => fates(sent[k].path).outcome)
  }

  /** What the client holds between drains: the cycle of its last push, and the requests out with their outcomes. */
  datatype Batch = Batch(cycle: int, requests: seq<Event>, outcomes: seq<bool>)

  /** The batch once `sent` has been pushed in the cycle of the probe: a batch of another cycle has been drained
      before the first of them. */
  function Pushed(b: Batch, sent: seq<Event>, fates: string -> Fate): Batch {
    if sent == [] then b
    else if b.cycle == -1 then Batch(-1, b.requests + sent, b.outcomes + Outcomes(sent, fates))
    else Batch(-1, sent, Outcomes(sent, fates))
  }

  lemma PushedOn(b: Batch, sent: seq<Event>, more: seq<Event>, fates: string -> Fate)
    ensures Pushed(Pushed(b, sent, fates), more, fates) == Pushed(b, sent + more, fates)
  {
    assert sent == [] ==> sent + more == more;
    assert more == [] ==> sent + more == sent;
    assert Outcomes(sent, fates) + Outcomes(more, fates) == Outcomes(sent + more, fates);
    Regroup(b.requests, sent, more);
    assert (b.outcomes + Outcomes(sent, fates)) + Outcomes(more, fates) == b.outcomes + (Outcomes(sent, fates) + Outcomes(more, fates));
  }

  /** The pushes of a probe get through: the cycle is the probe's, or the drain before them is clean. */
  predicate Open(b: Batch, cycle: int, barrier: nat -> bool) {
    b.cycle == cycle || Clear(b.outcomes, barrier)
  }

  /** Every okay message can be answered. */
  ghost predicate Answerable(fates: string -> Fate) {
    forall p :: IsExchange(MSG_OKAY, fates(p).answer)
  }

  /** Between them the two loops see everything there is. */
  lemma EmptyBatch(h: Hash, known: map<string, string>, tree: FileSystem, gone: set<string>, there: set<string>)
    requires gone == known.Keys - tree.Keys && there == tree.Keys
    ensures IsBatch(h, known, tree, []) <==> NothingAt(h, known, tree, gone) && NothingAt(h, known, tree, there)
  {
  }

  lemma SilentEverywhere(h: Hash, tree: FileSystem)
    ensures IsBatch(h, Known(h, tree), tree, [])
  {
  }

  class Client_API {
    const api: Client_socket_API
    const volume: Volume
    const rootPath: string
    var fwCycle: int
    var activeThread: bool

    constructor (api: Client_socket_API, volume: Volume, rootPath: string)
      ensures this.api == api && this.volume == volume && this.rootPath == rootPath
      ensures fwCycle == -1 && !activeThread
    {
      this.api := api;
      this.volume := volume;
      this.rootPath := rootPath;
      fwCycle := -1;
      activeThread := false;
    }

    ghost function Current(): Batch
      reads this, api
    {
      Batch(fwCycle, api.requests, api.outcomes)
    }

    /** A push of a new cycle first drains the previous one; only a clean drain lets it through. */
    method Push(e: Event, cycle: int, fate: Fate, barrier: nat -> bool) returns (ok: bool)
      requires api.Valid() && IsExchange(MSG_OKAY, fate.answer)
      modifies this`fwCycle, api
      ensures api.Valid() && ok == Open(old(Current()), cycle, barrier)
      ensures Current() == if !ok then Batch(old(fwCycle), [], [])
                           else if old(fwCycle) == cycle then Batch(cycle, old(api.requests) + [e], old(api.outcomes) + [fate.outcome])
                           else Batch(cycle, [e], [fate.outcome])
      ensures old(fwCycle) != cycle ==> api.drained == old(api.requests) && api.results == old(api.outcomes)
      ensures old(fwCycle) == cycle ==> api.drained == old(api.drained) && api.results == old(api.results)
    {
      if fwCycle != cycle {
        ok := api.WaitAllAsync(barrier);
        if !ok { return; }
        fwCycle := cycle;
      }
      ok := api.AsyncSendAndReceive(e, fate);
    }

    /** The startup diff.  `elements` is the watcher's map of `tree`; `reply` is the server's schema, None when
        the request failed; `okay` is the answer to the message that closes an empty probe; `fates`, `barrier`
        and `late` tell how the pushes, the drain of an earlier cycle and the drain at the end fare. */
    method Probe(h: Hash, tree: FileSystem, elements: map<string, string>, reply: Option<map<string, string>>, okay: bool,
                 fates: string -> Fate, barrier: nat -> bool, late: nat -> bool)
      returns (status: bool, sent: seq<Event>)
      requires api.Valid() && elements == Known(h, tree) && Answerable(fates)
      modifies this`fwCycle, api
      ensures api.Valid()
      ensures reply == None ==> !status && sent == []
      ensures reply.Some? && !Open(old(Current()), -1, barrier) ==> (status <==> okay && IsBatch(h, reply.value, tree, []))
      ensures reply.Some? && (Open(old(Current()), -1, barrier) || status) ==> IsBatch(h, reply.value, tree, sent)
      ensures reply.Some? && Open(old(Current()), -1, barrier) && sent == [] ==> status == okay
      ensures reply.Some? && Open(old(Current()), -1, barrier) && sent != [] ==>
                var b := Pushed(old(Current()), sent, fates);
                api.drained == b.requests && api.results == b.outcomes && (status <==> Clear(b.outcomes, late))
      ensures reply == Some(elements) ==> sent == [] && status == okay
    {
      status, sent := false, [];
      if reply == None { return; }
      var hashes := reply.value;
      var ok;
      ok, sent := PushDifferences(h, tree, elements, hashes, fates, barrier);
      if hashes == elements { SilentEverywhere(h, tree); }
      if !ok { return; }
      if hashes == elements { KnownIsSilent(h, tree, sent); }
      if sent != [] {
        status := api.WaitAllAsync(late);
      } else {
        status := okay;
      }
    }

    /** The two loops: first what the server knows and the client lost, then what the client has. */
    method PushDifferences(h: Hash, tree: FileSystem, elements: map<string, string>, hashes: map<string, string>,
                           fates: string -> Fate, barrier: nat -> bool) returns (ok: bool, sent: seq<Event>)
      requires api.Valid() && elements == Known(h, tree) && Answerable(fates)
      modifies this`fwCycle, api
      ensures api.Valid()
      ensures ok <==> Open(old(Current()), -1, barrier) || IsBatch(h, hashes, tree, [])
      ensures ok ==> IsBatch(h, hashes, tree, sent) && Current() == Pushed(old(Current()), sent, fates)
      ensures ok && !Open(old(Current()), -1, barrier) ==> sent == []
    {
      ghost var seen;
      var first, changed;
      ok, first, seen := PushAll(h, tree, elements, hashes, hashes.Keys - elements.Keys, {}, [], fates, barrier);
      sent := first;
      EmptyBatch(h, hashes, tree, hashes.Keys - elements.Keys, elements.Keys);
      if !ok { return; }
      assert [] + first == first;
      ok, changed, seen := PushAll(h, tree, elements, hashes, elements.Keys, seen, first, fates, barrier);
      sent := first + changed;
      if !ok { return; }
      PushedOn(old(Current()), first, changed, fates);
      CollectedAll(h, hashes, tree, seen, sent);
    }

    /** The body of both loops: the push for one path, if one is called for. */
    method PushOne(h: Hash, tree: FileSystem, elements: map<string, string>, hashes: map<string, string>, path: string,
                   fates: string -> Fate, barrier: nat -> bool) returns (ok: bool, more: seq<Event>)
      requires api.Valid() && elements == Known(h, tree) && (path in hashes || path in tree) && Answerable(fates)
      modifies this`fwCycle, api
      ensures api.Valid() && more == EventList(EventAt(h, hashes, tree, path))
      ensures ok <==> more == [] || Open(old(Current()), -1, barrier)
      ensures ok ==> Current() == Pushed(old(Current()), more, fates)
    {
      ok, more := true, [];
      if path !in elements {
        more := [if hashes[path] != "" then ErasedFile(path) else ErasedDir(path)];
      } else if tree[path].File? {
        if path !in hashes {
          more := [CreatedFile(path, tree[path].data, elements[path])];
        } else if hashes[path] != elements[path] {
          more := [ModifiedFile(path, tree[path].data, elements[path])];
        }
      } else if path !in hashes {
        more := [CreatedDir(path, elements[path])];
      }
      if more != [] {
        ok := Push(more[0], -1, fates(path), barrier);
        assert Outcomes(more, fates) == [fates(path).outcome];
      }
    }

    /** One loop of the probe over the paths `paths`, in any order, after the events `before`. */
    method PushAll(h: Hash, tree: FileSystem, elements: map<string, string>, hashes: map<string, string>,
                   paths: set<string>, ghost seen: set<string>, ghost before: seq<Event>,
                   fates: string -> Fate, barrier: nat -> bool)
      returns (ok: bool, sent: seq<Event>, ghost visited: set<string>)
      requires api.Valid() && elements == Known(h, tree) && Answerable(fates)
      requires forall p :: p in paths ==> (p in hashes || p in tree) && p !in seen
      requires Collected(h, hashes, tree, seen, before)
      modifies this`fwCycle, api
      ensures api.Valid()
      ensures ok <==> Open(old(Current()), -1, barrier) || NothingAt(h, hashes, tree, paths)
      ensures ok ==> Collected(h, hashes, tree, visited, before + sent)
      ensures ok ==> forall p :: p in visited <==> p in seen || p in paths
      ensures ok ==> Current() == Pushed(old(Current()), sent, fates)
      ensures ok && NothingAt(h, hashes, tree, paths) ==> sent == []
    {
      ok, sent := true, [];
      var todo := paths;
      visited := seen;
      WalkStart(h, hashes, tree, paths, seen, before);
      while todo != {}
        invariant api.Valid() && ok
        invariant Walked(h, hashes, tree, paths, todo, seen, visited, before, sent)
        invariant Current() == Pushed(old(Current()), sent, fates)
        invariant Open(old(Current()), -1, barrier) || sent == []
        decreases |todo|
      {
        var path :| path in todo;
        assert path in paths;
        WalkOne(h, hashes, tree, paths, todo, seen, visited, before, sent, path);
        todo := todo - {path};
        visited := visited + {path};
        var more;
        ok, more := PushOne(h, tree, elements, hashes, path, fates, barrier);
        if !ok { return; }
        PushedOn(old(Current()), sent, more, fates);
        sent := sent + more;
      }
      WalkEnd(h, hashes, tree, paths, seen, visited, before, sent);
    }

    /** Other restore workers get to run; none of them is behind the wait while the flag is up. */
    method OthersSave()
      modifies volume
      ensures activeThread ==> volume.disk == old(volume.disk)
    {
      if !activeThread { volume.disk := *; }
    }

    /** create_dirs under the flag. */
    method MakeWay(path: string) returns (ok: bool)
      requires activeThread
      modifies volume
      ensures Attempt(volume.disk, ok) == MakeDirs(old(volume.disk), rootPath, path)
    {
      ok := volume.CreateDirs(rootPath, path);
    }

    /** The file is written, or the directory made, under the flag. */
    method PutNode(destPath: string, reply: Content) returns (ok: bool)
      requires activeThread
      modifies volume
      ensures Attempt(volume.disk, ok)
              == if reply.isFile then Attempt(WriteFile(old(volume.disk), destPath, reply.data), true)
                 else EnsureDirectory(old(volume.disk), destPath)
    {
      ok := true;
      if reply.isFile {
        volume.disk := WriteFile(volume.disk, destPath, reply.data);
      } else if destPath !in volume.disk {
        var made := CreateDirectory(volume.disk, destPath);
        volume.disk := made.disk;
        ok := made.ok;
      }
    }

    /** One restore worker, from the point where the wait on the flag has returned: make the way, then save
        the file or make the directory, alone although other workers run all the time.  Both ways out lower
        the flag. */
    method GetAndSave(reply: Content) returns (ok: bool)
      requires !activeThread
      modifies this`activeThread, volume
      ensures !activeThread
      ensures Attempt(volume.disk, ok) == SaveEffect(old(volume.disk), rootPath, reply)
    {
      activeThread := true;
      OthersSave();
      ok := MakeWay(reply.path);
      OthersSave();
      if ok {
        ok := PutNode(Join(rootPath, reply.path), reply);
        OthersSave();
      }
      activeThread := false;
    }

    /** Asks for one path and, if the reply is okay and the worker gets the flag, saves it. */
    method FetchAndSave(server: Server, session: Session, path: string, okay: bool,
                        ghost h: Hash, ghost tree: FileSystem, ghost done: set<string>) returns (ok: bool)
      requires !activeThread && volume != server.volume
      requires NonEmpty(h) && ParentClosed(tree) && Mirrors(h, session.user, tree, server.State())
      requires path in tree && path !in done && DiskAfter(rootPath, map[], tree, done, volume.disk)
      modifies this`activeThread, volume
      ensures !activeThread && ok == okay
      ensures DiskAfter(rootPath, map[], tree, if okay then done + {path} else done, volume.disk)
      ensures SameElsewhere(rootPath, old(volume.disk), volume.disk)
    {
      if !okay { return false; }
      var reply := server.Get(session, path);
      RepliesAreTree(h, session.user, tree, server.State(), path);
      SaveStep(h, rootPath, tree, done, volume.disk, reply);
      SaveElsewhere(volume.disk, rootPath, reply);
      ok := GetAndSave(reply);
    }

    /** Asks for every path of `paths`; the replies are saved in whatever order the workers get the flag.  `okay`
        tells which replies are, `late` which waits of the drain run into their time limit. */
    method FetchAll(server: Server, session: Session, paths: set<string>, okay: string -> bool, late: string -> bool,
                    ghost h: Hash, ghost tree: FileSystem) returns (ok: bool)
      requires !activeThread && volume != server.volume
      requires NonEmpty(h) && ParentClosed(tree) && Mirrors(h, session.user, tree, server.State())
      requires paths == tree.Keys && DiskAfter(rootPath, map[], tree, {}, volume.disk)
      modifies this`activeThread, volume
      ensures !activeThread
      ensures ok <==> forall p :: p in paths ==> okay(p) && !late(p)
      ensures DiskAfter(rootPath, map[], tree, OkayPaths(tree, okay), volume.disk)
      ensures SameElsewhere(rootPath, old(volume.disk), volume.disk)
    {
      var todo := paths;
      ghost var saved := {};
      ok := true;
      while todo != {}
        invariant !activeThread && todo <= paths
        invariant forall p :: p in saved <==> p in paths && p !in todo && okay(p)
        invariant DiskAfter(rootPath, map[], tree, saved, volume.disk)
        invariant ok <==> forall p :: p in paths && p !in todo ==> okay(p) && !late(p)
        invariant SameElsewhere(rootPath, old(volume.disk), volume.disk)
        decreases |todo|
      {
        var path :| path in todo;
        var fetched := FetchAndSave(server, session, path, okay(path), h, tree, saved);
        todo := todo - {path};
        if fetched { saved := saved + {path}; }
        ok := ok && fetched && !late(path);
      }
      assert saved == OkayPaths(tree, okay);
    }

    /** The whole restore against a server that mirrors `tree`.  It returns true if and only if the list came,
        every reply was okay and no wait of the drain was late, and then the tree is there; in any case the
        disk holds what the okay replies make of an empty root, and nothing else on it has changed. */
    method Restore(server: Server, session: Session, listed: bool, okay: string -> bool, late: string -> bool,
                   ghost h: Hash, ghost tree: FileSystem) returns (ok: bool)
      requires !activeThread && volume != server.volume
      requires ValidUser(session.user) && WellKeyed(server.db.rows)
      requires NonEmpty(h) && ParentClosed(tree) && Mirrors(h, session.user, tree, server.State())
      requires ParentIsDir(RemoveAll(volume.disk, rootPath), rootPath)
      modifies this`activeThread, volume
      ensures !activeThread
      ensures ok <==> listed && forall p :: p in tree ==> okay(p) && !late(p)
      ensures DiskAfter(rootPath, map[], tree, if listed then OkayPaths(tree, okay) else {}, volume.disk)
      ensures ok ==> forall p :: At(volume.disk, rootPath, p) == Lookup(tree, p)
      ensures forall v :: v != rootPath && !Under(rootPath, v) ==> Lookup(volume.disk, v) == Lookup(old(volume.disk), v)
    {
      EmptiedIsEmpty(volume.disk, rootPath);
      EmptiedElsewhere(volume.disk, rootPath);
      volume.disk := Emptied(volume.disk, rootPath);
      NothingSaved(rootPath, tree, volume.disk);
      if !listed { return false; }
      var listing := server.db.GetPathSchema(session.user);
      StoredPathsAreTree(h, session.user, tree, server.State(), listing);
      var paths := set p | p in listing;
      ok := FetchAll(server, session, paths, okay, late, h, tree);
      if ok {
        assert OkayPaths(tree, okay) == tree.Keys;
        EverythingSaved(rootPath, tree, volume.disk);
      }
    }
  }
}

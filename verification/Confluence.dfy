/** Order independence: the pushes of one batch, delivered in any order and mixed with any pushes of
    other users, turn a replica of the old tree into a replica of the new one. */
module Confluence {
  import opened Paths
  import opened Disk
  import opened PathTable
  import opened Server
  import opened Diff

  /** The hypotheses on one scan: two trees whose shared paths keep their kind. */
  ghost predicate Setting(h: Hash, was: FileSystem, now: FileSystem) {
    NonEmpty(h) && ParentClosed(was) && ParentClosed(now) && KindsAgree(Known(h, was), now)
  }

  function RowFor(h: Hash, u: string, tree: FileSystem, p: string): Option<Row> {
    match Lookup(tree, p)
    case None => None
    case Some(Dir) => Some(Row("", u, dir))
    case Some(File(data)) => Some(Row(h(data), u, file))
  }

  /** The user's disk tree and rows are both exactly `tree`. */
  ghost predicate Mirrors(h: Hash, u: string, tree: FileSystem, st: Store) {
    && IsDir(st.disk, u)
    && (forall p :: At(st.disk, u, p) == Lookup(tree, p))
    && (forall p :: RowAt(st.rows, u, p) == RowFor(h, u, tree, p))
  }

  ghost predicate CreatedBelow(was: FileSystem, now: FileSystem, done: set<string>, p: string) {
    exists q :: q in done && q in now && q !in was && Under(p, q)
  }

  ghost predicate ErasedAbove(was: FileSystem, now: FileSystem, done: set<string>, p: string) {
    exists q :: q in done && q in was && q !in now && Under(q, p)
  }

  /** The disk once the events at the paths `done` have been applied, in whatever order. */
  ghost function NodeAfter(was: FileSystem, now: FileSystem, done: set<string>, p: string): Option<Node> {
    if p in was && p in now then Some(if p in done then now[p] else was[p])
    else if p in now then if p in done || CreatedBelow(was, now, done, p) then Some(now[p]) else None
    else if p in was then if p in done || ErasedAbove(was, now, done, p) then None else Some(was[p])
    else None
  }

  /** The table once the events at the paths `done` have been applied: each row has its own event only. */
  function RowAfter(h: Hash, u: string, was: FileSystem, now: FileSystem, done: set<string>, p: string): Option<Row> {
    RowFor(h, u, if p in done then now else was, p)
  }

  ghost predicate DiskAfter(u: string, was: FileSystem, now: FileSystem, done: set<string>, disk: FileSystem) {
    IsDir(disk, u) && forall p :: At(disk, u, p) == NodeAfter(was, now, done, p)
  }

  ghost predicate RowsAfter(h: Hash, u: string, was: FileSystem, now: FileSystem, done: set<string>, rows: Table) {
    forall p :: RowAt(rows, u, p) == RowAfter(h, u, was, now, done, p)
  }

  /** `st` is the replica of `was` with exactly the events at `done` applied. */
  ghost predicate After(h: Hash, u: string, was: FileSystem, now: FileSystem, done: set<string>, st: Store) {
    && (forall p :: p in done ==> EventAt(h, Known(h, was), now, p).Some?)
    && DiskAfter(u, was, now, done, st.disk)
    && RowsAfter(h, u, was, now, done, st.rows)
  }

  // ---------------------------------------------------------------- one push

  /** Below an ancestor that exists in both trees, or is still to be created, the way down is clear. */
  lemma CreationChain(h: Hash, u: string, was: FileSystem, now: FileSystem, done: set<string>,
                      disk: FileSystem, q: string)
    requires Setting(h, was, now) && DiskAfter(u, was, now, done, disk) && q in now
    ensures ChainClear(disk, u, q)
  {
    forall a | Under(a, q) ensures At(disk, u, a) in {None, Some(Dir)} {
      assert a in now && now[a].Dir?;
      if a in was { assert Known(h, was)[a] == ""; }
    }
  }

  /** The closed form after one more created path: its ancestors are there, nothing else moves. */
  lemma CreatedNodes(h: Hash, was: FileSystem, now: FileSystem, done: set<string>, q: string, p: string)
    requires Setting(h, was, now) && q in now && q !in was && p != q
    ensures NodeAfter(was, now, done + {q}, p) == if Under(p, q) then Some(Dir) else NodeAfter(was, now, done, p)
  {
    if Under(p, q) {
      assert p in now && now[p].Dir?;
      if p in was { assert Known(h, was)[p] == ""; } else { assert CreatedBelow(was, now, done + {q}, p); }
    } else {
      assert CreatedBelow(was, now, done + {q}, p) <==> CreatedBelow(was, now, done, p);
      assert ErasedAbove(was, now, done + {q}, p) <==> ErasedAbove(was, now, done, p);
    }
  }

  /** The disk between create_dirs and the write or mkdir of a created path. */
  lemma AncestorsReady(h: Hash, u: string, was: FileSystem, now: FileSystem, done: set<string>,
                       disk: FileSystem, q: string)
    requires Setting(h, was, now) && DiskAfter(u, was, now, done, disk)
    requires q in now && q !in was && q !in done
    ensures var made := MakeDirs(disk, u, q);
            && made.ok && IsDir(made.disk, u)
            && At(made.disk, u, q) in (if now[q].Dir? then {None, Some(Dir)} else {None})
            && (forall p :: p != q ==> At(made.disk, u, p) == NodeAfter(was, now, done + {q}, p))
            && (forall b :: Under(b, q) ==> At(made.disk, u, b) == Some(Dir))
            && SameElsewhere(u, disk, made.disk)
  {
    CreationChain(h, u, was, now, done, disk, q);
    MakeDirsEffect(disk, u, q);
    var made := MakeDirs(disk, u, q).disk;
    assert !Under(u, u);
    forall p | p != q ensures At(made, u, p) == NodeAfter(was, now, done + {q}, p) {
      CreatedNodes(h, was, now, done, q, p);
    }
    assert At(disk, u, q) == NodeAfter(was, now, done, q);
  }

  lemma CreatedFileDisk(h: Hash, u: string, was: FileSystem, now: FileSystem, done: set<string>,
                        disk: FileSystem, q: string)
    requires Setting(h, was, now) && DiskAfter(u, was, now, done, disk)
    requires q in now && q !in was && q !in done && now[q].File?
    ensures var made := MakeDirs(disk, u, q);
            && made.ok && ParentIsDir(made.disk, Join(u, q)) && !IsDir(made.disk, Join(u, q))
            && DiskAfter(u, was, now, done + {q}, WriteFile(made.disk, Join(u, q), now[q].data))
  {
    AncestorsReady(h, u, was, now, done, disk, q);
    var made := MakeDirs(disk, u, q).disk;
    ParentFromChain(made, u, q);
    assert At(made, u, q) == None;
    SingleEffect(made, WriteFile(made, Join(u, q), now[q].data), u, q);
    assert !Under(u, u);
  }

  lemma CreatedDirDisk(h: Hash, u: string, was: FileSystem, now: FileSystem, done: set<string>,
                       disk: FileSystem, q: string)
    requires Setting(h, was, now) && DiskAfter(u, was, now, done, disk)
    requires q in now && q !in was && q !in done && now[q].Dir?
    ensures var made := MakeDirs(disk, u, q);
            && made.ok
            && EnsureDirectory(made.disk, Join(u, q)).ok
            && DiskAfter(u, was, now, done + {q}, EnsureDirectory(made.disk, Join(u, q)).disk)
  {
    AncestorsReady(h, u, was, now, done, disk, q);
    var made := MakeDirs(disk, u, q).disk;
    EnsureDirectoryEffect(made, u, q);
    assert !Under(u, u);
  }

  lemma ModifiedFileDisk(h: Hash, u: string, was: FileSystem, now: FileSystem, done: set<string>,
                         disk: FileSystem, q: string)
    requires Setting(h, was, now) && DiskAfter(u, was, now, done, disk)
    requires q in now && q in was && now[q].File?
    ensures ParentIsDir(disk, Join(u, q)) && !IsDir(disk, Join(u, q))
    ensures DiskAfter(u, was, now, done + {q}, WriteFile(disk, Join(u, q), now[q].data))
  {
    assert Known(h, was)[q] != "";
    forall b | Under(b, q) ensures At(disk, u, b) == Some(Dir) {
      assert b in now && b in was && now[b].Dir? && was[b].Dir?;
    }
    ParentFromChain(disk, u, q);
    assert At(disk, u, q).Some? && At(disk, u, q).value.File?;
    var after := WriteFile(disk, Join(u, q), now[q].data);
    SingleEffect(disk, after, u, q);
    assert !Under(u, u);
    forall p | p != q ensures NodeAfter(was, now, done + {q}, p) == NodeAfter(was, now, done, p) {
      assert CreatedBelow(was, now, done + {q}, p) <==> CreatedBelow(was, now, done, p);
      assert ErasedAbove(was, now, done + {q}, p) <==> ErasedAbove(was, now, done, p);
    }
  }

  lemma ErasedFileDisk(h: Hash, u: string, was: FileSystem, now: FileSystem, done: set<string>,
                       disk: FileSystem, q: string)
    requires Setting(h, was, now) && DiskAfter(u, was, now, done, disk)
    requires q in was && q !in now && was[q].File?
    ensures Join(u, q) in disk ==> Remove(disk, Join(u, q)).ok
    ensures DiskAfter(u, was, now, done + {q},
                      if Join(u, q) in disk then Remove(disk, Join(u, q)).disk else disk)
  {
    assert At(disk, u, q) != Some(Dir);
    SingleEffect(disk, disk - {Join(u, q)}, u, q);
    assert !Under(u, u);
    forall p | p != q ensures NodeAfter(was, now, done + {q}, p) == NodeAfter(was, now, done, p) {
      assert CreatedBelow(was, now, done + {q}, p) <==> CreatedBelow(was, now, done, p);
      if p in was { assert ErasedAbove(was, now, done + {q}, p) <==> ErasedAbove(was, now, done, p); }
    }
  }

  /** The closed form after one more erased directory: its whole subtree is gone, nothing else moves. */
  lemma ErasedDirNodes(was: FileSystem, now: FileSystem, done: set<string>, q: string, p: string)
    requires ParentClosed(now) && q in was && q !in now
    ensures NodeAfter(was, now, done + {q}, p)
            == if p == q || Under(q, p) then None else NodeAfter(was, now, done, p)
  {
    if Under(q, p) {
      assert p !in now;
      assert ErasedAbove(was, now, done + {q}, p);
    } else {
      assert CreatedBelow(was, now, done + {q}, p) <==> CreatedBelow(was, now, done, p);
      assert ErasedAbove(was, now, done + {q}, p) <==> ErasedAbove(was, now, done, p);
    }
  }

  /** An erased directory that is missing was inside another one, and so is all that was below it. */
  lemma AlreadyGone(was: FileSystem, now: FileSystem, done: set<string>, q: string, p: string)
    requires ParentClosed(now) && q in was && q !in now && q !in done && Under(q, p)
    requires NodeAfter(was, now, done, q) == None
    ensures NodeAfter(was, now, done, p) == None
  {
    assert p !in now;
    var r :| r in done && r in was && r !in now && Under(r, q);
    UnderTransitive(r, q, p);
    assert ErasedAbove(was, now, done, p);
  }

  lemma ErasedDirDisk(h: Hash, u: string, was: FileSystem, now: FileSystem, done: set<string>,
                      disk: FileSystem, q: string)
    requires Setting(h, was, now) && DiskAfter(u, was, now, done, disk)
    requires q in was && q !in now && q !in done
    ensures DiskAfter(u, was, now, done + {q},
                      if Join(u, q) in disk then RemoveAll(disk, Join(u, q)) else disk)
  {
    RemoveAllEffect(disk, u, q);
    assert !Under(u, u);
    var after := if Join(u, q) in disk then RemoveAll(disk, Join(u, q)) else disk;
    forall p ensures At(after, u, p) == NodeAfter(was, now, done + {q}, p) {
      ErasedDirNodes(was, now, done, q, p);
      if Join(u, q) !in disk && Under(q, p) {
        assert At(disk, u, q) == None;
        AlreadyGone(was, now, done, q, p);
      }
    }
  }

  // ---------------------------------------------------------------- one push, disk and table

  lemma RowStep(h: Hash, u: string, was: FileSystem, now: FileSystem, done: set<string>,
                before: Table, after: Table, q: string)
    requires RowsAfter(h, u, was, now, done, before)
    requires forall v :: v != Join(u, q) ==> (v in after <==> v in before) && (v in before ==> after[v] == before[v])
    requires RowAt(after, u, q) == RowFor(h, u, now, q)
    ensures RowsAfter(h, u, was, now, done + {q}, after)
  {
    forall p ensures RowAt(after, u, p) == RowAfter(h, u, was, now, done + {q}, p) {
      if p != q {
        if Join(u, p) == Join(u, q) { JoinInjective(u, p, q); }
        assert RowAt(after, u, p) == RowAt(before, u, p);
      }
    }
  }

  /** What must hold when an event arrives: an INSERT finds its key free, an UPDATE finds its row, and a
      file is written into an existing directory and not over one. */
  ghost predicate SafeToApply(u: string, e: Event, st: Store) {
    var v := Join(u, e.path);
    match e
    case CreatedFile(path, data, hash) =>
      var made := MakeDirs(st.disk, u, path);
      v !in st.rows && made.ok && ParentIsDir(made.disk, v) && !IsDir(made.disk, v)
    case ModifiedFile(path, data, hash) =>
      v in st.rows && ParentIsDir(st.disk, v) && !IsDir(st.disk, v)
    case CreatedDir(path, hash) => v !in st.rows && MakeDirs(st.disk, u, path).ok
    case ErasedFile(path) => v in st.rows
    case ErasedDir(path) => v in st.rows
    case Unknown(path) => false
  }

  /** Any outstanding event of the batch can be applied next: it succeeds, safely, and leaves the closed
      form with its path added. */
  lemma PushStep(h: Hash, u: string, was: FileSystem, now: FileSystem, done: set<string>, st: Store, e: Event)
    requires Setting(h, was, now) && After(h, u, was, now, done, st)
    requires e.path !in done && EventAt(h, Known(h, was), now, e.path) == Some(e)
    ensures SafeToApply(u, e, st)
    ensures PushEffect(st, u, e).ok
    ensures After(h, u, was, now, done + {e.path}, PushEffect(st, u, e).store)
  {
    var q := e.path;
    var r := PushEffect(st, u, e);
    assert RowAt(st.rows, u, q) == RowFor(h, u, was, q);
    match e {
      case CreatedFile(_, _, _) => CreatedFileDisk(h, u, was, now, done, st.disk, q);
      case ModifiedFile(_, _, _) => ModifiedFileDisk(h, u, was, now, done, st.disk, q);
      case ErasedFile(_) => ErasedFileDisk(h, u, was, now, done, st.disk, q);
      case CreatedDir(_, _) => CreatedDirDisk(h, u, was, now, done, st.disk, q);
      case ErasedDir(_) => ErasedDirDisk(h, u, was, now, done, st.disk, q);
    }
    RowStep(h, u, was, now, done, st.rows, r.store.rows, q);
  }

  // ---------------------------------------------------------------- many users

  lemma {:induction false} MakeDirsLocal(disk: FileSystem, base: string, path: string, n: nat)
    requires n <= |path|
    ensures SameElsewhere(base, disk, MakeDirsFrom(disk, base, path, n).disk)
    decreases |path| - n
  {
    if n == |path| {
    } else {
      JoinUnder(base, path[..n]);
      var r := Visit(disk, base, path, n);
      if r.ok { MakeDirsLocal(r.disk, base, path, n + 1); }
    }
  }

  /** A push, successful or not, touches the pushing user's subtree and one row under his prefix. */
  lemma PushLocal(st: Store, w: string, e: Event)
    ensures SameElsewhere(w, st.disk, PushEffect(st, w, e).store.disk)
    ensures forall v :: v != Join(w, e.path) ==>
              (v in PushEffect(st, w, e).store.rows <==> v in st.rows)
              && (v in st.rows ==> PushEffect(st, w, e).store.rows[v] == st.rows[v])
  {
    MakeDirsLocal(st.disk, w, e.path, 0);
    JoinUnder(w, e.path);
    RemoveAllEffect(st.disk, w, e.path);
  }

  /** No push of one user is seen in another user's tree or rows, although DELETE and UPDATE match on the
      path alone. */
  lemma OtherUserUntouched(st: Store, w: string, e: Event, u: string)
    requires ValidUser(u) && ValidUser(w) && u != w
    ensures var r := PushEffect(st, w, e).store;
            && Lookup(r.disk, u) == Lookup(st.disk, u)
            && (forall p :: At(r.disk, u, p) == At(st.disk, u, p))
            && (forall p :: RowAt(r.rows, u, p) == RowAt(st.rows, u, p))
  {
    PushLocal(st, w, e);
    var r := PushEffect(st, w, e).store;
    forall p ensures At(r.disk, u, p) == At(st.disk, u, p) && RowAt(r.rows, u, p) == RowAt(st.rows, u, p) {
      UsersDisjoint(w, u, e.path, p);
    }
  }

  /** The row a push leaves under its key: none, one of the pushing user, or the old one rehashed. */
  lemma PushedRow(st: Store, w: string, e: Event)
    ensures var v, r := Join(w, e.path), PushEffect(st, w, e).store.rows;
            v in r ==> if v in st.rows then r[v].user == st.rows[v].user else r[v].user == w
  {
  }

  /** Every stored row keeps a key made of its own user's name. */
  lemma PushKeepsKeys(st: Store, w: string, e: Event)
    requires ValidUser(w) && WellKeyed(st.rows)
    ensures WellKeyed(PushEffect(st, w, e).store.rows)
  {
    var r := PushEffect(st, w, e).store.rows;
    PushLocal(st, w, e);
    PushedRow(st, w, e);
    StripJoin(w, e.path);
    forall v | v in r ensures ValidUser(r[v].user) && v == Join(r[v].user, Strip(v)) {
      if v != Join(w, e.path) { assert v in st.rows && r[v] == st.rows[v]; }
    }
  }

  datatype Call = Call(user: string, event: Event)

  /** The server's state after the first `k` pushes it executed. */
  function ReplayTo(st: Store, calls: seq<Call>, k: nat): Store
    requires k <= |calls|
  {
    if k == 0 then st
    else PushEffect(ReplayTo(st, calls, k - 1), calls[k - 1].user, calls[k - 1].event).store
  }

  function DeliveredTo(calls: seq<Call>, u: string, k: nat): set<string>
    requires k <= |calls|
  {
    set i | 0 <= i < k && calls[i].user == u :: calls[i].event.path
  }

  ghost predicate OthersOnly(calls: seq<Call>, u: string) {
    forall i :: 0 <= i < |calls| ==> ValidUser(calls[i].user) && calls[i].user != u
  }

  lemma {:induction false} OthersLeaveRows(st: Store, calls: seq<Call>, u: string, k: nat)
    requires ValidUser(u) && WellKeyed(st.rows) && k <= |calls| && OthersOnly(calls, u)
    ensures forall p :: At(ReplayTo(st, calls, k).disk, u, p) == At(st.disk, u, p)
    ensures forall p :: RowAt(ReplayTo(st, calls, k).rows, u, p) == RowAt(st.rows, u, p)
    ensures WellKeyed(ReplayTo(st, calls, k).rows)
  {
    if k == 0 {
    } else {
      OthersLeaveRows(st, calls, u, k - 1);
      var before := ReplayTo(st, calls, k - 1);
      OtherUserUntouched(before, calls[k - 1].user, calls[k - 1].event, u);
      PushKeepsKeys(before, calls[k - 1].user, calls[k - 1].event);
    }
  }

  /** Per-user frame, over whole histories: pushes of others, of any kind and accepted or not, leave a user's
      schema and disk tree as they were, and every key remains its own user's. */
  lemma OthersLeaveSchema(st: Store, calls: seq<Call>, u: string, schema: map<string, string>)
    requires ValidUser(u) && WellKeyed(st.rows) && OthersOnly(calls, u)
    ensures var final := ReplayTo(st, calls, |calls|);
            && WellKeyed(final.rows)
            && (IsSchema(final.rows, u, schema) <==> IsSchema(st.rows, u, schema))
            && (forall p :: At(final.disk, u, p) == At(st.disk, u, p))
  {
    OthersLeaveRows(st, calls, u, |calls|);
    SameRowsSameSchema(st.rows, ReplayTo(st, calls, |calls|).rows, u, schema);
  }

  lemma SameRowsSameSchema(before: Table, after: Table, u: string, schema: map<string, string>)
    requires forall p :: RowAt(after, u, p) == RowAt(before, u, p)
    ensures IsSchema(after, u, schema) <==> IsSchema(before, u, schema)
  {
    forall p ensures Join(u, p) in after <==> Join(u, p) in before
             ensures Join(u, p) in after ==> after[Join(u, p)] == before[Join(u, p)] {
      assert RowAt(after, u, p) == RowAt(before, u, p);
    }
  }

  /** A server history in which user `u` pushes events of one batch, no path twice, and anybody else
      pushes anything. */
  ghost predicate CarriesBatch(h: Hash, u: string, known: map<string, string>, now: FileSystem, calls: seq<Call>) {
    && ValidUser(u) && (forall i :: 0 <= i < |calls| ==> ValidUser(calls[i].user))
    && (forall i :: 0 <= i < |calls| && calls[i].user == u ==>
          EventAt(h, known, now, calls[i].event.path) == Some(calls[i].event))
    && (forall i, j :: 0 <= i < j < |calls| && calls[i].user == u && calls[j].user == u ==>
          calls[i].event.path != calls[j].event.path)
  }

  /** The whole batch is there. */
  ghost predicate CarriesAll(h: Hash, u: string, known: map<string, string>, now: FileSystem, calls: seq<Call>) {
    && CarriesBatch(h, u, known, now, calls)
    && forall p :: EventAt(h, known, now, p).Some? ==> p in DeliveredTo(calls, u, |calls|)
  }

  /** A file whose content changed has another hash: no change goes unseen. */
  ghost predicate NoCollision(h: Hash, was: FileSystem, now: FileSystem) {
    forall p :: p in was && p in now && was[p].File? && now[p].File? && h(was[p].data) == h(now[p].data)
                ==> was[p].data == now[p].data
  }

  lemma NothingDelivered(h: Hash, u: string, was: FileSystem, now: FileSystem, st: Store)
    ensures Mirrors(h, u, was, st) <==> After(h, u, was, now, {}, st)
  {
    assert forall p :: NodeAfter(was, now, {}, p) == Lookup(was, p);
  }

  /** Everything delivered: the rows are those of the new tree, and the disk is the new tree exactly when
      no changed content kept its hash. */
  lemma AllDelivered(h: Hash, u: string, was: FileSystem, now: FileSystem, done: set<string>, st: Store)
    requires Setting(h, was, now) && After(h, u, was, now, done, st)
    requires forall p :: EventAt(h, Known(h, was), now, p).Some? ==> p in done
    ensures forall p :: RowAt(st.rows, u, p) == RowFor(h, u, now, p)
    ensures Mirrors(h, u, now, st) <==> NoCollision(h, was, now)
  {
    var known := Known(h, was);
    forall p ensures RowAfter(h, u, was, now, done, p) == RowFor(h, u, now, p) {
      if p !in done { assert EventAt(h, known, now, p) == None; }
    }
    forall p ensures At(st.disk, u, p) == Lookup(now, p)
                     <==> (p in was && p in now && was[p].File? && now[p].File? && h(was[p].data) == h(now[p].data)
                           ==> was[p].data == now[p].data) {
      assert p in done <==> EventAt(h, known, now, p).Some?;
    }
  }

  /** After every prefix of the history the store is the closed form of what was delivered so far. */
  lemma {:induction false} EveryPrefix(h: Hash, u: string, was: FileSystem, now: FileSystem, st: Store,
                                       calls: seq<Call>, k: nat)
    requires Setting(h, was, now) && Mirrors(h, u, was, st)
    requires k <= |calls| && CarriesBatch(h, u, Known(h, was), now, calls)
    ensures After(h, u, was, now, DeliveredTo(calls, u, k), ReplayTo(st, calls, k))
  {
    if k == 0 {
      NothingDelivered(h, u, was, now, st);
      assert DeliveredTo(calls, u, 0) == {};
    } else {
      EveryPrefix(h, u, was, now, st, calls, k - 1);
      NextCall(h, u, was, now, calls, k - 1, ReplayTo(st, calls, k - 1));
    }
  }

  lemma NextCall(h: Hash, u: string, was: FileSystem, now: FileSystem, calls: seq<Call>, k: nat, st: Store)
    requires Setting(h, was, now) && k < |calls| && CarriesBatch(h, u, Known(h, was), now, calls)
    requires After(h, u, was, now, DeliveredTo(calls, u, k), st)
    ensures After(h, u, was, now, DeliveredTo(calls, u, k + 1), PushEffect(st, calls[k].user, calls[k].event).store)
    ensures calls[k].user == u ==> SafeToApply(u, calls[k].event, st) && PushEffect(st, u, calls[k].event).ok
  {
    var Call(w, e) := calls[k];
    if w == u {
      assert DeliveredTo(calls, u, k + 1) == DeliveredTo(calls, u, k) + {e.path};
      PushStep(h, u, was, now, DeliveredTo(calls, u, k), st, e);
    } else {
      assert DeliveredTo(calls, u, k + 1) == DeliveredTo(calls, u, k);
      OtherUserUntouched(st, w, e, u);
    }
  }

  /** A path that changed kind keeps the kind of its row: its event, if any, is a modification. */
  lemma {:induction false} KindChangeSticks(h: Hash, u: string, was: FileSystem, now: FileSystem, st: Store,
                                            calls: seq<Call>, k: nat, p: string)
    requires NonEmpty(h) && Mirrors(h, u, was, st)
    requires k <= |calls| && CarriesBatch(h, u, Known(h, was), now, calls)
    requires p in was && p in now && was[p].Dir? == now[p].File?
    ensures RowAt(ReplayTo(st, calls, k).rows, u, p).Some?
    ensures RowAt(ReplayTo(st, calls, k).rows, u, p).value.kind == if was[p].Dir? then dir else file
  {
    if k == 0 {
      assert RowAt(st.rows, u, p) == RowFor(h, u, was, p);
    } else {
      KindChangeSticks(h, u, was, now, st, calls, k - 1, p);
      var before, w, e := ReplayTo(st, calls, k - 1), calls[k - 1].user, calls[k - 1].event;
      if w != u {
        OtherUserUntouched(before, w, e, u);
      } else {
        PushLocal(before, u, e);
        if e.path != p && Join(u, e.path) == Join(u, p) { JoinInjective(u, e.path, p); }
      }
    }
  }

  lemma KindChanged(h: Hash, was: FileSystem, now: FileSystem) returns (p: string)
    requires NonEmpty(h) && !KindsAgree(Known(h, was), now)
    ensures p in was && p in now && was[p].Dir? == now[p].File?
  {
    p :| p in Known(h, was) && p in now && !(Known(h, was)[p] == "" <==> now[p].Dir?);
  }

  /** Confluence.  Whatever the order of the batch and whatever other users push in between, the replica ends
      as the new tree, disk and rows, if and only if no shared path changed kind and no changed content kept
      its hash. */
  lemma {:induction false} AnyInterleavingReachesNewTree(h: Hash, u: string, was: FileSystem, now: FileSystem, st: Store, calls: seq<Call>)
    requires NonEmpty(h) && ParentClosed(was) && ParentClosed(now) && Mirrors(h, u, was, st)
    requires CarriesAll(h, u, Known(h, was), now, calls)
    ensures Mirrors(h, u, now, ReplayTo(st, calls, |calls|)) <==> KindsAgree(Known(h, was), now) && NoCollision(h, was, now)
    ensures KindsAgree(Known(h, was), now) ==>
              forall p :: RowAt(ReplayTo(st, calls, |calls|).rows, u, p) == RowFor(h, u, now, p)
  {
    var final := ReplayTo(st, calls, |calls|);
    if KindsAgree(Known(h, was), now) {
      EveryPrefix(h, u, was, now, st, calls, |calls|);
      AllDelivered(h, u, was, now, DeliveredTo(calls, u, |calls|), final);
    } else {
      var p := KindChanged(h, was, now);
      KindChangeSticks(h, u, was, now, st, calls, |calls|, p);
      assert RowFor(h, u, now, p).value.kind == if now[p].Dir? then dir else file;
    }
  }

  /** Safe intermediate states.  Each of the user's pushes succeeds; its INSERT finds no row, its UPDATE
      and DELETE find one, its file lands in an existing directory; and every path without an event keeps
      its content and its row at every moment, although remove_all deletes whole subtrees. */
  lemma EveryMomentIsSafe(h: Hash, u: string, was: FileSystem, now: FileSystem, st: Store, calls: seq<Call>, k: nat)
    requires Setting(h, was, now) && Mirrors(h, u, was, st)
    requires k < |calls| && CarriesBatch(h, u, Known(h, was), now, calls)
    ensures var before := ReplayTo(st, calls, k);
            && (calls[k].user == u ==>
                  SafeToApply(u, calls[k].event, before) && PushEffect(before, u, calls[k].event).ok)
            && (forall p :: p in was && EventAt(h, Known(h, was), now, p) == None ==>
                  At(before.disk, u, p) == Some(was[p]) && RowAt(before.rows, u, p) == RowFor(h, u, was, p))
  {
    EveryPrefix(h, u, was, now, st, calls, k);
    NextCall(h, u, was, now, calls, k, ReplayTo(st, calls, k));
  }
}

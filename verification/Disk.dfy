/** A file system as the synchronisation code uses it: a map from full path strings to nodes, with the
    calls of boost::filesystem that the client and the server make. */
module Disk {
  import opened Paths

  newtype byte = x: int | 0 <= x < 256
  type Bytes = seq<byte>

  datatype Node = Dir | File(data: Bytes)
  datatype Option<+T> = None | Some(value: T)

  type FileSystem = map<string, Node>

  /** What a call leaves behind; `ok` is false when it throws. */
  datatype Attempt = Attempt(disk: FileSystem, ok: bool)

  function Lookup(disk: FileSystem, v: string): Option<Node> {
    if v in disk then Some(disk[v]) else None
  }

  /** The node at relative path `p` below `base`. */
  function At(disk: FileSystem, base: string, p: string): Option<Node> {
    Lookup(disk, Join(base, p))
  }

  predicate IsDir(disk: FileSystem, v: string) {
    Lookup(disk, v) == Some(Dir)
  }

  /** The directory that must hold `v`; the file system's own root always does. */
  predicate ParentIsDir(disk: FileSystem, v: string) {
    Parent(v) == "" || IsDir(disk, Parent(v))
  }

  /** fs::create_directory on a free name, as it is called everywhere: throws unless the parent is a directory. */
  function CreateDirectory(disk: FileSystem, v: string): Attempt
    requires v !in disk
  {
    if ParentIsDir(disk, v) then Attempt(disk[v := Dir], true)
    else Attempt(disk, false)
  }

  /** Utils::write_on_file: the output stream reports no error, so an impossible write does nothing. */
  function WriteFile(disk: FileSystem, v: string, data: Bytes): FileSystem {
    if ParentIsDir(disk, v) && !IsDir(disk, v) then disk[v := File(data)] else disk
  }

  /** fs::remove: throws on a directory that is not empty. */
  function Remove(disk: FileSystem, v: string): Attempt {
    if IsDir(disk, v) && exists w :: w in disk && Under(v, w) then Attempt(disk, false)
    else Attempt(disk - {v}, true)
  }

  /** fs::remove_all: the whole subtree goes. */
  function RemoveAll(disk: FileSystem, v: string): FileSystem {
    map w | w in disk && w != v && !Under(v, w) :: disk[w]
  }

  /** `if (!fs::exists(v)) fs::create_directory(v)` */
  function EnsureDirectory(disk: FileSystem, v: string): Attempt {
    if v in disk then Attempt(disk, true) else CreateDirectory(disk, v)
  }

  /** What create_dirs does at the character `n` of the path. */
  function Visit(disk: FileSystem, base: string, path: string, n: nat): Attempt
    requires n < |path|
  {
    if path[n] == SEPARATOR then EnsureDirectory(disk, Join(base, path[..n])) else Attempt(disk, true)
  }

  /** create_dirs from character `n` of the path on. */
  function MakeDirsFrom(disk: FileSystem, base: string, path: string, n: nat): Attempt
    requires n <= |path|
    decreases |path| - n
  {
    if n == |path| then Attempt(disk, true)
    else
      var r := Visit(disk, base, path, n);
      if r.ok then MakeDirsFrom(r.disk, base, path, n + 1) else r
  }

  /** create_dirs: every missing ancestor of `path` below `base`, shortest first. */
  function MakeDirs(disk: FileSystem, base: string, path: string): Attempt {
    MakeDirsFrom(disk, base, path, 0)
  }

  /** Nothing outside the subtree of `base` differs. */
  ghost predicate SameElsewhere(base: string, before: FileSystem, after: FileSystem) {
    forall v :: !Under(base, v) ==> Lookup(after, v) == Lookup(before, v)
  }

  /** `base` is a directory and no ancestor of `path` below it is a file. */
  ghost predicate ChainClear(disk: FileSystem, base: string, path: string) {
    IsDir(disk, base) && forall a :: Under(a, path) ==> At(disk, base, a) in {None, Some(Dir)}
  }

  /** A node below `base` whose ancestors below `base` are all directories has a directory as parent. */
  lemma ParentFromChain(disk: FileSystem, base: string, a: string)
    requires IsDir(disk, base)
    requires forall b :: Under(b, a) ==> At(disk, base, b) == Some(Dir)
    ensures ParentIsDir(disk, Join(base, a))
  {
    ParentOfJoin(base, a);
    if SEPARATOR in a {
      assert At(disk, base, Parent(a)) == Some(Dir);
    }
  }

  /** Making sure of one directory whose ancestors below `base` are directories. */
  lemma EnsureDirectoryEffect(disk: FileSystem, base: string, a: string)
    requires IsDir(disk, base) && At(disk, base, a) in {None, Some(Dir)}
    requires forall b :: Under(b, a) ==> At(disk, base, b) == Some(Dir)
    ensures var r := EnsureDirectory(disk, Join(base, a));
            && r.ok
            && SameElsewhere(base, disk, r.disk)
            && forall p :: At(r.disk, base, p) == if p == a then Some(Dir) else At(disk, base, p)
  {
    ParentFromChain(disk, base, a);
    SingleEffect(disk, EnsureDirectory(disk, Join(base, a)).disk, base, a);
  }

  /** `after` is `disk` with exactly the missing ancestors of `path` shorter than `n` added below `base`. */
  ghost predicate AncestorsAdded(disk: FileSystem, base: string, path: string, n: nat, after: FileSystem) {
    && SameElsewhere(base, disk, after)
    && forall p :: At(after, base, p)
                   == if Under(p, path) && |p| < n && At(disk, base, p) == None then Some(Dir) else At(disk, base, p)
  }

  /** A missing ancestor can be made: what is there in place of its own parent, if anything, is a directory. */
  predicate CanMake(disk: FileSystem, base: string, a: string) {
    if SEPARATOR in a then At(disk, base, Parent(a)) in {None, Some(Dir)} else base == "" || IsDir(disk, base)
  }

  ghost predicate Passable(disk: FileSystem, base: string, path: string, from: nat) {
    forall a :: Under(a, path) && |a| >= from && At(disk, base, a) == None ==> CanMake(disk, base, a)
  }

  lemma ParentReady(disk: FileSystem, base: string, path: string, n: nat, before: FileSystem)
    requires n < |path| && path[n] == SEPARATOR && AncestorsAdded(disk, base, path, n, before)
    ensures ParentIsDir(before, Join(base, path[..n])) <==> CanMake(disk, base, path[..n])
  {
    var a := path[..n];
    ParentOfJoin(base, a);
    assert Under(a, path);
    if SEPARATOR in a {
      UnderTransitive(Parent(a), a, path);
      assert At(before, base, Parent(a)) == if At(disk, base, Parent(a)) == None then Some(Dir) else At(disk, base, Parent(a));
    } else {
      assert !Under(base, base);
    }
  }

  lemma AncestorStep(disk: FileSystem, base: string, path: string, n: nat, before: FileSystem)
    requires n < |path| && AncestorsAdded(disk, base, path, n, before)
    ensures var r := Visit(before, base, path, n);
            && (r.ok <==> path[n] == SEPARATOR && At(disk, base, path[..n]) == None ==> CanMake(disk, base, path[..n]))
            && (r.ok ==> AncestorsAdded(disk, base, path, n + 1, r.disk))
            && (!r.ok ==> r.disk == before)
  {
    if path[n] != SEPARATOR { return; }
    var a := path[..n];
    assert Under(a, path);
    assert At(before, base, a) == At(disk, base, a);
    ParentReady(disk, base, path, n, before);
    var r := Visit(before, base, path, n);
    if Join(base, a) in before {
      AncestorThere(disk, base, path, n, before);
    } else if r.ok {
      AncestorMade(disk, base, path, n, before, r.disk);
    }
  }

  lemma AncestorThere(disk: FileSystem, base: string, path: string, n: nat, before: FileSystem)
    requires n < |path| && AncestorsAdded(disk, base, path, n, before) && At(disk, base, path[..n]) != None
    ensures AncestorsAdded(disk, base, path, n + 1, before)
  {
    assert forall p :: Under(p, path) && |p| == n ==> p == path[..n];
  }

  lemma AncestorMade(disk: FileSystem, base: string, path: string, n: nat, before: FileSystem, after: FileSystem)
    requires n < |path| && path[n] == SEPARATOR && AncestorsAdded(disk, base, path, n, before)
    requires At(disk, base, path[..n]) == None && after == before[Join(base, path[..n]) := Dir]
    ensures AncestorsAdded(disk, base, path, n + 1, after)
  {
    SingleEffect(before, after, base, path[..n]);
    assert Under(path[..n], path);
    assert forall p :: Under(p, path) && |p| == n ==> p == path[..n];
  }

  lemma PassableNext(disk: FileSystem, base: string, path: string, n: nat)
    requires n < |path|
    ensures Passable(disk, base, path, n) <==>
              && Passable(disk, base, path, n + 1)
              && (path[n] == SEPARATOR && At(disk, base, path[..n]) == None ==> CanMake(disk, base, path[..n]))
  {
    if path[n] == SEPARATOR { assert Under(path[..n], path); }
    assert forall a :: Under(a, path) && |a| == n ==> a == path[..n] && path[n] == SEPARATOR;
  }

  lemma {:induction false} MakeDirsFromEffect(disk: FileSystem, base: string, path: string, n: nat, before: FileSystem)
    requires n <= |path| && AncestorsAdded(disk, base, path, n, before)
    ensures var r := MakeDirsFrom(before, base, path, n);
            && (r.ok <==> Passable(disk, base, path, n))
            && (r.ok ==> AncestorsAdded(disk, base, path, |path|, r.disk))
            && SameElsewhere(base, disk, r.disk)
            && (forall p :: At(r.disk, base, p) == At(disk, base, p)
                            || (Under(p, path) && At(disk, base, p) == None && At(r.disk, base, p) == Some(Dir)))
    decreases |path| - n
  {
    if n == |path| {
    } else {
      AncestorStep(disk, base, path, n, before);
      PassableNext(disk, base, path, n);
      if Visit(before, base, path, n).ok {
        MakeDirsFromEffect(disk, base, path, n + 1, Visit(before, base, path, n).disk);
      }
    }
  }

  /** create_dirs throws if and only if an ancestor of `path` is missing right below something that is no
      directory.  If it does not throw, it adds exactly the missing ancestors; and in any case it changes nothing
      that existed and adds nothing but missing ancestors. */
  lemma MakeDirsExactly(disk: FileSystem, base: string, path: string)
    ensures var r := MakeDirs(disk, base, path);
            && (r.ok <==> forall a :: Under(a, path) && At(disk, base, a) == None ==>
                            if SEPARATOR in a then At(disk, base, Parent(a)) in {None, Some(Dir)}
                            else base == "" || IsDir(disk, base))
            && (r.ok ==> AncestorsAdded(disk, base, path, |path|, r.disk))
            && SameElsewhere(base, disk, r.disk)
            && (forall p :: At(r.disk, base, p) == At(disk, base, p)
                            || (Under(p, path) && At(disk, base, p) == None && At(r.disk, base, p) == Some(Dir)))
  {
    MakeDirsFromEffect(disk, base, path, 0, disk);
    assert Passable(disk, base, path, 0) <==>
      forall a :: Under(a, path) && At(disk, base, a) == None ==> CanMake(disk, base, a);
  }

  /** On a clear chain create_dirs throws nothing, and afterwards every ancestor of `path` is a directory. */
  lemma MakeDirsEffect(disk: FileSystem, base: string, path: string)
    requires ChainClear(disk, base, path)
    ensures MakeDirs(disk, base, path).ok
    ensures SameElsewhere(base, disk, MakeDirs(disk, base, path).disk)
    ensures forall p :: At(MakeDirs(disk, base, path).disk, base, p) == if Under(p, path) then Some(Dir) else At(disk, base, p)
  {
    MakeDirsExactly(disk, base, path);
    forall a | Under(a, path) ensures CanMake(disk, base, a) {
      ParentOfJoin(base, a);
      if SEPARATOR in a { UnderTransitive(Parent(a), a, path); }
    }
  }

  lemma RemoveAllEffect(disk: FileSystem, base: string, q: string)
    ensures var r := RemoveAll(disk, Join(base, q));
            && SameElsewhere(base, disk, r)
            && forall p :: At(r, base, p) == if p == q || Under(q, p) then None else At(disk, base, p)
  {
    var r := RemoveAll(disk, Join(base, q));
    JoinUnder(base, q);
    forall p ensures At(r, base, p) == if p == q || Under(q, p) then None else At(disk, base, p) {
      UnderJoin(base, q, p);
      if Join(base, p) == Join(base, q) { JoinInjective(base, p, q); }
    }
    forall v | !Under(base, v) ensures Lookup(r, v) == Lookup(disk, v) {
      if Under(Join(base, q), v) { UnderTransitive(base, Join(base, q), v); }
    }
  }

  /** Putting or deleting one node below `base` is seen at that relative path only. */
  lemma SingleEffect(before: FileSystem, after: FileSystem, base: string, q: string)
    requires forall w :: w != Join(base, q) ==> Lookup(after, w) == Lookup(before, w)
    ensures SameElsewhere(base, before, after)
    ensures forall p :: p != q ==> At(after, base, p) == At(before, base, p)
  {
    JoinUnder(base, q);
    forall p | p != q ensures At(after, base, p) == At(before, base, p) {
      if Join(base, p) == Join(base, q) { JoinInjective(base, p, q); }
    }
  }

  /** The disk a client or a server works on. */
  class Volume {
    var disk: FileSystem

    constructor (initial: FileSystem)
      ensures disk == initial
    {
      disk := initial;
    }

    /** create_dirs, the same code on both sides: make each missing directory on the way to `path`.
        `ok` is false when fs::create_directory throws, and what was made so far stays. */
    method CreateDirs(base: string, path: string) returns (ok: bool)
      modifies this
      ensures Attempt(disk, ok) == MakeDirs(old(disk), base, path)
    {
      var n := 0;
      while n < |path|
        invariant n <= |path|
        invariant MakeDirs(old(disk), base, path) == MakeDirsFrom(disk, base, path, n)
      {
        if path[n] == SEPARATOR {
          var dir := Join(base, path[..n]);
          if dir !in disk {
            var made := CreateDirectory(disk, dir);
            disk := made.disk;
            if !made.ok { return false; }
          }
        }
        n := n + 1;
      }
      ok := true;
    }
  }
}

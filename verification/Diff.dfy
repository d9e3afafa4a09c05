/** What the client compares: the tree it watches against a map of known paths and hashes. */
module Diff {
  import opened Paths
  import opened Disk
  import opened PathTable
  import opened Server

  type Hash = Bytes -> string

  /** SHA-256 always prints 64 hexadecimal digits, so no file has the empty hash of a directory. */
  ghost predicate NonEmpty(h: Hash) {
    forall d :: h(d) != ""
  }

  /** A tree of relative paths: every ancestor of a member is a directory in it. */
  ghost predicate ParentClosed(tree: FileSystem) {
    forall a, p :: p in tree && Under(a, p) ==> a in tree && tree[a].Dir?
  }

  /** FileWatcher::get_elements: the hash of each file, the empty string for each directory. */
  function Known(h: Hash, tree: FileSystem): map<string, string> {
    map p | p in tree :: if tree[p].Dir? then "" else h(tree[p].data)
  }

  /** No shared path is a file on one side and a directory on the other. */
  ghost predicate KindsAgree(known: map<string, string>, tree: FileSystem) {
    forall p :: p in known && p in tree ==> (known[p] == "" <==> tree[p].Dir?)
  }

  /** The one change, if any, that `tree` calls for at `p` when `known` is what is recorded. */
  function EventAt(h: Hash, known: map<string, string>, tree: FileSystem, p: string): Option<Event> {
    if p in tree then
      match tree[p]
      case File(data) =>
        if p !in known then Some(CreatedFile(p, data, h(data)))
        else if known[p] != h(data) then Some(ModifiedFile(p, data, h(data)))
        else None
      case Dir =>
        if p !in known then Some(CreatedDir(p, "")) else None
    else if p in known then
      Some(if known[p] != "" then ErasedFile(p) else ErasedDir(p))
    else None
  }

  function EventList(e: Option<Event>): seq<Event> {
    match e case Some(event) => [event] case None => []
  }

  lemma Regroup(a: seq<Event>, b: seq<Event>, c: seq<Event>)
    ensures (a + b) + c == a + (b + c)
  {
  }

  /** Exactly the events `tree` calls for, each once, in any order. */
  ghost predicate IsBatch(h: Hash, known: map<string, string>, tree: FileSystem, batch: seq<Event>) {
    && (forall i, j :: 0 <= i < j < |batch| ==> batch[i].path != batch[j].path)
    && (forall e :: e in batch ==> EventAt(h, known, tree, e.path) == Some(e))
    && (forall p :: EventAt(h, known, tree, p).Some? ==> EventAt(h, known, tree, p).value in batch)
  }

  /** Against its own map a tree calls for nothing. */
  lemma KnownIsSilent(h: Hash, tree: FileSystem, sent: seq<Event>)
    requires IsBatch(h, Known(h, tree), tree, sent)
    ensures sent == []
  {
    if sent != [] { HasElement(sent); }
  }

  lemma HasElement(s: seq<Event>)
    requires s != []
    ensures exists e :: e in s
  {
    assert s[0] in s;
  }

  /** Delivery order does not matter to being a batch. */
  lemma AnyOrder(h: Hash, known: map<string, string>, tree: FileSystem, batch: seq<Event>, order: seq<Event>)
    requires IsBatch(h, known, tree, batch)
    requires multiset(order) == multiset(batch)
    ensures IsBatch(h, known, tree, order)
  {
    assert forall e :: e in order <==> e in multiset(order);
    assert forall e :: e in batch <==> e in multiset(batch);
    forall i, j | 0 <= i < j < |order| ensures order[i].path != order[j].path {
      if order[i].path == order[j].path {
        assert order[i] == order[j];
        TwiceInMultiset(order, i, j);
        OnceInMultiset(batch, order[i]);
      }
    }
  }

  lemma TwiceInMultiset(s: seq<Event>, i: nat, j: nat)
    requires i < j < |s| && s[i] == s[j]
    ensures multiset(s)[s[i]] >= 2
  {
    assert s == s[..j] + [s[j]] + s[j + 1..];
    assert s[i] in s[..j];
    assert multiset(s[..j])[s[i]] >= 1;
  }

  lemma {:induction false} OnceInMultiset(s: seq<Event>, e: Event)
    requires forall i, j :: 0 <= i < j < |s| ==> s[i].path != s[j].path
    ensures multiset(s)[e] <= 1
  {
    if s == [] {
    } else {
      OnceInMultiset(s[1..], e);
      assert s == [s[0]] + s[1..];
      assert forall k :: 0 <= k < |s| - 1 ==> s[1..][k] == s[k + 1];
      assert s[0] !in s[1..];
    }
  }
}

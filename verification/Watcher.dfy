/** FileWatcher: the periodic scan.  Its sorted containers are keyed here by the path relative to the watched
    directory; the source keys them by the full path, which sorts the same (Ordering.LessJoin). */
module Watcher {
  import opened Paths
  import opened Disk
  import opened Server
  import opened Diff
  import opened Ordering

  /** What one scan sees at a path. */
  datatype Entry = Folder | Regular(data: Bytes, mtime: int)

  type Snapshot = map<string, Entry>

  /** FSElement: the recorded modification time and hash of a tracked file. */
  datatype FSElement = FSElement(lastWriteTime: int, hash: string) {
    /** isOld: has the time moved?  The new time is recorded at once. */
    function IsOld(lwt: int): (FSElement, bool) {
      (this.(lastWriteTime := lwt), lastWriteTime != lwt)
    }

    /** needUpdate: has the content changed?  The new hash is recorded at once. */
    function NeedUpdate(now: string): (FSElement, bool) {
      (this.(hash := now), hash != now)
    }
  }

  function TreeOf(snap: Snapshot): FileSystem {
    map p | p in snap :: match snap[p] case Folder => Dir case Regular(data, _) => File(data)
  }

  /** get_elements: hashes of the tracked files, empty strings for the tracked directories. */
  function Elements(files: map<string, FSElement>, dirs: set<string>): map<string, string> {
    map p | p in files.Keys + dirs :: if p in files then files[p].hash else ""
  }

  function Members(keys: seq<string>): set<string> {
    set p | p in keys
  }

  /** recursive_directory_iterator: every entry once. */
  ghost predicate IsListing(snap: Snapshot, listing: seq<string>) {
    && (forall p :: p in listing <==> p in snap)
    && (forall i, j :: 0 <= i < j < |listing| ==> listing[i] != listing[j])
  }

  lemma NextListed(snap: Snapshot, listing: seq<string>, n: nat)
    requires IsListing(snap, listing) && n < |listing|
    ensures listing[n] in snap && listing[n] !in Members(listing[..n])
    ensures Members(listing[..n + 1]) == Members(listing[..n]) + {listing[n]}
  {
    assert listing[n] in listing;
    assert listing[..n + 1] == listing[..n] + [listing[n]];
  }

  /** The tracked files, hashes, times and directories are exactly those of the snapshot. */
  ghost predicate Tracks(h: Hash, snap: Snapshot, files: map<string, FSElement>, dirs: set<string>) {
    && (forall p :: p in files <==> p in snap && snap[p].Regular?)
    && (forall p :: p in files ==> files[p] == FSElement(snap[p].mtime, h(snap[p].data)))
    && (forall p :: p in dirs <==> p in snap && snap[p].Folder?)
  }

  /** No tracked path has changed kind. */
  ghost predicate KindStable(files: map<string, FSElement>, dirs: set<string>, snap: Snapshot) {
    forall p :: p in snap ==> (p in files ==> snap[p].Regular?) && (p in dirs ==> snap[p].Folder?)
  }

  /** A tracked file whose time stands still has kept its content, as far as the hash can tell. */
  ghost predicate MtimesMove(h: Hash, files: map<string, FSElement>, snap: Snapshot) {
    forall p :: p in files && p in snap && snap[p].Regular? && files[p].lastWriteTime == snap[p].mtime
                ==> files[p].hash == h(snap[p].data)
  }

  // ---------------------------------------------------------------- what a scan emits

  function GoneFile(p: string, snap: Snapshot): seq<Event> {
    if p in snap then [] else [ErasedFile(p)]
  }

  function FilesGone(keys: seq<string>, snap: Snapshot): seq<Event> {
    if keys == [] then [] else FilesGone(keys[..|keys| - 1], snap) + GoneFile(keys[|keys| - 1], snap)
  }

  /** The keys a scan keeps, in order. */
  function Kept(keys: seq<string>, snap: Snapshot): seq<string> {
    if keys == [] then []
    else
      var last := |keys| - 1;
      Kept(keys[..last], snap) + if keys[last] in snap then [keys[last]] else []
  }

  /** The container and its iterator after `n` keys have been looked at: kept ones, then those to come. */
  ghost predicate AtKey(all: seq<string>, snap: Snapshot, n: nat, keys: seq<string>, it: int) {
    n <= |all| && it == |Kept(all[..n], snap)| && keys == Kept(all[..n], snap) + all[n..]
  }

  lemma NextKey(all: seq<string>, snap: Snapshot, n: nat)
    requires n < |all|
    ensures FilesGone(all[..n + 1], snap) == FilesGone(all[..n], snap) + GoneFile(all[n], snap)
    ensures Kept(all[..n + 1], snap) == Kept(all[..n], snap) + if all[n] in snap then [all[n]] else []
    ensures all[n..] == [all[n]] + all[n + 1..]
  {
    assert all[..n + 1][..n] == all[..n];
  }

  lemma StepKey(all: seq<string>, snap: Snapshot, n: nat, keys: seq<string>, it: int)
    requires AtKey(all, snap, n, keys, it) && it < |keys|
    ensures n < |all| && keys[it] == all[n]
    ensures FilesGone(all[..n + 1], snap) == FilesGone(all[..n], snap) + GoneFile(all[n], snap)
    ensures all[n] in snap ==> AtKey(all, snap, n + 1, keys, it + 1)
    ensures all[n] !in snap ==> AtKey(all, snap, n + 1, keys[..it] + keys[it + 1..], it)
  {
    NextKey(all, snap, n);
    var kept := Kept(all[..n], snap);
    if all[n] in snap {
      assert keys == (kept + [all[n]]) + all[n + 1..];
    } else {
      assert keys[..it] == kept && keys[it + 1..] == all[n + 1..];
    }
  }

  lemma {:induction false} KeptMembers(keys: seq<string>, snap: Snapshot)
    ensures forall p :: p in Kept(keys, snap) <==> p in keys && p in snap
  {
    if keys == [] {
    } else {
      var last := |keys| - 1;
      KeptMembers(keys[..last], snap);
      assert forall p :: p in keys <==> p in keys[..last] || p == keys[last];
    }
  }

  /** The iterator is at the end: every key has been looked at, and those of the snapshot are left. */
  lemma AllLookedAt(all: seq<string>, snap: Snapshot, n: nat, keys: seq<string>, it: int)
    requires AtKey(all, snap, n, keys, it) && it >= |keys|
    ensures all[..n] == all && forall p :: p in keys <==> p in all && p in snap
  {
    assert all[..n] == all && all[n..] == [];
    KeptMembers(all, snap);
  }

  /** Backwards, as the reverse iterator goes. */
  function DirsGone(keys: seq<string>, snap: Snapshot): seq<Event> {
    if keys == [] then []
    else DirsGone(keys[1..], snap) + if keys[0] in snap then [] else [ErasedDir(keys[0])]
  }

  /** The directories when the reverse iterator's base is at `base`: below it untouched, above it kept. */
  ghost predicate AtBase(all: seq<string>, snap: Snapshot, base: nat, keys: seq<string>) {
    && base <= |all| && base <= |keys| && keys[..base] == all[..base]
    && (forall p :: p in keys ==> p in all)
    && (forall k :: base <= k < |keys| ==> keys[k] in snap)
    && (forall p :: p in all && p in snap ==> p in keys)
  }

  lemma StepBase(all: seq<string>, snap: Snapshot, base: nat, keys: seq<string>)
    requires AtBase(all, snap, base, keys) && base > 0 && Sorted(keys)
    ensures keys[base - 1] == all[base - 1]
    ensures all[base - 1] in snap ==>
              AtBase(all, snap, base - 1, keys) && DirsGone(all[base - 1..], snap) == DirsGone(all[base..], snap)
    ensures all[base - 1] !in snap ==>
              AtBase(all, snap, base - 1, keys[..base - 1] + keys[base..])
              && DirsGone(all[base - 1..], snap) == DirsGone(all[base..], snap) + [ErasedDir(all[base - 1])]
  {
    assert keys[..base][base - 1] == all[..base][base - 1];
    assert all[base - 1..][1..] == all[base..];
    assert keys[..base - 1] == keys[..base][..base - 1] && all[..base - 1] == all[..base][..base - 1];
    ErasePosition(keys, base - 1);
    var after := keys[..base - 1] + keys[base..];
    assert after[..base - 1] == keys[..base - 1];
  }

  /** What the second half of the scan makes of one entry. */
  function VisitEvent(h: Hash, files: map<string, FSElement>, dirs: set<string>, snap: Snapshot, p: string): Option<Event>
    requires p in snap
  {
    match snap[p]
    case Regular(data, mtime) =>
      if p !in files then Some(CreatedFile(p, data, h(data)))
      else if files[p].lastWriteTime != mtime && files[p].hash != h(data) then Some(ModifiedFile(p, data, h(data)))
      else None
    case Folder => if p !in dirs then Some(CreatedDir(p, "")) else None
  }

  function VisitEvents(h: Hash, files: map<string, FSElement>, dirs: set<string>, snap: Snapshot,
                       listing: seq<string>, n: nat): seq<Event>
    requires n <= |listing| && forall p :: p in listing ==> p in snap
  {
    if n == 0 then []
    else VisitEvents(h, files, dirs, snap, listing, n - 1)
         + EventList(VisitEvent(h, files, dirs, snap, listing[n - 1]))
  }

  /** The record of a regular file after the scan has visited it. */
  function Refreshed(h: Hash, files: map<string, FSElement>, entry: Entry, p: string): FSElement
    requires entry.Regular?
  {
    if p in files && files[p].lastWriteTime == entry.mtime then files[p] else FSElement(entry.mtime, h(entry.data))
  }

  /** The tracked files once the entries `visited` have been visited. */
  ghost predicate FilesAfter(h: Hash, before: map<string, FSElement>, snap: Snapshot, visited: set<string>,
                             after: map<string, FSElement>) {
    && (forall p :: p in after <==> p in before || (p in visited && p in snap && snap[p].Regular?))
    && (forall p :: p in after ==>
          after[p] == if p in visited && p in snap && snap[p].Regular? then Refreshed(h, before, snap[p], p) else before[p])
  }

  ghost predicate DirsAfter(before: set<string>, snap: Snapshot, visited: set<string>, after: seq<string>) {
    forall p :: p in after <==> p in before || (p in visited && p in snap && snap[p].Folder?)
  }

  /** A path not yet visited is reported as it would have been at the start. */
  lemma FirstVisit(h: Hash, before: map<string, FSElement>, dirsBefore: set<string>, snap: Snapshot, visited: set<string>,
                   files: map<string, FSElement>, dirs: seq<string>, p: string)
    requires FilesAfter(h, before, snap, visited, files) && DirsAfter(dirsBefore, snap, visited, dirs)
    requires p in snap && p !in visited
    ensures VisitEvent(h, files, Members(dirs), snap, p) == VisitEvent(h, before, dirsBefore, snap, p)
    ensures snap[p].Regular? ==>
              FilesAfter(h, before, snap, visited + {p}, files[p := Refreshed(h, files, snap[p], p)])
    ensures snap[p].Folder? ==> FilesAfter(h, before, snap, visited + {p}, files)
  {
  }

  // ---------------------------------------------------------------- a scan cut short

  /** Something of `total`, from its beginning, has been emitted after `before`. */
  ghost predicate Part(before: seq<Event>, emitted: seq<Event>, total: seq<Event>) {
    before <= emitted <= before + total
  }

  /** All calls of the action from number `lo` up to `hi` return true. */
  ghost predicate Accepted(accepts: nat -> bool, lo: nat, hi: nat) {
    forall j: nat :: lo <= j < hi ==> accepts(j)
  }

  /** Either all of `total` has been emitted, or its beginning up to the event that the action refused. */
  ghost predicate Told(accepts: nat -> bool, before: seq<Event>, emitted: seq<Event>, total: seq<Event>, ok: bool) {
    if ok then emitted == before + total
    else Part(before, emitted, total) && |emitted| < |before| + |total| && !accepts(|emitted|)
  }

  /** `n` calls have been accepted since, all with this cycle number. */
  ghost predicate Counted(was: seq<int>, now: seq<int>, n: int, cycle: int) {
    && |was| <= |now| == |was| + n && (forall j :: 0 <= j < |was| ==> now[j] == was[j])
    && (forall j :: |was| <= j < |now| ==> now[j] == cycle)
  }

  /** So the action's answers alone decide whether all is emitted, and how much. */
  lemma AnswersDecide(accepts: nat -> bool, before: seq<Event>, emitted: seq<Event>, total: seq<Event>, ok: bool)
    requires Told(accepts, before, emitted, total, ok) && Accepted(accepts, |before|, |emitted|)
    ensures ok <==> Accepted(accepts, |before|, |before| + |total|)
    ensures forall j: nat :: |before| <= j < |before| + |total| && !accepts(j) ==> |emitted| <= j
    ensures emitted == before + total[..|emitted| - |before|]
  {
    var n := |emitted| - |before|;
    assert ok ==> total[..n] == total;
    assert !ok ==> emitted == (before + total)[..|emitted|];
    assert (before + total)[..|before| + n] == before + total[..n];
  }

  lemma CutShort(before: seq<Event>, part: seq<Event>, total: seq<Event>)
    requires part <= total
    ensures Part(before, before + part, total)
  {
  }

  /** The first half was cut short, so the whole is. */
  lemma ToldOfMore(accepts: nat -> bool, before: seq<Event>, emitted: seq<Event>, total: seq<Event>, more: seq<Event>)
    requires Told(accepts, before, emitted, total, false)
    ensures Told(accepts, before, emitted, total + more, false)
  {
    PartOfMore(before, emitted, total, more);
  }

  lemma ToldAfter(accepts: nat -> bool, before: seq<Event>, done: seq<Event>, emitted: seq<Event>, total: seq<Event>, ok: bool)
    requires Told(accepts, before + done, emitted, total, ok)
    ensures Told(accepts, before, emitted, done + total, ok)
  {
    Regroup(before, done, total);
    if !ok { PartAfter(before, done, emitted, total); }
  }

  lemma PartOfMore(before: seq<Event>, emitted: seq<Event>, total: seq<Event>, more: seq<Event>)
    requires Part(before, emitted, total)
    ensures Part(before, emitted, total + more)
  {
    Regroup(before, total, more);
  }

  lemma PartAfter(before: seq<Event>, done: seq<Event>, emitted: seq<Event>, total: seq<Event>)
    requires Part(before + done, emitted, total)
    ensures Part(before, emitted, done + total)
  {
    Regroup(before, done, total);
  }

  lemma {:induction false} FilesGonePrefix(keys: seq<string>, snap: Snapshot, n: nat)
    requires n <= |keys|
    ensures FilesGone(keys[..n], snap) <= FilesGone(keys, snap)
  {
    if n == |keys| {
      assert keys[..n] == keys;
    } else {
      FilesGonePrefix(keys[..|keys| - 1], snap, n);
      assert keys[..|keys| - 1][..n] == keys[..n];
    }
  }

  lemma FilesCutShort(before: seq<Event>, keys: seq<string>, snap: Snapshot, n: nat)
    requires n <= |keys|
    ensures Part(before, before + FilesGone(keys[..n], snap), FilesGone(keys, snap))
  {
    FilesGonePrefix(keys, snap, n);
    CutShort(before, FilesGone(keys[..n], snap), FilesGone(keys, snap));
  }

  lemma MoreFilesGone(keys: seq<string>, snap: Snapshot, n: nat)
    requires n < |keys| && keys[n] !in snap
    ensures |FilesGone(keys[..n], snap)| < |FilesGone(keys, snap)|
  {
    NextKey(keys, snap, n);
    FilesGonePrefix(keys, snap, n + 1);
  }

  lemma {:induction false} DirsGonePrefix(keys: seq<string>, snap: Snapshot, n: nat)
    requires n <= |keys|
    ensures DirsGone(keys[n..], snap) <= DirsGone(keys, snap)
  {
    if n == 0 {
      assert keys[n..] == keys;
    } else {
      DirsGonePrefix(keys[1..], snap, n - 1);
      assert keys[1..][n - 1..] == keys[n..];
    }
  }

  lemma {:induction false} VisitEventsPrefix(h: Hash, files: map<string, FSElement>, dirs: set<string>, snap: Snapshot,
                                             listing: seq<string>, n: nat, m: nat)
    requires n <= m <= |listing| && forall p :: p in listing ==> p in snap
    ensures VisitEvents(h, files, dirs, snap, listing, n) <= VisitEvents(h, files, dirs, snap, listing, m)
    decreases m
  {
    if n == m {
    } else {
      VisitEventsPrefix(h, files, dirs, snap, listing, n, m - 1);
    }
  }

  lemma VisitsCutShort(before: seq<Event>, h: Hash, files: map<string, FSElement>, dirs: set<string>, snap: Snapshot,
                       listing: seq<string>, n: nat)
    requires n <= |listing| && forall p :: p in listing ==> p in snap
    ensures Part(before, before + VisitEvents(h, files, dirs, snap, listing, n),
                 VisitEvents(h, files, dirs, snap, listing, |listing|))
  {
    VisitEventsPrefix(h, files, dirs, snap, listing, n, |listing|);
    CutShort(before, VisitEvents(h, files, dirs, snap, listing, n), VisitEvents(h, files, dirs, snap, listing, |listing|));
  }

  lemma {:induction false} VisitsAddUp(h: Hash, files: map<string, FSElement>, dirs: set<string>, snap: Snapshot,
                                       listing: seq<string>, n: nat, m: nat)
    requires n <= m <= |listing| && forall p :: p in listing ==> p in snap
    ensures |VisitEvents(h, files, dirs, snap, listing, n)| <= |VisitEvents(h, files, dirs, snap, listing, m)|
    decreases m
  {
    if n < m { VisitsAddUp(h, files, dirs, snap, listing, n, m - 1); }
  }

  lemma {:induction false} MoreVisits(h: Hash, files: map<string, FSElement>, dirs: set<string>, snap: Snapshot,
                                     listing: seq<string>, n: nat)
    requires n < |listing| && forall p :: p in listing ==> p in snap
    requires VisitEvent(h, files, dirs, snap, listing[n]).Some?
    ensures |VisitEvents(h, files, dirs, snap, listing, n)| < |VisitEvents(h, files, dirs, snap, listing, |listing|)|
  {
    var event := VisitEvent(h, files, dirs, snap, listing[n]);
    assert VisitEvents(h, files, dirs, snap, listing, n + 1)
           == VisitEvents(h, files, dirs, snap, listing, n) + EventList(event);
    assert |EventList(event)| == 1;
    VisitsAddUp(h, files, dirs, snap, listing, n + 1, |listing|);
  }

  // ---------------------------------------------------------------- the events of a whole scan

  /** All a scan emits, in order. */
  function ScanEvents(h: Hash, fileKeys: seq<string>, files: map<string, FSElement>, dirs: seq<string>,
                      snap: Snapshot, listing: seq<string>): seq<Event>
    requires forall p :: p in listing ==> p in snap
  {
    (FilesGone(fileKeys, snap) + DirsGone(dirs, snap))
    + VisitEvents(h, files, Members(dirs), snap, listing, |listing|)
  }

  /** The scan's verdict on one path. */
  function ScanEvent(h: Hash, files: map<string, FSElement>, dirs: set<string>, snap: Snapshot, p: string): Option<Event> {
    if p in snap then VisitEvent(h, files, dirs, snap, p)
    else if p in files then Some(ErasedFile(p))
    else if p in dirs then Some(ErasedDir(p))
    else None
  }

  /** `events` holds the verdict on each path of `seen`, once. */
  ghost predicate Reported(h: Hash, files: map<string, FSElement>, dirs: set<string>, snap: Snapshot,
                           seen: set<string>, events: seq<Event>) {
    && (forall i, j :: 0 <= i < j < |events| ==> events[i].path != events[j].path)
    && (forall e :: e in events ==> e.path in seen && ScanEvent(h, files, dirs, snap, e.path) == Some(e))
    && (forall p :: p in seen && ScanEvent(h, files, dirs, snap, p).Some? ==> ScanEvent(h, files, dirs, snap, p).value in events)
  }

  lemma ReportOne(h: Hash, files: map<string, FSElement>, dirs: set<string>, snap: Snapshot,
                  seen: set<string>, events: seq<Event>, p: string)
    requires Reported(h, files, dirs, snap, seen, events) && p !in seen
    ensures Reported(h, files, dirs, snap, seen + {p}, events + EventList(ScanEvent(h, files, dirs, snap, p)))
  {
    var more := EventList(ScanEvent(h, files, dirs, snap, p));
    assert forall i :: 0 <= i < |events| ==> events[i] in events;
    assert more == [] ==> events + more == events;
  }

  lemma {:induction false} FilesReported(h: Hash, keys: seq<string>, files: map<string, FSElement>, dirs: set<string>,
                                         snap: Snapshot)
    requires Sorted(keys) && forall p :: p in keys ==> p in files
    ensures Reported(h, files, dirs, snap, Members(keys) - snap.Keys, FilesGone(keys, snap))
  {
    if keys == [] {
    } else {
      var last := |keys| - 1;
      var init, p := keys[..last], keys[last];
      assert keys == init + [p];
      FilesReported(h, init, files, dirs, snap);
      if p in snap {
        assert Members(keys) - snap.Keys == Members(init) - snap.Keys;
      } else {
        forall k | 0 <= k < |init| ensures init[k] != p { LessAsymmetric(keys[k], keys[last]); }
        ReportOne(h, files, dirs, snap, Members(init) - snap.Keys, FilesGone(init, snap), p);
        assert Members(keys) - snap.Keys == (Members(init) - snap.Keys) + {p};
      }
    }
  }

  lemma HeadOfSorted(keys: seq<string>)
    requires Sorted(keys) && keys != []
    ensures Sorted(keys[1..]) && keys[0] !in Members(keys[1..])
    ensures Members(keys) == Members(keys[1..]) + {keys[0]}
  {
    assert keys == [keys[0]] + keys[1..];
    forall k | 0 <= k < |keys[1..]| ensures keys[1..][k] != keys[0] { LessAsymmetric(keys[0], keys[k + 1]); }
  }

  lemma {:induction false} DirsReported(h: Hash, keys: seq<string>, files: map<string, FSElement>, dirs: set<string>,
                                        snap: Snapshot, seen: set<string>, before: seq<Event>)
    requires Sorted(keys) && forall p :: p in Members(keys) ==> p in dirs && p !in files && p !in seen
    requires Reported(h, files, dirs, snap, seen, before)
    ensures Reported(h, files, dirs, snap, seen + (Members(keys) - snap.Keys), before + DirsGone(keys, snap))
  {
    if keys == [] {
      assert before + DirsGone(keys, snap) == before && seen + (Members(keys) - snap.Keys) == seen;
    } else {
      var rest, p := keys[1..], keys[0];
      HeadOfSorted(keys);
      DirsReported(h, rest, files, dirs, snap, seen, before);
      var soFar := seen + (Members(rest) - snap.Keys);
      if p in snap {
        assert DirsGone(keys, snap) == DirsGone(rest, snap);
        assert seen + (Members(keys) - snap.Keys) == soFar;
      } else {
        ReportOne(h, files, dirs, snap, soFar, before + DirsGone(rest, snap), p);
        Regroup(before, DirsGone(rest, snap), [ErasedDir(p)]);
        assert seen + (Members(keys) - snap.Keys) == soFar + {p};
      }
    }
  }

  lemma OneMore(seen: set<string>, some: set<string>, p: string)
    ensures seen + (some + {p}) == (seen + some) + {p}
  {
  }

  lemma VisitReported(h: Hash, files: map<string, FSElement>, dirs: set<string>, snap: Snapshot,
                      listing: seq<string>, n: nat, seen: set<string>, before: seq<Event>)
    requires n < |listing| && IsListing(snap, listing) && listing[n] !in seen && listing[n] in snap
    requires Reported(h, files, dirs, snap, seen, before + VisitEvents(h, files, dirs, snap, listing, n))
    ensures Reported(h, files, dirs, snap, seen + {listing[n]}, before + VisitEvents(h, files, dirs, snap, listing, n + 1))
  {
    var events, p := VisitEvents(h, files, dirs, snap, listing, n), listing[n];
    ReportOne(h, files, dirs, snap, seen, before + events, p);
    Regroup(before, events, EventList(VisitEvent(h, files, dirs, snap, p)));
  }

  lemma {:induction false} VisitsReported(h: Hash, files: map<string, FSElement>, dirs: set<string>, snap: Snapshot,
                                          listing: seq<string>, n: nat, seen: set<string>, before: seq<Event>)
    requires n <= |listing| && IsListing(snap, listing) && seen !! snap.Keys
    requires Reported(h, files, dirs, snap, seen, before)
    ensures Reported(h, files, dirs, snap, seen + Members(listing[..n]), before + VisitEvents(h, files, dirs, snap, listing, n))
  {
    if n == 0 {
      assert before + [] == before && seen + Members(listing[..0]) == seen;
    } else {
      VisitsReported(h, files, dirs, snap, listing, n - 1, seen, before);
      NextListed(snap, listing, n - 1);
      VisitReported(h, files, dirs, snap, listing, n - 1, seen + Members(listing[..n - 1]), before);
      OneMore(seen, Members(listing[..n - 1]), listing[n - 1]);
    }
  }

  /** A scan over tracked containers reports the verdict on every path of theirs and of the snapshot, once. */
  lemma ScanReports(h: Hash, fileKeys: seq<string>, files: map<string, FSElement>, dirs: seq<string>,
                    snap: Snapshot, listing: seq<string>) returns (seen: set<string>)
    requires Sorted(fileKeys) && Sorted(dirs) && (forall p :: p in fileKeys <==> p in files)
    requires files.Keys !! Members(dirs) && IsListing(snap, listing)
    ensures Reported(h, files, Members(dirs), snap, seen, ScanEvents(h, fileKeys, files, dirs, snap, listing))
    ensures forall p :: p in seen <==> p in snap || p in files || p in Members(dirs)
  {
    var d := Members(dirs);
    FilesReported(h, fileKeys, files, d, snap);
    var seen1 := Members(fileKeys) - snap.Keys;
    DirsReported(h, dirs, files, d, snap, seen1, FilesGone(fileKeys, snap));
    var seen2 := seen1 + (d - snap.Keys);
    VisitsReported(h, files, d, snap, listing, |listing|, seen2, FilesGone(fileKeys, snap) + DirsGone(dirs, snap));
    assert listing[..|listing|] == listing;
    seen := seen2 + Members(listing);
  }

  /** Every tracked file has the hash of a file. */
  ghost predicate HashedFiles(files: map<string, FSElement>) {
    forall p :: p in files ==> files[p].hash != ""
  }

  /** At one path the scan sees all there is to see: its kind is the one tracked, and if the time has not
      moved the content has not changed either. */
  ghost predicate SeenAt(h: Hash, files: map<string, FSElement>, dirs: set<string>, snap: Snapshot, p: string)
    requires p in snap
  {
    && (p in files ==> snap[p].Regular?) && (p in dirs ==> snap[p].Folder?)
    && (p in files && snap[p].Regular? && files[p].lastWriteTime == snap[p].mtime ==> files[p].hash == h(snap[p].data))
  }

  /** At one path the verdict is what the tree calls for exactly when the scan sees all there is to see. */
  lemma VerdictAt(h: Hash, files: map<string, FSElement>, dirs: set<string>, snap: Snapshot, p: string)
    requires files.Keys !! dirs && HashedFiles(files)
    ensures ScanEvent(h, files, dirs, snap, p) == EventAt(h, Elements(files, dirs), TreeOf(snap), p)
            <==> (p in snap ==> SeenAt(h, files, dirs, snap, p))
  {
    var known := Elements(files, dirs);
    assert p in known <==> p in files || p in dirs;
    assert p in TreeOf(snap) <==> p in snap;
  }

  lemma SeenEverywhere(h: Hash, files: map<string, FSElement>, dirs: set<string>, snap: Snapshot)
    ensures (forall p :: p in snap ==> SeenAt(h, files, dirs, snap, p))
            <==> KindStable(files, dirs, snap) && MtimesMove(h, files, snap)
  {
    if forall p :: p in snap ==> SeenAt(h, files, dirs, snap, p) {
      forall p | p in snap
        ensures (p in files ==> snap[p].Regular?) && (p in dirs ==> snap[p].Folder?)
        ensures p in files && snap[p].Regular? && files[p].lastWriteTime == snap[p].mtime ==> files[p].hash == h(snap[p].data) {
        assert SeenAt(h, files, dirs, snap, p);
      }
    }
  }

  lemma BatchOfVerdicts(h: Hash, files: map<string, FSElement>, dirs: set<string>, snap: Snapshot,
                        seen: set<string>, events: seq<Event>)
    requires Reported(h, files, dirs, snap, seen, events)
    requires forall p :: p in seen <==> p in snap || p in files || p in dirs
    ensures IsBatch(h, Elements(files, dirs), TreeOf(snap), events)
            <==> forall p :: ScanEvent(h, files, dirs, snap, p) == EventAt(h, Elements(files, dirs), TreeOf(snap), p)
  {
    var known, tree := Elements(files, dirs), TreeOf(snap);
    if IsBatch(h, known, tree, events) {
      forall p ensures ScanEvent(h, files, dirs, snap, p) == EventAt(h, known, tree, p) {
        if ScanEvent(h, files, dirs, snap, p).Some? {
          assert p in seen;
          assert ScanEvent(h, files, dirs, snap, p).value in events;
        } else if EventAt(h, known, tree, p).Some? {
          assert EventAt(h, known, tree, p).value in events;
        }
      }
    }
  }

  /** Scan exactness: the scan emits exactly the events the snapshot calls for against what was tracked,
      each once, if and only if no tracked path changed kind and none changed content under a still clock. */
  lemma ScanIsBatch(h: Hash, fileKeys: seq<string>, files: map<string, FSElement>, dirs: seq<string>,
                    snap: Snapshot, listing: seq<string>)
    requires Sorted(fileKeys) && Sorted(dirs) && (forall p :: p in fileKeys <==> p in files)
    requires files.Keys !! Members(dirs) && HashedFiles(files) && IsListing(snap, listing)
    ensures IsBatch(h, Elements(files, Members(dirs)), TreeOf(snap), ScanEvents(h, fileKeys, files, dirs, snap, listing))
            <==> KindStable(files, Members(dirs), snap) && MtimesMove(h, files, snap)
  {
    var seen := ScanReports(h, fileKeys, files, dirs, snap, listing);
    BatchOfVerdicts(h, files, Members(dirs), snap, seen, ScanEvents(h, fileKeys, files, dirs, snap, listing));
    forall p ensures ScanEvent(h, files, Members(dirs), snap, p) == EventAt(h, Elements(files, Members(dirs)), TreeOf(snap), p)
                     <==> (p in snap ==> SeenAt(h, files, Members(dirs), snap, p)) {
      VerdictAt(h, files, Members(dirs), snap, p);
    }
    SeenEverywhere(h, files, Members(dirs), snap);
  }

  /** The containers after a whole scan. */
  ghost predicate Swept(h: Hash, filesBefore: map<string, FSElement>, dirsBefore: set<string>, snap: Snapshot,
                        files: map<string, FSElement>, dirs: set<string>) {
    && (forall p :: p in files <==> p in snap && (p in filesBefore || snap[p].Regular?))
    && (forall p :: p in files ==>
          files[p] == if snap[p].Regular? then Refreshed(h, filesBefore, snap[p], p) else filesBefore[p])
    && (forall p :: p in dirs <==> p in snap && (p in dirsBefore || snap[p].Folder?))
  }

  /** Erasures first, then visits: together a sweep. */
  lemma SweepInTwo(h: Hash, files: map<string, FSElement>, dirs: set<string>, snap: Snapshot,
                   filesKept: map<string, FSElement>, dirsKept: set<string>, filesAfter: map<string, FSElement>, dirsAfter: seq<string>)
    requires forall p :: p in filesKept <==> p in files && p in snap
    requires forall p :: p in filesKept ==> filesKept[p] == files[p]
    requires forall p :: p in dirsKept <==> p in dirs && p in snap
    requires FilesAfter(h, filesKept, snap, snap.Keys, filesAfter) && DirsAfter(dirsKept, snap, snap.Keys, dirsAfter)
    ensures Swept(h, files, dirs, snap, filesAfter, Members(dirsAfter))
  {
  }

  /** Tracking exactness: after the scan files, hashes, times and directories are those of the snapshot, under
      the same condition that makes its events exact. */
  lemma SweptTracks(h: Hash, filesBefore: map<string, FSElement>, dirsBefore: set<string>, snap: Snapshot,
                    files: map<string, FSElement>, dirs: set<string>)
    requires Swept(h, filesBefore, dirsBefore, snap, files, dirs)
    ensures Tracks(h, snap, files, dirs) <==> KindStable(filesBefore, dirsBefore, snap) && MtimesMove(h, filesBefore, snap)
  {
    if Tracks(h, snap, files, dirs) {
      assert forall p :: p in filesBefore && p in snap ==> p in files;
      assert forall p :: p in dirsBefore && p in snap ==> p in dirs;
    }
  }

  lemma VisitEventSame(h: Hash, files: map<string, FSElement>, dirs: set<string>,
                       filesAfter: map<string, FSElement>, dirsAfter: set<string>, snap: Snapshot, p: string)
    requires p in snap && (p in files <==> p in filesAfter) && (p in dirs <==> p in dirsAfter)
    requires p in filesAfter ==> filesAfter[p] == files[p]
    ensures VisitEvent(h, files, dirs, snap, p) == VisitEvent(h, filesAfter, dirsAfter, snap, p)
  {
  }

  /** The visits report on the containers as they were before the erasures. */
  lemma {:induction false} VisitEventsSame(h: Hash, files: map<string, FSElement>, dirs: set<string>,
                                           filesAfter: map<string, FSElement>, dirsAfter: set<string>,
                                           snap: Snapshot, listing: seq<string>, n: nat)
    requires n <= |listing| && forall p :: p in listing ==> p in snap
    requires forall p :: p in snap ==> (p in files <==> p in filesAfter) && (p in dirs <==> p in dirsAfter)
    requires forall p :: p in filesAfter ==> p in files && filesAfter[p] == files[p]
    ensures VisitEvents(h, files, dirs, snap, listing, n) == VisitEvents(h, filesAfter, dirsAfter, snap, listing, n)
  {
    if n == 0 {
    } else {
      VisitEventsSame(h, files, dirs, filesAfter, dirsAfter, snap, listing, n - 1);
      assert listing[n - 1] in listing;
      VisitEventSame(h, files, dirs, filesAfter, dirsAfter, snap, listing[n - 1]);
    }
  }

  lemma TrackedElements(h: Hash, snap: Snapshot, files: map<string, FSElement>, dirs: set<string>)
    requires Tracks(h, snap, files, dirs)
    ensures Elements(files, dirs) == Known(h, TreeOf(snap)) && files.Keys !! dirs
    ensures NonEmpty(h) ==> HashedFiles(files)
  {
  }

  /** A second scan of a snapshot already tracked emits nothing. */
  lemma QuietScan(h: Hash, fileKeys: seq<string>, files: map<string, FSElement>, dirs: seq<string>,
                  snap: Snapshot, listing: seq<string>)
    requires Sorted(fileKeys) && Sorted(dirs) && (forall p :: p in fileKeys <==> p in files)
    requires NonEmpty(h) && Tracks(h, snap, files, Members(dirs)) && IsListing(snap, listing)
    ensures ScanEvents(h, fileKeys, files, dirs, snap, listing) == []
  {
    TrackedElements(h, snap, files, Members(dirs));
    ScanIsBatch(h, fileKeys, files, dirs, snap, listing);
    SteadyScan(h, snap, snap, files, Members(dirs));
    KnownIsSilent(h, TreeOf(snap), ScanEvents(h, fileKeys, files, dirs, snap, listing));
  }

  // ---------------------------------------------------------------- a whole watch

  /** From one snapshot to the next kinds are kept and a changed content moves the time. */
  ghost predicate Steady(h: Hash, was: Snapshot, now: Snapshot) {
    forall p :: p in was && p in now ==>
      && (was[p].Regular? <==> now[p].Regular?)
      && (was[p].Regular? && was[p].mtime == now[p].mtime ==> h(was[p].data) == h(now[p].data))
  }

  lemma SteadyScan(h: Hash, was: Snapshot, now: Snapshot, files: map<string, FSElement>, dirs: set<string>)
    requires Tracks(h, was, files, dirs)
    ensures Steady(h, was, now) <==> KindStable(files, dirs, now) && MtimesMove(h, files, now)
  {
    if KindStable(files, dirs, now) && MtimesMove(h, files, now) {
      forall p | p in was && p in now
        ensures (was[p].Regular? <==> now[p].Regular?)
                && (was[p].Regular? && was[p].mtime == now[p].mtime ==> h(was[p].data) == h(now[p].data)) {
        assert p in files || p in dirs;
      }
    }
  }

  function Joined(batches: seq<seq<Event>>): seq<Event> {
    if batches == [] then [] else Joined(batches[..|batches| - 1]) + batches[|batches| - 1]
  }

  /** The cycle numbers the events of these batches come with: counting up from `first`, batch by batch. */
  function Stamps(batches: seq<seq<Event>>, first: int): seq<int> {
    if batches == [] then []
    else
      var last := |batches| - 1;
      Stamps(batches[..last], first) + seq(|batches[last]|, _ => first + last)
  }

  lemma StampsGrow(start: seq<int>, batches: seq<seq<Event>>, batch: seq<Event>, first: int, was: seq<int>, now: seq<int>)
    requires was == start + Stamps(batches, first)
    requires Counted(was, now, |batch|, first + |batches|)
    ensures now == start + Stamps(batches + [batch], first)
  {
    assert (batches + [batch])[..|batches|] == batches;
    var last := seq(|batch|, _ => first + |batches|);
    assert now == was + last;
    assert (start + Stamps(batches, first)) + last == start + (Stamps(batches, first) + last);
  }

  /** Each batch is what its snapshot calls for against the one before. */
  ghost predicate BatchChain(h: Hash, snaps: seq<Snapshot>, batches: seq<seq<Event>>, n: nat)
    requires n <= |batches| && n < |snaps|
  {
    forall k: nat :: k < n ==> IsBatch(h, Known(h, TreeOf(snaps[k])), TreeOf(snaps[k + 1]), batches[k])
  }

  lemma {:induction false} FilesGoneMembers(keys: seq<string>, snap: Snapshot, i: nat)
    requires i < |FilesGone(keys, snap)|
    ensures FilesGone(keys, snap)[i].ErasedFile?
  {
    var init := FilesGone(keys[..|keys| - 1], snap);
    if i < |init| { FilesGoneMembers(keys[..|keys| - 1], snap, i); }
  }

  /** Erase order: no directory is reported erased before anything tracked below it, file or directory. */
  lemma ChildrenGoFirst(fileKeys: seq<string>, dirs: seq<string>, snap: Snapshot, i: nat, j: nat)
    requires Sorted(dirs) && i < j < |FilesGone(fileKeys, snap) + DirsGone(dirs, snap)|
    requires (FilesGone(fileKeys, snap) + DirsGone(dirs, snap))[i].ErasedDir?
    ensures !Under((FilesGone(fileKeys, snap) + DirsGone(dirs, snap))[i].path,
                   (FilesGone(fileKeys, snap) + DirsGone(dirs, snap))[j].path)
  {
    var n := |FilesGone(fileKeys, snap)|;
    if i < n { FilesGoneMembers(fileKeys, snap, i); } else { DescendantsFirst(dirs, snap, i - n, j - n); }
  }

  lemma {:induction false} DescendantsFirst(keys: seq<string>, snap: Snapshot, i: nat, j: nat)
    requires Sorted(keys) && i < j < |DirsGone(keys, snap)|
    ensures !Under(DirsGone(keys, snap)[i].path, DirsGone(keys, snap)[j].path)
  {
    var rest := DirsGone(keys[1..], snap);
    if j < |rest| {
      DescendantsFirst(keys[1..], snap, i, j);
    } else {
      DirsGoneMembers(keys[1..], snap, i);
      var k :| 0 <= k < |keys[1..]| && keys[1..][k] == rest[i].path;
      assert Less(keys[0], keys[k + 1]);
      LessAsymmetric(keys[0], keys[k + 1]);
      if Under(rest[i].path, keys[0]) { AncestorSortsFirst(rest[i].path, keys[0]); }
    }
  }

  lemma {:induction false} DirsGoneMembers(keys: seq<string>, snap: Snapshot, i: nat)
    requires i < |DirsGone(keys, snap)|
    ensures DirsGone(keys, snap)[i].ErasedDir? && DirsGone(keys, snap)[i].path in keys
  {
    var rest := DirsGone(keys[1..], snap);
    if i < |rest| { DirsGoneMembers(keys[1..], snap, i); }
  }

  lemma ChainGrows(h: Hash, snaps: seq<Snapshot>, batches: seq<seq<Event>>, batch: seq<Event>)
    requires |batches| + 1 < |snaps| && BatchChain(h, snaps, batches, |batches|)
    requires IsBatch(h, Known(h, TreeOf(snaps[|batches|])), TreeOf(snaps[|batches| + 1]), batch)
    ensures BatchChain(h, snaps, batches + [batch], |batches| + 1)
    ensures Joined(batches + [batch]) == Joined(batches) + batch
  {
    assert (batches + [batch])[..|batches|] == batches;
  }

  /** Erasing an entry takes its key out of both the order and the table. */
  lemma KeyErased(keys: seq<string>, files: map<string, FSElement>, it: nat)
    requires Sorted(keys) && it < |keys| && forall p :: p in keys <==> p in files
    ensures Sorted(keys[..it] + keys[it + 1..])
    ensures forall p :: p in keys[..it] + keys[it + 1..] <==> p in files - {keys[it]}
  {
    ErasePosition(keys, it);
    var left := keys[..it] + keys[it + 1..];
    forall p ensures p in left <==> p in files - {keys[it]} {
      assert p in left <==> p in keys && p != keys[it];
    }
  }

  class FileWatcher {
    var fileKeys: seq<string>
    var files: map<string, FSElement>
    var dirs: seq<string>
    var fwCycle: int
    /** What the action answers, by the number of events it has accepted before. */
    const accepts: nat -> bool
    /** The events the action has accepted, and the cycle number each came with. */
    var emitted: seq<Event>
    var cycles: seq<int>

    ghost predicate Valid()
      reads this
    {
      && Sorted(fileKeys) && Sorted(dirs)
      && forall p :: p in fileKeys <==> p in files
    }

    constructor (accepts: nat -> bool)
      ensures Valid() && files == map[] && dirs == [] && fwCycle == -1 && emitted == [] && this.accepts == accepts
    {
      this.accepts := accepts;
      fileKeys, files, dirs, fwCycle := [], map[], [], -1;
      emitted, cycles := [], [];
    }

    /** Since `before` and `stamps` the action has accepted every event, and each came with the present cycle. */
    ghost predicate Sending(before: seq<Event>, stamps: seq<int>)
      reads this
    {
      |before| <= |emitted| && Accepted(accepts, |before|, |emitted|) && Counted(stamps, cycles, |emitted| - |before|, fwCycle)
    }

    /** The callback: it hands the event to Client::push and may refuse it. */
    method Action(e: Event, cycle: int) returns (ok: bool)
      modifies `emitted, `cycles
      ensures ok == accepts(|old(emitted)|)
      ensures emitted == if ok then old(emitted) + [e] else old(emitted)
      ensures cycles == if ok then old(cycles) + [cycle] else old(cycles)
      ensures cycle == fwCycle ==> Sending(old(emitted), old(cycles))
    {
      ok := accepts(|emitted|);
      if ok { emitted, cycles := emitted + [e], cycles + [cycle]; }
    }

    /** Reports the file under the iterator; once accepted, files_.erase(it) leaves the next file there. */
    method DropFile(it: nat) returns (ok: bool)
      requires Valid() && it < |fileKeys|
      modifies `fileKeys, `files, `emitted, `cycles
      ensures Valid()
      ensures ok ==> fileKeys == old(fileKeys)[..it] + old(fileKeys)[it + 1..]
      ensures ok == accepts(|old(emitted)|) && Sending(old(emitted), old(cycles))
      ensures emitted == if ok then old(emitted) + [ErasedFile(old(fileKeys)[it])] else old(emitted)
      ensures forall p :: p in files ==> p in old(files) && files[p] == old(files)[p]
    {
      ok := Action(ErasedFile(fileKeys[it]), fwCycle);
      if !ok { return; }
      KeyErased(fileKeys, files, it);
      files := files - {fileKeys[it]};
      fileKeys := fileKeys[..it] + fileKeys[it + 1..];
    }

    /** The forward loop after `visited` of the keys `all`: its iterator, its containers and its events. */
    ghost predicate Erasing(all: seq<string>, snap: Snapshot, visited: nat, it: int,
                            filesBefore: map<string, FSElement>, before: seq<Event>, stamps: seq<int>)
      reads this
    {
      && Valid() && AtKey(all, snap, visited, fileKeys, it) && Sending(before, stamps)
      && (forall p :: p in files ==> p in filesBefore && files[p] == filesBefore[p])
      && emitted == before + FilesGone(all[..visited], snap)
    }

    /** The same loop, stopped because the event for the key `visited` was refused. */
    ghost predicate Refused(all: seq<string>, snap: Snapshot, visited: nat,
                            filesBefore: map<string, FSElement>, before: seq<Event>, stamps: seq<int>)
      reads this
    {
      && Valid() && visited < |all| && all[visited] !in snap && !accepts(|emitted|) && Sending(before, stamps)
      && (forall p :: p in files ==> p in filesBefore && files[p] == filesBefore[p])
      && emitted == before + FilesGone(all[..visited], snap)
    }

    /** The body of the forward loop: the file under the iterator stays, or goes with its event. */
    method LookAtFile(snap: Snapshot, it: nat, ghost all: seq<string>, ghost visited: nat,
                      ghost filesBefore: map<string, FSElement>, ghost before: seq<Event>, ghost stamps: seq<int>)
      returns (ok: bool, next: nat)
      requires Erasing(all, snap, visited, it, filesBefore, before, stamps) && it < |fileKeys|
      modifies `fileKeys, `files, `emitted, `cycles
      ensures visited < |all|
      ensures ok ==> Erasing(all, snap, visited + 1, next, filesBefore, before, stamps)
      ensures !ok ==> Refused(all, snap, visited, filesBefore, before, stamps)
    {
      var path := fileKeys[it];
      StepKey(all, snap, visited, fileKeys, it);
      Regroup(before, FilesGone(all[..visited], snap), GoneFile(path, snap));
      if path !in snap {
        ok := DropFile(it);
        next := it;
      } else {
        ok, next := true, it + 1;
      }
    }

    /** The forward loop: an iterator over the files, erasing in place, until an event is refused. */
    method EraseLoop(snap: Snapshot) returns (ok: bool, it: nat, ghost visited: nat)
      requires Valid()
      modifies `fileKeys, `files, `emitted, `cycles
      ensures ok ==> it == |fileKeys| && Erasing(old(fileKeys), snap, visited, it, old(files), old(emitted), old(cycles))
      ensures !ok ==> Refused(old(fileKeys), snap, visited, old(files), old(emitted), old(cycles))
    {
      it, visited, ok := 0, 0, true;
      ghost var all := fileKeys;
      assert all[..0] == [] && all[0..] == all;
      while it < |fileKeys|
        invariant ok && Erasing(all, snap, visited, it, old(files), old(emitted), old(cycles))
        decreases |all| - visited
      {
        ok, it := LookAtFile(snap, it, all, visited, old(files), old(emitted), old(cycles));
        if !ok { return; }
        visited := visited + 1;
      }
    }

    method EraseFiles(snap: Snapshot) returns (ok: bool)
      requires Valid()
      modifies `fileKeys, `files, `emitted, `cycles
      ensures Valid()
      ensures Sending(old(emitted), old(cycles))
      ensures Told(accepts, old(emitted), emitted, FilesGone(old(fileKeys), snap), ok)
      ensures ok ==> forall p :: p in files <==> p in old(files) && p in snap
      ensures forall p :: p in files ==> p in old(files) && files[p] == old(files)[p]
    {
      var it; ghost var visited;
      ok, it, visited := EraseLoop(snap);
      if ok {
        AllLookedAt(old(fileKeys), snap, visited, fileKeys, it);
      } else {
        FilesCutShort(old(emitted), old(fileKeys), snap, visited);
        MoreFilesGone(old(fileKeys), snap, visited);
      }
    }

    /** Reports the directory before position `base`; once accepted, dirs_.erase(--it.base()). */
    method DropDir(base: nat) returns (ok: bool)
      requires Valid() && 0 < base <= |dirs|
      modifies `dirs, `emitted, `cycles
      ensures Valid()
      ensures ok ==> dirs == old(dirs)[..base - 1] + old(dirs)[base..]
      ensures ok == accepts(|old(emitted)|) && Sending(old(emitted), old(cycles))
      ensures emitted == if ok then old(emitted) + [ErasedDir(old(dirs)[base - 1])] else old(emitted)
    {
      ok := Action(ErasedDir(dirs[base - 1]), fwCycle);
      if !ok { return; }
      ErasePosition(dirs, base - 1);
      dirs := dirs[..base - 1] + dirs[base..];
    }

    /** The reverse loop: `base` is the position of the reverse iterator's base, its target sits one before. */
    method EraseDirs(snap: Snapshot) returns (ok: bool)
      requires Valid()
      modifies `dirs, `emitted, `cycles
      ensures Valid()
      ensures Sending(old(emitted), old(cycles)) && Told(accepts, old(emitted), emitted, DirsGone(old(dirs), snap), ok)
      ensures ok ==> forall p :: p in dirs <==> p in old(dirs) && p in snap
    {
      var base: nat := |dirs|;
      ghost var all, gone := dirs, [];
      assert all[base..] == [];
      while base > 0
        invariant Valid() && AtBase(all, snap, base, dirs)
        invariant gone == DirsGone(all[base..], snap) && emitted == old(emitted) + gone
        invariant Sending(old(emitted), old(cycles))
        decreases base
      {
        var path := dirs[base - 1];
        StepBase(all, snap, base, dirs);
        if path !in snap {
          ok := DropDir(base);
          if !ok {
            DirsGonePrefix(all, snap, base);
            DirsGonePrefix(all, snap, base - 1);
            CutShort(old(emitted), gone, DirsGone(all, snap));
            return;
          }
          Regroup(old(emitted), gone, [ErasedDir(path)]);
          gone := gone + [ErasedDir(path)];
        }
        base := base - 1;
      }
      assert all[0..] == all;
      ok := true;
    }

    method FindErased(snap: Snapshot) returns (ok: bool)
      requires Valid()
      modifies `fileKeys, `files, `dirs, `emitted, `cycles
      ensures Valid()
      ensures Sending(old(emitted), old(cycles))
      ensures Told(accepts, old(emitted), emitted, FilesGone(old(fileKeys), snap) + DirsGone(old(dirs), snap), ok)
      ensures ok ==> forall p :: p in files <==> p in old(files) && p in snap
      ensures ok ==> forall p :: p in files ==> files[p] == old(files)[p]
      ensures ok ==> forall p :: p in dirs <==> p in old(dirs) && p in snap
    {
      ok := EraseFiles(snap);
      if ok {
        ok := EraseDirs(snap);
        ToldAfter(accepts, old(emitted), FilesGone(old(fileKeys), snap), emitted, DirsGone(old(dirs), snap), ok);
      } else {
        ToldOfMore(accepts, old(emitted), emitted, FilesGone(old(fileKeys), snap), DirsGone(old(dirs), snap));
      }
    }

    /** One entry of the directory iterator.  A new entry is tracked before it is reported, a changed file
        gets its new time and hash before it is reported. */
    method Visit(h: Hash, snap: Snapshot, path: string) returns (ok: bool)
      requires Valid() && path in snap
      modifies `fileKeys, `files, `dirs, `emitted, `cycles
      ensures Valid()
      ensures emitted == if ok then old(emitted) + EventList(VisitEvent(h, old(files), Members(old(dirs)), snap, path))
                         else old(emitted)
      ensures ok == (VisitEvent(h, old(files), Members(old(dirs)), snap, path) == None || accepts(|old(emitted)|))
      ensures Sending(old(emitted), old(cycles))
      ensures files == if snap[path].Regular? then old(files)[path := Refreshed(h, old(files), snap[path], path)]
                       else old(files)
      ensures forall p :: p in dirs <==> p in old(dirs) || (p == path && snap[path].Folder?)
    {
      ok := true;
      match snap[path] {
        case Regular(data, mtime) =>
          if path !in files {
            InsertKeepsSorted(fileKeys, path);
            fileKeys := Insert(fileKeys, path);
            files := files[path := FSElement(mtime, h(data))];
            ok := Action(CreatedFile(path, data, files[path].hash), fwCycle);
          } else {
            var (timed, isOld) := files[path].IsOld(mtime);
            files := files[path := timed];
            if isOld {
              var (hashed, needsUpdate) := files[path].NeedUpdate(h(data));
              files := files[path := hashed];
              if needsUpdate {
                ok := Action(ModifiedFile(path, data, files[path].hash), fwCycle);
              }
            }
          }
        case Folder =>
          if path !in dirs {
            InsertKeepsSorted(dirs, path);
            dirs := Insert(dirs, path);
            ok := Action(CreatedDir(path, ""), fwCycle);
          }
      }
    }

    /** The same entry, seen from the start of the loop. */
    method VisitNext(h: Hash, snap: Snapshot, path: string, ghost filesBefore: map<string, FSElement>,
                     ghost dirsBefore: set<string>, ghost visited: set<string>) returns (ok: bool)
      requires Valid() && path in snap && path !in visited
      requires FilesAfter(h, filesBefore, snap, visited, files) && DirsAfter(dirsBefore, snap, visited, dirs)
      modifies `fileKeys, `files, `dirs, `emitted, `cycles
      ensures Valid()
      ensures emitted == if ok then old(emitted) + EventList(VisitEvent(h, filesBefore, dirsBefore, snap, path))
                         else old(emitted)
      ensures ok == (VisitEvent(h, filesBefore, dirsBefore, snap, path) == None || accepts(|old(emitted)|))
      ensures Sending(old(emitted), old(cycles))
      ensures FilesAfter(h, filesBefore, snap, visited + {path}, files)
      ensures DirsAfter(dirsBefore, snap, visited + {path}, dirs)
    {
      FirstVisit(h, filesBefore, dirsBefore, snap, visited, files, dirs, path);
      ok := Visit(h, snap, path);
    }

    /** The loop over the directory iterator after `n` entries: its containers and its events. */
    ghost predicate Visiting(h: Hash, snap: Snapshot, listing: seq<string>, n: nat, filesBefore: map<string, FSElement>,
                             dirsBefore: set<string>, before: seq<Event>, stamps: seq<int>)
      requires n <= |listing| && forall p :: p in listing ==> p in snap
      reads this
    {
      && Valid() && Sending(before, stamps)
      && FilesAfter(h, filesBefore, snap, Members(listing[..n]), files)
      && DirsAfter(dirsBefore, snap, Members(listing[..n]), dirs)
      && emitted == before + VisitEvents(h, filesBefore, dirsBefore, snap, listing, n)
    }

    lemma NothingVisited(h: Hash, snap: Snapshot, listing: seq<string>)
      requires Valid() && forall p :: p in listing ==> p in snap
      ensures Visiting(h, snap, listing, 0, files, Members(dirs), emitted, cycles)
    {
      assert Members(listing[..0]) == {} && emitted + [] == emitted;
    }

    /** The body of the loop. */
    method VisitEntry(h: Hash, snap: Snapshot, listing: seq<string>, n: nat, ghost filesBefore: map<string, FSElement>,
                      ghost dirsBefore: set<string>, ghost before: seq<Event>, ghost stamps: seq<int>) returns (ok: bool)
      requires IsListing(snap, listing) && n < |listing|
      requires Visiting(h, snap, listing, n, filesBefore, dirsBefore, before, stamps)
      modifies `fileKeys, `files, `dirs, `emitted, `cycles
      ensures Valid()
      ensures ok ==> Visiting(h, snap, listing, n + 1, filesBefore, dirsBefore, before, stamps)
      ensures !ok ==> emitted == old(emitted) && Sending(before, stamps) && !accepts(|emitted|)
      ensures !ok ==> VisitEvent(h, filesBefore, dirsBefore, snap, listing[n]).Some?
    {
      NextListed(snap, listing, n);
      Regroup(before, VisitEvents(h, filesBefore, dirsBefore, snap, listing, n),
              EventList(VisitEvent(h, filesBefore, dirsBefore, snap, listing[n])));
      ok := VisitNext(h, snap, listing[n], filesBefore, dirsBefore, Members(listing[..n]));
    }

    /** The loop over the directory iterator, until an event is refused. */
    method VisitLoop(h: Hash, snap: Snapshot, listing: seq<string>) returns (ok: bool, ghost n: nat)
      requires Valid() && IsListing(snap, listing)
      modifies `fileKeys, `files, `dirs, `emitted, `cycles
      ensures Valid() && n <= |listing|
      ensures emitted == old(emitted) + VisitEvents(h, old(files), Members(old(dirs)), snap, listing, n)
      ensures Sending(old(emitted), old(cycles))
      ensures ok ==> n == |listing|
                     && Visiting(h, snap, listing, n, old(files), Members(old(dirs)), old(emitted), old(cycles))
      ensures !ok ==> n < |listing| && !accepts(|emitted|)
                      && VisitEvent(h, old(files), Members(old(dirs)), snap, listing[n]).Some?
    {
      ghost var filesBefore, dirsBefore, before, stamps := files, Members(dirs), emitted, cycles;
      var k := 0;
      ok := true;
      NothingVisited(h, snap, listing);
      while k < |listing|
        invariant k <= |listing| && ok && Visiting(h, snap, listing, k, filesBefore, dirsBefore, before, stamps)
      {
        ok := VisitEntry(h, snap, listing, k, filesBefore, dirsBefore, before, stamps);
        if !ok { return ok, k; }
        k := k + 1;
      }
      n := k;
    }

    method FindCreatedOrModified(h: Hash, snap: Snapshot, listing: seq<string>) returns (ok: bool)
      requires Valid() && IsListing(snap, listing)
      modifies `fileKeys, `files, `dirs, `emitted, `cycles
      ensures Valid()
      ensures Sending(old(emitted), old(cycles))
      ensures Told(accepts, old(emitted), emitted,
                   VisitEvents(h, old(files), Members(old(dirs)), snap, listing, |listing|), ok)
      ensures ok ==> FilesAfter(h, old(files), snap, snap.Keys, files)
      ensures ok ==> DirsAfter(Members(old(dirs)), snap, snap.Keys, dirs)
    {
      ghost var n;
      ok, n := VisitLoop(h, snap, listing);
      VisitsCutShort(old(emitted), h, old(files), Members(old(dirs)), snap, listing, n);
      if !ok { MoreVisits(h, old(files), Members(old(dirs)), snap, listing, n); }
      assert listing[..|listing|] == listing && Members(listing) == snap.Keys;
    }

    /** One pass of start's loop. */
    method Scan(h: Hash, snap: Snapshot, listing: seq<string>) returns (ok: bool)
      requires Valid() && IsListing(snap, listing)
      modifies `fileKeys, `files, `dirs, `fwCycle, `emitted, `cycles
      ensures Valid()
      ensures |old(emitted)| <= |emitted| && Accepted(accepts, |old(emitted)|, |emitted|)
      ensures Counted(old(cycles), cycles, |emitted| - |old(emitted)|, old(fwCycle))
      ensures Told(accepts, old(emitted), emitted, ScanEvents(h, old(fileKeys), old(files), old(dirs), snap, listing), ok)
      ensures ok ==> Swept(h, old(files), Members(old(dirs)), snap, files, Members(dirs))
      ensures fwCycle == if ok then old(fwCycle) + 1 else old(fwCycle)
    {
      ghost var gone := FilesGone(fileKeys, snap) + DirsGone(dirs, snap);
      ghost var more := VisitEvents(h, files, Members(dirs), snap, listing, |listing|);
      ok := FindErased(snap);
      if !ok {
        ToldOfMore(accepts, old(emitted), emitted, gone, more);
        return;
      }
      ghost var filesKept, dirsKept := files, Members(dirs);
      VisitEventsSame(h, old(files), Members(old(dirs)), files, Members(dirs), snap, listing, |listing|);
      ok := FindCreatedOrModified(h, snap, listing);
      ToldAfter(accepts, old(emitted), gone, emitted, more, ok);
      if !ok { return; }
      SweepInTwo(h, old(files), Members(old(dirs)), snap, filesKept, dirsKept, files, dirs);
      fwCycle := fwCycle + 1;
    }

    /** One pass over a steady snapshot: the events are exact, or their beginning up to the one refused, and
        after a complete pass the snapshot is tracked. */
    method ScanExactly(h: Hash, ghost was: Snapshot, snap: Snapshot, listing: seq<string>)
      returns (ok: bool, ghost batch: seq<Event>)
      requires Valid() && IsListing(snap, listing) && NonEmpty(h)
      requires Tracks(h, was, files, Members(dirs)) && Steady(h, was, snap)
      modifies `fileKeys, `files, `dirs, `fwCycle, `emitted, `cycles
      ensures Valid() && fwCycle == if ok then old(fwCycle) + 1 else old(fwCycle)
      ensures IsBatch(h, Known(h, TreeOf(was)), TreeOf(snap), batch)
      ensures |old(emitted)| <= |emitted| && Accepted(accepts, |old(emitted)|, |emitted|)
      ensures Counted(old(cycles), cycles, |emitted| - |old(emitted)|, old(fwCycle)) && Told(accepts, old(emitted), emitted, batch, ok)
      ensures ok ==> Tracks(h, snap, files, Members(dirs))
    {
      batch := ScanEvents(h, fileKeys, files, dirs, snap, listing);
      TrackedElements(h, was, files, Members(dirs));
      SteadyScan(h, was, snap, files, Members(dirs));
      ScanIsBatch(h, fileKeys, files, dirs, snap, listing);
      ok := Scan(h, snap, listing);
      if ok { SweptTracks(h, old(files), Members(old(dirs)), snap, files, Members(dirs)); }
    }

    /** One entry of init's listing; the path is not tracked yet. */
    method Track(h: Hash, path: string, entry: Entry)
      requires Valid() && path !in files && path !in dirs
      modifies `fileKeys, `files, `dirs
      ensures Valid()
      ensures files == match entry
                       case Regular(data, mtime) => old(files)[path := FSElement(mtime, h(data))]
                       case Folder => old(files)
      ensures forall p :: p in dirs <==> p in old(dirs) || (p == path && entry.Folder?)
    {
      match entry {
        case Regular(data, mtime) =>
          InsertKeepsSorted(fileKeys, path);
          fileKeys := Insert(fileKeys, path);
          files := files[path := FSElement(mtime, h(data))];
        case Folder =>
          InsertKeepsSorted(dirs, path);
          dirs := Insert(dirs, path);
      }
    }

    /** init: the containers are emptied and filled from one listing; no event. */
    method Init(h: Hash, snap: Snapshot, listing: seq<string>)
      requires IsListing(snap, listing)
      modifies `fileKeys, `files, `dirs, `fwCycle
      ensures Valid() && Tracks(h, snap, files, Members(dirs)) && fwCycle == 0
    {
      fileKeys, files, dirs := [], map[], [];
      var n := 0;
      assert Members(listing[..0]) == {};
      while n < |listing|
        invariant Valid() && n <= |listing|
        invariant forall p :: p in files <==> p in Members(listing[..n]) && p in snap && snap[p].Regular?
        invariant forall p :: p in files ==> files[p] == FSElement(snap[p].mtime, h(snap[p].data))
        invariant forall p :: p in dirs <==> p in Members(listing[..n]) && p in snap && snap[p].Folder?
      {
        NextListed(snap, listing, n);
        Track(h, listing[n], snap[listing[n]]);
        n := n + 1;
      }
      assert listing[..n] == listing && Members(listing) == snap.Keys;
      fwCycle := 0;
    }

    /** get_elements: two loops, each inserting what is not there yet. */
    method GetElements() returns (elements: map<string, string>)
      requires Valid()
      ensures elements == Elements(files, Members(dirs))
    {
      elements := map[];
      for i := 0 to |fileKeys|
        invariant forall p :: p in elements <==> p in fileKeys[..i]
        invariant forall p :: p in elements ==> p in files && elements[p] == files[p].hash
      {
        if fileKeys[i] !in elements { elements := elements[fileKeys[i] := files[fileKeys[i]].hash]; }
      }
      assert fileKeys[..|fileKeys|] == fileKeys;
      for i := 0 to |dirs|
        invariant forall p :: p in elements <==> p in files || p in dirs[..i]
        invariant forall p :: p in elements ==> elements[p] == if p in files then files[p].hash else ""
      {
        if dirs[i] !in elements { elements := elements[dirs[i] := ""]; }
      }
      assert dirs[..|dirs|] == dirs;
    }

    /** start: one scan after another until the action refuses an event or the watcher is stopped; `snaps` are
        what the scans find, as many as begin before the stop, none if it comes first.  If every scan is steady,
        the batches of the completed ones are exact against the snapshot before, each sent under its own cycle
        number, and a refused scan has emitted its own exact batch up to the event refused, the last of
        `batches`.  Without a refusal every scan is completed. */
    method Start(h: Hash, snaps: seq<Snapshot>, listings: seq<seq<string>>)
      returns (ok: bool, ghost done: nat, ghost batches: seq<seq<Event>>)
      requires Valid() && |snaps| == |listings| + 1 && NonEmpty(h)
      requires Tracks(h, snaps[0], files, Members(dirs))
      requires forall k: nat :: k < |listings| ==> IsListing(snaps[k + 1], listings[k]) && Steady(h, snaps[k], snaps[k + 1])
      modifies `fileKeys, `files, `dirs, `fwCycle, `emitted, `cycles
      ensures Valid() && done <= |listings| && fwCycle == old(fwCycle) + done
      ensures |batches| == if ok then done else done + 1
      ensures |batches| <= |listings| && BatchChain(h, snaps, batches, |batches|)
      ensures |old(emitted)| <= |emitted| && Accepted(accepts, |old(emitted)|, |emitted|)
      ensures ok ==> done == |listings| && Tracks(h, snaps[done], files, Members(dirs))
      ensures ok ==> emitted == old(emitted) + Joined(batches) && cycles == old(cycles) + Stamps(batches, old(fwCycle))
      ensures !ok ==> Told(accepts, old(emitted) + Joined(batches[..done]), emitted, batches[done], false)
      ensures !ok ==> Counted(old(cycles) + Stamps(batches[..done], old(fwCycle)), cycles,
                              |emitted| - |old(emitted) + Joined(batches[..done])|, fwCycle)
    {
      batches, done := [], 0;
      var k := 0;
      while k < |listings|
        invariant done == k <= |listings| && |batches| == k && Valid() && fwCycle == old(fwCycle) + k
        invariant BatchChain(h, snaps, batches, k) && Tracks(h, snaps[k], files, Members(dirs))
        invariant |old(emitted)| <= |emitted| && Accepted(accepts, |old(emitted)|, |emitted|)
        invariant emitted == old(emitted) + Joined(batches) && cycles == old(cycles) + Stamps(batches, old(fwCycle))
        decreases |listings| - k
      {
        ghost var batch, stamps := [], cycles;
        ok, batch := ScanExactly(h, snaps[k], snaps[k + 1], listings[k]);
        ChainGrows(h, snaps, batches, batch);
        if !ok {
          assert (batches + [batch])[..k] == batches;
          batches := batches + [batch];
          return;
        }
        Regroup(old(emitted), Joined(batches), batch);
        StampsGrow(old(cycles), batches, batch, old(fwCycle), stamps, cycles);
        batches, done := batches + [batch], done + 1;
        k := k + 1;
      }
      ok := true;
    }
  }
}

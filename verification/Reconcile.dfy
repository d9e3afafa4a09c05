/** What a probe achieves: the user's schema on the server becomes the client's map, from any starting
    table and any disk, provided every push was accepted. */
module Reconcile {
  import opened Paths
  import opened Disk
  import opened PathTable
  import opened Server
  import opened Diff
  import opened Confluence

  /** Every push of the user in the history returned true. */
  ghost predicate AllAccepted(st: Store, u: string, calls: seq<Call>) {
    forall k: nat :: k < |calls| && calls[k].user == u ==>
      PushEffect(ReplayTo(st, calls, k), u, calls[k].event).ok
  }

  /** File rows carry the hash of a file. */
  ghost predicate HashedRows(rows: Table, u: string) {
    forall p :: RowAt(rows, u, p).Some? && RowAt(rows, u, p).value.kind == file ==> RowAt(rows, u, p).value.hash != ""
  }

  /** What an accepted push makes of the row under its own path. */
  function RowResult(before: Option<Row>, u: string, e: Event): Option<Row> {
    match e
    case CreatedFile(_, _, hash) => Some(Row(hash, u, file))
    case CreatedDir(_, hash) => Some(Row(hash, u, dir))
    case ModifiedFile(_, _, hash) => if before.Some? then Some(before.value.(hash := hash)) else None
    case ErasedFile(_) => None
    case ErasedDir(_) => None
    case Unknown(_) => before
  }

  lemma RowOfPush(st: Store, u: string, e: Event)
    requires PushEffect(st, u, e).ok
    ensures forall p :: RowAt(PushEffect(st, u, e).store.rows, u, p)
                        == if p == e.path then RowResult(RowAt(st.rows, u, p), u, e) else RowAt(st.rows, u, p)
  {
    PushLocal(st, u, e);
    var r := PushEffect(st, u, e).store.rows;
    forall p | p != e.path ensures RowAt(r, u, p) == RowAt(st.rows, u, p) {
      if Join(u, p) == Join(u, e.path) { JoinInjective(u, p, e.path); }
    }
  }

  /** A push whose session changes hands on the way: the disk is the first user's affair, the row lies under the
      second one's name and says it is the third one's. */
  lemma SplitPush(st: Store, diskUser: string, keyUser: string, rowUser: string, e: Event)
    ensures var r := PushAs(st, diskUser, keyUser, rowUser, e);
            && r.store.disk == PushEffect(st, diskUser, e).store.disk
            && (forall v :: v != Join(keyUser, e.path) ==>
                  (v in r.store.rows <==> v in st.rows) && (v in st.rows ==> r.store.rows[v] == st.rows[v]))
            && (r.ok ==> RowAt(r.store.rows, keyUser, e.path) == RowResult(RowAt(st.rows, keyUser, e.path), rowUser, e))
  {
  }

  /** Which pushes succeed, on any store: creations when the way can be made and the key is free, the removal of
      a file unless a directory that is not empty is in its place, changes and removals of directories always,
      an unknown status never.  One that fails leaves every row as it was; what becomes of the disk does not
      depend on the table, so a push that fails on its row has changed the disk like one that succeeds. */
  lemma PushSucceeds(st: Store, diskUser: string, keyUser: string, rowUser: string, e: Event, rows: Table)
    ensures PushAs(Store(st.disk, rows), diskUser, keyUser, rowUser, e).store.disk
            == PushAs(st, diskUser, keyUser, rowUser, e).store.disk
    ensures var r := PushAs(st, diskUser, keyUser, rowUser, e);
            var made := MakeDirs(st.disk, diskUser, e.path);
            var v := Join(diskUser, e.path);
            && (!r.ok ==> r.store.rows == st.rows)
            && (r.ok <==>
                  match e
                  case CreatedFile(_, _, _) => made.ok && Join(keyUser, e.path) !in st.rows
                  case CreatedDir(_, _) =>
                    made.ok && (v in made.disk || ParentIsDir(made.disk, v)) && Join(keyUser, e.path) !in st.rows
                  case ErasedFile(_) => !(IsDir(st.disk, v) && exists w :: w in st.disk && Under(v, w))
                  case Unknown(_) => false
                  case _ => true)
            && (e.Unknown? || (e.ErasedFile? && !r.ok) ==> r.store == st)
            && ((e.CreatedFile? || e.CreatedDir?) && !made.ok ==> r.store.disk == made.disk)
  {
  }

  /** The output stream reports no error: a push that writes a file succeeds without the file, its row in place,
      exactly when the name is a directory or what should hold it is none, and the content is not there already. */
  lemma WrittenIfPossible(st: Store, u: string, e: Event)
    requires (e.CreatedFile? || e.ModifiedFile?) && PushEffect(st, u, e).ok
    ensures var made := if e.CreatedFile? then MakeDirs(st.disk, u, e.path).disk else st.disk;
            At(PushEffect(st, u, e).store.disk, u, e.path) == Some(File(e.data)) <==>
              || (!IsDir(made, Join(u, e.path)) && ParentIsDir(made, Join(u, e.path)))
              || At(made, u, e.path) == Some(File(e.data))
  {
  }

  /** Each row depends on its own event alone, whatever the disk looks like. */
  lemma {:induction false} RowsDependOnOwnEvent(h: Hash, u: string, known: map<string, string>, now: FileSystem,
                                                st: Store, calls: seq<Call>, k: nat)
    requires k <= |calls| && CarriesBatch(h, u, known, now, calls) && AllAccepted(st, u, calls)
    ensures forall p :: RowAt(ReplayTo(st, calls, k).rows, u, p)
                        == if p in DeliveredTo(calls, u, k)
                           then RowResult(RowAt(st.rows, u, p), u, EventAt(h, known, now, p).value)
                           else RowAt(st.rows, u, p)
  {
    if k == 0 {
      assert DeliveredTo(calls, u, 0) == {};
    } else {
      RowsDependOnOwnEvent(h, u, known, now, st, calls, k - 1);
      var Call(w, e) := calls[k - 1];
      var before := ReplayTo(st, calls, k - 1);
      if w == u {
        RowOfPush(before, u, e);
        assert DeliveredTo(calls, u, k) == DeliveredTo(calls, u, k - 1) + {e.path};
        assert e.path !in DeliveredTo(calls, u, k - 1);
      } else {
        OtherUserUntouched(before, w, e, u);
        assert DeliveredTo(calls, u, k) == DeliveredTo(calls, u, k - 1);
      }
    }
  }

  /** The final row at `p` fits the client's map exactly when the kinds agreed there. */
  ghost predicate FitsWhereKindsAgree(h: Hash, schema: map<string, string>, now: FileSystem, after: Option<Row>, p: string) {
    && (after.Some? <==> p in now)
    && (p in now ==>
          (SchemaHash(after.value) == Known(h, now)[p] <==> (p in schema ==> (schema[p] == "" <==> now[p].Dir?))))
  }

  lemma ReconciledRow(h: Hash, u: string, schema: map<string, string>, now: FileSystem, before: Option<Row>, p: string)
    requires NonEmpty(h)
    requires p in schema <==> before.Some?
    requires before.Some? ==> schema[p] == SchemaHash(before.value)
    requires before.Some? && before.value.kind == file ==> before.value.hash != ""
    ensures var e := EventAt(h, schema, now, p);
            FitsWhereKindsAgree(h, schema, now, if e.Some? then RowResult(before, u, e.value) else before, p)
  {
  }

  lemma SchemaFits(h: Hash, u: string, schema: map<string, string>, now: FileSystem, rows: Table)
    requires forall p :: FitsWhereKindsAgree(h, schema, now, RowAt(rows, u, p), p)
    ensures IsSchema(rows, u, Known(h, now)) <==> KindsAgree(schema, now)
  {
    var known := Known(h, now);
    assert forall p :: FitsWhereKindsAgree(h, schema, now, RowAt(rows, u, p), p) ==>
                         (RowAt(rows, u, p).Some? <==> p in known);
    if !KindsAgree(schema, now) {
      var p :| p in schema && p in now && !(schema[p] == "" <==> now[p].Dir?);
      assert FitsWhereKindsAgree(h, schema, now, RowAt(rows, u, p), p);
      assert known[p] != SchemaHash(rows[Join(u, p)]);
    }
  }

  /** Reconciliation.  When every push of the probe's batch has been accepted, in any order and among any
      pushes of other users, the user's schema is the client's map if and only if no path was a file on one
      side and a directory on the other. */
  lemma {:induction false} ProbeReconciles(h: Hash, u: string, schema: map<string, string>, now: FileSystem, st: Store, calls: seq<Call>)
    requires NonEmpty(h) && IsSchema(st.rows, u, schema) && HashedRows(st.rows, u)
    requires CarriesAll(h, u, schema, now, calls) && AllAccepted(st, u, calls)
    ensures IsSchema(ReplayTo(st, calls, |calls|).rows, u, Known(h, now)) <==> KindsAgree(schema, now)
  {
    RowsDependOnOwnEvent(h, u, schema, now, st, calls, |calls|);
    var final := ReplayTo(st, calls, |calls|).rows;
    forall p ensures FitsWhereKindsAgree(h, schema, now, RowAt(final, u, p), p) {
      ReconciledRow(h, u, schema, now, RowAt(st.rows, u, p), p);
      assert p in DeliveredTo(calls, u, |calls|) <==> EventAt(h, schema, now, p).Some?;
    }
    SchemaFits(h, u, schema, now, final);
  }

  /** The counterexample behind the condition: the server has a file where the client has a directory.
      The probe sends nothing for it and the schema keeps the file. */
  lemma KindChangeIsMissed(h: Hash, p: string, hash: string)
    requires NonEmpty(h) && hash != ""
    ensures !KindsAgree(map[p := hash], map[p := Dir])
    ensures IsBatch(h, map[p := hash], map[p := Dir], [])
    ensures map[p := hash] != Known(h, map[p := Dir])
  {
    assert Known(h, map[p := Dir])[p] == "";
  }
}

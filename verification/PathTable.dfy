/** The SESSIONS table: one row per stored path, keyed by the path with the user name in front. */
module PathTable {
  import opened Paths
  import opened Disk

  datatype PathType = file | dir

  datatype Row = Row(hash: string, user: string, kind: PathType)

  type Table = map<string, Row>

  function RowAt(rows: Table, user: string, p: string): Option<Row> {
    if Join(user, p) in rows then Some(rows[Join(user, p)]) else None
  }

  /** Every row was inserted by Server::push: its key is its own user's name joined with a path. */
  ghost predicate WellKeyed(rows: Table) {
    forall v :: v in rows ==> ValidUser(rows[v].user) && v == Join(rows[v].user, Strip(v))
  }

  /** What get_schema reports for one row: only a file has a hash. */
  function SchemaHash(row: Row): string {
    if row.kind == file then row.hash else ""
  }

  /** `schema` is exactly the user's part of the table, prefix stripped. */
  ghost predicate IsSchema(rows: Table, user: string, schema: map<string, string>) {
    forall p :: (p in schema <==> RowAt(rows, user, p).Some?)
                && (p in schema ==> schema[p] == SchemaHash(rows[Join(user, p)]))
  }

  /** INSERT fails on a key that is taken: path is the table's primary key. */
  function InsertRow(rows: Table, v: string, row: Row): (r: (Table, bool)) {
    if v in rows then (rows, false) else (rows[v := row], true)
  }

  /** UPDATE ... WHERE path = v: succeeds without effect when no row matches. */
  function UpdateRow(rows: Table, v: string, hash: string): Table {
    if v in rows then rows[v := rows[v].(hash := hash)] else rows
  }

  /** DELETE ... WHERE path = v: succeeds without effect when no row matches. */
  function DeleteRow(rows: Table, v: string): Table {
    rows - {v}
  }

  /** On a well keyed table the WHERE user = ? of the queries selects exactly the user's own prefix. */
  lemma UserSelectsPrefix(rows: Table, user: string, v: string)
    requires WellKeyed(rows) && ValidUser(user) && v in rows
    ensures rows[v].user == user <==> v == Join(user, Strip(v))
    ensures forall p :: v == Join(user, p) ==> p == Strip(v) && rows[v].user == user
  {
    forall p | v == Join(user, p) ensures p == Strip(v) && rows[v].user == user {
      StripJoin(user, p);
      if rows[v].user != user {
        UsersDisjoint(user, rows[v].user, p, Strip(v));
      }
    }
  }

  class Database_API {
    var rows: Table

    constructor (initial: Table)
      ensures rows == initial
    {
      rows := initial;
    }

    method InsertPath(path: string, hash: string, username: string, kind: PathType) returns (ok: bool)
      modifies this
      ensures (rows, ok) == InsertRow(old(rows), path, Row(hash, username, kind))
      ensures ok <==> path !in old(rows)
      ensures rows == if ok then old(rows)[path := Row(hash, username, kind)] else old(rows)
    {
      if path in rows { return false; }
      rows := rows[path := Row(hash, username, kind)];
      ok := true;
    }

    method DeletePath(path: string) returns (ok: bool)
      modifies this
      ensures ok && rows == DeleteRow(old(rows), path)
      ensures forall v :: v in rows <==> v in old(rows) && v != path
      ensures forall v :: v in rows ==> rows[v] == old(rows)[v]
    {
      rows := rows - {path};
      ok := true;
    }

    method UpdatePath(path: string, hash: string) returns (ok: bool)
      modifies this
      ensures ok && rows == UpdateRow(old(rows), path, hash)
      ensures rows.Keys == old(rows).Keys
      ensures forall v :: v in rows ==> rows[v] == if v == path then old(rows)[v].(hash := hash) else old(rows)[v]
    {
      if path in rows {
        rows := rows[path := rows[path].(hash := hash)];
      }
      ok := true;
    }

    /** The query returns its rows in any order; each is stripped of its first component and inserted. */
    method GetSchema(username: string) returns (res: map<string, string>)
      requires WellKeyed(rows) && ValidUser(username)
      ensures IsSchema(rows, username, res)
    {
      res := map[];
      var cursor := rows.Keys;
      while cursor != {}
        invariant cursor <= rows.Keys
        invariant forall p :: (p in res <==> Join(username, p) in rows && Join(username, p) !in cursor)
                              && (p in res ==> res[p] == SchemaHash(rows[Join(username, p)]))
        decreases |cursor|
      {
        var v :| v in cursor;
        cursor := cursor - {v};
        UserSelectsPrefix(rows, username, v);
        if rows[v].user == username {
          var s := Strip(v);
          if s !in res {
            res := res[s := SchemaHash(rows[v])];
          }
        }
      }
    }

    /** The user's stored paths, each once. */
    method GetPathSchema(username: string) returns (res: seq<string>)
      requires WellKeyed(rows) && ValidUser(username)
      ensures forall p :: p in res <==> RowAt(rows, username, p).Some?
      ensures forall i, j :: 0 <= i < j < |res| ==> res[i] != res[j]
    {
      res := [];
      var cursor := rows.Keys;
      while cursor != {}
        invariant cursor <= rows.Keys
        invariant forall p :: p in res <==> Join(username, p) in rows && Join(username, p) !in cursor
        invariant forall i, j :: 0 <= i < j < |res| ==> res[i] != res[j]
        decreases |cursor|
      {
        var v :| v in cursor;
        cursor := cursor - {v};
        UserSelectsPrefix(rows, username, v);
        if rows[v].user == username {
          assert Strip(v) !in res;
          res := res + [Strip(v)];
        }
      }
    }
  }
}

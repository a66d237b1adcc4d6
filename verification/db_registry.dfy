/** The registry of SQL Server connections (src/db_DAO.py): a table keyed by
    positive ids with validated fields. */
module DbRegistry {
  import opened Wrappers

  /** The fields of a `DatabaseConnection`, without its id. */
  datatype Connection = Connection(
    name: string,
    user: string,
    password: string,
    host: string,
    port: int,
    version: Option<string>,
    instanceMemoryMb: Option<int>)

  /** A connection read back from the table, with `db_id` filled in. */
  datatype StoredConnection = StoredConnection(dbId: int, conn: Connection)

  /** Why a call raises `ValueError` (or pydantic's `ValidationError`). */
  datatype Error =
    | InvalidConnection
    | InvalidId
    | InvalidHost
    | InvalidPort
    | InvalidUser

  predicate ValidText(s: string) {
    1 <= |s| <= 100
  }

  predicate ValidPort(port: int) {
    1 <= port <= 65535
  }

  /** The field constraints of `DatabaseConnection`. */
  predicate Valid(c: Connection) {
    && ValidText(c.name) && ValidText(c.user) && ValidText(c.password) && ValidText(c.host)
    && ValidPort(c.port)
  }

  /** Building a `DatabaseConnection`: fails unless every constraint holds. */
  function MakeConnection(name: string, user: string, password: string, host: string, port: int,
                          version: Option<string>, instanceMemoryMb: Option<int>): (r: Result<Connection, Error>)
    ensures r.Success? <==> Valid(Connection(name, user, password, host, port, version, instanceMemoryMb))
    ensures r.Success? ==> r.value == Connection(name, user, password, host, port, version, instanceMemoryMb)
  {
    var c := Connection(name, user, password, host, port, version, instanceMemoryMb);
    if Valid(c) then Success(c) else Failure(InvalidConnection)
  }

  /** The `Database_connection` table and the id the next insert receives. */
  datatype Registry = Registry(rows: map<int, Connection>, nextId: int)

  /** Ids are positive and below the next one; every row is valid. */
  predicate Inv(r: Registry) {
    && r.nextId >= 1
    && (forall id :: id in r.rows ==> 1 <= id < r.nextId)
    && (forall id :: id in r.rows ==> Valid(r.rows[id]))
  }

  const Empty: Registry := Registry(map[], 1)

  lemma EmptyInv()
    ensures Inv(Empty)
  {
  }

  /** `get_db`: raises for a non-positive id, otherwise the row or `None`. */
  function GetDb(r: Registry, id: int): (res: Result<Option<StoredConnection>, Error>)
    ensures id <= 0 <==> res.Failure?
    ensures res.Success? ==> (res.value.Some? <==> id in r.rows)
    ensures res.Success? && res.value.Some? ==> res.value.value == StoredConnection(id, r.rows[id])
  {
    if id <= 0 then Failure(InvalidId)
    else if id in r.rows then Success(Some(StoredConnection(id, r.rows[id])))
    else Success(None)
  }

  /** `insert_db`: stores the connection under a fresh id and returns it. */
  function InsertDb(r: Registry, c: Connection): (res: (Registry, int))
    requires Inv(r) && Valid(c)
    ensures Inv(res.0)
    ensures res.1 > 0 && res.1 !in r.rows
    ensures res.0.rows == r.rows[res.1 := c]
  {
    (Registry(r.rows[r.nextId := c], r.nextId + 1), r.nextId)
  }

  /** A stored connection that has the given host, port and user. */
  predicate Matches(c: Connection, host: string, port: int, user: string) {
    c.host == host && c.port == port && c.user == user
  }

  /** The first id from `from` on whose row matches, or -1. */
  function FirstMatch(r: Registry, host: string, port: int, user: string, from: int): (id: int)
    requires Inv(r) && from >= 1
    ensures id == -1 <==> forall k :: k in r.rows && k >= from ==> !Matches(r.rows[k], host, port, user)
    ensures id != -1 ==> id >= from && id in r.rows && Matches(r.rows[id], host, port, user)
    ensures id != -1 ==> forall k :: k in r.rows && from <= k < id ==> !Matches(r.rows[k], host, port, user)
    decreases r.nextId - from
  {
    if from >= r.nextId then -1
    else if from in r.rows && Matches(r.rows[from], host, port, user) then from
    else FirstMatch(r, host, port, user, from + 1)
  }

  /** `exists_db`: checks host, port and user in that order, then returns the
      id of a matching connection, or -1 when there is none. */
  function ExistsDb(r: Registry, host: string, port: int, user: string): (res: Result<int, Error>)
    requires Inv(r)
    ensures host == [] ==> res == Failure(InvalidHost)
    ensures host != [] && !ValidPort(port) ==> res == Failure(InvalidPort)
    ensures host != [] && ValidPort(port) && user == [] ==> res == Failure(InvalidUser)
    ensures res.Success? <==> host != [] && ValidPort(port) && user != []
    ensures res.Success? ==> (res.value == -1 <==> forall k :: k in r.rows ==> !Matches(r.rows[k], host, port, user))
    ensures res.Success? && res.value != -1 ==> res.value in r.rows && Matches(r.rows[res.value], host, port, user)
  {
    if host == [] then Failure(InvalidHost)
    else if !ValidPort(port) then Failure(InvalidPort)
    else if user == [] then Failure(InvalidUser)
    else Success(FirstMatch(r, host, port, user, 1))
  }

  /** `delete_db`: raises for a non-positive id, otherwise removes the row and
      reports whether there was one. */
  function DeleteDb(r: Registry, id: int): (res: Result<(Registry, bool), Error>)
    requires Inv(r)
    ensures id <= 0 <==> res.Failure?
    ensures res.Success? ==> (res.value.1 <==> id in r.rows)
    ensures res.Success? ==> res.value.0.rows == r.rows - {id} && Inv(res.value.0)
  {
    if id <= 0 then Failure(InvalidId)
    else Success((Registry(r.rows - {id}, r.nextId), id in r.rows))
  }

  /** The rows with ids from `from` on, in ascending id order. */
  function ListFrom(r: Registry, from: int): (s: seq<StoredConnection>)
    requires Inv(r) && from >= 1
    ensures forall i, j :: 0 <= i < j < |s| ==> s[i].dbId < s[j].dbId
    ensures forall i :: 0 <= i < |s| ==> s[i].dbId >= from && s[i].dbId in r.rows && s[i].conn == r.rows[s[i].dbId]
    ensures forall id :: id in r.rows && id >= from ==> StoredConnection(id, r.rows[id]) in s
    decreases r.nextId - from
  {
    if from >= r.nextId then []
    else
      var rest := ListFrom(r, from + 1);
      if from in r.rows then
        var s := [StoredConnection(from, r.rows[from])] + rest;
        assert forall i :: 0 < i < |s| ==> s[i] == rest[i - 1];
        s
      else rest
  }

  /** `get_all_db_connections`: every row, ordered by id. */
  function GetAllDbConnections(r: Registry): (s: seq<StoredConnection>)
    requires Inv(r)
    ensures forall i, j :: 0 <= i < j < |s| ==> s[i].dbId < s[j].dbId
    ensures forall i :: 0 <= i < |s| ==> s[i].dbId in r.rows && s[i].conn == r.rows[s[i].dbId]
    ensures forall id :: id in r.rows ==> StoredConnection(id, r.rows[id]) in s
  {
    ListFrom(r, 1)
  }

  // ---------------------------------------------------------------------------
  // Lifecycle
  // ---------------------------------------------------------------------------

  /** A connection inserted is read back with its new id, and is found by
      host, port and user; other rows are untouched. */
  lemma InsertThenGet(r: Registry, c: Connection)
    requires Inv(r) && Valid(c)
    ensures var (r', id) := InsertDb(r, c);
      && GetDb(r', id) == Success(Some(StoredConnection(id, c)))
      && ExistsDb(r', c.host, c.port, c.user).Success?
      && ExistsDb(r', c.host, c.port, c.user).value != -1
      && forall k :: k != id ==> GetDb(r', k) == GetDb(r, k)
  {
    var (r', id) := InsertDb(r, c);
    assert Matches(r'.rows[id], c.host, c.port, c.user);
  }

  /** Inserting the same connection twice gives two rows with distinct ids. */
  lemma InsertTwiceDistinct(r: Registry, c: Connection)
    requires Inv(r) && Valid(c)
    ensures var (r1, id1) := InsertDb(r, c);
      var (r2, id2) := InsertDb(r1, c);
      id1 != id2 && id1 in r2.rows && id2 in r2.rows && r2.rows[id1] == r2.rows[id2] == c
  {
  }

  /** After deleting an id nothing is found under it, `exists_db` no longer
      returns it, and every other row is unchanged. */
  lemma DeleteThenGet(r: Registry, id: int, host: string, port: int, user: string)
    requires Inv(r) && id > 0
    ensures var r' := DeleteDb(r, id).value.0;
      && GetDb(r', id) == Success(None)
      && (ExistsDb(r', host, port, user).Success? ==> ExistsDb(r', host, port, user).value != id)
      && forall k :: k != id ==> GetDb(r', k) == GetDb(r, k)
  {
  }

  /** Deleting twice: the second delete reports that nothing was removed. */
  lemma DeleteTwice(r: Registry, id: int)
    requires Inv(r) && id > 0
    ensures var r' := DeleteDb(r, id).value.0;
      DeleteDb(r', id) == Success((r', false))
  {
    var r' := DeleteDb(r, id).value.0;
    assert r'.rows - {id} == r'.rows;
  }
}

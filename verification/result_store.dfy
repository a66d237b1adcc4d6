/** The snapshot and chat store (src/result_DAO.py). Each procedure's latest
    result rows live in a shelve database named `kv_<procedure>`, keyed by the
    row's position; each analysed row's conversation lives in its own shelve
    database `kv_chat_<procedure>_<position>` under the key `history`.
    The working directory is modelled as a map from database base name to its
    contents; a base name being present stands for its `.dat`/`.dir`/`.bak`
    files existing. */
module ResultStore {
  import opened Wrappers
  import opened Text
  import opened Values
  import Catalog

  /** One chat turn: the role (`"user"` or `"ai"`) and its message. */
  datatype Turn = Turn(role: string, message: string)

  /** What a shelve key holds: a result row or a chat history list. */
  datatype Stored = Rec(row: Row) | History(turns: seq<Turn>)

  type Shelf = map<string, Stored>

  /** Shelve databases present in the working directory, by base name. */
  type Files = map<string, Shelf>

  const HistoryKey: string := "history"

  datatype Error = KeyError(key: string) | NotARecord(key: string)

  /** A listed row: the stored row plus the derived `_rec_id` and `_analyzed`. */
  datatype Listed = Listed(row: Row, recId: nat, analyzed: bool)

  /** Histories are stored under `history` and rows under every other key;
      every operation below preserves this. */
  predicate WellFormed(fs: Files) {
    forall path :: path in fs ==> ShelfWellFormed(fs[path])
  }

  predicate ShelfWellFormed(shelf: Shelf) {
    forall key :: key in shelf ==> (shelf[key].History? <==> key == HistoryKey)
  }

  function KvPath(proc: string): string {
    "kv_" + proc
  }

  function KvChatPath(proc: string, recId: int): string {
    "kv_chat_" + proc + "_" + IntToString(recId)
  }

  /** The contents `shelve.open` sees: a missing database opens empty. */
  function ShelfOf(fs: Files, path: string): Shelf {
    if path in fs then fs[path] else map[]
  }

  // ---------------------------------------------------------------------------
  // Path naming
  // ---------------------------------------------------------------------------

  /** The text after the last `_` of `s` (all of `s` when it has none). */
  function AfterLastUnderscore(s: string): string
  {
    if s == [] || s[|s| - 1] == '_' then [] else AfterLastUnderscore(s[..|s| - 1]) + [s[|s| - 1]]
  }

  lemma {:induction false} AfterLastUnderscoreOf(x: string, a: string)
    requires '_' !in a
    ensures AfterLastUnderscore(x + "_" + a) == a
    decreases |a|
  {
    var s := x + "_" + a;
    if a != [] {
      var a' := a[..|a| - 1];
      assert s[..|s| - 1] == x + "_" + a';
      AfterLastUnderscoreOf(x, a');
      assert a == a' + [a[|a| - 1]];
    } else {
      assert s[|s| - 1] == '_';
    }
  }

  lemma IntToStringHasNoUnderscore(i: int)
    ensures '_' !in IntToString(i)
  {
    IntToStringAlphabet(i);
  }

  /** A chat database name determines its procedure and position. */
  lemma KvChatPathInjective(p: string, i: int, q: string, j: int)
    ensures KvChatPath(p, i) == KvChatPath(q, j) ==> p == q && i == j
  {
    if KvChatPath(p, i) == KvChatPath(q, j) {
      IntToStringHasNoUnderscore(i);
      IntToStringHasNoUnderscore(j);
      AfterLastUnderscoreOf("kv_chat_" + p, IntToString(i));
      AfterLastUnderscoreOf("kv_chat_" + q, IntToString(j));
      var s := KvChatPath(p, i);
      assert p == s[8..8 + |p|];
      assert q == s[8..8 + |q|];
      IntToStringInjective(i, j);
    }
  }

  /** A record database and a chat database share a name only when the
      record procedure's name itself starts with `chat_`. */
  lemma KvPathIsNotChatPath(p: string, q: string, i: int)
    requires !StartsWith(p, "chat_")
    ensures KvPath(p) != KvChatPath(q, i)
  {
    assert KvPath(p)[3..] == p;
    assert KvChatPath(q, i)[3..8] == "chat_";
  }

  // ---------------------------------------------------------------------------
  // Result rows
  // ---------------------------------------------------------------------------

  /** The shelf `store_records` writes: row `i` under key `str(i)`. */
  function Snapshot(rows: seq<Row>): (s: Shelf)
    ensures |s| == |rows|
    ensures forall i :: IntToString(i) in s <==> 0 <= i < |rows|
    ensures forall i :: 0 <= i < |rows| ==> s[IntToString(i)] == Rec(rows[i])
    ensures forall k :: k in s ==> s[k].Rec?
    ensures HistoryKey !in s
    ensures ShelfWellFormed(s)
  {
    if rows == [] then map[]
    else
      var n := |rows| - 1;
      var prev := Snapshot(rows[..n]);
      var key := IntToString(n);
      assert key !in prev;
      assert key != HistoryKey by { assert IsDigit(key[0]); }
      var s := prev[key := Rec(rows[n])];
      assert forall i :: IntToString(i) in s <==> 0 <= i < |rows| by {
        forall i ensures IntToString(i) in s <==> 0 <= i < |rows| {
          IntToStringInjective(i, n);
        }
      }
      assert forall i :: 0 <= i < |rows| ==> s[IntToString(i)] == Rec(rows[i]) by {
        forall i | 0 <= i < |rows| ensures s[IntToString(i)] == Rec(rows[i]) {
          IntToStringInjective(i, n);
        }
      }
      s
  }

  /** Every key of a snapshot is the position of one of its rows. */
  lemma {:induction false} SnapshotKey(rows: seq<Row>, k: string)
    requires k in Snapshot(rows)
    ensures exists i :: 0 <= i < |rows| && k == IntToString(i)
  {
    var n := |rows| - 1;
    if k != IntToString(n) {
      assert k in Snapshot(rows[..n]);
      SnapshotKey(rows[..n], k);
    }
  }

  /** `store_records(proc, records)`: clears the procedure's database and
      writes the new rows; nothing else in the directory changes. */
  function StoreRecords(fs: Files, proc: string, rows: seq<Row>): (r: Files)
    ensures KvPath(proc) in r && r[KvPath(proc)] == Snapshot(rows)
    ensures forall path :: path != KvPath(proc) ==> (path in r <==> path in fs)
    ensures forall path :: path != KvPath(proc) && path in fs ==> r[path] == fs[path]
    ensures WellFormed(fs) ==> WellFormed(r)
  {
    fs[KvPath(proc) := Snapshot(rows)]
  }

  /** `get_record(proc, rec_id)`: the value under key `str(rec_id)`; a
      missing key raises `KeyError`. */
  function GetRecord(fs: Files, proc: string, recId: int): (r: Result<Stored, Error>)
    ensures r.Success? <==> IntToString(recId) in ShelfOf(fs, KvPath(proc))
    ensures r.Success? ==> r.value == ShelfOf(fs, KvPath(proc))[IntToString(recId)]
    ensures r.Failure? ==> r.error == KeyError(IntToString(recId))
  {
    var shelf := ShelfOf(fs, KvPath(proc));
    var key := IntToString(recId);
    if key in shelf then Success(shelf[key]) else Failure(KeyError(key))
  }

  /** `order` lists every key of the shelf exactly once: the order in which
      the dbm backend yields `kv.values()`. */
  predicate Enumerates(order: seq<string>, keys: set<string>) {
    && (forall k :: k in order ==> k in keys)
    && (forall k :: k in keys ==> k in order)
    && (forall a, b :: 0 <= a < b < |order| ==> order[a] != order[b])
  }

  /** The order in which `store_records` inserted its keys. */
  function InsertionOrder(n: nat): (order: seq<string>)
    ensures |order| == n && forall i :: 0 <= i < n ==> order[i] == IntToString(i)
  {
    seq(n, i requires 0 <= i < n => IntToString(i))
  }

  function ListFrom(fs: Files, proc: string, shelf: Shelf, order: seq<string>, i: nat): (r: Result<seq<Listed>, Error>)
    requires i <= |order|
    requires forall k :: k in order ==> k in shelf
    ensures r.Success? <==> forall a :: i <= a < |order| ==> shelf[order[a]].Rec?
    ensures r.Success? ==> |r.value| == |order| - i
    ensures r.Success? ==> forall a :: i <= a < |order| ==>
              r.value[a - i] == Listed(shelf[order[a]].row, a, KvChatPath(proc, a) in fs)
    decreases |order| - i
  {
    if i == |order| then Success([])
    else
      match shelf[order[i]]
      case History(_) => Failure(NotARecord(order[i]))
      case Rec(row) =>
        var rest :- ListFrom(fs, proc, shelf, order, i + 1);
        var listed := [Listed(row, i, KvChatPath(proc, i) in fs)] + rest;
        assert forall b :: 0 <= b < |rest| ==> listed[b + 1] == rest[b];
        Success(listed)
  }

  /** `get_all_records(proc)`: one entry per stored row, in enumeration order,
      with `_rec_id` its position in that order and `_analyzed` whether the
      chat database for that position exists. */
  function GetAllRecords(fs: Files, proc: string, order: seq<string>): (r: Result<seq<Listed>, Error>)
    requires Enumerates(order, ShelfOf(fs, KvPath(proc)).Keys)
    ensures r.Success? <==> forall k :: k in ShelfOf(fs, KvPath(proc)) ==> ShelfOf(fs, KvPath(proc))[k].Rec?
    ensures r.Success? ==> |r.value| == |order|
    ensures r.Success? ==> forall a :: 0 <= a < |order| ==>
              && r.value[a].recId == a
              && r.value[a].row == ShelfOf(fs, KvPath(proc))[order[a]].row
              && (r.value[a].analyzed <==> KvChatPath(proc, a) in fs)
  {
    var shelf := ShelfOf(fs, KvPath(proc));
    var r := ListFrom(fs, proc, shelf, order, 0);
    assert r.Success? ==> forall a :: 0 <= a < |order| ==>
      r.value[a] == Listed(shelf[order[a]].row, a, KvChatPath(proc, a) in fs) by {
      if r.Success? {
        forall a | 0 <= a < |order|
          ensures r.value[a] == Listed(shelf[order[a]].row, a, KvChatPath(proc, a) in fs)
        {
          assert r.value[a - 0] == Listed(shelf[order[a]].row, a, KvChatPath(proc, a) in fs);
        }
      }
    }
    r
  }

  // ---------------------------------------------------------------------------
  // Chat histories
  // ---------------------------------------------------------------------------

  /** `get_chat_history(proc, rec_id)`: `None` when the chat database does not
      exist, otherwise its history (an empty list when the key is absent). */
  function GetChatHistory(fs: Files, proc: string, recId: int): (r: Option<seq<Turn>>)
    requires WellFormed(fs)
    ensures r.None? <==> KvChatPath(proc, recId) !in fs
    ensures r.Some? && HistoryKey !in fs[KvChatPath(proc, recId)] ==> r.value == []
  {
    var path := KvChatPath(proc, recId);
    if path !in fs then None
    else if HistoryKey in fs[path] then Some(fs[path][HistoryKey].turns)
    else Some([])
  }

  /** `store_chat_history(proc, rec_id, history)`: opens (creating if needed)
      the chat database and replaces its history wholesale. */
  function StoreChatHistory(fs: Files, proc: string, recId: int, history: seq<Turn>): (r: Files)
    ensures KvChatPath(proc, recId) in r
    ensures forall path :: path != KvChatPath(proc, recId) ==> (path in r <==> path in fs)
    ensures forall path :: path != KvChatPath(proc, recId) && path in fs ==> r[path] == fs[path]
    ensures WellFormed(fs) ==> WellFormed(r)
  {
    var path := KvChatPath(proc, recId);
    fs[path := ShelfOf(fs, path)[HistoryKey := History(history)]]
  }

  /** Drops every database whose base name starts with `prefix` (a glob
      `<prefix>*` over the `.dat`, `.dir`, `.bak` and `.db` files). */
  function RemoveByPrefix(fs: Files, prefix: string): (r: Files)
    ensures forall path :: path in r <==> path in fs && !StartsWith(path, prefix)
    ensures forall path :: path in r ==> r[path] == fs[path]
    ensures WellFormed(fs) ==> WellFormed(r)
  {
    map path | path in fs && !StartsWith(path, prefix) :: fs[path]
  }

  /** `delete_all_chat_sessions()`: removes every `kv_chat_*` database. */
  function DeleteAllChatSessions(fs: Files): (r: Files)
    ensures forall p, i :: KvChatPath(p, i) !in r
    ensures forall path :: path in r <==> path in fs && !StartsWith(path, "kv_chat_")
  {
    assert forall p, i :: StartsWith(KvChatPath(p, i), "kv_chat_");
    RemoveByPrefix(fs, "kv_chat_")
  }

  /** `clear_all()`: removes every `kv_*` database, rows and chats alike. */
  function ClearAll(fs: Files): (r: Files)
    ensures forall path :: path in r <==> path in fs && !StartsWith(path, "kv_")
  {
    assert forall path :: StartsWith(path, "kv_chat_") ==> StartsWith(path, "kv_") by {
      forall path | StartsWith(path, "kv_chat_") ensures StartsWith(path, "kv_") {
        assert path[..3] == path[..8][..3];
      }
    }
    DeleteAllChatSessions(RemoveByPrefix(fs, "kv_"))
  }

  /** `delete_chat_sessions(proc)`: removes the chat databases whose name
      starts with `kv_chat_<proc>_`. */
  function DeleteChatSessions(fs: Files, proc: string): (r: Files)
    ensures forall path :: path in r <==> path in fs && !StartsWith(path, "kv_chat_" + proc + "_")
  {
    RemoveByPrefix(fs, "kv_chat_" + proc + "_")
  }

  // ---------------------------------------------------------------------------
  // Properties
  // ---------------------------------------------------------------------------

  /** After a refresh, position `i` reads back row `i` of the new snapshot and
      any position outside it raises. */
  lemma GetRecordAfterStore(fs: Files, proc: string, rows: seq<Row>, i: int)
    ensures GetRecord(StoreRecords(fs, proc, rows), proc, i)
         == if 0 <= i < |rows| then Success(Rec(rows[i])) else Failure(KeyError(IntToString(i)))
  {
  }

  /** Positions in insertion order enumerate a snapshot's keys. */
  lemma SnapshotEnumerated(rows: seq<Row>)
    ensures Enumerates(InsertionOrder(|rows|), Snapshot(rows).Keys)
  {
    SnapshotKeysInOrder(rows);
    InsertionOrderDistinct(|rows|);
  }

  lemma SnapshotKeysInOrder(rows: seq<Row>)
    ensures forall k :: k in Snapshot(rows) ==> k in InsertionOrder(|rows|)
  {
    var order := InsertionOrder(|rows|);
    forall k | k in Snapshot(rows) ensures k in order {
      SnapshotKey(rows, k);
      var i :| 0 <= i < |rows| && k == IntToString(i);
      assert order[i] == k;
    }
  }

  lemma InsertionOrderDistinct(n: nat)
    ensures var order := InsertionOrder(n);
      forall a, b :: 0 <= a < b < |order| ==> order[a] != order[b]
  {
    var order := InsertionOrder(n);
    forall a, b | 0 <= a < b < |order| ensures order[a] != order[b] {
      IntToStringInjective(a, b);
    }
  }

  /** Listing right after a refresh (dbm yielding keys in insertion order)
      returns exactly the new rows, `_rec_id` equal to the position, and
      `_analyzed` read from chat databases the refresh left untouched. */
  lemma ListAfterStore(fs: Files, proc: string, rows: seq<Row>)
    ensures Enumerates(InsertionOrder(|rows|), ShelfOf(StoreRecords(fs, proc, rows), KvPath(proc)).Keys)
    ensures var listed := GetAllRecords(StoreRecords(fs, proc, rows), proc, InsertionOrder(|rows|));
      && listed.Success? && |listed.value| == |rows|
      && forall i :: 0 <= i < |rows| ==>
           listed.value[i] == Listed(rows[i], i, KvChatPath(proc, i) in fs)
  {
    var fs' := StoreRecords(fs, proc, rows);
    var order := InsertionOrder(|rows|);
    var shelf := Snapshot(rows);
    assert ShelfOf(fs', KvPath(proc)) == shelf;
    SnapshotEnumerated(rows);
    var listed := GetAllRecords(fs', proc, order);
    assert listed.Success?;
    forall i | 0 <= i < |rows|
      ensures listed.value[i] == Listed(rows[i], i, KvChatPath(proc, i) in fs)
    {
      assert |KvChatPath(proc, i)| != |KvPath(proc)|;
      assert shelf[order[i]] == Rec(rows[i]);
    }
  }

  /** A refresh replaces the whole snapshot: what an earlier refresh wrote is
      gone, and refreshing twice with the same rows is the same as once. */
  lemma StoreRecordsReplaces(fs: Files, proc: string, old1: seq<Row>, rows: seq<Row>)
    ensures StoreRecords(StoreRecords(fs, proc, old1), proc, rows) == StoreRecords(fs, proc, rows)
  {
    var path := KvPath(proc);
    var snap := Snapshot(rows);
    assert fs[path := Snapshot(old1)][path := snap] == fs[path := snap];
  }

  /** A refresh leaves every chat history as it was (unless the refreshed
      procedure's own name begins with `chat_`, which would make its record
      database a chat database). */
  lemma StoreRecordsKeepsChats(fs: Files, proc: string, rows: seq<Row>, q: string, j: int)
    requires WellFormed(fs)
    requires !StartsWith(proc, "chat_")
    ensures GetChatHistory(StoreRecords(fs, proc, rows), q, j) == GetChatHistory(fs, q, j)
  {
    KvPathIsNotChatPath(proc, q, j);
  }

  /** Reading a history back returns exactly what was stored, and a second
      store replaces the first wholesale. */
  lemma ChatRoundTrip(fs: Files, proc: string, recId: int, h: seq<Turn>, h2: seq<Turn>)
    requires WellFormed(fs)
    ensures GetChatHistory(StoreChatHistory(fs, proc, recId, h), proc, recId) == Some(h)
    ensures StoreChatHistory(StoreChatHistory(fs, proc, recId, h), proc, recId, h2)
         == StoreChatHistory(fs, proc, recId, h2)
  {
    var path := KvChatPath(proc, recId);
    var shelf := ShelfOf(fs, path);
    assert shelf[HistoryKey := History(h)][HistoryKey := History(h2)] == shelf[HistoryKey := History(h2)];
  }

  /** Storing one record's history leaves every other record's history as it was. */
  lemma ChatIsolation(fs: Files, proc: string, recId: int, h: seq<Turn>, q: string, j: int)
    requires WellFormed(fs)
    requires q != proc || j != recId
    ensures GetChatHistory(StoreChatHistory(fs, proc, recId, h), q, j) == GetChatHistory(fs, q, j)
  {
    KvChatPathInjective(proc, recId, q, j);
  }

  /** `_analyzed` follows the chat store: after a refresh and a chat stored
      for position `j`, position `j` lists as analysed and every other
      position as it was before (analysed iff its chat database existed). */
  lemma AnalyzedAfterChat(fs: Files, proc: string, rows: seq<Row>, j: int, h: seq<Turn>)
    ensures var fs' := StoreChatHistory(StoreRecords(fs, proc, rows), proc, j, h);
      && Enumerates(InsertionOrder(|rows|), ShelfOf(fs', KvPath(proc)).Keys)
      && var listed := GetAllRecords(fs', proc, InsertionOrder(|rows|));
      && listed.Success? && |listed.value| == |rows|
      && forall i :: 0 <= i < |rows| ==>
           listed.value[i] == Listed(rows[i], i, i == j || KvChatPath(proc, i) in fs)
  {
    var stored := StoreRecords(fs, proc, rows);
    var fs' := StoreChatHistory(stored, proc, j, h);
    var order := InsertionOrder(|rows|);
    ListAfterStore(fs, proc, rows);
    ChatKeepsSnapshot(stored, proc, j, h);
    var before := GetAllRecords(stored, proc, order).value;
    var listed := GetAllRecords(fs', proc, order);
    forall i | 0 <= i < |rows|
      ensures listed.value[i] == Listed(rows[i], i, i == j || KvChatPath(proc, i) in fs)
    {
      assert before[i].row == rows[i];
      ChatPathAfterStores(fs, proc, rows, j, h, i);
    }
  }

  /** Storing a history leaves the record snapshot of the same procedure as it was. */
  lemma ChatKeepsSnapshot(fs: Files, proc: string, j: int, h: seq<Turn>)
    ensures ShelfOf(StoreChatHistory(fs, proc, j, h), KvPath(proc)) == ShelfOf(fs, KvPath(proc))
  {
    assert |KvChatPath(proc, j)| != |KvPath(proc)|;
  }

  /** After a refresh and a chat stored for `j`, a chat database exists for
      `i` exactly when `i` is `j` or one existed before. */
  lemma ChatPathAfterStores(fs: Files, proc: string, rows: seq<Row>, j: int, h: seq<Turn>, i: int)
    ensures KvChatPath(proc, i) in StoreChatHistory(StoreRecords(fs, proc, rows), proc, j, h)
        <==> i == j || KvChatPath(proc, i) in fs
  {
    KvChatPathInjective(proc, i, proc, j);
    assert |KvChatPath(proc, i)| != |KvPath(proc)|;
  }

  /** After `clear_all()` every procedure's snapshot is empty and no chat
      history exists. */
  lemma ClearAllEmpties(fs: Files, proc: string, recId: int)
    requires WellFormed(fs)
    ensures ShelfOf(ClearAll(fs), KvPath(proc)) == map[]
    ensures GetAllRecords(ClearAll(fs), proc, []) == Success([])
    ensures GetChatHistory(ClearAll(fs), proc, recId) == None
  {
    assert StartsWith(KvPath(proc), "kv_");
    assert StartsWith(KvChatPath(proc, recId), "kv_");
  }

  /** `delete_chat_sessions(proc)` removes every history of `proc`, and no
      history of another catalogued procedure (`sp_Blitz` is a prefix of the
      other two names, but the `_` after it is not). */
  lemma DeleteChatSessionsScope(fs: Files, proc: string, q: string, i: int)
    requires WellFormed(fs)
    requires proc in Catalog.ProcedureNames && q in Catalog.ProcedureNames && q != proc
    ensures GetChatHistory(DeleteChatSessions(fs, proc), proc, i) == None
    ensures GetChatHistory(DeleteChatSessions(fs, proc), q, i) == GetChatHistory(fs, q, i)
    ensures ShelfOf(DeleteChatSessions(fs, proc), KvPath(q)) == ShelfOf(fs, KvPath(q))
  {
    var prefix := "kv_chat_" + proc + "_";
    var own := KvChatPath(proc, i);
    assert own[..|prefix|] == prefix;
    var other := KvChatPath(q, i);
    assert |prefix| > 16 && |other| > 16;
    assert other[16] != prefix[16];
    assert KvPath(q)[3] != prefix[3];
  }
}

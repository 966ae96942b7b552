/**
 * The `chats` table of the local database and the three operations on it:
 * appending a message, loading one session's history in timestamp order,
 * and listing the distinct session ids.
 */
module DbUtils {
  import opened Wrappers

  /** The two values the table's `CHECK (role IN ('user', 'assistant'))` admits in the role column. */
  datatype Role = User | Assistant

  /** The column text of a role. */
  function RoleName(role: Role): string {
    match role
    case User => "user"
    case Assistant => "assistant"
  }

  /** The role check: the role a column value names, or `None` when the CHECK rejects it. */
  function ParseRole(s: string): (r: Option<Role>)
    ensures r.Some? <==> s == "user" || s == "assistant"
    ensures r.Some? ==> RoleName(r.value) == s
  {
    if s == "user" then Some(User) else if s == "assistant" then Some(Assistant) else None
  }

  /** Every role survives the trip through its column text. */
  lemma RoleRoundTrip(role: Role)
    ensures ParseRole(RoleName(role)) == Some(role)
  {
  }

  /** One row of `chats (session_id, timestamp, role, content_text, has_attachment)`. */
  datatype Row = Row(sessionId: string, timestamp: nat, role: Role, content: string, hasAttachment: bool)

  /** The error the database raises when an insert violates the role check. */
  datatype StoreError = CheckConstraintFailed(role: string)

  // ---------------------------------------------------------------------
  // WHERE session_id = ?

  /** The rows of `rows` that belong to session `s`, in table order. */
  function RowsOf(rows: seq<Row>, s: string): (r: seq<Row>)
    ensures forall x :: multiset(r)[x] == if x.sessionId == s then multiset(rows)[x] else 0
  {
    if rows == [] then []
    else
      var rest := RowsOf(rows[..|rows| - 1], s);
      var last := rows[|rows| - 1];
      assert rows == rows[..|rows| - 1] + [last];
      if last.sessionId == s then rest + [last] else rest
  }

  // ---------------------------------------------------------------------
  // ORDER BY timestamp

  predicate SortedByTime(rows: seq<Row>) {
    forall i, j :: 0 <= i < j < |rows| ==> rows[i].timestamp <= rows[j].timestamp
  }

  /** Inserts `x` in front of the first row of `ys` whose timestamp is equal or later. */
  function InsertByTime(x: Row, ys: seq<Row>): seq<Row>
  {
    if ys == [] || x.timestamp <= ys[0].timestamp then [x] + ys
    else [ys[0]] + InsertByTime(x, ys[1..])
  }

  /** Inserting into a timestamp-ordered sequence keeps it ordered and adds exactly `x`. */
  lemma {:induction false} InsertByTimeSorted(x: Row, ys: seq<Row>)
    requires SortedByTime(ys)
    ensures SortedByTime(InsertByTime(x, ys))
    ensures multiset(InsertByTime(x, ys)) == multiset(ys) + multiset{x}
  {
    if ys == [] || x.timestamp <= ys[0].timestamp {
      ConsSorted(x, ys);
    } else {
      SortedTail(ys);
      InsertByTimeSorted(x, ys[1..]);
      var rest := InsertByTime(x, ys[1..]);
      assert ys == [ys[0]] + ys[1..];
      forall z | z in rest ensures ys[0].timestamp <= z.timestamp {
        assert z in multiset(rest);
      }
      ConsSorted(ys[0], rest);
    }
  }

  lemma ConsSorted(y: Row, rest: seq<Row>)
    requires SortedByTime(rest)
    requires forall z :: z in rest ==> y.timestamp <= z.timestamp
    ensures SortedByTime([y] + rest)
  {
    var r := [y] + rest;
    forall i, j | 0 <= i < j < |r| ensures r[i].timestamp <= r[j].timestamp {
      assert r[j] == rest[j - 1];
      if i > 0 { assert r[i] == rest[i - 1]; }
    }
  }

  /** Insertion sort by timestamp; rows with equal timestamps keep their table order. */
  function SortByTime(rows: seq<Row>): (r: seq<Row>)
    ensures SortedByTime(r)
    ensures multiset(r) == multiset(rows)
  {
    if rows == [] then []
    else
      assert rows == [rows[0]] + rows[1..];
      InsertByTimeSorted(rows[0], SortByTime(rows[1..]));
      InsertByTime(rows[0], SortByTime(rows[1..]))
  }

  /** `SELECT * FROM chats WHERE session_id = s ORDER BY timestamp`. */
  function History(rows: seq<Row>, s: string): (h: seq<Row>)
    ensures SortedByTime(h)
    ensures forall x :: multiset(h)[x] == if x.sessionId == s then multiset(rows)[x] else 0
  {
    SortByTime(RowsOf(rows, s))
  }

  lemma {:induction false} InsertBeforeLater(x: Row, ys: seq<Row>, last: Row)
    requires SortedByTime(ys + [last]) && x.timestamp <= last.timestamp
    ensures SortedByTime(ys)
    ensures InsertByTime(x, ys + [last]) == InsertByTime(x, ys) + [last]
    decreases |ys|
  {
    SortedPrefix(ys, last);
    var zs := ys + [last];
    if ys == [] {
      assert zs == [last];
      assert InsertByTime(x, zs) == [x] + zs;
    } else if x.timestamp <= ys[0].timestamp {
      assert zs[0] == ys[0];
      assert InsertByTime(x, zs) == [x] + zs;
      assert InsertByTime(x, ys) == [x] + ys;
    } else {
      assert zs[0] == ys[0] && zs[1..] == ys[1..] + [last];
      SortedTail(zs);
      InsertBeforeLater(x, ys[1..], last);
      assert InsertByTime(x, zs) == [zs[0]] + InsertByTime(x, zs[1..]);
      assert InsertByTime(x, ys) == [ys[0]] + InsertByTime(x, ys[1..]);
    }
  }

  lemma SortedTail(zs: seq<Row>)
    requires zs != [] && SortedByTime(zs)
    ensures SortedByTime(zs[1..])
  {
    forall i, j | 0 <= i < j < |zs| - 1 ensures zs[1..][i].timestamp <= zs[1..][j].timestamp {
      assert zs[1..][i] == zs[i + 1] && zs[1..][j] == zs[j + 1];
    }
  }

  lemma SortedPrefix(ys: seq<Row>, last: Row)
    requires SortedByTime(ys + [last])
    ensures SortedByTime(ys)
  {
    forall i, j | 0 <= i < j < |ys| ensures ys[i].timestamp <= ys[j].timestamp {
      assert ys[i] == (ys + [last])[i] && ys[j] == (ys + [last])[j];
    }
  }

  /** A row whose timestamp is not earlier than any other ends up last after sorting. */
  lemma {:induction false} SortAppendLatest(rows: seq<Row>, last: Row)
    requires forall i :: 0 <= i < |rows| ==> rows[i].timestamp <= last.timestamp
    ensures SortByTime(rows + [last]) == SortByTime(rows) + [last]
    decreases |rows|
  {
    if rows == [] {
      assert SortByTime([last]) == InsertByTime(last, []);
    } else {
      assert (rows + [last])[1..] == rows[1..] + [last];
      SortAppendLatest(rows[1..], last);
      var sorted := SortByTime(rows[1..]);
      assert SortedByTime(sorted + [last]) by {
        forall i | 0 <= i < |sorted| ensures sorted[i].timestamp <= last.timestamp {
          assert sorted[i] in multiset(rows[1..]);
        }
      }
      InsertBeforeLater(rows[0], sorted, last);
    }
  }

  /**
   * Appending a row with the latest timestamp appends it to its own session's
   * history and leaves every other session's history as it was.
   */
  lemma HistoryAfterAppend(rows: seq<Row>, last: Row, s: string)
    requires forall i :: 0 <= i < |rows| ==> rows[i].timestamp < last.timestamp
    ensures History(rows + [last], s) == if last.sessionId == s then History(rows, s) + [last] else History(rows, s)
  {
    assert (rows + [last])[..|rows|] == rows;
    var own := RowsOf(rows, s);
    forall i | 0 <= i < |own| ensures own[i].timestamp <= last.timestamp {
      assert own[i] in multiset(rows);
    }
    if last.sessionId == s {
      SortAppendLatest(own, last);
    }
  }

  // ---------------------------------------------------------------------
  // SELECT DISTINCT session_id ... ORDER BY session_id

  /** Lexicographic order on code points: the database's default ordering of VARCHAR values. */
  predicate StrLess(a: string, b: string)
    decreases |a|
  {
    |b| > 0 && (|a| == 0 || a[0] < b[0] || (a[0] == b[0] && StrLess(a[1..], b[1..])))
  }

  lemma {:induction false} StrLessIrreflexive(a: string)
    ensures !StrLess(a, a)
    decreases |a|
  {
    if |a| > 0 { StrLessIrreflexive(a[1..]); }
  }

  lemma {:induction false} StrLessTransitive(a: string, b: string, c: string)
    requires StrLess(a, b) && StrLess(b, c)
    ensures StrLess(a, c)
    decreases |a|
  {
    if |a| > 0 && a[0] == b[0] && b[0] == c[0] {
      StrLessTransitive(a[1..], b[1..], c[1..]);
    }
  }

  lemma {:induction false} StrLessTotal(a: string, b: string)
    requires a != b
    ensures StrLess(a, b) || StrLess(b, a)
    decreases |a|
  {
    if |a| > 0 && |b| > 0 && a[0] == b[0] {
      assert a == [a[0]] + a[1..] && b == [b[0]] + b[1..];
      StrLessTotal(a[1..], b[1..]);
    }
  }

  predicate StrictlySorted(ids: seq<string>) {
    forall i, j :: 0 <= i < j < |ids| ==> StrLess(ids[i], ids[j])
  }

  /** Adds `x` to a strictly ascending sequence of ids unless it is already there. */
  function InsertUnique(x: string, ids: seq<string>): (r: seq<string>)
    requires StrictlySorted(ids)
    ensures StrictlySorted(r)
    ensures forall z :: z in r <==> z == x || z in ids
  {
    if ids == [] then [x]
    else if x == ids[0] then ids
    else if StrLess(x, ids[0]) then
      forall z | z in ids ensures StrLess(x, z) {
        if z != ids[0] { StrLessTransitive(x, ids[0], z); }
      }
      ConsStrictlySorted(x, ids);
      [x] + ids
    else
      StrLessTotal(x, ids[0]);
      assert ids == [ids[0]] + ids[1..];
      var rest := InsertUnique(x, ids[1..]);
      ConsStrictlySorted(ids[0], rest);
      [ids[0]] + rest
  }

  lemma ConsStrictlySorted(y: string, rest: seq<string>)
    requires StrictlySorted(rest)
    requires forall z :: z in rest ==> StrLess(y, z)
    ensures StrictlySorted([y] + rest)
  {
    var r := [y] + rest;
    forall i, j | 0 <= i < j < |r| ensures StrLess(r[i], r[j]) {
      assert r[j] == rest[j - 1];
      if i > 0 { assert r[i] == rest[i - 1]; }
    }
  }

  /** The distinct session ids of `rows`, in ascending order. */
  function DistinctSessions(rows: seq<Row>): (ids: seq<string>)
    ensures StrictlySorted(ids)
    ensures forall id :: id in ids <==> exists i :: 0 <= i < |rows| && rows[i].sessionId == id
  {
    if rows == [] then []
    else
      var rest := DistinctSessions(rows[1..]);
      assert forall i :: 0 < i < |rows| ==> rows[i] == rows[1..][i - 1];
      InsertUnique(rows[0].sessionId, rest)
  }

  /** A strictly ascending sequence holds each id once. */
  lemma StrictlySortedDistinct(ids: seq<string>)
    requires StrictlySorted(ids)
    ensures forall i, j :: 0 <= i < j < |ids| ==> ids[i] != ids[j]
  {
    forall i, j | 0 <= i < j < |ids| ensures ids[i] != ids[j] {
      StrLessIrreflexive(ids[i]);
    }
  }

  // ---------------------------------------------------------------------
  // The table itself

  /** The `chats` table behind the module-level database connection. */
  class Store {
    var rows: seq<Row>

    /** `CREATE TABLE IF NOT EXISTS chats ...` on a fresh database. */
    constructor ()
      ensures rows == []
    {
      rows := [];
    }

    /** `INSERT INTO chats VALUES (?, ?, ?, ?, ?)`: one row appended, or a check failure and no change. */
    method SaveMessage(sessionId: string, timestamp: nat, role: string, content: string, hasAttachment: bool)
      returns (r: Outcome<StoreError>)
      modifies this
      ensures r.Pass? <==> ParseRole(role).Some?
      ensures r.Fail? ==> r.error == CheckConstraintFailed(role)
      ensures rows == if r.Pass? then old(rows) + [Row(sessionId, timestamp, ParseRole(role).value, content, hasAttachment)]
                      else old(rows)
    {
      var checked := ParseRole(role);
      if checked.Some? {
        rows := rows + [Row(sessionId, timestamp, checked.value, content, hasAttachment)];
        r := Pass;
      } else {
        r := Fail(CheckConstraintFailed(role));
      }
    }

    /** `try_message_insert`: the same insert; its failure is re-raised unchanged. */
    method TryMessageInsert(sessionId: string, timestamp: nat, role: string, content: string, hasAttachment: bool)
      returns (r: Outcome<StoreError>)
      modifies this
      ensures r.Pass? <==> ParseRole(role).Some?
      ensures r.Fail? ==> r.error == CheckConstraintFailed(role)
      ensures rows == if r.Pass? then old(rows) + [Row(sessionId, timestamp, ParseRole(role).value, content, hasAttachment)]
                      else old(rows)
    {
      r := SaveMessage(sessionId, timestamp, role, content, hasAttachment);
    }

    /** `load_history`: the session's rows, as a multiset exactly those of the table, in timestamp order. */
    function LoadHistory(sessionId: string): (h: seq<Row>)
      reads this
      ensures SortedByTime(h)
      ensures forall x :: multiset(h)[x] == if x.sessionId == sessionId then multiset(rows)[x] else 0
    {
      History(rows, sessionId)
    }

    /** `get_all_sessions`: every session id of the table once, ascending, and nothing else. */
    function GetAllSessions(): (ids: seq<string>)
      reads this
      ensures StrictlySorted(ids)
      ensures forall i, j :: 0 <= i < j < |ids| ==> ids[i] != ids[j]
      ensures forall id :: id in ids <==> exists i :: 0 <= i < |rows| && rows[i].sessionId == id
    {
      var ids := DistinctSessions(rows);
      StrictlySortedDistinct(ids);
      ids
    }
  }
}

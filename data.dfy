/**
 * The write-through data layer of models/data.py. A write goes to the remote
 * worksheet first, then into the cache, then triggers background refreshes of the
 * tables that depend on the written one. The remote spreadsheet is the map `remote`
 * from worksheet name to its grid of cells; `trace` lists, in order, every call the
 * layer makes to the worksheet, to the cache and to the refresh trigger.
 */
module Data {
  import opened Wrappers
  import opened Records
  import opened Seqs
  import opened Utils
  import opened Cache

  /** The field `_insert_record` stamps (models/fields.py's `TIMESTAMP`). */
  const TimestampField := "timestamp"

  /** A remote worksheet: its header row (row 1) and the rows of cells below it. */
  datatype Worksheet = Worksheet(headers: seq<string>, rows: seq<seq<Value>>)

  /**
   * The shape every worksheet keeps: header names are distinct (gspread's
   * `get_all_records` refuses a header row with repeats) and every row is as wide
   * as the header row (short rows read back padded with '').
   */
  ghost predicate WellFormed(ws: Worksheet)
  {
    && NoDups(ws.headers)
    && forall i :: 0 <= i < |ws.rows| ==> |ws.rows[i]| == |ws.headers|
  }

  /**
   * One row of cells read back as a record keyed by the header row: every header is
   * a field, holding the cell under the header's first occurrence, or '' past the
   * end of a short row.
   */
  function RowRecord(headers: seq<string>, row: seq<Value>): (r: Record)
    ensures r.Keys == set h | h in headers
    ensures forall i :: 0 <= i < |headers| && headers[i] !in headers[..i] ==>
      r[headers[i]] == if i < |row| then row[i] else Text("")
  {
    map h | h in headers :: var i := IndexOf(headers, h).value; if i < |row| then row[i] else Text("")
  }

  /** `worksheet.get_all_records()`: every row below the header as a record. */
  function AllRecords(ws: Worksheet): (r: seq<Record>)
    ensures |r| == |ws.rows|
  {
    seq(|ws.rows|, i requires 0 <= i < |ws.rows| => RowRecord(ws.headers, ws.rows[i]))
  }

  /**
   * The search loop of `_update_record`: the index of the first record that
   * satisfies `matchFn`, if there is one.
   */
  method FindFirst(records: seq<Record>, matchFn: Record -> bool) returns (m: Option<nat>)
    ensures m == FirstMatch(records, matchFn)
  {
    var i := 0;
    while i < |records|
      invariant 0 <= i <= |records|
      invariant forall j :: 0 <= j < i ==> !matchFn(records[j])
    {
      if matchFn(records[i]) {
        return Some(i);
      }
      i := i + 1;
    }
    return None;
  }

  /** `[data.get(h, '') for h in headers]`: a record laid out in header order. */
  function Project(record: Record, headers: seq<string>): (row: seq<Value>)
    ensures |row| == |headers|
    ensures forall i :: 0 <= i < |headers| ==> row[i] == Get(record, headers[i])
  {
    seq(|headers|, i requires 0 <= i < |headers| => Get(record, headers[i]))
  }

  /**
   * A record appended in header order reads back as that record cut down to the
   * header fields, with '' for the header fields it lacks.
   */
  lemma ProjectReadsBack(record: Record, headers: seq<string>)
    ensures RowRecord(headers, Project(record, headers)) == map h | h in headers :: Get(record, h)
  {
    var row := Project(record, headers);
    forall h | h in headers
      ensures RowRecord(headers, row)[h] == Get(record, h)
    {
      var i := IndexOf(headers, h).value;
      assert headers[i] == h;
    }
  }

  /** The record `_insert_record` stores: `timestamp` is added only when it is absent. */
  function Stamped(data: Record, stamp: string): (r: Record)
    ensures TimestampField in r
    ensures r.Keys == data.Keys + {TimestampField}
    ensures forall k :: k in data ==> r[k] == data[k]
    ensures TimestampField !in data ==> r[TimestampField] == Text(stamp)
  {
    if TimestampField in data then data else data[TimestampField := Text(stamp)]
  }

  /** The tables `_refresh_related_tables` triggers: the map's entry for `table`, less `table` itself. */
  function Dependents(invalidation: map<string, seq<string>>, table: string): seq<string>
  {
    if table in invalidation then Without(invalidation[table], table) else []
  }

  /**
   * Exactly the listed dependents other than the table itself are refreshed; a
   * table that is not a key has none; a list that does not name the table is
   * refreshed as it stands, in map order.
   */
  lemma DependentsAre(invalidation: map<string, seq<string>>, table: string)
    ensures forall t :: t in Dependents(invalidation, table) <==>
      table in invalidation && t in invalidation[table] && t != table
    ensures table !in invalidation ==> Dependents(invalidation, table) == []
    ensures table in invalidation && table !in invalidation[table] ==>
      Dependents(invalidation, table) == invalidation[table]
    ensures table in invalidation ==>
      Dependents(invalidation, table) == Filter(invalidation[table], Other(table))
  {
    if table in invalidation {
      WithoutIsFilter(invalidation[table], table);
      WithoutMembers(invalidation[table], table);
      if table !in invalidation[table] {
        WithoutAbsent(invalidation[table], table);
      }
    }
  }

  /** A call the layer makes, in the order it makes it. */
  datatype Call =
    | SheetAppend(table: string, row: seq<Value>)                                   // worksheet.append_row
    | SheetUpdateCell(table: string, rowNumber: int, column: int, value: Value)     // worksheet.update_cell
    | CacheAppend(table: string)                                                    // _cache.append_row
    | CacheUpdate(table: string)                                                    // _cache.update_row
    | Refresh(table: string)                                                        // _trigger_background_refresh

  /** One refresh trigger per table, in order. */
  function Refreshes(tables: seq<string>): seq<Call>
    decreases |tables|
  {
    if tables == [] then [] else Refreshes(tables[..|tables| - 1]) + [Refresh(tables[|tables| - 1])]
  }

  /** Triggering one more table. */
  lemma RefreshesSnoc(tables: seq<string>, t: string)
    ensures Refreshes(tables + [t]) == Refreshes(tables) + [Refresh(t)]
  {
    assert (tables + [t])[..|tables|] == tables;
  }

  /** The updates whose field is a header, in order; `headers.index` rejects the others. */
  function Writable(updates: Updates, headers: seq<string>): Updates
    decreases |updates|
  {
    if updates == [] then []
    else
      var last := updates[|updates| - 1];
      Writable(updates[..|updates| - 1], headers) + (if last.0 in headers then [last] else [])
  }

  /** The writable updates are the updates filtered by "names a header", in order. */
  lemma {:induction false} WritableIsFilter(updates: Updates, headers: seq<string>)
    ensures Writable(updates, headers) == Filter(updates, (p: (string, Value)) => p.0 in headers)
    decreases |updates|
  {
    if updates != [] {
      WritableIsFilter(updates[..|updates| - 1], headers);
    }
  }

  /** `_update_record`'s `update_cell` calls for one row: one per update whose field is a header. */
  function CellWrites(table: string, rowNumber: int, headers: seq<string>, updates: Updates): seq<Call>
    decreases |updates|
  {
    if updates == [] then []
    else
      var last := updates[|updates| - 1];
      CellWrites(table, rowNumber, headers, updates[..|updates| - 1]) +
        match FindColumnIndex(headers, last.0)
        case Some(c) => [SheetUpdateCell(table, rowNumber, c, last.1)]
        case None => []
  }

  /**
   * The cell writes are the writable updates, in order, each addressed to the given
   * row and to the column of its field's header; the other fields are skipped.
   */
  lemma {:induction false} CellWritesAddressWritable(table: string, rowNumber: int, headers: seq<string>, updates: Updates)
    ensures forall p :: p in Writable(updates, headers) <==> p in updates && p.0 in headers
    ensures |CellWrites(table, rowNumber, headers, updates)| == |Writable(updates, headers)|
    ensures forall i :: 0 <= i < |Writable(updates, headers)| ==>
      var w := Writable(updates, headers)[i];
      && 1 <= FindColumnIndex(headers, w.0).value <= |headers|
      && headers[FindColumnIndex(headers, w.0).value - 1] == w.0
      && CellWrites(table, rowNumber, headers, updates)[i] ==
         SheetUpdateCell(table, rowNumber, FindColumnIndex(headers, w.0).value, w.1)
    decreases |updates|
  {
    if updates != [] {
      var prefix := updates[..|updates| - 1];
      CellWritesAddressWritable(table, rowNumber, headers, prefix);
      assert updates == prefix + [updates[|updates| - 1]];
    }
  }

  /** `update_cell` on the grid: row numbers count the header row as 1, columns start at 1. */
  function SetCell(ws: Worksheet, rowNumber: int, column: int, value: Value): Worksheet
    requires 2 <= rowNumber < |ws.rows| + 2
    requires 1 <= column <= |ws.rows[rowNumber - 2]|
  {
    ws.(rows := ws.rows[rowNumber - 2 := ws.rows[rowNumber - 2][column - 1 := value]])
  }

  /** A row of cells after the `update_cell` writes of `updates`. */
  function WrittenRow(row: seq<Value>, headers: seq<string>, updates: Updates): (r: seq<Value>)
    requires |row| == |headers|
    ensures |r| == |headers|
    decreases |updates|
  {
    if updates == [] then row
    else
      var prev := WrittenRow(row, headers, updates[..|updates| - 1]);
      var last := updates[|updates| - 1];
      match FindColumnIndex(headers, last.0)
      case Some(c) => prev[c - 1 := last.1]
      case None => prev
  }

  /** Writing one cell changes, in the row's record, exactly the field of that column. */
  lemma CellWriteReadsBack(row: seq<Value>, headers: seq<string>, f: string, v: Value)
    requires |row| == |headers|
    requires f in headers
    ensures RowRecord(headers, row[FindColumnIndex(headers, f).value - 1 := v]) == RowRecord(headers, row)[f := v]
  {
    var c := FindColumnIndex(headers, f).value;
    var written := row[c - 1 := v];
    var m1 := RowRecord(headers, written);
    var m2 := RowRecord(headers, row)[f := v];
    assert m1.Keys == m2.Keys;
    forall h | h in m1
      ensures m1[h] == m2[h]
    {
      var i := IndexOf(headers, h).value;
      assert m1[h] == written[i];
      if h == f {
        assert i == c - 1;
      } else {
        assert headers[i] != headers[c - 1];
        assert m2[h] == row[i];
      }
    }
    assert m1 == m2;
  }

  /**
   * The remote record of the written row is the old record with the writable
   * updates merged in: the header fields named by the updates take their values,
   * the other fields keep theirs.
   */
  lemma {:induction false} WrittenRowIsUpdate(row: seq<Value>, headers: seq<string>, updates: Updates)
    requires |row| == |headers|
    ensures RowRecord(headers, WrittenRow(row, headers, updates)) == Apply(RowRecord(headers, row), Writable(updates, headers))
    decreases |updates|
  {
    if updates != [] {
      var prefix := updates[..|updates| - 1];
      var last := updates[|updates| - 1];
      WrittenRowIsUpdate(row, headers, prefix);
      var prev := WrittenRow(row, headers, prefix);
      var w := Writable(prefix, headers);
      if last.0 in headers {
        var c := FindColumnIndex(headers, last.0).value;
        assert WrittenRow(row, headers, updates) == prev[c - 1 := last.1];
        CellWriteReadsBack(prev, headers, last.0, last.1);
        assert Writable(updates, headers) == w + [last];
        assert (w + [last])[..|w|] == w;
        assert Apply(RowRecord(headers, row), w + [last]) == Apply(RowRecord(headers, row), w)[last.0 := last.1];
      } else {
        assert FindColumnIndex(headers, last.0).None?;
        assert WrittenRow(row, headers, updates) == prev;
        assert Writable(updates, headers) == w;
      }
    }
  }

  /** Why a write failed: no worksheet of that name, or the remote store rejected the append. */
  datatype RemoteError = WorksheetNotFound | AppendRejected

  /**
   * The data layer: the process-wide cache, the remote spreadsheet, the
   * `INVALIDATION_MAP` and the names of the two tables the public wrappers write.
   */
  class DataLayer {
    const cache: CacheManager
    const invalidation: map<string, seq<string>>
    const completedSections: string
    const attendanceEntries: string
    var remote: map<string, Worksheet>
    var trace: seq<Call>

    ghost predicate Valid()
      reads this, cache
    {
      && cache.Valid()
      && forall t :: t in remote ==> WellFormed(remote[t])
    }

    constructor (cache: CacheManager, remote: map<string, Worksheet>, invalidation: map<string, seq<string>>,
                 completedSections: string, attendanceEntries: string)
      requires cache.Valid()
      requires forall t :: t in remote ==> WellFormed(remote[t])
      ensures Valid()
      ensures this.cache == cache && this.remote == remote && this.invalidation == invalidation
      ensures this.completedSections == completedSections && this.attendanceEntries == attendanceEntries
      ensures trace == []
    {
      this.cache := cache;
      this.remote := remote;
      this.invalidation := invalidation;
      this.completedSections := completedSections;
      this.attendanceEntries := attendanceEntries;
      this.trace := [];
    }

    /** `worksheet.append_row(row)`. */
    method SheetAppendRow(table: string, row: seq<Value>)
      requires table in remote
      modifies this`remote, this`trace
      ensures remote == old(remote)[table := old(remote[table]).(rows := old(remote[table]).rows + [row])]
      ensures trace == old(trace) + [SheetAppend(table, row)]
      ensures cache.Contents() == old(cache.Contents())
    {
      remote := remote[table := remote[table].(rows := remote[table].rows + [row])];
      trace := trace + [SheetAppend(table, row)];
    }

    /** `worksheet.update_cell(rowNumber, column, value)`. */
    method SheetUpdateCellAt(table: string, rowNumber: int, column: int, value: Value)
      requires table in remote
      requires 2 <= rowNumber < |remote[table].rows| + 2
      requires 1 <= column <= |remote[table].rows[rowNumber - 2]|
      modifies this`remote, this`trace
      ensures remote == old(remote)[table := SetCell(old(remote[table]), rowNumber, column, value)]
      ensures trace == old(trace) + [SheetUpdateCell(table, rowNumber, column, value)]
    {
      remote := remote[table := SetCell(remote[table], rowNumber, column, value)];
      trace := trace + [SheetUpdateCell(table, rowNumber, column, value)];
    }

    /** `_refresh_related_tables`: one trigger per dependent other than `table`, in map order. */
    method RefreshRelated(table: string)
      modifies this`trace
      ensures trace == old(trace) + Refreshes(Dependents(invalidation, table))
    {
      if table in invalidation {
        var related := invalidation[table];
        var i := 0;
        while i < |related|
          invariant 0 <= i <= |related|
          invariant trace == old(trace) + Refreshes(Without(related[..i], table))
        {
          assert related[..i + 1] == related[..i] + [related[i]];
          WithoutSnoc(related[..i], related[i], table);
          ghost var done := Without(related[..i], table);
          if related[i] != table {
            assert Without(related[..i + 1], table) == done + [related[i]];
            RefreshesSnoc(done, related[i]);
            trace := trace + [Refresh(related[i])];
            assert trace == old(trace) + Refreshes(done + [related[i]]);
          } else {
            assert Without(related[..i + 1], table) == done + [];
            assert done + [] == done;
          }
          assert trace == old(trace) + Refreshes(Without(related[..i + 1], table));
          i := i + 1;
        }
        assert related[..|related|] == related;
      }
    }

    /** The whole outcome of `_insert_record` on `table`. */
    twostate predicate Inserted(table: string, data: Record, stamp: string, now: int, size: Record -> Pos,
                                accepted: bool, new r: Result<Record, RemoteError>)
      reads this, cache, cache.entries.Values
    {
      if table !in old(remote) || !accepted then
        && r == Failure(if table !in old(remote) then WorksheetNotFound else AppendRejected)
        && remote == old(remote) && trace == old(trace)
        && cache.Contents() == old(cache.Contents())
      else
        var ws := old(remote)[table];
        var row := Project(Stamped(data, stamp), ws.headers);
        && r == Success(Stamped(data, stamp))
        && remote == old(remote)[table := ws.(rows := ws.rows + [row])]
        && cache.Contents() == AppendedTo(old(cache.Contents()), table, r.value, now, size)
        && trace == old(trace) + [SheetAppend(table, row), CacheAppend(table)] + Refreshes(Dependents(invalidation, table))
    }

    /**
     * `_insert_record`: stamps the record, appends it in header order to the
     * worksheet, then to the cache entry (if there is one), then triggers the
     * dependents' refreshes. `stamp` is the formatted clock reading, `now` the cache's
     * clock, and `accepted` whether the remote store takes the append; a failed
     * append leaves the cache and the triggers untouched.
     */
    method InsertRecord(table: string, data: Record, stamp: string, now: int, size: Record -> Pos, accepted: bool)
      returns (r: Result<Record, RemoteError>)
      requires Valid()
      modifies this, cache.entries.Values
      ensures Valid()
      ensures Inserted(table, data, stamp, now, size, accepted, r)
    {
      if table !in remote {
        return Failure(WorksheetNotFound);
      }
      if !accepted {
        return Failure(AppendRejected);
      }
      r := InsertAccepted(table, data, stamp, now, size);
    }

    /** The writes of `_insert_record` once the remote store takes the append. */
    method InsertAccepted(table: string, data: Record, stamp: string, now: int, size: Record -> Pos)
      returns (r: Result<Record, RemoteError>)
      requires Valid() && table in remote
      modifies this, cache.entries.Values
      ensures Valid()
      ensures Inserted(table, data, stamp, now, size, true, r)
    {
      var record := Stamped(data, stamp);
      var headers := remote[table].headers;
      var row := Project(record, headers);
      ghost var trace0 := trace;
      SheetAppendRow(table, row);
      MirrorInsert(table, record, now, size);
      assert trace == trace0 + [SheetAppend(table, row), CacheAppend(table)] + Refreshes(Dependents(invalidation, table));
      return Success(record);
    }

    /**
     * The tail of a successful `_insert_record`: the record is appended to the
     * cache entry (if there is one), then the dependents' refreshes are triggered.
     */
    method MirrorInsert(table: string, record: Record, now: int, size: Record -> Pos)
      requires Valid()
      modifies this`trace, cache.entries.Values
      ensures Valid() && remote == old(remote)
      ensures cache.Contents() == AppendedTo(old(cache.Contents()), table, record, now, size)
      ensures trace == old(trace) + [CacheAppend(table)] + Refreshes(Dependents(invalidation, table))
    {
      var _ := cache.AppendRow(table, record, now, size);
      trace := trace + [CacheAppend(table)];
      RefreshRelated(table);
    }

    /**
     * The inner loop of `_update_record`: for each update whose field is a header,
     * `update_cell` at the record's row (`index + 2`, past the header row) and the
     * field's column (`headers.index(field) + 1`); other fields are skipped.
     */
    method WriteCells(table: string, index: nat, updates: Updates)
      requires Valid() && table in remote
      requires index < |remote[table].rows|
      modifies this`remote, this`trace
      ensures Valid()
      ensures var ws := old(remote)[table];
        remote == old(remote)[table := ws.(rows := ws.rows[index := WrittenRow(ws.rows[index], ws.headers, updates)])]
      ensures trace == old(trace) + CellWrites(table, index + 2, old(remote)[table].headers, updates)
      ensures cache.Contents() == old(cache.Contents())
    {
      var ws := remote[table];
      var headers := ws.headers;
      var rowNumber := index + 2;
      assert updates[..0] == [];
      assert ws.rows[index := WrittenRow(ws.rows[index], headers, [])] == ws.rows;
      var k := 0;
      while k < |updates|
        invariant 0 <= k <= |updates|
        invariant remote == old(remote)[table := ws.(rows := ws.rows[index := WrittenRow(ws.rows[index], headers, updates[..k])])]
        invariant trace == old(trace) + CellWrites(table, rowNumber, headers, updates[..k])
        invariant cache.Contents() == old(cache.Contents())
      {
        var (field, value) := updates[k];
        assert updates[..k + 1][..k] == updates[..k];
        ghost var before := WrittenRow(ws.rows[index], headers, updates[..k]);
        var column := FindColumnIndex(headers, field);
        if column.Some? {
          assert WrittenRow(ws.rows[index], headers, updates[..k + 1]) == before[column.value - 1 := value];
          SheetUpdateCellAt(table, rowNumber, column.value, value);
          assert remote[table].rows == ws.rows[index := WrittenRow(ws.rows[index], headers, updates[..k + 1])];
        } else {
          assert WrittenRow(ws.rows[index], headers, updates[..k + 1]) == before;
        }
        k := k + 1;
      }
      assert updates[..|updates|] == updates;
    }

    /**
     * The tail of a successful `_update_record`: the cache entry's first matching
     * row takes the updates, then the dependents' refreshes are triggered.
     */
    method MirrorUpdate(table: string, matchFn: Record -> bool, updates: Updates, now: int)
      requires Valid()
      modifies this`trace, cache.entries.Values
      ensures Valid() && remote == old(remote)
      ensures cache.Contents() == UpdatedIn(old(cache.Contents()), table, matchFn, updates, now)
      ensures trace == old(trace) + [CacheUpdate(table)] + Refreshes(Dependents(invalidation, table))
    {
      var _ := cache.UpdateRow(table, matchFn, updates, now);
      trace := trace + [CacheUpdate(table)];
      RefreshRelated(table);
    }

    /** The whole outcome of `_update_record` on `table`. */
    twostate predicate Updated(table: string, matchFn: Record -> bool, updates: Updates, now: int,
                               new r: Result<bool, RemoteError>)
      requires old(Valid())
      reads this, cache, cache.entries.Values
    {
      if table !in old(remote) then
        && r == Failure(WorksheetNotFound)
        && remote == old(remote) && trace == old(trace)
        && cache.Contents() == old(cache.Contents())
      else
        var ws := old(remote)[table];
        match FirstMatch(AllRecords(ws), matchFn)
        case None =>
          && r == Success(false)
          && remote == old(remote) && trace == old(trace)
          && cache.Contents() == old(cache.Contents())
        case Some(i) =>
          && r == Success(true)
          && remote == old(remote)[table := ws.(rows := ws.rows[i := WrittenRow(ws.rows[i], ws.headers, updates)])]
          && cache.Contents() == UpdatedIn(old(cache.Contents()), table, matchFn, updates, now)
          && trace == old(trace) + CellWrites(table, i + 2, ws.headers, updates) + [CacheUpdate(table)]
                                 + Refreshes(Dependents(invalidation, table))
    }

    /**
     * `_update_record`: finds the first remote record that satisfies `matchFn`,
     * writes each update whose field is a header into that row's cell (row `i + 2`,
     * column `headers.index(field) + 1`), mirrors the update into the cache and
     * triggers the dependents' refreshes, answering true; with no matching record it
     * answers false and makes no call at all.
     */
    method UpdateRecord(table: string, matchFn: Record -> bool, updates: Updates, now: int)
      returns (r: Result<bool, RemoteError>)
      requires Valid()
      modifies this, cache.entries.Values
      ensures Valid()
      ensures Updated(table, matchFn, updates, now, r)
    {
      if table !in remote {
        return Failure(WorksheetNotFound);
      }
      var ws := remote[table];
      var m := FindFirst(AllRecords(ws), matchFn);
      assert cache.Contents() == old(cache.Contents());
      if m.None? {
        return Success(false);
      }
      UpdateMatched(table, m.value, matchFn, updates, now);
      return Success(true);
    }

    /** The writes of `_update_record` once the record at `index` is found to be the first match. */
    method UpdateMatched(table: string, index: nat, matchFn: Record -> bool, updates: Updates, now: int)
      requires Valid() && table in remote
      requires FirstMatch(AllRecords(remote[table]), matchFn) == Some(index)
      modifies this, cache.entries.Values
      ensures Valid()
      ensures Updated(table, matchFn, updates, now, Success(true))
    {
      WriteCells(table, index, updates);
      MirrorUpdate(table, matchFn, updates, now);
    }

    /** `insert_completed_section`. */
    method InsertCompletedSection(data: Record, stamp: string, now: int, size: Record -> Pos, accepted: bool)
      returns (r: Result<Record, RemoteError>)
      requires Valid()
      modifies this, cache.entries.Values
      ensures Valid()
      ensures Inserted(completedSections, data, stamp, now, size, accepted, r)
    {
      r := InsertRecord(completedSections, data, stamp, now, size, accepted);
    }

    /** `insert_attendance_entry`. */
    method InsertAttendanceEntry(data: Record, stamp: string, now: int, size: Record -> Pos, accepted: bool)
      returns (r: Result<Record, RemoteError>)
      requires Valid()
      modifies this, cache.entries.Values
      ensures Valid()
      ensures Inserted(attendanceEntries, data, stamp, now, size, accepted, r)
    {
      r := InsertRecord(attendanceEntries, data, stamp, now, size, accepted);
    }

    /** `update_completed_section`. */
    method UpdateCompletedSection(matchFn: Record -> bool, updates: Updates, now: int)
      returns (r: Result<bool, RemoteError>)
      requires Valid()
      modifies this, cache.entries.Values
      ensures Valid()
      ensures Updated(completedSections, matchFn, updates, now, r)
    {
      r := UpdateRecord(completedSections, matchFn, updates, now);
    }

    /** `update_attendance_entry`. */
    method UpdateAttendanceEntry(matchFn: Record -> bool, updates: Updates, now: int)
      returns (r: Result<bool, RemoteError>)
      requires Valid()
      modifies this, cache.entries.Values
      ensures Valid()
      ensures Updated(attendanceEntries, matchFn, updates, now, r)
    {
      r := UpdateRecord(attendanceEntries, matchFn, updates, now);
    }
  }
}

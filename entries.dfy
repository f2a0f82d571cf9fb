/**
 * The `entries` table of app.py and the handlers that change it: `/add`
 * upserts a reading by exact name and room, `/add_weight/{id}` appends a
 * reading by id, `/delete` removes the listed ids, and `/report` would list
 * each entry's last weight (as written it fails on an unimported `datetime`
 * before that loop; the loop is modelled as if it ran).
 *
 * The table is a sequence of rows in scan order. The SQL statements the
 * handlers issue are written as functions over that sequence; the
 * `EntryTable` class holds the table and runs the handlers step by step.
 */
module Entries {
  import opened PyText
  import opened WeightHistory

  /** A row: `id INTEGER PRIMARY KEY, name TEXT, room TEXT, weights TEXT`. */
  datatype Entry = Entry(id: int, name: string, room: string, weights: string)

  /** One line of the report: name, room and last weight. */
  datatype ReportLine = ReportLine(name: string, room: string, lastWeight: string)

  /** `id` is the primary key: no two rows share it. */
  ghost predicate IdsUnique(rows: seq<Entry>) {
    forall i, j :: 0 <= i < j < |rows| ==> rows[i].id != rows[j].id
  }

  predicate SameEntry(e: Entry, name: string, room: string) {
    e.name == name && e.room == room
  }

  function IdSet(ids: seq<int>): set<int> {
    set x | x in ids
  }

  // ---------------------------------------------------------------------------
  // The SQL statements
  // ---------------------------------------------------------------------------

  /** `SELECT ... WHERE name=? AND room=?` followed by `fetchone()`: the first matching row. */
  function FirstByNameRoom(rows: seq<Entry>, name: string, room: string): (k: Option<nat>)
    ensures k.Some? ==> k.value < |rows| && SameEntry(rows[k.value], name, room)
    ensures forall j :: 0 <= j < |rows| && (k.None? || j < k.value) ==> !SameEntry(rows[j], name, room)
    decreases |rows|
  {
    if rows == [] then None
    else if SameEntry(rows[0], name, room) then Some(0)
    else
      match FirstByNameRoom(rows[1..], name, room)
      case None => None
      case Some(k) => Some(k + 1)
  }

  /** `SELECT ... WHERE id=?` followed by `fetchone()`. */
  function FirstById(rows: seq<Entry>, id: int): (k: Option<nat>)
    ensures k.Some? ==> k.value < |rows| && rows[k.value].id == id
    ensures forall j :: 0 <= j < |rows| && (k.None? || j < k.value) ==> rows[j].id != id
    decreases |rows|
  {
    if rows == [] then None
    else if rows[0].id == id then Some(0)
    else
      match FirstById(rows[1..], id)
      case None => None
      case Some(k) => Some(k + 1)
  }

  /** The largest id in a non-empty table. */
  function MaxId(rows: seq<Entry>): (m: int)
    requires rows != []
    ensures forall i :: 0 <= i < |rows| ==> rows[i].id <= m
    ensures exists i :: 0 <= i < |rows| && rows[i].id == m
    decreases |rows|
  {
    if |rows| == 1 then rows[0].id
    else
      var m := MaxId(rows[1..]);
      if rows[0].id > m then rows[0].id
      else
        assert exists i :: 1 <= i < |rows| && rows[i].id == m by {
          var i :| 0 <= i < |rows[1..]| && rows[1..][i].id == m;
          assert rows[i + 1].id == m;
        }
        m
  }

  /** The id SQLite gives an inserted row: one more than the largest id, 1 in an empty table. */
  function NextId(rows: seq<Entry>): (id: int)
    ensures forall i :: 0 <= i < |rows| ==> rows[i].id < id
    ensures rows == [] ==> id == 1
    ensures rows != [] ==> exists i :: 0 <= i < |rows| && rows[i].id == id - 1
  {
    if rows == [] then 1 else MaxId(rows) + 1
  }

  /** `UPDATE entries SET weights=? WHERE name=? AND room=?`: every matching row. */
  function SetWeightsByNameRoom(rows: seq<Entry>, name: string, room: string, weights: string): (r: seq<Entry>)
    ensures |r| == |rows|
    ensures forall i :: 0 <= i < |r| ==>
              r[i] == if SameEntry(rows[i], name, room) then rows[i].(weights := weights) else rows[i]
  {
    seq(|rows|, i requires 0 <= i < |rows| =>
      if SameEntry(rows[i], name, room) then rows[i].(weights := weights) else rows[i])
  }

  /** `UPDATE entries SET weights=? WHERE id=?`. */
  function SetWeightsById(rows: seq<Entry>, id: int, weights: string): (r: seq<Entry>)
    ensures |r| == |rows|
    ensures forall i :: 0 <= i < |r| ==> r[i] == if rows[i].id == id then rows[i].(weights := weights) else rows[i]
  {
    seq(|rows|, i requires 0 <= i < |rows| => if rows[i].id == id then rows[i].(weights := weights) else rows[i])
  }

  /** `DELETE FROM entries WHERE id=?` for every id of `ids`. */
  function DeleteRows(rows: seq<Entry>, ids: set<int>): (r: seq<Entry>)
    ensures |r| <= |rows|
    ensures forall e :: e in r <==> e in rows && e.id !in ids
    decreases |rows|
  {
    if rows == [] then []
    else if rows[0].id in ids then DeleteRows(rows[1..], ids)
    else [rows[0]] + DeleteRows(rows[1..], ids)
  }

  /** `[int(x) for x in delete_ids]`: every id parsed, or None when one of them does not parse. */
  function ParseIds(ss: seq<string>): (r: Option<seq<int>>)
    ensures r.Some? <==> forall i :: 0 <= i < |ss| ==> ParseInt(ss[i]).Some?
    ensures r.Some? ==> |r.value| == |ss| && forall i :: 0 <= i < |ss| ==> ParseInt(ss[i]) == Some(r.value[i])
    decreases |ss|
  {
    if ss == [] then Some([])
    else
      match ParseInt(ss[0])
      case None => None
      case Some(id) =>
        match ParseIds(ss[1..])
        case None => None
        case Some(rest) => Some([id] + rest)
  }

  // ---------------------------------------------------------------------------
  // The handlers, on values
  // ---------------------------------------------------------------------------

  /** The table after `add_entry(name, room, reading)`: existing rows keep all but their weights, and at most one row is added. */
  function AddRows(rows: seq<Entry>, name: string, room: string, reading: Reading): (r: seq<Entry>)
    ensures |rows| <= |r| <= |rows| + 1
    ensures forall i :: 0 <= i < |rows| ==> r[i].(weights := rows[i].weights) == rows[i]
  {
    match FirstByNameRoom(rows, name, room)
    case Some(k) => SetWeightsByNameRoom(rows, name, room, Appended(rows[k].weights, reading))
    case None => rows + [Entry(NextId(rows), name, room, reading)]
  }

  /** The table after `add_weight(id, reading)`: the same rows, with at most their weights changed. */
  function AddWeightRows(rows: seq<Entry>, id: int, reading: Reading): (r: seq<Entry>)
    ensures |r| == |rows|
    ensures forall i :: 0 <= i < |r| ==> r[i].(weights := rows[i].weights) == rows[i]
  {
    match FirstById(rows, id)
    case Some(k) => SetWeightsById(rows, id, Appended(rows[k].weights, reading))
    case None => rows
  }

  /** Each row as the report prints it. */
  function ReportLines(rows: seq<Entry>): (lines: seq<ReportLine>)
    ensures |lines| == |rows|
  {
    seq(|rows|, i requires 0 <= i < |rows| => ReportLine(rows[i].name, rows[i].room, LastWeight(rows[i].weights)))
  }

  // ---------------------------------------------------------------------------
  // What the handlers guarantee
  // ---------------------------------------------------------------------------

  /**
   * `/add` for a name and room already in the table: every row with that
   * name and room gets the first such row's readings with the new one
   * appended; no other row and no other column changes.
   */
  lemma AddToExisting(rows: seq<Entry>, name: string, room: string, reading: Reading)
    requires FirstByNameRoom(rows, name, room).Some?
    ensures var k := FirstByNameRoom(rows, name, room).value;
      var r := AddRows(rows, name, room, reading);
      && |r| == |rows|
      && (forall i :: 0 <= i < |r| && !SameEntry(rows[i], name, room) ==> r[i] == rows[i])
      && (forall i :: 0 <= i < |r| ==> r[i].(weights := rows[i].weights) == rows[i])
      && (forall i :: 0 <= i < |r| && SameEntry(rows[i], name, room) ==> r[i].weights == Appended(rows[k].weights, reading))
  {
  }

  /**
   * `/add` for a name and room not in the table: exactly one row is
   * inserted, under an id no row has, holding just the new reading.
   */
  lemma AddNew(rows: seq<Entry>, name: string, room: string, reading: Reading)
    requires FirstByNameRoom(rows, name, room).None?
    ensures var r := AddRows(rows, name, room, reading);
      && |r| == |rows| + 1
      && r[..|rows|] == rows
      && r[|rows|].name == name && r[|rows|].room == room
      && (forall i :: 0 <= i < |rows| ==> rows[i].id != r[|rows|].id)
      && Split(r[|rows|].weights) == [reading]
  {
    SingleReading(reading);
    var r := AddRows(rows, name, room, reading);
    assert r[..|rows|] == rows;
  }

  /** After `/add` the entry is in the table and its last weight is the new reading. */
  lemma AddedEntryListed(rows: seq<Entry>, name: string, room: string, reading: Reading)
    ensures var r := AddRows(rows, name, room, reading);
      exists i :: 0 <= i < |r| && SameEntry(r[i], name, room) && LastWeight(r[i].weights) == reading
  {
    var r := AddRows(rows, name, room, reading);
    match FirstByNameRoom(rows, name, room)
    case Some(k) =>
      LastWeightOfAppended(rows[k].weights, reading);
      assert SameEntry(r[k], name, room) && LastWeight(r[k].weights) == reading;
    case None =>
      SingleReading(reading);
      assert SameEntry(r[|rows|], name, room) && LastWeight(r[|rows|].weights) == reading;
  }

  /** `/add` keeps the ids unique. */
  lemma AddKeepsIdsUnique(rows: seq<Entry>, name: string, room: string, reading: Reading)
    requires IdsUnique(rows)
    ensures IdsUnique(AddRows(rows, name, room, reading))
  {
    var r := AddRows(rows, name, room, reading);
    if FirstByNameRoom(rows, name, room).Some? {
      assert forall i :: 0 <= i < |r| ==> r[i].id == rows[i].id;
    } else {
      assert forall i :: 0 <= i < |rows| ==> r[i] == rows[i];
    }
  }

  /** `/add_weight` for an id no row has changes nothing. */
  lemma AddWeightUnknownId(rows: seq<Entry>, id: int, reading: Reading)
    requires forall i :: 0 <= i < |rows| ==> rows[i].id != id
    ensures AddWeightRows(rows, id, reading) == rows
  {
  }

  /**
   * `/add_weight` for the id of row `k` applies the keep-last-5 append to
   * that row only.
   */
  lemma AddWeightKnownId(rows: seq<Entry>, k: nat, reading: Reading)
    requires IdsUnique(rows) && k < |rows|
    ensures AddWeightRows(rows, rows[k].id, reading) == rows[k := rows[k].(weights := Appended(rows[k].weights, reading))]
  {
    assert FirstById(rows, rows[k].id) == Some(k);
  }

  /** `/add_weight` keeps the ids unique. */
  lemma AddWeightKeepsIdsUnique(rows: seq<Entry>, id: int, reading: Reading)
    requires IdsUnique(rows)
    ensures IdsUnique(AddWeightRows(rows, id, reading))
  {
    var r := AddWeightRows(rows, id, reading);
    assert forall i :: 0 <= i < |r| ==> r[i].id == rows[i].id;
  }

  /** Deleting one set of ids and then another is deleting both at once. */
  lemma {:induction false} DeleteTwice(rows: seq<Entry>, a: set<int>, b: set<int>)
    ensures DeleteRows(DeleteRows(rows, a), b) == DeleteRows(rows, a + b)
    decreases |rows|
  {
    if rows != [] {
      DeleteTwice(rows[1..], a, b);
      if rows[0].id !in a {
        var rest := DeleteRows(rows[1..], a);
        assert ([rows[0]] + rest)[1..] == rest;
      }
    }
  }

  lemma DeleteNext(rows: seq<Entry>, ids: seq<int>, k: nat)
    requires k < |ids|
    ensures DeleteRows(DeleteRows(rows, IdSet(ids[..k])), {ids[k]}) == DeleteRows(rows, IdSet(ids[..k + 1]))
  {
    DeleteTwice(rows, IdSet(ids[..k]), {ids[k]});
    assert ids[..k + 1] == ids[..k] + [ids[k]];
    assert IdSet(ids[..k + 1]) == IdSet(ids[..k]) + {ids[k]};
  }

  /** Ids that no row has are ignored. */
  lemma {:induction false} DeleteAbsentIds(rows: seq<Entry>, ids: set<int>)
    requires forall i :: 0 <= i < |rows| ==> rows[i].id !in ids
    ensures DeleteRows(rows, ids) == rows
    decreases |rows|
  {
    if rows != [] {
      DeleteAbsentIds(rows[1..], ids);
      assert [rows[0]] + rows[1..] == rows;
    }
  }

  /** Deleting keeps the ids unique. */
  lemma {:induction false} DeleteKeepsIdsUnique(rows: seq<Entry>, ids: set<int>)
    requires IdsUnique(rows)
    ensures IdsUnique(DeleteRows(rows, ids))
    decreases |rows|
  {
    if rows != [] {
      var rest := rows[1..];
      assert IdsUnique(rest) by {
        forall i, j | 0 <= i < j < |rest| ensures rest[i].id != rest[j].id {
          assert rows[i + 1] == rest[i] && rows[j + 1] == rest[j];
        }
      }
      DeleteKeepsIdsUnique(rest, ids);
      if rows[0].id !in ids {
        var r := [rows[0]] + DeleteRows(rest, ids);
        forall j | 0 < j < |r| ensures r[j].id != rows[0].id {
          assert r[j] in DeleteRows(rest, ids);
          var m :| 0 <= m < |rest| && rest[m] == r[j];
          assert rows[m + 1] == r[j];
        }
      }
    }
  }

  /** The id the entries page renders parses back to the same id, and deleting it removes that entry. */
  lemma DeleteRenderedId(rows: seq<Entry>, id: int)
    ensures ParseIds([IntToString(id)]) == Some([id])
    ensures forall e :: e in DeleteRows(rows, IdSet([id])) ==> e.id != id
  {
    IntRoundTrip(id);
    assert [IntToString(id)][1..] == [];
    assert IdSet([id]) == {id};
    assert ParseIds([IntToString(id)][1..]) == Some([]);
    assert [id] + [] == [id];
  }

  /**
   * A name and room not yet in the table, added with `first` and then given
   * `second` through `/add_weight` on the new row's id, read back as
   * exactly those two readings.
   */
  lemma AddThenAddWeight(rows: seq<Entry>, name: string, room: string, first: Reading, second: Reading)
    requires IdsUnique(rows) && FirstByNameRoom(rows, name, room).None?
    ensures var t1 := AddRows(rows, name, room, first);
      var t2 := AddWeightRows(t1, t1[|rows|].id, second);
      && FirstByNameRoom(t1, name, room) == Some(|rows|)
      && Split(t2[|rows|].weights) == [first, second]
  {
    var t1 := AddRows(rows, name, room, first);
    AddNewIsFound(rows, name, room, first);
    AddKeepsIdsUnique(rows, name, room, first);
    AddWeightKnownId(t1, |rows|, second);
    var t2 := AddWeightRows(t1, t1[|rows|].id, second);
    assert t2[|rows|].weights == Appended(first, second);
    TwoReadings(first, second);
  }

  lemma TwoReadings(first: Reading, second: Reading)
    ensures Split(Appended(first, second)) == [first, second]
  {
    SingleReading(first);
    assert Split(first) + [second] == [first, second];
  }

  lemma AddNewIsFound(rows: seq<Entry>, name: string, room: string, first: Reading)
    requires FirstByNameRoom(rows, name, room).None?
    ensures var t1 := AddRows(rows, name, room, first);
      |t1| == |rows| + 1 && FirstByNameRoom(t1, name, room) == Some(|rows|) && t1[|rows|].weights == first
  {
    FirstAfterInsert(rows, Entry(NextId(rows), name, room, first), name, room);
  }

  /** Looking up a name and room after a row is appended. */
  lemma {:induction false} FirstAfterInsert(rows: seq<Entry>, e: Entry, name: string, room: string)
    ensures FirstByNameRoom(rows + [e], name, room)
         == if FirstByNameRoom(rows, name, room).Some? then FirstByNameRoom(rows, name, room)
            else if SameEntry(e, name, room) then Some(|rows|)
            else None
    decreases |rows|
  {
    if rows != [] {
      assert (rows + [e])[1..] == rows[1..] + [e];
      FirstAfterInsert(rows[1..], e, name, room);
    }
  }

  /** Bob is added with 180.5 and then given 179.5: the last two stored weights are those two. */
  lemma BobScenario()
    ensures var t1 := AddRows([], "Bob", "202", "180.5");
      var t2 := AddWeightRows(t1, t1[0].id, "179.5");
      var ws := Split(t2[0].weights);
      |ws| >= 2 && ws[|ws| - 2..] == ["180.5", "179.5"]
  {
    AddThenAddWeight([], "Bob", "202", "180.5", "179.5");
  }

  /** Carol is added and then deleted by her rendered id: no row keeps that id. */
  lemma CarolScenario()
    ensures var t1 := AddRows([], "Carol", "301", "160.0");
      var ids := ParseIds([IntToString(t1[0].id)]);
      && ids == Some([t1[0].id])
      && forall i :: 0 <= i < |DeleteRows(t1, IdSet(ids.value))| ==> DeleteRows(t1, IdSet(ids.value))[i].id != t1[0].id
  {
    var t1 := AddRows([], "Carol", "301", "160.0");
    DeleteRenderedId(t1, t1[0].id);
    var r := DeleteRows(t1, IdSet([t1[0].id]));
    forall i | 0 <= i < |r| ensures r[i].id != t1[0].id {
      assert r[i] in r;
    }
  }

  /** The range of SQLite's INTEGER, a signed 64-bit value; the sqlite3 module refuses to bind an int outside it. */
  const MinInt64: int := -0x8000_0000_0000_0000
  const MaxInt64: int := 0x7FFF_FFFF_FFFF_FFFF

  predicate AllBindable(ids: seq<int>) {
    forall i :: 0 <= i < |ids| ==> MinInt64 <= ids[i] <= MaxInt64
  }

  /** The id one past SQLite's range, written out, parses but cannot be bound; the id before it can. */
  lemma OverflowingIdParses()
    ensures ParseIds([IntToString(MaxInt64 + 1)]) == Some([MaxInt64 + 1])
    ensures !AllBindable([MaxInt64 + 1]) && AllBindable([MaxInt64])
  {
    DeleteRenderedId([], MaxInt64 + 1);
  }

  // ---------------------------------------------------------------------------
  // The table
  // ---------------------------------------------------------------------------

  /** The `entries` table, changed in place by the handlers. */
  class EntryTable {
    var rows: seq<Entry>

    ghost predicate Valid()
      reads this
    {
      IdsUnique(rows)
    }

    /** `init_db`: the table starts empty. */
    constructor ()
      ensures rows == [] && Valid()
    {
      rows := [];
    }

    /** `add_entry` (lines 34-48): look the entry up, then UPDATE or INSERT. */
    method Add(name: string, room: string, reading: Reading)
      requires Valid()
      modifies this
      ensures Valid()
      ensures rows == AddRows(old(rows), name, room, reading)
    {
      AddKeepsIdsUnique(rows, name, room, reading);
      var found := FirstByNameRoom(rows, name, room);
      if found.Some? {
        var weights := Appended(rows[found.value].weights, reading);
        rows := SetWeightsByNameRoom(rows, name, room, weights);
      } else {
        rows := rows + [Entry(NextId(rows), name, room, reading)];
      }
    }

    /** `add_weight` (lines 50-62): look the id up, then UPDATE when found. */
    method AddWeight(id: int, reading: Reading)
      requires Valid()
      modifies this
      ensures Valid()
      ensures rows == AddWeightRows(old(rows), id, reading)
    {
      AddWeightKeepsIdsUnique(rows, id, reading);
      var found := FirstById(rows, id);
      if found.Some? {
        var weights := Appended(rows[found.value].weights, reading);
        rows := SetWeightsById(rows, id, weights);
      }
    }

    /**
     * `delete` (lines 73-81). A missing or empty list does nothing. Every
     * id is parsed before any row is deleted, so an id that `int()`
     * rejects fails the request (`ok` is false) with the table unchanged.
     * An id outside SQLite's 64-bit range parses but makes `executemany`
     * raise OverflowError when it is bound; the DELETEs already run are
     * never committed, so that request fails with the table unchanged too.
     * Otherwise one DELETE runs per id.
     */
    method Delete(deleteIds: Option<seq<string>>) returns (ok: bool)
      requires Valid()
      modifies this
      ensures Valid()
      ensures ok <==> deleteIds.None? || (ParseIds(deleteIds.value).Some? && AllBindable(ParseIds(deleteIds.value).value))
      ensures !ok || deleteIds.None? || deleteIds.value == [] ==> rows == old(rows)
      ensures ok && deleteIds.Some? ==> rows == DeleteRows(old(rows), IdSet(ParseIds(deleteIds.value).value))
    {
      if deleteIds.None? || deleteIds.value == [] {
        if deleteIds.Some? {
          DeleteAbsentIds(rows, IdSet([]));
        }
        return true;
      }
      var parsed := ParseIds(deleteIds.value);
      if parsed.None? || !AllBindable(parsed.value) {
        return false;
      }
      var ids := parsed.value;
      DeleteAbsentIds(rows, {});
      assert IdSet(ids[..0]) == {};
      for k := 0 to |ids|
        invariant rows == DeleteRows(old(rows), IdSet(ids[..k]))
        invariant Valid()
      {
        DeleteNext(old(rows), ids, k);
        DeleteKeepsIdsUnique(rows, {ids[k]});
        rows := DeleteRows(rows, {ids[k]});
      }
      assert ids[..|ids|] == ids;
      ok := true;
    }

    /** The loop of `generate_report` (lines 104-109), without the PDF. */
    method Report() returns (lines: seq<ReportLine>)
      ensures lines == ReportLines(rows)
    {
      lines := [];
      for i := 0 to |rows|
        invariant lines == ReportLines(rows[..i])
      {
        assert rows[..i + 1][..i] == rows[..i];
        lines := lines + [ReportLine(rows[i].name, rows[i].room, LastWeight(rows[i].weights))];
      }
      assert rows[..|rows|] == rows;
    }
  }
}

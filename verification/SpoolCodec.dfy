/** Lossless shared strings for wide spool segments: a large string is stored once, next to the
    rows, and every cell that held it refers to it by index. */
module SpoolCodec {
  import opened Common

  const SHARED_STRING_MIN_CHARS: nat := 4096
  const REFERENCE_KEY: string := "$shared_string"

  /** A JSON cell: text, a scalar that is not text, or an object with its members. */
  datatype Cell =
    | Text(value: string)
    | Scalar(number: int)
    | Object(members: map<string, int>)

  type Row = map<string, Cell>

  predicate Large(cell: Cell) {
    cell.Text? && |cell.value| >= SHARED_STRING_MIN_CHARS
  }

  function Reference(index: int): Cell {
    Object(map[REFERENCE_KEY := index])
  }

  /** `cell` as it is stored when `strings` is the shared list: large text by reference to one of its places. */
  ghost predicate Stores(strings: seq<string>, cell: Cell, stored: Cell) {
    if Large(cell)
    then exists i :: 0 <= i < |strings| && strings[i] == cell.value && stored == Reference(i)
    else stored == cell
  }

  ghost predicate StoresRow(strings: seq<string>, row: Row, stored: Row) {
    && stored.Keys == row.Keys
    && forall field :: field in row ==> Stores(strings, row[field], stored[field])
  }

  ghost predicate StoresAll(strings: seq<string>, rows: seq<Row>, stored: seq<Row>) {
    && |stored| == |rows|
    && forall i :: 0 <= i < |rows| ==> StoresRow(strings, rows[i], stored[i])
  }

  /** Every string is in the list once, and it is there because some cell holds it. */
  ghost predicate Minimal(strings: seq<string>, rows: seq<Row>) {
    && (forall i, j :: 0 <= i < j < |strings| ==> strings[i] != strings[j])
    && (forall i :: 0 <= i < |strings| ==> Held(strings[i], rows))
  }

  ghost predicate Held(text: string, rows: seq<Row>) {
    |text| >= SHARED_STRING_MIN_CHARS && exists r, f :: r in rows && f in r && r[f] == Text(text)
  }

  lemma StoresMonotone(strings: seq<string>, extra: seq<string>, row: Row, stored: Row)
    requires StoresRow(strings, row, stored)
    ensures StoresRow(strings + extra, row, stored)
  {
    forall field | field in row
      ensures Stores(strings + extra, row[field], stored[field])
    {
      assert Stores(strings, row[field], stored[field]);
      if Large(row[field]) {
        var i :| 0 <= i < |strings| && strings[i] == row[field].value && stored[field] == Reference(i);
        assert (strings + extra)[i] == strings[i];
      }
    }
  }

  /** The strings and the index each has in the list. */
  ghost predicate Indexed(strings: seq<string>, indices: map<string, nat>) {
    && (forall i :: 0 <= i < |strings| ==> strings[i] in indices && indices[strings[i]] == i)
    && (forall s :: s in indices ==> indices[s] < |strings| && strings[indices[s]] == s)
  }

  method ShareLargeStrings(rows: seq<Row>) returns (stored: seq<Row>, strings: seq<string>)
    ensures StoresAll(strings, rows, stored)
    ensures Minimal(strings, rows)
    ensures strings == [] ==> stored == rows
  {
    strings := [];
    var indices: map<string, nat> := map[];
    var encoded: seq<Row> := [];
    for i := 0 to |rows|
      invariant |encoded| == i
      invariant Indexed(strings, indices)
      invariant forall k :: 0 <= k < i ==> StoresRow(strings, rows[k], encoded[k])
      invariant forall k :: 0 <= k < |strings| ==> Held(strings[k], rows)
    {
      ghost var before := strings;
      var item;
      item, strings, indices := ShareRow(rows, i, strings, indices);
      forall k | 0 <= k < i
        ensures StoresRow(strings, rows[k], encoded[k])
      {
        StoresMonotone(before, strings[|before|..], rows[k], encoded[k]);
        assert before + strings[|before|..] == strings;
      }
      encoded := encoded + [item];
    }
    if strings == [] {
      forall k | 0 <= k < |rows|
        ensures encoded[k] == rows[k]
      {
        assert StoresRow(strings, rows[k], encoded[k]);
        assert forall field :: field in rows[k] ==> Stores(strings, rows[k][field], encoded[k][field]);
      }
      assert encoded == rows;
    }
    stored := encoded;
  }

  method ShareRow(rows: seq<Row>, at: nat, strings: seq<string>, indices: map<string, nat>)
    returns (item: Row, strings': seq<string>, indices': map<string, nat>)
    requires at < |rows| && Indexed(strings, indices)
    requires forall k :: 0 <= k < |strings| ==> Held(strings[k], rows)
    ensures Indexed(strings', indices') && strings <= strings'
    ensures StoresRow(strings', rows[at], item)
    ensures forall k :: 0 <= k < |strings'| ==> Held(strings'[k], rows)
  {
    var row := rows[at];
    strings', indices', item := strings, indices, map[];
    var fields := row.Keys;
    while fields != {}
      invariant fields <= row.Keys && item.Keys == row.Keys - fields
      invariant Indexed(strings', indices') && strings <= strings'
      invariant forall f :: f in item ==> Stores(strings', row[f], item[f])
      invariant forall k :: 0 <= k < |strings'| ==> Held(strings'[k], rows)
      decreases fields
    {
      var field :| field in fields;
      fields := fields - {field};
      ghost var before := strings';
      if Large(row[field]) {
        var value := row[field].value;
        if value !in indices' {
          indices', strings' := indices'[value := |strings'|], strings' + [value];
          assert row in rows;
        }
        StillStores(row, item, before, strings');
        item := item[field := Reference(indices'[value])];
      } else {
        item := item[field := row[field]];
      }
    }
  }

  lemma StillStores(row: Row, item: Row, before: seq<string>, strings: seq<string>)
    requires before <= strings && item.Keys <= row.Keys
    requires forall f :: f in item ==> Stores(before, row[f], item[f])
    ensures forall f :: f in item ==> Stores(strings, row[f], item[f])
  {
    forall f | f in item
      ensures Stores(strings, row[f], item[f])
    {
      if Large(row[f]) {
        var i :| 0 <= i < |before| && before[i] == row[f].value && item[f] == Reference(i);
        assert strings[i] == before[i];
      }
    }
  }

  datatype RestoreError = InvalidReference

  /** What a stored cell stands for: an object with the reference key must be a reference and nothing else. */
  function RestoreCell(strings: seq<string>, cell: Cell): Result<Cell, RestoreError> {
    if cell.Object? && REFERENCE_KEY in cell.members then
      var index := cell.members[REFERENCE_KEY];
      if cell.members.Keys != {REFERENCE_KEY} || !(0 <= index < |strings|) then Err(InvalidReference)
      else Ok(Text(strings[index]))
    else Ok(cell)
  }

  ghost predicate Restorable(strings: seq<string>, row: Row) {
    forall field :: field in row ==> RestoreCell(strings, row[field]).Ok?
  }

  ghost predicate Restores(strings: seq<string>, stored: Row, row: Row) {
    && row.Keys == stored.Keys
    && forall field :: field in stored ==> RestoreCell(strings, stored[field]) == Ok(row[field])
  }

  /** `restore_shared_strings`: refuses exactly when some cell does not restore. */
  method RestoreSharedStrings(stored: seq<Row>, strings: seq<string>) returns (result: Result<seq<Row>, RestoreError>)
    ensures result.Err? <==> exists i :: 0 <= i < |stored| && !Restorable(strings, stored[i])
    ensures result.Ok? ==>
              && |result.value| == |stored|
              && forall i :: 0 <= i < |stored| ==> Restores(strings, stored[i], result.value[i])
  {
    var rows: seq<Row> := [];
    for i := 0 to |stored|
      invariant |rows| == i
      invariant forall k :: 0 <= k < i ==> Restorable(strings, stored[k]) && Restores(strings, stored[k], rows[k])
    {
      var row := RestoreRow(stored[i], strings);
      if row.Err? {
        return Err(InvalidReference);
      }
      rows := rows + [row.value];
    }
    return Ok(rows);
  }

  method RestoreRow(stored: Row, strings: seq<string>) returns (result: Result<Row, RestoreError>)
    ensures result.Ok? <==> Restorable(strings, stored)
    ensures result.Ok? ==> Restores(strings, stored, result.value)
  {
    var row := stored;
    var fields := stored.Keys;
    while fields != {}
      invariant fields <= stored.Keys && row.Keys == stored.Keys
      invariant forall f :: f in fields ==> row[f] == stored[f]
      invariant forall f :: f in stored && f !in fields ==> RestoreCell(strings, stored[f]) == Ok(row[f])
      decreases fields
    {
      var field :| field in fields;
      fields := fields - {field};
      var cell := RestoreCell(strings, row[field]);
      if cell.Err? {
        return Err(InvalidReference);
      }
      row := row[field := cell.value];
    }
    return Ok(row);
  }

  /******* Segments *******/

  /** The payload of one segment file. Only alerts share strings; version 2 says there are some. */
  datatype Segment = Segment(version: nat, rows: seq<Row>, sharedStrings: seq<string>)

  method EncodeSegment(alerts: bool, rows: seq<Row>) returns (segment: Segment)
    ensures segment.version == (if segment.sharedStrings != [] then 2 else 1)
    ensures !alerts ==> segment == Segment(1, rows, [])
    ensures alerts ==> StoresAll(segment.sharedStrings, rows, segment.rows) && Minimal(segment.sharedStrings, rows)
    ensures segment.version == 1 ==> segment.rows == rows
  {
    var stored, strings := rows, [];
    if alerts {
      stored, strings := ShareLargeStrings(rows);
    }
    segment := Segment(if strings != [] then 2 else 1, stored, strings);
  }

  datatype ReadError = Unsupported | Malformed

  method ReadSegment(segment: Segment) returns (result: Result<seq<Row>, ReadError>)
    ensures segment.version !in {1, 2} ==> result == Err(Unsupported)
    ensures segment.version == 1 ==> result == Ok(segment.rows)
    ensures segment.version == 2 ==>
              if forall i :: 0 <= i < |segment.rows| ==> Restorable(segment.sharedStrings, segment.rows[i])
              then && result.Ok?
                   && |result.value| == |segment.rows|
                   && forall i :: 0 <= i < |segment.rows| ==>
                                    Restores(segment.sharedStrings, segment.rows[i], result.value[i])
              else result == Err(Malformed)
  {
    if segment.version != 1 && segment.version != 2 {
      return Err(Unsupported);
    }
    if segment.version == 2 {
      var restored := RestoreSharedStrings(segment.rows, segment.sharedStrings);
      return if restored.Ok? then Ok(restored.value) else Err(Malformed);
    }
    return Ok(segment.rows);
  }

  /** The cell would be read as a reference although it is data. */
  predicate Collides(cell: Cell) {
    cell.Object? && REFERENCE_KEY in cell.members
  }

  ghost predicate SomeLarge(rows: seq<Row>) {
    exists i, f :: 0 <= i < |rows| && f in rows[i] && Large(rows[i][f])
  }

  ghost predicate SomeCollides(rows: seq<Row>) {
    exists i, f :: 0 <= i < |rows| && f in rows[i] && Collides(rows[i][f])
  }

  lemma SharedOnlyWhenLarge(rows: seq<Row>, stored: seq<Row>, strings: seq<string>)
    requires StoresAll(strings, rows, stored) && Minimal(strings, rows)
    ensures strings != [] <==> SomeLarge(rows)
  {
    if strings != [] {
      assert Held(strings[0], rows);
      var r, f :| r in rows && f in r && r[f] == Text(strings[0]);
      var i :| 0 <= i < |rows| && rows[i] == r;
      assert Large(rows[i][f]);
    }
    if SomeLarge(rows) {
      var i, f :| 0 <= i < |rows| && f in rows[i] && Large(rows[i][f]);
      assert StoresRow(strings, rows[i], stored[i]);
      assert Stores(strings, rows[i][f], stored[i][f]);
    }
  }

  /** A cell comes back as itself exactly when it does not look like a reference. */
  lemma CellRoundTrip(strings: seq<string>, cell: Cell, stored: Cell)
    requires Stores(strings, cell, stored)
    ensures RestoreCell(strings, stored) == Ok(cell) <==> !Collides(cell)
  {
  }

  lemma RowRoundTrip(strings: seq<string>, row: Row, stored: Row)
    requires StoresRow(strings, row, stored)
    ensures (Restorable(strings, stored) && Restores(strings, stored, row)) <==>
            forall f :: f in row ==> !Collides(row[f])
  {
    forall f | f in row
      ensures RestoreCell(strings, stored[f]) == Ok(row[f]) <==> !Collides(row[f])
    {
      assert Stores(strings, row[f], stored[f]);
      CellRoundTrip(strings, row[f], stored[f]);
    }
  }

  lemma RestoresUnique(strings: seq<string>, stored: Row, a: Row, b: Row)
    requires Restores(strings, stored, a) && Restores(strings, stored, b)
    ensures a == b
  {
    forall f | f in stored
      ensures a[f] == b[f]
    {
      assert RestoreCell(strings, stored[f]) == Ok(a[f]);
    }
  }

  /** Writing rows to a segment and reading the segment gives the rows back, for any feed, except
      exactly when alerts hold both a large string and a cell that looks like a reference. */
  method WriteAndRead(alerts: bool, rows: seq<Row>) returns (result: Result<seq<Row>, ReadError>)
    ensures result == Ok(rows) <==> !(alerts && SomeLarge(rows) && SomeCollides(rows))
  {
    var segment := EncodeSegment(alerts, rows);
    result := ReadSegment(segment);
    if alerts {
      SharedOnlyWhenLarge(rows, segment.rows, segment.sharedStrings);
      RoundTripCondition(rows, segment, result);
    }
  }

  lemma RoundTripCondition(rows: seq<Row>, segment: Segment, result: Result<seq<Row>, ReadError>)
    requires StoresAll(segment.sharedStrings, rows, segment.rows)
    requires segment.version == 2 ==>
               if forall i :: 0 <= i < |segment.rows| ==> Restorable(segment.sharedStrings, segment.rows[i])
               then && result.Ok?
                    && |result.value| == |segment.rows|
                    && forall i :: 0 <= i < |segment.rows| ==>
                                     Restores(segment.sharedStrings, segment.rows[i], result.value[i])
               else result == Err(Malformed)
    ensures segment.version == 2 ==> (result == Ok(rows) <==> !SomeCollides(rows))
  {
    if segment.version == 2 {
      forall i | 0 <= i < |rows|
        ensures (Restorable(segment.sharedStrings, segment.rows[i]) &&
                 Restores(segment.sharedStrings, segment.rows[i], rows[i])) <==>
                forall f :: f in rows[i] ==> !Collides(rows[i][f])
      {
        assert StoresRow(segment.sharedStrings, rows[i], segment.rows[i]);
        RowRoundTrip(segment.sharedStrings, rows[i], segment.rows[i]);
      }
      hide StoresRow, Restores, Restorable, Collides;
      if !SomeCollides(rows) {
        forall i | 0 <= i < |rows|
          ensures Restorable(segment.sharedStrings, segment.rows[i])
        {
          assert forall f :: f in rows[i] ==> !Collides(rows[i][f]);
        }
        assert result.Ok?;
        forall i | 0 <= i < |rows|
          ensures result.value[i] == rows[i]
        {
          assert forall f :: f in rows[i] ==> !Collides(rows[i][f]);
          RestoresUnique(segment.sharedStrings, segment.rows[i], rows[i], result.value[i]);
        }
        assert result.value == rows;
      } else {
        var i, f :| 0 <= i < |rows| && f in rows[i] && Collides(rows[i][f]);
        assert !(Restorable(segment.sharedStrings, segment.rows[i]) &&
                 Restores(segment.sharedStrings, segment.rows[i], rows[i]));
      }
    }
  }
}

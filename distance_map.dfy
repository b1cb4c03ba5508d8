/**
 * The offline builder of the rail distance table: it walks the "Rail"
 * sheet row by row and station column by station column and stores each
 * distance under the same order-independent `"A->B"` key that the fare
 * engine looks up.
 */
module DistanceMap {
  import opened Wrappers
  import opened OpalFare

  /** A cell of the origin column: empty (NaN), text, or a number. */
  datatype Cell = Blank | Label(name: string) | Figure(value: real)

  /** One sheet row: its origin cell and its distance cells, one per
      station column (None where the cell is empty). */
  datatype Row = Row(origin: Cell, distances: seq<Option<real>>)

  /** The sheet: the station headers of the columns from the fourth on
      (None for an empty header) and the rows. */
  datatype Sheet = Sheet(stations: seq<Option<string>>, rows: seq<Row>)

  /** A sheet is a table: every row has one distance cell per station. */
  predicate Rectangular(sheet: Sheet) {
    forall i :: 0 <= i < |sheet.rows| ==> |sheet.rows[i].distances| == |sheet.stations|
  }

  /** Cell `j` of `row` stores a distance under `key`: the origin is
      text, the header is present and differs from the origin, and the
      cell holds a number. */
  predicate RowWrites(row: Row, stations: seq<Option<string>>, j: int, key: string)
    requires |row.distances| == |stations|
  {
    && 0 <= j < |stations|
    && row.origin.Label?
    && stations[j].Some?
    && stations[j].value != row.origin.name
    && row.distances[j].Some?
    && key == DistanceKey(row.origin.name, stations[j].value)
  }

  /** Cell `(i, j)` of the sheet stores a distance under `key`. */
  predicate Writes(sheet: Sheet, i: int, j: int, key: string)
    requires Rectangular(sheet)
  {
    0 <= i < |sheet.rows| && RowWrites(sheet.rows[i], sheet.stations, j, key)
  }

  /** The effect of one cell of a row whose origin is the text `origin`. */
  function WriteCell(m: map<string, real>, origin: string, dest: Option<string>, d: Option<real>): map<string, real> {
    if dest.None? || dest.value == origin || d.None? then m
    else m[DistanceKey(origin, dest.value) := d.value]
  }

  /** The first `n` cells of a row, visited left to right. */
  function WriteCells(m: map<string, real>, origin: string, stations: seq<Option<string>>,
                      distances: seq<Option<real>>, n: nat): (r: map<string, real>)
    requires n <= |stations| == |distances|
    ensures m.Keys <= r.Keys
  {
    if n == 0 then m
    else WriteCell(WriteCells(m, origin, stations, distances, n - 1), origin, stations[n - 1], distances[n - 1])
  }

  /** One row: skipped unless its origin cell is text. */
  function WriteRow(m: map<string, real>, stations: seq<Option<string>>, row: Row): map<string, real>
    requires |row.distances| == |stations|
  {
    if row.origin.Label? then WriteCells(m, row.origin.name, stations, row.distances, |stations|) else m
  }

  /** The table after the first `n` rows. */
  function BuildMap(sheet: Sheet, n: nat): (r: map<string, real>)
    requires Rectangular(sheet) && n <= |sheet.rows|
    ensures n > 0 ==> BuildMap(sheet, n - 1).Keys <= r.Keys
  {
    if n == 0 then map[] else WriteRow(BuildMap(sheet, n - 1), sheet.stations, sheet.rows[n - 1])
  }

  /** `generate_distance_map`, without the file reading and writing: the
      nested loop that fills the table. */
  method GenerateDistanceMap(sheet: Sheet) returns (distanceMap: map<string, real>)
    requires Rectangular(sheet)
    ensures distanceMap == BuildMap(sheet, |sheet.rows|)
  {
    distanceMap := map[];
    var i := 0;
    while i < |sheet.rows|
      invariant 0 <= i <= |sheet.rows|
      invariant distanceMap == BuildMap(sheet, i)
    {
      var row := sheet.rows[i];
      if row.origin.Label? {
        var origin := row.origin.name;
        var j := 0;
        while j < |sheet.stations|
          invariant 0 <= j <= |sheet.stations|
          invariant distanceMap == WriteCells(BuildMap(sheet, i), origin, sheet.stations, row.distances, j)
        {
          var dest := sheet.stations[j];
          if dest.Some? && dest.value != origin {
            var distance := row.distances[j];
            if distance.Some? {
              var key := DistanceKey(origin, dest.value);
              distanceMap := distanceMap[key := distance.value];
            }
          }
          j := j + 1;
        }
      }
      i := i + 1;
    }
  }

  // ---------------------------------------------------------------------
  // Within one row
  // ---------------------------------------------------------------------

  /** Every key the cells add was written by one of them, with that
      cell's distance; keys already present either stay or are
      overwritten by a cell. */
  lemma {:induction false} CellsProvenance(m: map<string, real>, row: Row, stations: seq<Option<string>>,
                                          n: nat, key: string)
    requires row.origin.Label? && n <= |stations| == |row.distances|
    requires key in WriteCells(m, row.origin.name, stations, row.distances, n)
    ensures || (key in m && WriteCells(m, row.origin.name, stations, row.distances, n)[key] == m[key])
            || exists j :: 0 <= j < n && RowWrites(row, stations, j, key) &&
                 WriteCells(m, row.origin.name, stations, row.distances, n)[key] == row.distances[j].value
  {
    if n > 0 {
      var prev := WriteCells(m, row.origin.name, stations, row.distances, n - 1);
      if RowWrites(row, stations, n - 1, key) {
      } else {
        assert key in prev;
        CellsProvenance(m, row, stations, n - 1, key);
      }
    }
  }

  /** A key that no cell among the first `n` writes keeps its presence
      and its value. */
  lemma {:induction false} CellsKeep(m: map<string, real>, row: Row, stations: seq<Option<string>>,
                                    n: nat, key: string)
    requires row.origin.Label? && n <= |stations| == |row.distances|
    requires forall j :: 0 <= j < n ==> !RowWrites(row, stations, j, key)
    ensures var r := WriteCells(m, row.origin.name, stations, row.distances, n);
            (key in r <==> key in m) && (key in m ==> r[key] == m[key])
  {
    if n > 0 {
      CellsKeep(m, row, stations, n - 1, key);
      assert !RowWrites(row, stations, n - 1, key);
    }
  }

  /** The last cell among the first `n` that writes a key decides its
      value. */
  lemma {:induction false} CellsLast(m: map<string, real>, row: Row, stations: seq<Option<string>>,
                                    n: nat, j: int, key: string)
    requires row.origin.Label? && n <= |stations| == |row.distances|
    requires 0 <= j < n && RowWrites(row, stations, j, key)
    requires forall k :: j < k < n ==> !RowWrites(row, stations, k, key)
    ensures var r := WriteCells(m, row.origin.name, stations, row.distances, n);
            key in r && r[key] == row.distances[j].value
  {
    if n - 1 > j {
      CellsLast(m, row, stations, n - 1, j, key);
      assert !RowWrites(row, stations, n - 1, key);
    }
  }

  // ---------------------------------------------------------------------
  // Across rows
  // ---------------------------------------------------------------------

  /** Every stored distance came from a present numeric cell in a row
      whose origin is text, under the key of that origin and a different
      station: nothing else, and no station paired with itself, reaches
      the table. */
  lemma {:induction false} KeyProvenance(sheet: Sheet, n: nat, key: string)
    requires Rectangular(sheet) && n <= |sheet.rows|
    requires key in BuildMap(sheet, n)
    ensures exists i, j :: i < n && Writes(sheet, i, j, key) &&
              BuildMap(sheet, n)[key] == sheet.rows[i].distances[j].value
  {
    var prev := BuildMap(sheet, n - 1);
    var row := sheet.rows[n - 1];
    if row.origin.Label? {
      CellsProvenance(prev, row, sheet.stations, |sheet.stations|, key);
      if key in prev && BuildMap(sheet, n)[key] == prev[key] {
        KeyProvenance(sheet, n - 1, key);
      } else {
        var j :| 0 <= j < |sheet.stations| && RowWrites(row, sheet.stations, j, key) &&
                 BuildMap(sheet, n)[key] == row.distances[j].value;
        assert Writes(sheet, n - 1, j, key);
      }
    } else {
      KeyProvenance(sheet, n - 1, key);
    }
  }

  /** Cell `(i, j)` comes after cell `(i0, j0)` in row-then-column order. */
  predicate Later(i: int, j: int, i0: int, j0: int) {
    i > i0 || (i == i0 && j > j0)
  }

  /** For a pair met more than once, the cell visited last wins. */
  lemma {:induction false} LastWriteWins(sheet: Sheet, n: nat, i: int, j: int, key: string)
    requires Rectangular(sheet) && n <= |sheet.rows|
    requires i < n && Writes(sheet, i, j, key)
    requires forall i2, j2 :: i2 < n && Later(i2, j2, i, j) ==> !Writes(sheet, i2, j2, key)
    ensures key in BuildMap(sheet, n) && BuildMap(sheet, n)[key] == sheet.rows[i].distances[j].value
  {
    var prev := BuildMap(sheet, n - 1);
    var row := sheet.rows[n - 1];
    if i == n - 1 {
      forall k | j < k < |sheet.stations| ensures !RowWrites(row, sheet.stations, k, key) {
        assert Later(n - 1, k, i, j);
        assert !Writes(sheet, n - 1, k, key);
      }
      CellsLast(prev, row, sheet.stations, |sheet.stations|, j, key);
    } else {
      LastWriteWins(sheet, n - 1, i, j, key);
      if row.origin.Label? {
        forall k | 0 <= k < |sheet.stations| ensures !RowWrites(row, sheet.stations, k, key) {
          assert Later(n - 1, k, i, j);
          assert !Writes(sheet, n - 1, k, key);
        }
        CellsKeep(prev, row, sheet.stations, |sheet.stations|, key);
      }
    }
  }

  /** The last cell that writes a key. */
  lemma LastWriterExists(sheet: Sheet, i: int, j: int, key: string)
    requires Rectangular(sheet) && Writes(sheet, i, j, key)
    ensures exists i1, j1 :: Writes(sheet, i1, j1, key) &&
              forall i2, j2 :: i2 < |sheet.rows| && Later(i2, j2, i1, j1) ==> !Writes(sheet, i2, j2, key)
  {
    var w := set i2, j2 | 0 <= i2 < |sheet.rows| && 0 <= j2 < |sheet.stations| && Writes(sheet, i2, j2, key) :: (i2, j2);
    assert (i, j) in w;
    var last := LatestCell(w);
    var i1, j1 := last.0, last.1;
    forall i2, j2 | i2 < |sheet.rows| && Later(i2, j2, i1, j1) ensures !Writes(sheet, i2, j2, key) {
      assert Writes(sheet, i2, j2, key) ==> (i2, j2) in w;
    }
  }

  /** The latest cell of a non-empty set of cells, in row-then-column
      order. */
  lemma {:induction false} LatestCell(w: set<(int, int)>) returns (last: (int, int))
    requires w != {}
    ensures last in w && forall c :: c in w ==> !Later(c.0, c.1, last.0, last.1)
    decreases |w|
  {
    var c :| c in w;
    if w == {c} {
      last := c;
    } else {
      var rest := LatestCell(w - {c});
      last := if Later(c.0, c.1, rest.0, rest.1) then c else rest;
    }
  }

  /** Every written key is present in the finished table. */
  lemma WrittenKeyPresent(sheet: Sheet, i: int, j: int, key: string)
    requires Rectangular(sheet) && Writes(sheet, i, j, key)
    ensures key in BuildMap(sheet, |sheet.rows|)
  {
    LastWriterExists(sheet, i, j, key);
    var i1, j1 :| Writes(sheet, i1, j1, key) &&
      forall i2, j2 :: i2 < |sheet.rows| && Later(i2, j2, i1, j1) ==> !Writes(sheet, i2, j2, key);
    LastWriteWins(sheet, |sheet.rows|, i1, j1, key);
  }

  /** The cells `(A, B)` and `(B, A)` write the same key, so a sheet that
      holds a distance both ways fills one entry, which the later cell
      decides. */
  lemma MirrorCellsShareKey(sheet: Sheet, i1: int, j1: int, i2: int, j2: int)
    requires Rectangular(sheet)
    requires 0 <= i1 < |sheet.rows| && 0 <= i2 < |sheet.rows|
    requires 0 <= j1 < |sheet.stations| && 0 <= j2 < |sheet.stations|
    requires sheet.rows[i1].origin.Label? && sheet.rows[i2].origin.Label?
    requires sheet.stations[j1] == Some(sheet.rows[i2].origin.name)
    requires sheet.stations[j2] == Some(sheet.rows[i1].origin.name)
    requires sheet.rows[i1].origin.name != sheet.rows[i2].origin.name
    requires sheet.rows[i1].distances[j1].Some? && sheet.rows[i2].distances[j2].Some?
    ensures exists key :: Writes(sheet, i1, j1, key) && Writes(sheet, i2, j2, key)
  {
    var a, b := sheet.rows[i1].origin.name, sheet.rows[i2].origin.name;
    DistanceKeySymmetric(a, b);
    assert Writes(sheet, i1, j1, DistanceKey(a, b));
    assert Writes(sheet, i2, j2, DistanceKey(a, b));
  }

  /** What the builder writes is what the fare engine reads: loaded with
      the finished table, the service finds, in either direction, the
      distance of the last cell written for a pair, for any station
      names that clean to that pair. */
  lemma LookupFindsWritten(sheet: Sheet, svc: OpalFareService, i: int, j: int,
                           origin: string, destination: string)
    requires Rectangular(sheet) && svc.distanceMap == BuildMap(sheet, |sheet.rows|)
    requires 0 <= i < |sheet.rows| && 0 <= j < |sheet.stations|
    requires sheet.rows[i].origin == Label(CleanStationName(origin))
    requires sheet.stations[j] == Some(CleanStationName(destination))
    requires Writes(sheet, i, j, DistanceKey(CleanStationName(origin), CleanStationName(destination)))
    requires forall i2, j2 :: i2 < |sheet.rows| && Later(i2, j2, i, j) ==>
               !Writes(sheet, i2, j2, DistanceKey(CleanStationName(origin), CleanStationName(destination)))
    ensures svc.GetStationDistance(origin, destination) == Some(sheet.rows[i].distances[j].value)
    ensures svc.GetStationDistance(destination, origin) == Some(sheet.rows[i].distances[j].value)
  {
    var key := DistanceKey(CleanStationName(origin), CleanStationName(destination));
    LastWriteWins(sheet, |sheet.rows|, i, j, key);
    StationDistanceSymmetric(svc, origin, destination);
  }
}

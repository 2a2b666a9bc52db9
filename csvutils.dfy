/**
 * The CSV loader of the repository root (csv_utils.py): the cell converter
 * `NoSpaceStringConverter` and the comment-row filter of `get_dataframe_from_csv`.
 * Parsing the text into a header and cells is pandas' work and is taken as given.
 */
module CsvUtils {
  import opened Wrappers
  import opened PyText
  import opened Seqs

  const FIELD_NAME: string := "FieldName"
  const FIELD_VALUE: string := "FieldValue"

  /** A parsed CSV table: the header and, per data row, one cell per column. */
  datatype RawTable = Table(columns: seq<string>, rows: seq<seq<string>>)

  type Table = t: RawTable | forall i :: 0 <= i < |t.rows| ==> |t.rows[i]| == |t.columns|
    witness Table([], [])

  /** Where the CSV comes from: a path on the file system or an already open buffer. */
  datatype Source = Path(path: string) | Buffer

  datatype CsvError =
    | CsvMissing(path: string)   // "CSV file '...' does not exist"
    | KeyError(column: string)   // `df["FieldName"]` on a table without that column

  /**
   * `NoSpaceStringConverter()[column]` applied to one cell. Every column loses
   * its spaces; `FieldValue` is lower-cased as well.
   */
  function ConvertCell(column: string, cell: string): (r: string)
    ensures ' ' !in r && |r| == |cell| - SpaceCount(cell)
    ensures column == FIELD_VALUE ==> IsSubsequence(r, Lower(cell)) && forall i :: 0 <= i < |r| ==> !IsAsciiUpper(r[i])
    ensures column != FIELD_VALUE ==> IsSubsequence(r, cell)
  {
    LowerRemoveSpacesCommute(cell);
    if column == FIELD_VALUE then Lower(RemoveSpaces(cell)) else RemoveSpaces(cell)
  }

  /** Converting a converted cell changes nothing. */
  lemma ConvertCellIdempotent(column: string, cell: string)
    ensures ConvertCell(column, ConvertCell(column, cell)) == ConvertCell(column, cell)
  {
    var t := RemoveSpaces(cell);
    RemoveSpacesKeepsSpaceFree(t);
    if column == FIELD_VALUE {
      LowerRemoveSpacesCommute(Lower(t));
      LowerIdempotent(t);
      RemoveSpacesKeepsSpaceFree(Lower(t));
    }
  }

  /**
   * The converter answers every column name (its `__contains__` is always
   * true), so each cell of a row is converted by its own column's rule.
   */
  function ConvertRows(t: Table): (r: seq<seq<string>>)
    ensures |r| == |t.rows|
    ensures forall i :: 0 <= i < |r| ==> |r[i]| == |t.columns|
    ensures forall i, j :: 0 <= i < |r| && 0 <= j < |t.columns| ==> r[i][j] == ConvertCell(t.columns[j], t.rows[i][j])
  {
    seq(|t.rows|, i requires 0 <= i < |t.rows| =>
      seq(|t.columns|, j requires 0 <= j < |t.columns| => ConvertCell(t.columns[j], t.rows[i][j])))
  }

  /** The first column of that name; pandas renames later duplicates. */
  function IndexOf(columns: seq<string>, name: string): (r: Option<nat>)
    ensures r.None? <==> name !in columns
    ensures r.Some? ==> r.value < |columns| && columns[r.value] == name && name !in columns[..r.value]
  {
    if |columns| == 0 then None
    else if columns[0] == name then Some(0)
    else
      var k := IndexOf(columns[1..], name);
      assert columns[1..] == columns[1..|columns|];
      if k.None? then None
      else
        assert columns[..k.value + 1] == [columns[0]] + columns[1..][..k.value];
        Some(k.value + 1)
  }

  predicate IsComment(row: seq<string>, j: nat)
    requires j < |row|
  {
    StartsWith(row[j], "#")
  }

  /** The number of rows whose column `j` holds a comment. */
  function CommentCount(rows: seq<seq<string>>, j: nat): (n: nat)
    requires forall i :: 0 <= i < |rows| ==> j < |rows[i]|
    ensures n <= |rows|
    ensures n == 0 <==> forall i :: 0 <= i < |rows| ==> !IsComment(rows[i], j)
    decreases |rows|
  {
    if |rows| == 0 then 0
    else
      assert forall i :: 1 <= i < |rows| ==> rows[i] == rows[1..][i - 1];
      (if IsComment(rows[0], j) then 1 else 0) + CommentCount(rows[1..], j)
  }

  /**
   * `df[~df["FieldName"].str.startswith("#")]`, with column `j` holding the
   * field names: the rows that are not comments, each as often as it occurs
   * and in their order.
   */
  function DropComments(rows: seq<seq<string>>, j: nat): (r: seq<seq<string>>)
    requires forall i :: 0 <= i < |rows| ==> j < |rows[i]|
    ensures IsSubsequence(r, rows)
    ensures forall i :: 0 <= i < |r| ==> j < |r[i]| && !IsComment(r[i], j)
    ensures forall i :: 0 <= i < |rows| && !IsComment(rows[i], j) ==> rows[i] in r
    ensures |r| == |rows| - CommentCount(rows, j)
    decreases |rows|
  {
    if |rows| == 0 then []
    else
      var rest := DropComments(rows[1..], j);
      assert forall i :: 1 <= i < |rows| ==> rows[i] == rows[1..][i - 1];
      if IsComment(rows[0], j) then rest
      else
        assert ([rows[0]] + rest)[1..] == rest;
        [rows[0]] + rest
  }

  /** Rows without comments survive the filter whole and in order. */
  lemma {:induction false} NoCommentsKeepsAll(rows: seq<seq<string>>, j: nat)
    requires forall i :: 0 <= i < |rows| ==> j < |rows[i]| && !IsComment(rows[i], j)
    ensures DropComments(rows, j) == rows
    decreases |rows|
  {
    if |rows| > 0 {
      assert forall i :: 0 <= i < |rows[1..]| ==> rows[1..][i] == rows[i + 1];
      NoCommentsKeepsAll(rows[1..], j);
    }
  }

  lemma KeptRowsAreWide(kept: seq<seq<string>>, rows: seq<seq<string>>, width: nat)
    requires IsSubsequence(kept, rows) && forall i :: 0 <= i < |rows| ==> |rows[i]| == width
    ensures forall i :: 0 <= i < |kept| ==> |kept[i]| == width
  {
    SubsequenceIsSmaller(kept, rows);
    forall i | 0 <= i < |kept| ensures |kept[i]| == width {
      assert kept[i] in rows;
    }
  }

  /**
   * `get_dataframe_from_csv`: a path that does not exist raises before
   * anything is parsed; otherwise every cell is converted, and the rows whose
   * converted `FieldName` starts with `#` are dropped.
   */
  function GetDataframeFromCsv(source: Source, existing: set<string>, parsed: Table): (r: Result<Table, CsvError>)
    ensures source.Path? && source.path !in existing ==> r == Err(CsvMissing(source.path))
    ensures r.Ok? <==> (source.Buffer? || source.path in existing) && FIELD_NAME in parsed.columns
    ensures r.Err? && (source.Buffer? || source.path in existing) ==> r == Err(KeyError(FIELD_NAME))
    ensures r.Ok? ==> r.value.columns == parsed.columns && IsSubsequence(r.value.rows, ConvertRows(parsed))
    ensures r.Ok? ==> r.value.rows == DropComments(ConvertRows(parsed), IndexOf(parsed.columns, FIELD_NAME).value)
  {
    if source.Path? && source.path !in existing then Err(CsvMissing(source.path))
    else
      match IndexOf(parsed.columns, FIELD_NAME)
      case None => Err(KeyError(FIELD_NAME))
      case Some(j) =>
        var rows := ConvertRows(parsed);
        var kept := DropComments(rows, j);
        KeptRowsAreWide(kept, rows, |parsed.columns|);
        Ok(Table(parsed.columns, kept))
  }

  /** Every cell of a loaded table is space-free, every `FieldValue` cell lower-case, and no row is a comment. */
  lemma LoadedTableIsNormal(source: Source, existing: set<string>, parsed: Table)
    requires GetDataframeFromCsv(source, existing, parsed).Ok?
    ensures var t := GetDataframeFromCsv(source, existing, parsed).value;
      && (forall i, j :: 0 <= i < |t.rows| && 0 <= j < |t.columns| ==> t.rows[i][j] == ConvertCell(t.columns[j], t.rows[i][j]))
      && (forall i :: 0 <= i < |t.rows| ==> !IsComment(t.rows[i], IndexOf(t.columns, FIELD_NAME).value))
  {
    var t := GetDataframeFromCsv(source, existing, parsed).value;
    var rows := ConvertRows(parsed);
    SubsequenceIsSmaller(t.rows, rows);
    forall i, j | 0 <= i < |t.rows| && 0 <= j < |t.columns|
      ensures t.rows[i][j] == ConvertCell(t.columns[j], t.rows[i][j])
    {
      assert t.rows[i] in rows;
      var k :| 0 <= k < |rows| && rows[k] == t.rows[i];
      ConvertCellIdempotent(t.columns[j], parsed.rows[k][j]);
    }
  }

  /** Loading a table the loader produced, from a buffer, gives the same table back. */
  lemma ReloadIsStable(source: Source, existing: set<string>, parsed: Table)
    requires GetDataframeFromCsv(source, existing, parsed).Ok?
    ensures var t := GetDataframeFromCsv(source, existing, parsed).value;
      GetDataframeFromCsv(Buffer, {}, t) == Ok(t)
  {
    var t := GetDataframeFromCsv(source, existing, parsed).value;
    LoadedTableIsNormal(source, existing, parsed);
    ConvertedRowsAreFixed(t);
    NoCommentsKeepsAll(t.rows, IndexOf(t.columns, FIELD_NAME).value);
  }

  lemma ConvertedRowsAreFixed(t: Table)
    requires forall i, j :: 0 <= i < |t.rows| && 0 <= j < |t.columns| ==> t.rows[i][j] == ConvertCell(t.columns[j], t.rows[i][j])
    ensures ConvertRows(t) == t.rows
  {
    forall i | 0 <= i < |t.rows| ensures ConvertRows(t)[i] == t.rows[i] {
      assert forall j :: 0 <= j < |t.columns| ==> ConvertRows(t)[i][j] == t.rows[i][j];
    }
  }
}

/**
 * `get_str_from_csv_dict` of filter_script.py: the rows of a dictionary written
 * out by `csv.DictWriter` in the `excel` dialect (comma separated, minimal
 * quoting with doubled quotes, `\r\n` line ends), header first.
 */
module CsvWriter {
  import opened Wrappers
  import opened Seqs
  import opened PyDicts

  datatype WriteError =
    | StopIteration   // `next(iter({}.values()))` on an empty dictionary
    | ExtraFields     // a row with a key outside the field names

  predicate NeedsQuotes(s: string) {
    exists i :: 0 <= i < |s| && s[i] in {',', '"', '\r', '\n'}
  }

  /** The number of `"` characters in `s`. */
  function QuoteCount(s: string): (n: nat)
    ensures n <= |s|
    ensures n == 0 <==> '"' !in s
    decreases |s|
  {
    if s == [] then 0 else (if s[0] == '"' then 1 else 0) + QuoteCount(s[1..])
  }

  /** Every `"` of `s` written twice, every other character once. */
  function DoubleQuotes(s: string): (r: string)
    ensures |r| == |s| + QuoteCount(s)
    ensures '"' !in s ==> r == s
    decreases |s|
  {
    if s == [] then [] else (if s[0] == '"' then "\"\"" else [s[0]]) + DoubleQuotes(s[1..])
  }

  /**
   * One cell as the minimal-quoting writer emits it: quoted, with quotes
   * doubled, when it holds a separator, a quote or a line break; a record
   * whose only cell is empty is written `""` so that the line is not blank.
   */
  function QuoteField(s: string, alone: bool): string {
    if NeedsQuotes(s) || (alone && s == "") then "\"" + DoubleQuotes(s) + "\"" else s
  }

  /** How the reader takes one cell back. */
  function UnquoteField(q: string): string {
    if |q| >= 2 && q[0] == '"' && q[|q| - 1] == '"' then UndoubleQuotes(q[1..|q| - 1]) else q
  }

  function UndoubleQuotes(s: string): string {
    if |s| >= 2 && s[0] == '"' && s[1] == '"' then "\"" + UndoubleQuotes(s[2..])
    else if s == [] then []
    else [s[0]] + UndoubleQuotes(s[1..])
  }

  lemma {:induction false} UndoubleDouble(s: string)
    ensures UndoubleQuotes(DoubleQuotes(s)) == s
    decreases |s|
  {
    if s != [] {
      UndoubleDouble(s[1..]);
      var t := DoubleQuotes(s[1..]);
      if s[0] == '"' {
        assert ("\"\"" + t)[2..] == t;
      } else {
        assert ([s[0]] + t)[1..] == t;
      }
    }
  }

  /** Reading a written cell gives the cell back. */
  lemma QuoteRoundTrip(s: string, alone: bool)
    ensures UnquoteField(QuoteField(s, alone)) == s
  {
    if NeedsQuotes(s) || (alone && s == "") {
      var q := QuoteField(s, alone);
      assert q[1..|q| - 1] == DoubleQuotes(s);
      UndoubleDouble(s);
    } else {
      if s != [] {
        assert s[0] !in {',', '"', '\r', '\n'};
      }
    }
  }

  function JoinCells(cells: seq<string>): (r: string)
    ensures |cells| == 1 ==> r == cells[0]
  {
    if |cells| == 0 then "" else if |cells| == 1 then cells[0] else cells[0] + "," + JoinCells(cells[1..])
  }

  /** `rowdict.keys() - fieldnames` is empty. */
  predicate RowFits(fieldnames: seq<string>, row: CsvRow) {
    forall j :: 0 <= j < |row.keys| ==> row.keys[j] in fieldnames
  }

  /** One record: the cells under `fieldnames`, a missing key written empty, then `\r\n`. */
  function FormatRow(fieldnames: seq<string>, row: CsvRow): (r: Result<string, WriteError>)
    ensures r.Ok? <==> RowFits(fieldnames, row)
    ensures r.Err? ==> r.error == ExtraFields
  {
    if !RowFits(fieldnames, row) then Err(ExtraFields)
    else
      var cells := seq(|fieldnames|, i requires 0 <= i < |fieldnames| =>
        QuoteField(if fieldnames[i] in row.values then row.values[fieldnames[i]] else "", |fieldnames| == 1));
      Ok(JoinCells(cells) + "\r\n")
  }

  function HeaderLine(fieldnames: seq<string>): string {
    JoinCells(seq(|fieldnames|, i requires 0 <= i < |fieldnames| => QuoteField(fieldnames[i], |fieldnames| == 1))) + "\r\n"
  }

  /** The records of the first `k` entries, in the dictionary's order; the first row with an extra key raises. */
  function RowsText(fieldnames: seq<string>, d: PyDict<CsvRow>, k: nat): (r: Result<string, WriteError>)
    requires k <= |d.keys|
    ensures r.Ok? <==> forall i :: 0 <= i < k ==> RowFits(fieldnames, d.values[d.keys[i]])
    ensures r.Err? ==> r.error == ExtraFields
  {
    if k == 0 then Ok("")
    else
      var init :- RowsText(fieldnames, d, k - 1);
      var line :- FormatRow(fieldnames, d.values[d.keys[k - 1]]);
      Ok(init + line)
  }

  function FieldnamesOf(d: PyDict<CsvRow>): seq<string>
    requires |d.keys| > 0
  {
    d.values[d.keys[0]].keys
  }

  /**
   * What `get_str_from_csv_dict` returns: the header from the first row's
   * keys, then every row in the dictionary's order; an empty dictionary raises.
   */
  function CsvText(d: PyDict<CsvRow>): (r: Result<string, WriteError>)
    ensures |d.keys| == 0 <==> r == Err(StopIteration)
    ensures r.Ok? <==> |d.keys| > 0 && forall i :: 0 <= i < |d.keys| ==> RowFits(FieldnamesOf(d), d.values[d.keys[i]])
  {
    if |d.keys| == 0 then Err(StopIteration)
    else
      var rows :- RowsText(FieldnamesOf(d), d, |d.keys|);
      Ok(HeaderLine(FieldnamesOf(d)) + rows)
  }

  /** Rows sharing the first row's columns are all written. */
  lemma SameColumnsAreWritten(d: PyDict<CsvRow>)
    requires |d.keys| > 0
    requires forall k :: k in d.values ==> d.values[k].keys == FieldnamesOf(d)
    ensures CsvText(d).Ok?
  {
    forall i | 0 <= i < |d.keys| ensures RowFits(FieldnamesOf(d), d.values[d.keys[i]]) {
      var row := d.values[d.keys[i]];
      assert row.keys == FieldnamesOf(d);
      assert forall j :: 0 <= j < |row.keys| ==> row.keys[j] in row.keys;
    }
  }

  /** `get_str_from_csv_dict`, writing into a text buffer: the header, then the rows. */
  method GetStrFromCsvDict(d: PyDict<CsvRow>) returns (r: Result<string, WriteError>)
    ensures r == CsvText(d)
  {
    if |d.keys| == 0 {
      return Err(StopIteration);
    }
    var fieldnames := d.values[d.keys[0]].keys;
    var rows := WriteRows(fieldnames, d);
    if rows.Err? {
      return Err(rows.error);
    }
    return Ok(HeaderLine(fieldnames) + rows.value);
  }

  /** The `writer.writerow` loop: each entry's record, in the dictionary's order. */
  method WriteRows(fieldnames: seq<string>, d: PyDict<CsvRow>) returns (r: Result<string, WriteError>)
    ensures r == RowsText(fieldnames, d, |d.keys|)
  {
    var buffer := "";
    var i := 0;
    while i < |d.keys|
      invariant 0 <= i <= |d.keys|
      invariant RowsText(fieldnames, d, i) == Ok(buffer)
    {
      var line := FormatRow(fieldnames, d.values[d.keys[i]]);
      RowsTextNext(fieldnames, d, i);
      if line.Err? {
        RowsTextErrStays(fieldnames, d, i + 1, |d.keys|);
        return Err(line.error);
      }
      buffer := buffer + line.value;
      i := i + 1;
    }
    return Ok(buffer);
  }

  /** One more entry: its record is appended, or its error ends the text. */
  lemma RowsTextNext(fieldnames: seq<string>, d: PyDict<CsvRow>, k: nat)
    requires k < |d.keys| && RowsText(fieldnames, d, k).Ok?
    ensures var line := FormatRow(fieldnames, d.values[d.keys[k]]);
      RowsText(fieldnames, d, k + 1) == if line.Err? then Err(line.error) else Ok(RowsText(fieldnames, d, k).value + line.value)
  {
  }

  /** Once a row has raised, the later rows are never written. */
  lemma {:induction false} RowsTextErrStays(fieldnames: seq<string>, d: PyDict<CsvRow>, k: nat, m: nat)
    requires k <= m <= |d.keys| && RowsText(fieldnames, d, k).Err?
    ensures RowsText(fieldnames, d, m) == RowsText(fieldnames, d, k)
    decreases m - k
  {
    if k < m {
      RowsTextErrStays(fieldnames, d, k, m - 1);
    }
  }

}

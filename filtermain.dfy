/** `main` of filter_script.py, from `sys.argv` and the rows on standard input to the text on standard output. */
module FilterMain {
  import opened Wrappers
  import opened PyDicts
  import opened FilterScript
  import CsvWriter
  import Validation

  datatype MainError =
    | Filter(error: FilterError)
    | Write(writeError: CsvWriter.WriteError)

  function Lift<T>(r: Result<T, FilterError>): (l: Result<T, MainError>)
    ensures r.Ok? <==> l.Ok?
    ensures r.Ok? ==> l.value == r.value
  {
    match r
    case Ok(v) => Ok(v)
    case Err(e) => Err(Filter(e))
  }

  /** The whole filter on `sys.argv` and the rows read from standard input; `Ok` is what goes to standard output. */
  function FilterSpec(argv: seq<string>, rows: seq<CsvRow>): Result<string, MainError> {
    var arg1 :- Lift(CheckArgs(argv));
    var d :- Lift(GetCsvDict(rows));
    var changed :- Lift(RewriteSpn(d, arg1));
    match CsvWriter.CsvText(changed)
    case Ok(text) => Ok(text)
    case Err(e) => Err(Write(e))
  }

  /** `main`: the checks, the dictionary, the in-place rewrite of the SPN value, and the output text. */
  method Run(argv: seq<string>, rows: seq<CsvRow>) returns (r: Result<string, MainError>)
    ensures r == FilterSpec(argv, rows)
  {
    var arg1 := CheckArgs(argv);
    if arg1.Err? {
      return Err(Filter(arg1.error));
    }
    var csvDict := GetCsvDict(rows);
    if csvDict.Err? {
      return Err(Filter(csvDict.error));
    }
    var d := csvDict.value;
    if SPN !in d.values {
      return Err(Filter(KeyError(SPN)));
    }
    var row := d.values[SPN];
    if FIELD_VALUE !in row.values {
      return Err(Filter(KeyError(FIELD_VALUE)));
    }
    row := Put(row, FIELD_VALUE, SpnValue(row.values[FIELD_VALUE], arg1.value));
    d := Put(d, SPN, row);
    var text := CsvWriter.GetStrFromCsvDict(d);
    if text.Err? {
      return Err(Write(text.error));
    }
    return Ok(text.value);
  }

  /**
   * A run that succeeds changed nothing but the SPN value, so the names it
   * writes are the input's names without repetition.
   */
  lemma FilterKeepsFieldNames(argv: seq<string>, rows: seq<CsvRow>)
    requires FilterSpec(argv, rows).Ok?
    ensures var d := GetCsvDict(rows).value;
      && RewriteSpn(d, argv[1]).value.keys == d.keys
      && Validation.CheckForAddedFieldsAfterFilter(IndexNames(rows), RewriteSpn(d, argv[1]).value.keys).Ok?
  {
    RewriteSpnChangesOnlyTheValue(GetCsvDict(rows).value, argv[1]);
    CsvDictPassesAddedFieldsCheck(rows);
  }
}

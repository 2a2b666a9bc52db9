/**
 * The example filter (filter_script.py): the check of its argument, the
 * dictionary that keys the CSV rows by `FieldName`, and the rewrite of the
 * tail of the `SPN` value.
 */
module FilterScript {
  import opened Wrappers
  import opened PyText
  import opened Seqs
  import opened PyDicts
  import Validation

  const INDEX_COLUMN_NAME: string := "FieldName"
  const FIELD_VALUE: string := "FieldValue"
  const SPN: string := "SPN"

  datatype FilterError =
    | AssertionError(message: string)
    | ValueError(message: string)
    | KeyError(key: string)

  // ---------------------------------------------------------------------------
  // The argument check of `main`

  /** The two assertions, then the `isdigit` test, on `sys.argv`; the result is `arg1`. */
  function CheckArgs(argv: seq<string>): (r: Result<string, FilterError>)
    ensures r.Ok? <==> |argv| > 1 && |argv[1]| == 2 && IsDigits(argv[1])
    ensures r.Ok? ==> r.value == argv[1]
    ensures |argv| <= 1 ==> r == Err(AssertionError("arg1 is required"))
    ensures |argv| > 1 && |argv[1]| != 2 ==> r == Err(AssertionError("arg1 must be exactly 2 digits"))
    ensures |argv| > 1 && |argv[1]| == 2 && !IsDigits(argv[1]) ==> r == Err(ValueError("arg1 must be a valid integer"))
  {
    if |argv| <= 1 then Err(AssertionError("arg1 is required"))
    else if |argv[1]| != 2 then Err(AssertionError("arg1 must be exactly 2 digits"))
    else if !IsDigits(argv[1]) then Err(ValueError("arg1 must be a valid integer"))
    else Ok(argv[1])
  }

  // ---------------------------------------------------------------------------
  // get_csv_dict

  predicate HasIndex(rows: seq<CsvRow>) {
    forall i :: 0 <= i < |rows| ==> INDEX_COLUMN_NAME in rows[i].values
  }

  function IndexNames(rows: seq<CsvRow>): (r: seq<string>)
    requires HasIndex(rows)
    ensures |r| == |rows| && forall i :: 0 <= i < |rows| ==> r[i] == rows[i].values[INDEX_COLUMN_NAME]
  {
    seq(|rows|, i requires 0 <= i < |rows| => rows[i].values[INDEX_COLUMN_NAME])
  }

  /**
   * `{row["FieldName"]: row for row in reader}`: a row without the index
   * column raises; each name is a key once, and a later duplicate replaces
   * the earlier row in the place the name first took.
   */
  function GetCsvDict(rows: seq<CsvRow>): (r: Result<PyDict<CsvRow>, FilterError>)
    ensures r.Ok? <==> HasIndex(rows)
    ensures r.Err? ==> r.error == KeyError(INDEX_COLUMN_NAME)
  {
    if |rows| == 0 then Ok(Dict([], map[]))
    else
      var d :- GetCsvDict(rows[..|rows| - 1]);
      var row := rows[|rows| - 1];
      if INDEX_COLUMN_NAME !in row.values then Err(KeyError(INDEX_COLUMN_NAME))
      else
        assert HasIndex(rows) by {
          assert forall i :: 0 <= i < |rows| - 1 ==> rows[i] == rows[..|rows| - 1][i];
        }
        Ok(Put(d, row.values[INDEX_COLUMN_NAME], row))
  }

  /** The dictionary of all rows is that of all rows but the last, with the last row put in. */
  lemma CsvDictOfLast(rows: seq<CsvRow>)
    requires |rows| > 0 && HasIndex(rows)
    ensures HasIndex(rows[..|rows| - 1])
    ensures var row := rows[|rows| - 1];
      GetCsvDict(rows) == Ok(Put(GetCsvDict(rows[..|rows| - 1]).value, row.values[INDEX_COLUMN_NAME], row))
  {
    assert forall i :: 0 <= i < |rows| - 1 ==> rows[..|rows| - 1][i] == rows[i];
  }

  /** The keys are the row names in order, each once (the keys never repeat: see `PyDict`). */
  lemma CsvDictKeys(rows: seq<CsvRow>)
    requires HasIndex(rows)
    ensures var d := GetCsvDict(rows).value;
      && IsSubsequence(d.keys, IndexNames(rows))
      && (forall i :: 0 <= i < |rows| ==> IndexNames(rows)[i] in d.values)
  {
    CsvDictKeysInOrder(rows);
    CsvDictHoldsEveryName(rows);
  }

  lemma {:induction false} CsvDictKeysInOrder(rows: seq<CsvRow>)
    requires HasIndex(rows)
    ensures IsSubsequence(GetCsvDict(rows).value.keys, IndexNames(rows))
    decreases |rows|
  {
    if |rows| > 0 {
      var n := |rows| - 1;
      var init := rows[..n];
      CsvDictOfLast(rows);
      CsvDictKeysInOrder(init);
      var d := GetCsvDict(init).value;
      var names := IndexNames(rows);
      var x := names[n];
      assert IndexNames(init) == names[..n];
      SplitLast(names);
      SubsequenceOfPrefix(d.keys, names);
      if x !in d.values {
        SubsequenceAppend(d.keys, names[..n], x);
      }
    }
  }

  /** The names of `s`, each once, in the order of their first occurrence. */
  function FirstOccurrences(s: seq<string>): (r: seq<string>)
    ensures Distinct(r)
    ensures forall x :: x in r <==> x in s
    decreases |s|
  {
    if |s| == 0 then []
    else
      var init := FirstOccurrences(s[..|s| - 1]);
      assert forall x :: x in s <==> x in s[..|s| - 1] || x == s[|s| - 1] by {
        assert s == s[..|s| - 1] + [s[|s| - 1]];
      }
      if s[|s| - 1] in init then init else init + [s[|s| - 1]]
  }

  /** The dictionary holds a value for the row names and for no other name. */
  lemma {:induction false} CsvDictValuesAreNames(rows: seq<CsvRow>)
    requires HasIndex(rows)
    ensures forall x :: x in GetCsvDict(rows).value.values <==> x in IndexNames(rows)
    decreases |rows|
  {
    if |rows| > 0 {
      var n := |rows| - 1;
      var init := rows[..n];
      CsvDictOfLast(rows);
      CsvDictValuesAreNames(init);
      var names := IndexNames(rows);
      assert IndexNames(init) == names[..n];
      SplitLast(names);
      assert forall x :: x in names <==> x in names[..n] || x == names[n];
    }
  }

  /** The keys of the dictionary are exactly the row names, in the order each first occurs. */
  lemma {:induction false} CsvDictKeysAreFirstOccurrences(rows: seq<CsvRow>)
    requires HasIndex(rows)
    ensures GetCsvDict(rows).value.keys == FirstOccurrences(IndexNames(rows))
    decreases |rows|
  {
    if |rows| > 0 {
      var n := |rows| - 1;
      var init := rows[..n];
      CsvDictOfLast(rows);
      CsvDictKeysAreFirstOccurrences(init);
      CsvDictValuesAreNames(init);
      var names := IndexNames(rows);
      assert IndexNames(init) == names[..n];
      SplitLast(names);
      var x := names[n];
      assert x in GetCsvDict(init).value.values <==> x in FirstOccurrences(names[..n]);
    }
  }

  lemma CsvDictHoldsEveryName(rows: seq<CsvRow>)
    requires HasIndex(rows)
    ensures forall i :: 0 <= i < |rows| ==> rows[i].values[INDEX_COLUMN_NAME] in GetCsvDict(rows).value.values
  {
    CsvDictValuesAreNames(rows);
    assert forall i :: 0 <= i < |rows| ==> IndexNames(rows)[i] in IndexNames(rows);
  }

  lemma SplitLast(s: seq<string>)
    requires |s| > 0
    ensures s == s[..|s| - 1] + [s[|s| - 1]]
  {
  }

  lemma {:induction false} SubsequenceOfPrefix(a: seq<string>, b: seq<string>)
    requires |b| > 0 && IsSubsequence(a, b[..|b| - 1])
    ensures IsSubsequence(a, b)
    decreases |b|
  {
    if a != [] {
      var p := b[..|b| - 1];
      if a[0] == p[0] && IsSubsequence(a[1..], p[1..]) {
        assert p[1..] == b[1..][..|b[1..]| - 1];
        if |b| > 1 { SubsequenceOfPrefix(a[1..], b[1..]); }
      } else {
        assert p[1..] == b[1..][..|b[1..]| - 1];
        SubsequenceOfPrefix(a, b[1..]);
      }
    }
  }

  lemma {:induction false} SubsequenceAppend(a: seq<string>, b: seq<string>, x: string)
    requires IsSubsequence(a, b)
    ensures IsSubsequence(a + [x], b + [x])
    decreases |b|
  {
    if a == [] {
      LastIsSubsequence(b, x);
      assert a + [x] == [x];
    } else {
      assert (a + [x])[1..] == a[1..] + [x];
      assert (b + [x])[1..] == b[1..] + [x];
      if a[0] == b[0] && IsSubsequence(a[1..], b[1..]) {
        SubsequenceAppend(a[1..], b[1..], x);
      } else {
        SubsequenceAppend(a, b[1..], x);
      }
    }
  }

  lemma {:induction false} LastIsSubsequence(b: seq<string>, x: string)
    ensures IsSubsequence([x], b + [x])
    decreases |b|
  {
    if b != [] {
      assert (b + [x])[1..] == b[1..] + [x];
      LastIsSubsequence(b[1..], x);
    } else {
      assert [x][1..] == [];
    }
  }

  /** The row kept under a name is the last row of that name. */
  lemma {:induction false} LastRowWins(rows: seq<CsvRow>, i: nat)
    requires HasIndex(rows) && i < |rows|
    requires forall j :: i < j < |rows| ==> rows[j].values[INDEX_COLUMN_NAME] != rows[i].values[INDEX_COLUMN_NAME]
    ensures var d := GetCsvDict(rows).value;
      rows[i].values[INDEX_COLUMN_NAME] in d.values && d.values[rows[i].values[INDEX_COLUMN_NAME]] == rows[i]
    decreases |rows|
  {
    var init := rows[..|rows| - 1];
    CsvDictOfLast(rows);
    var d := GetCsvDict(init).value;
    var row := rows[|rows| - 1];
    PutKeepsOthers(d, row.values[INDEX_COLUMN_NAME], row);
    if i < |rows| - 1 {
      assert rows[i] == init[i];
      assert forall j :: i < j < |init| ==> init[j] == rows[j];
      LastRowWins(init, i);
    }
  }

  /** The dictionary never has more keys than there were rows, and adds no name: the non-expansion check passes. */
  lemma CsvDictPassesAddedFieldsCheck(rows: seq<CsvRow>)
    requires HasIndex(rows)
    ensures Validation.CheckForAddedFieldsAfterFilter(IndexNames(rows), GetCsvDict(rows).value.keys).Ok?
  {
    var d := GetCsvDict(rows).value;
    CsvDictKeys(rows);
    SubsequenceIsSmaller(d.keys, IndexNames(rows));
  }

  // ---------------------------------------------------------------------------
  // The SPN rewrite

  /** `f'{value[:-2]}{arg1[::-1]}'`. */
  function SpnValue(value: string, arg1: string): string {
    DropLastTwo(value) + Reverse(arg1)
  }

  /** The new value starts with the old one less its last two characters and ends with the argument reversed. */
  lemma SpnValueShape(value: string, arg1: string)
    ensures var r := SpnValue(value, arg1);
      && (|value| >= 2 ==> |r| == |value| - 2 + |arg1|)
      && StartsWith(r, DropLastTwo(value)) && EndsWith(r, Reverse(arg1))
  {
    var r := SpnValue(value, arg1);
    assert r[..|DropLastTwo(value)|] == DropLastTwo(value);
    assert r[|r| - |Reverse(arg1)|..] == Reverse(arg1);
  }

  /** With a two-character argument the value keeps its length and its head, and ends with the argument reversed. */
  lemma SpnKeepsLength(value: string, arg1: string)
    requires |value| >= 2 && |arg1| == 2
    ensures var r := SpnValue(value, arg1);
      |r| == |value| && r[..|value| - 2] == value[..|value| - 2] && r[|value| - 2] == arg1[1] && r[|value| - 1] == arg1[0]
  {
    var r := SpnValue(value, arg1);
    assert r == value[..|value| - 2] + Reverse(arg1);
  }

  /** An example: `54455354` with `42` becomes `54455324`. */
  lemma SpnExample()
    ensures SpnValue("54455354", "42") == "54455324"
  {
    assert Reverse("42") == "24" by {
      assert Reverse("42")[0] == '2' && Reverse("42")[1] == '4';
    }
    assert DropLastTwo("54455354") == "544553";
  }

  /** `csv_dict["SPN"]["FieldValue"] = ...`: both lookups raise when the key is missing. */
  function RewriteSpn(d: PyDict<CsvRow>, arg1: string): (r: Result<PyDict<CsvRow>, FilterError>)
    ensures SPN !in d.values ==> r == Err(KeyError(SPN))
    ensures SPN in d.values && FIELD_VALUE !in d.values[SPN].values ==> r == Err(KeyError(FIELD_VALUE))
    ensures r.Ok? <==> SPN in d.values && FIELD_VALUE in d.values[SPN].values
  {
    if SPN !in d.values then Err(KeyError(SPN))
    else
      var row := d.values[SPN];
      if FIELD_VALUE !in row.values then Err(KeyError(FIELD_VALUE))
      else Ok(Put(d, SPN, Put(row, FIELD_VALUE, SpnValue(row.values[FIELD_VALUE], arg1))))
  }

  /** The rewrite keeps every key and every row but the SPN row, and in that row every cell but the value. */
  lemma RewriteSpnChangesOnlyTheValue(d: PyDict<CsvRow>, arg1: string)
    requires RewriteSpn(d, arg1).Ok?
    ensures var r := RewriteSpn(d, arg1).value;
      && r.keys == d.keys && r.values.Keys == d.values.Keys
      && (forall k :: k in d.values && k != SPN ==> r.values[k] == d.values[k])
      && r.values[SPN].keys == d.values[SPN].keys
      && r.values[SPN].values.Keys == d.values[SPN].values.Keys
      && (forall c :: c in d.values[SPN].values && c != FIELD_VALUE ==> r.values[SPN].values[c] == d.values[SPN].values[c])
      && r.values[SPN].values[FIELD_VALUE] == SpnValue(d.values[SPN].values[FIELD_VALUE], arg1)
  {
    var row := d.values[SPN];
    var v := SpnValue(row.values[FIELD_VALUE], arg1);
    var newRow := Put(row, FIELD_VALUE, v);
    PutExisting(row, FIELD_VALUE, v);
    PutExisting(d, SPN, newRow);
    assert RewriteSpn(d, arg1).value == Put(d, SPN, newRow);
  }

}

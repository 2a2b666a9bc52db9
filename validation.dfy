/**
 * Record validation and the filter's non-expansion check
 * (src/sim_csv_script/app.py, `is_valid_hex` to `check_for_added_fields_after_filter`,
 * and `get_filtered_dataframe`).
 */
module Validation {
  import opened Wrappers
  import opened PyText
  import opened Seqs
  import opened Registry

  /** One data row of the CSV file: its `FieldName` and `FieldValue` cells. */
  datatype Row = Row(name: string, value: string)

  /** The checks, in the order the source applies them. */
  datatype Rule = NameUnknown | NameDuplicated | ValueHasSpaces | ValueOddLength | ValueNotHex

  function Rank(rule: Rule): nat {
    match rule
    case NameUnknown => 0
    case NameDuplicated => 1
    case ValueHasSpaces => 2
    case ValueOddLength => 3
    case ValueNotHex => 4
  }

  datatype ValidationError =
    | InvalidField(name: string, rule: Rule)                 // InvalidFieldError
    | InvalidDataframe(rule: Rule, offenders: seq<string>)   // InvalidDataframeError
    | FilterAddedFields                                      // FilterCSVError from the added-fields check

  function Names(rows: seq<Row>): (r: seq<string>)
    ensures |r| == |rows| && forall i :: 0 <= i < |rows| ==> r[i] == rows[i].name
  {
    seq(|rows|, i requires 0 <= i < |rows| => rows[i].name)
  }

  // ---------------------------------------------------------------------------
  // The value predicates

  /** `has_spaces`: the value contains the character U+0020. */
  predicate HasSpaces(s: string) { ' ' in s }

  /** `is_even_number_hex_characters`: `not (len(s) & 1)`. */
  predicate IsEvenNumberHexCharacters(s: string) { |s| % 2 == 0 }

  predicate IsHexDigit(c: char) { '0' <= c <= '9' || 'a' <= c <= 'f' || 'A' <= c <= 'F' }

  /** Hex digits, each `_` standing between two digits. */
  predicate DigitRun(s: string) {
    && |s| > 0
    && IsHexDigit(s[0]) && IsHexDigit(s[|s| - 1])
    && (forall i :: 0 <= i < |s| ==> IsHexDigit(s[i]) || s[i] == '_')
    && (forall i :: 0 <= i < |s| - 1 ==> s[i] == '_' ==> s[i + 1] != '_')
  }

  /** A base-16 literal body: digits, optionally after `0x`/`0X` and one `_`. */
  predicate HexBody(t: string) {
    || DigitRun(t)
    || (&& |t| >= 2 && t[0] == '0' && (t[1] == 'x' || t[1] == 'X')
        && (DigitRun(t[2..]) || (|t| >= 3 && t[2] == '_' && DigitRun(t[3..]))))
  }

  /**
   * `is_valid_hex(s)`: `int(s, 16)` does not raise. Python strips surrounding
   * white space and accepts one sign, a `0x` prefix and `_` between digits.
   */
  predicate IsValidHex(s: string) {
    var t := Strip(s);
    HexBody(t) || (|t| > 0 && (t[0] == '+' || t[0] == '-') && HexBody(t[1..]))
  }

  lemma PlainHexDigitsAreValid(s: string)
    requires |s| > 0 && forall i :: 0 <= i < |s| ==> IsHexDigit(s[i])
    ensures IsValidHex(s)
  {
    assert !IsPySpace(s[0]) && !IsPySpace(s[|s| - 1]);
    StripUnpadded(s);
    assert DigitRun(s);
    assert HexBody(Strip(s));
  }

  lemma EmptyIsNotValidHex()
    ensures !IsValidHex("")
  {
    assert Strip("") == "";
  }

  // ---------------------------------------------------------------------------
  // check_that_field_is_valid: the rules one at a time, first failure raises

  predicate FieldViolates(reg: Registry, rule: Rule, name: string, value: string) {
    match rule
    case NameUnknown => name !in reg.All()
    case NameDuplicated => false
    case ValueHasSpaces => HasSpaces(value)
    case ValueOddLength => !IsEvenNumberHexCharacters(value)
    case ValueNotHex => !IsValidHex(value)
  }

  predicate FieldIsValid(reg: Registry, name: string, value: string) {
    name in reg.All() && !HasSpaces(value) && IsEvenNumberHexCharacters(value) && IsValidHex(value)
  }

  function CheckThatFieldIsValid(reg: Registry, name: string, value: string): (r: Result<(), ValidationError>)
    ensures r.Ok? <==> FieldIsValid(reg, name, value)
    ensures r.Err? ==> r.error.InvalidField? && r.error.name == name
    ensures r.Err? ==> FieldViolates(reg, r.error.rule, name, value)
    ensures r.Err? ==> forall q :: Rank(q) < Rank(r.error.rule) ==> !FieldViolates(reg, q, name, value)
  {
    if name !in reg.All() then Err(InvalidField(name, NameUnknown))
    else if HasSpaces(value) then Err(InvalidField(name, ValueHasSpaces))
    else if !IsEvenNumberHexCharacters(value) then Err(InvalidField(name, ValueOddLength))
    else if !IsValidHex(value) then Err(InvalidField(name, ValueNotHex))
    else Ok(())
  }

  // ---------------------------------------------------------------------------
  // check_that_fields_are_valid: one rule over all rows, then the next

  /** Row `i` breaks `rule`; a duplicated name is reported for every row carrying it. */
  predicate Offending(reg: Registry, rule: Rule, rows: seq<Row>, i: nat)
    requires i < |rows|
  {
    if rule == NameDuplicated then exists j :: 0 <= j < |rows| && j != i && rows[j].name == rows[i].name
    else FieldViolates(reg, rule, rows[i].name, rows[i].value)
  }

  /** The names of the rows in `rows[..k]` that break `rule`, in row order. */
  function OffendersUpTo(reg: Registry, rule: Rule, rows: seq<Row>, k: nat): (r: seq<string>)
    requires k <= |rows|
    ensures |r| <= k
    ensures forall n :: n in r <==> exists i :: 0 <= i < k && Offending(reg, rule, rows, i) && rows[i].name == n
    decreases k
  {
    if k == 0 then []
    else OffendersUpTo(reg, rule, rows, k - 1) + (if Offending(reg, rule, rows, k - 1) then [rows[k - 1].name] else [])
  }

  /** No name is reported exactly when no row of `rows[..k]` breaks `rule`. */
  lemma NoOffendersUpTo(reg: Registry, rule: Rule, rows: seq<Row>, k: nat)
    requires k <= |rows|
    ensures OffendersUpTo(reg, rule, rows, k) == [] <==> forall i :: 0 <= i < k ==> !Offending(reg, rule, rows, i)
  {
    var r := OffendersUpTo(reg, rule, rows, k);
    if r != [] {
      assert r[0] in r;
    }
  }

  function Offenders(reg: Registry, rule: Rule, rows: seq<Row>): seq<string> {
    OffendersUpTo(reg, rule, rows, |rows|)
  }

  predicate NamesUnique(rows: seq<Row>) {
    forall i, j :: 0 <= i < j < |rows| ==> rows[i].name != rows[j].name
  }

  predicate AllFieldsValid(reg: Registry, rows: seq<Row>) {
    && NamesUnique(rows)
    && forall i :: 0 <= i < |rows| ==> FieldIsValid(reg, rows[i].name, rows[i].value)
  }

  function CheckThatFieldsAreValid(reg: Registry, rows: seq<Row>): (r: Result<(), ValidationError>)
    ensures r.Ok? <==> AllFieldsValid(reg, rows)
    ensures r.Err? ==> r.error.InvalidDataframe?
    ensures r.Err? ==> r.error.offenders == Offenders(reg, r.error.rule, rows) != []
    ensures r.Err? ==> forall q :: Rank(q) < Rank(r.error.rule) ==> Offenders(reg, q, rows) == []
  {
    var unknown := Offenders(reg, NameUnknown, rows);
    var duplicated := Offenders(reg, NameDuplicated, rows);
    var spaces := Offenders(reg, ValueHasSpaces, rows);
    var odd := Offenders(reg, ValueOddLength, rows);
    var notHex := Offenders(reg, ValueNotHex, rows);
    NoOffendersMeansValid(reg, rows);
    if unknown != [] then Err(InvalidDataframe(NameUnknown, unknown))
    else if duplicated != [] then Err(InvalidDataframe(NameDuplicated, duplicated))
    else if spaces != [] then Err(InvalidDataframe(ValueHasSpaces, spaces))
    else if odd != [] then Err(InvalidDataframe(ValueOddLength, odd))
    else if notHex != [] then Err(InvalidDataframe(ValueNotHex, notHex))
    else Ok(())
  }

  lemma NoOffendersMeansValid(reg: Registry, rows: seq<Row>)
    ensures AllFieldsValid(reg, rows) <==>
              && Offenders(reg, NameUnknown, rows) == []
              && Offenders(reg, NameDuplicated, rows) == []
              && Offenders(reg, ValueHasSpaces, rows) == []
              && Offenders(reg, ValueOddLength, rows) == []
              && Offenders(reg, ValueNotHex, rows) == []
  {
    forall q ensures Offenders(reg, q, rows) == [] <==> RuleHolds(reg, q, rows) {
      NoOffendersUpTo(reg, q, rows, |rows|);
    }
    UniqueIffNoDuplicates(reg, rows);
    FieldsValidIffNoFieldOffenders(reg, rows);
  }

  /** No row of `rows` breaks `rule`. */
  predicate RuleHolds(reg: Registry, rule: Rule, rows: seq<Row>) {
    forall i :: 0 <= i < |rows| ==> !Offending(reg, rule, rows, i)
  }

  lemma UniqueIffNoDuplicates(reg: Registry, rows: seq<Row>)
    ensures NamesUnique(rows) <==> RuleHolds(reg, NameDuplicated, rows)
  {
    if !NamesUnique(rows) {
      var i, j :| 0 <= i < j < |rows| && rows[i].name == rows[j].name;
      assert Offending(reg, NameDuplicated, rows, i);
    }
  }

  lemma FieldsValidIffNoFieldOffenders(reg: Registry, rows: seq<Row>)
    ensures (forall i :: 0 <= i < |rows| ==> FieldIsValid(reg, rows[i].name, rows[i].value)) <==>
              && RuleHolds(reg, NameUnknown, rows) && RuleHolds(reg, ValueHasSpaces, rows)
              && RuleHolds(reg, ValueOddLength, rows) && RuleHolds(reg, ValueNotHex, rows)
  {
    forall i | 0 <= i < |rows|
      ensures FieldIsValid(reg, rows[i].name, rows[i].value) <==>
                && !Offending(reg, NameUnknown, rows, i) && !Offending(reg, ValueHasSpaces, rows, i)
                && !Offending(reg, ValueOddLength, rows, i) && !Offending(reg, ValueNotHex, rows, i)
    {
    }
  }

  /** On a single row both checks agree, and they report the same first broken rule. */
  lemma SingleRowChecksAgree(reg: Registry, name: string, value: string)
    ensures CheckThatFieldsAreValid(reg, [Row(name, value)]).Ok? <==> CheckThatFieldIsValid(reg, name, value).Ok?
    ensures CheckThatFieldsAreValid(reg, [Row(name, value)]).Err? ==>
              CheckThatFieldsAreValid(reg, [Row(name, value)]).error.rule == CheckThatFieldIsValid(reg, name, value).error.rule
  {
    var rows := [Row(name, value)];
    forall q ensures Offenders(reg, q, rows) != [] <==> FieldViolates(reg, q, name, value) {
      assert Offenders(reg, q, rows) != [] <==> Offending(reg, q, rows, 0);
    }
  }

  // ---------------------------------------------------------------------------
  // check_for_added_fields_after_filter and get_filtered_dataframe

  function CheckForAddedFieldsAfterFilter(previous: seq<string>, after: seq<string>): (r: Result<(), ValidationError>)
    ensures r.Err? ==> r.error == FilterAddedFields
    ensures r.Ok? <==> |after| <= |previous| && forall n :: n in after ==> n in previous
  {
    var added := (set n | n in after) - (set n | n in previous);
    assert added == {} <==> forall n :: n in after ==> n in previous by {
      if added == {} {
        forall n | n in after ensures n in previous { assert n !in added; }
      }
    }
    if |after| > |previous| || added != {} then Err(FilterAddedFields)
    else Ok(())
  }

  /** Dropping fields while keeping the order of the others never raises. */
  lemma DroppingFieldsPasses(previous: seq<string>, after: seq<string>)
    requires IsSubsequence(after, previous)
    ensures CheckForAddedFieldsAfterFilter(previous, after).Ok?
  {
    SubsequenceIsSmaller(after, previous);
  }

  /** A valid record set stays valid when rows are dropped. */
  lemma DroppingRowsKeepsValidity(reg: Registry, after: seq<Row>, before: seq<Row>)
    requires IsSubsequence(after, before) && AllFieldsValid(reg, before)
    ensures AllFieldsValid(reg, after)
  {
    DroppingRowsKeepsNamesUnique(after, before);
    SubsequenceIsSmaller(after, before);
    forall i | 0 <= i < |after| ensures FieldIsValid(reg, after[i].name, after[i].value) {
      assert after[i] in before;
    }
  }

  lemma {:induction false} DroppingRowsKeepsNamesUnique(after: seq<Row>, before: seq<Row>)
    requires IsSubsequence(after, before) && NamesUnique(before)
    ensures NamesUnique(after)
    decreases |before|
  {
    if after != [] {
      assert NamesUnique(before[1..]) by {
        forall i, j | 0 <= i < j < |before[1..]| ensures before[1..][i].name != before[1..][j].name {
          assert before[1..][i] == before[i + 1] && before[1..][j] == before[j + 1];
        }
      }
      if after[0] == before[0] && IsSubsequence(after[1..], before[1..]) {
        DroppingRowsKeepsNamesUnique(after[1..], before[1..]);
        SubsequenceIsSmaller(after[1..], before[1..]);
        forall i, j | 0 <= i < j < |after| ensures after[i].name != after[j].name {
          if i == 0 {
            assert after[j] == after[1..][j - 1];
            assert after[j] in before[1..];
            var k :| 0 <= k < |before[1..]| && before[1..][k] == after[j];
            assert before[k + 1] == after[j];
          } else {
            assert after[i] == after[1..][i - 1] && after[j] == after[1..][j - 1];
          }
        }
      } else {
        DroppingRowsKeepsNamesUnique(after, before[1..]);
      }
    }
  }

  /**
   * `get_filtered_dataframe` once the filter process has produced `after`: the
   * added-fields check on the name lists, then full validation of `after`.
   */
  function GetFilteredRows(reg: Registry, before: seq<Row>, after: seq<Row>): (r: Result<seq<Row>, ValidationError>)
    ensures r.Ok? <==> CheckForAddedFieldsAfterFilter(Names(before), Names(after)).Ok? && AllFieldsValid(reg, after)
    ensures r.Ok? ==> r.value == after
    ensures r.Err? && r.error != FilterAddedFields ==> r.error.InvalidDataframe?
  {
    var _ :- CheckForAddedFieldsAfterFilter(Names(before), Names(after));
    var _ :- CheckThatFieldsAreValid(reg, after);
    Ok(after)
  }

  /** A filter that only drops rows of a valid record set always passes; the identity filter is one. */
  lemma DroppingFilterPasses(reg: Registry, before: seq<Row>, after: seq<Row>)
    requires AllFieldsValid(reg, before) && IsSubsequence(after, before)
    ensures GetFilteredRows(reg, before, after) == Ok(after)
  {
    DroppingRowsKeepsValidity(reg, after, before);
    DroppingRowsAddsNoName(before, after);
    assert CheckThatFieldsAreValid(reg, after).Ok?;
  }

  /** Dropping rows adds no field name. */
  lemma DroppingRowsAddsNoName(before: seq<Row>, after: seq<Row>)
    requires IsSubsequence(after, before)
    ensures CheckForAddedFieldsAfterFilter(Names(before), Names(after)).Ok?
  {
    SubsequenceIsSmaller(after, before);
    forall n | n in Names(after) ensures n in Names(before) {
      var i :| 0 <= i < |after| && Names(after)[i] == n;
      assert after[i] in before;
      var k :| 0 <= k < |before| && before[k] == after[i];
      assert Names(before)[k] == n;
    }
  }

  lemma IdentityFilterPasses(reg: Registry, rows: seq<Row>)
    requires AllFieldsValid(reg, rows)
    ensures GetFilteredRows(reg, rows, rows) == Ok(rows)
  {
    SubsequenceReflexive(rows);
    DroppingFilterPasses(reg, rows, rows);
  }

  /** A filter output naming a field absent from its input is rejected, whatever its value. */
  lemma AddedFieldIsRejected(reg: Registry, before: seq<Row>, after: seq<Row>, i: nat)
    requires i < |after| && after[i].name !in Names(before)
    ensures GetFilteredRows(reg, before, after) == Err(FilterAddedFields)
  {
    assert Names(after)[i] == after[i].name;
  }
}

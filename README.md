# sim_csv_script in Dafny

A model of the core of sim_csv_script, a tool that programs SIM cards from a
CSV table of `FieldName,FieldValue` rows. For each row it:

- checks the row against pySim's field registry;
- makes sure the card has the application (ISIM or USIM) and the elementary
  file behind the field;
- checks that the value spans the file's full width;
- submits the ADM PIN;
- reads the field on the card, writes it and reads it back to verify.

The model covers the field-programming engine of `src/sim_csv_script/app.py`,
the CSV cell normaliser of `csv_utils.py`, the example filter
`filter_script.py`, the name derivation and import rewrite of
`src/sim_csv_gui/generate.py`, and the non-widget logic of the desktop front
end `src/sim_csv_gui/app.py`: the read and write workers, the ADM PIN inputs,
the hexadecimal toggle, `TempSettings`, the table set-up, and read and
write mode.

The card is a class, `Card.SimCard`. Its state is:

- a map from file identifier to a flat hex string or a sequence of records;
- a ghost trace of every command issued;
- an immutable `Profile` holding what the card answers: which applications
  it supports, the select replies, the binary sizes, per-target status
  overrides and the `verify_chv` status for each PIN form.

Each engine operation is a method on that card, proved equal to a pure
specification function. The function returns the outcome, the files
afterwards and the commands issued. The properties of the source are lemmas
about those functions.

Module layout:

- Support modules:
  - `Wrappers` holds `Option` and `Result`.
  - `Seqs` holds subsequences.
  - `PyText` holds the Python string operations the code uses: `lower`,
    space removal, `strip`, slices, `removeprefix`, `isdigit`.
  - `PyDicts` holds an insertion-ordered dictionary.
- Command-line tool:
  - `Registry` and `Validation` hold the field registry and the CSV
    checks.
  - `Card` holds the card.
  - `Engine` and `EngineProperties` hold the engine and its properties.
- Other CLI-side sources:
  - `CsvUtils` models `csv_utils.py`.
  - `FilterScript`, `CsvWriter` and `FilterMain` model `filter_script.py`.
  - `Generate` models `generate.py`.
- Desktop front end:
  - `GuiWorkers` and `GuiProperties` hold the two workers, with the generic
    `df.apply` pass `Apply`.
  - `GuiInputs` holds `TempSettings`, the PIN inputs, the hexadecimal
    toggle, the table set-up that guards both modes, and read and write mode.

Two behaviours of the code worth noting:

- The command-line tool loads its CSV through `src/sim_csv_script/csv_utils.py`.
  That loader neither drops `#` rows nor strips spaces. So `Validation` sees
  the rows as given, and a comment row fails the registry check.
- The GUI's `Differences` column compares the CSV's raw `FieldValue` with
  the value on the card. After a successful write that card value is the
  lower-cased `FieldValue`. An upper-case hex value is therefore marked `X`
  even though the write verified (`GuiProperties.WriteWorkerReport`).

## Model

| member | source | states |
|---|---|---|
| Registry.Registry.All | src/sim_csv_script/app.py:24 | the merged registry holds the ISIM, USIM and base names; a base entry wins over USIM, which wins over ISIM |
| Validation.Names | src/sim_csv_script/app.py:160 | the `FieldName` column, row by row |
| Validation.PlainHexDigitsAreValid | src/sim_csv_script/app.py:83-92 | a non-empty string of plain hex digits is accepted by `int(s, 16)` |
| Validation.EmptyIsNotValidHex | src/sim_csv_script/app.py:83-92 | the empty string is not valid hex |
| Validation.CheckThatFieldIsValid | src/sim_csv_script/app.py:111-145 | passes iff the name is registered and the value is space-free, even-length and valid hex; on failure it reports the first rule, in name, spaces, parity, hex order, that the field breaks |
| Validation.OffendersUpTo | src/sim_csv_script/app.py:160-201 | the offender list holds exactly the names of the rows that break the rule |
| Validation.NoOffendersUpTo | src/sim_csv_script/app.py:160-201 | the offender list is empty iff no row breaks the rule |
| Validation.UniqueIffNoDuplicates | src/sim_csv_script/app.py:166-170 | the names are unique iff no row is flagged as duplicated |
| Validation.FieldsValidIffNoFieldOffenders | src/sim_csv_script/app.py:160-201 | every row is valid iff no row breaks the name, spaces, parity or hex rule |
| Validation.CheckThatFieldsAreValid | src/sim_csv_script/app.py:148-203 | passes iff every row is valid and names are unique; on failure it reports the first failing check, in names, duplicates, spaces, parity, hex order, with every offender of that check, and no earlier check has an offender |
| Validation.NoOffendersMeansValid | src/sim_csv_script/app.py:148-203 | a table is valid iff none of the five checks has an offender |
| Validation.SingleRowChecksAgree | src/sim_csv_script/app.py:111-203 | on a one-row table the table check and the single-field check agree on success and on the failing rule |
| Validation.CheckForAddedFieldsAfterFilter | src/sim_csv_script/app.py:258-267 | passes iff the filtered list is no longer than the original and every filtered name occurs in it |
| Validation.DroppingFieldsPasses | src/sim_csv_script/app.py:261-264 | a filter that only drops names passes the added-fields check |
| Validation.DroppingRowsKeepsValidity | src/sim_csv_script/app.py:148-203 | dropping rows from a valid table leaves it valid |
| Validation.DroppingRowsKeepsNamesUnique | src/sim_csv_script/app.py:167 | dropping rows keeps the names unique |
| Validation.GetFilteredRows | src/sim_csv_script/app.py:949-962 | the filtered rows are accepted iff they add no field and pass the full validation, and are then returned unchanged |
| Validation.DroppingFilterPasses | src/sim_csv_script/app.py:949-962 | a filter that drops rows of a valid table is accepted |
| Validation.DroppingRowsAddsNoName | src/sim_csv_script/app.py:258-267 | dropping rows passes the added-fields check |
| Validation.IdentityFilterPasses | src/sim_csv_script/app.py:949-962 | a filter that returns a valid table unchanged is accepted |
| Validation.AddedFieldIsRejected | src/sim_csv_script/app.py:262-267 | a filtered row whose name was not in the input makes the filter fail with the added-fields error |
| Card.RecordCountOf | src/sim_csv_script/app.py:397 | `record_count` answers exactly for record files, with their number of records |
| Card.Overwrite | src/sim_csv_script/app.py:542 | `update_binary` replaces the leading characters and keeps any longer old tail |
| Card.Store | src/sim_csv_script/app.py:515-517 | an update changes only the targeted file; a flat file gets the overwrite and a record gets the new data |
| Card.SimCard.SelectAdfByAid | src/sim_csv_script/app.py:285 | answers with the profile's select reply and logs the select |
| Card.SimCard.FileExistsOnCard | src/sim_csv_script/app.py:293 | true iff the file is on the card; logs the query |
| Card.SimCard.BinarySizeOf | src/sim_csv_script/app.py:345 | the profile's binary size, or none when the call raises; logs the query |
| Card.SimCard.RecordCountOfFile | src/sim_csv_script/app.py:397 | the number of records of a record file; logs the query |
| Card.SimCard.ReadBinaryOf | src/sim_csv_script/app.py:435 | the reply and the file's data; logs the read |
| Card.SimCard.ReadRecordOf | src/sim_csv_script/app.py:404 | the reply and the record's data; logs the read |
| Card.SimCard.UpdateBinaryOf | src/sim_csv_script/app.py:542 | the reply, the files after the update and the logged update |
| Card.SimCard.UpdateRecordOf | src/sim_csv_script/app.py:515-517 | the reply, the files after the update and the logged update |
| Card.SimCard.VerifyChvWith | src/sim_csv_script/app.py:376 | the profile's status for that PIN; logs the verify |
| Engine.AppCheck | src/sim_csv_script/app.py:273-325 | a name outside the application's map passes with no command; inside it, the check fails with an assertion when the card lacks the application, starts with the select otherwise, and passes iff the select answers 9000 and the file exists |
| Engine.Contexts | src/sim_csv_script/app.py:339-340 | passes iff both the ISIM and the USIM checks pass; a name in neither map issues nothing |
| Engine.CheckAppField | src/sim_csv_script/app.py:273-325 | the outcome and commands of `AppCheck` |
| Engine.CheckContexts | src/sim_csv_script/app.py:339-340 | the outcome and commands of `Contexts` |
| Engine.WidthCheck | src/sim_csv_script/app.py:328-357 | after passing contexts: inconclusive iff the size query raises, matches iff the size is `len(value)//2`, otherwise a width-mismatch error with both numbers; a context failure is passed on |
| Engine.VerifyFullFieldWidth | src/sim_csv_script/app.py:328-357 | the outcome and commands of `WidthCheck` |
| Engine.ParseAdmPin | src/sim_csv_script/app.py:370-373 | a PIN starting `0x` is hex with the prefix removed; any other PIN is ASCII and kept whole |
| Engine.PinCheck | src/sim_csv_script/app.py:363-381 | passes iff `verify_chv` answers 9000 for the parsed PIN; any other status gives `InvalidADMPinError`; exactly one verify of CHV 0x0A is issued unless the sanitiser raised |
| Engine.CheckPinAdm | src/sim_csv_script/app.py:363-381 | the outcome and commands of `PinCheck` |
| Engine.ReadOnce | src/sim_csv_script/app.py:434-444 | a read succeeds iff it answers 9000, with the target's data; otherwise a `ReadFieldError` for the field |
| Engine.ReadRecordsSpec | src/sim_csv_script/app.py:402-415 | reading records 1..k succeeds iff every one answers 9000, issuing k reads; otherwise a `ReadFieldError` |
| Engine.ReadSpec | src/sim_csv_script/app.py:384-446 | an unknown name is a key error with no command; a flat field is exactly one `read_binary` with its outcome |
| Engine.ReadFieldData | src/sim_csv_script/app.py:384-446 | the outcome and commands of `ReadSpec` |
| Engine.ReadAllRecords | src/sim_csv_script/app.py:402-415 | the outcome and commands of `ReadRecordsSpec` |
| Engine.WriteRecordsSpec | src/sim_csv_script/app.py:504-521 | writing records 1..k issues at most k updates, exactly k on success; only an exception fails it, as a `WriteFieldError`; it keeps the set of files |
| Engine.WriteSpec | src/sim_csv_script/app.py:449-552 | success returns true and the set of files is kept |
| Engine.WriteFieldData | src/sim_csv_script/app.py:449-552 | the outcome, files and commands of `WriteSpec` |
| Engine.WriteRecordFieldData | src/sim_csv_script/app.py:476-536 | the outcome, files and commands of the record branch of `WriteSpec` |
| Engine.WriteAllRecords | src/sim_csv_script/app.py:504-521 | the outcome, files and commands of `WriteRecordsSpec` |
| Engine.ReadSimpleSpec | src/sim_csv_script/app.py:555-566 | succeeds iff the contexts pass and the read succeeds, with the read value; the files are unchanged |
| Engine.ReadFieldnameSimple | src/sim_csv_script/app.py:555-566 | the outcome and commands of `ReadSimpleSpec` |
| Engine.WriteVerifySpec | src/sim_csv_script/app.py:593-608 | success returns exactly the value written, and the files are those of the write |
| Engine.WriteAndVerify | src/sim_csv_script/app.py:593-608 | the outcome, files and commands of `WriteVerifySpec` |
| Engine.WriteSimpleSpec | src/sim_csv_script/app.py:569-608 | success returns the lower-cased value |
| Engine.WriteFieldnameSimple | src/sim_csv_script/app.py:569-608 | the outcome, files and commands of `WriteSimpleSpec` |
| Engine.ReadWriteSpec | src/sim_csv_script/app.py:611-684 | success returns true |
| Engine.ReadWriteToFieldname | src/sim_csv_script/app.py:611-684 | the outcome, files and commands of `ReadWriteSpec` |
| Engine.DiffIndexesFrom | src/sim_csv_script/app.py:654-658 | the positions from i on where the card value and the new value differ, ascending |
| Engine.DiffIndexes | src/sim_csv_script/app.py:654-658 | exactly the positions below `len(field_value)` where the two differ, ascending |
| Engine.DiffSymbols | src/sim_csv_script/app.py:659-664 | a line of the display width with `^` at every difference index and a space elsewhere |
| EngineProperties.ContextsIssueNoUpdate | src/sim_csv_script/app.py:273-325 | the context checks issue no update |
| EngineProperties.WidthCheckIssuesNoUpdate | src/sim_csv_script/app.py:328-357 | the width check changes no file and issues no update |
| EngineProperties.ReadRecordsInAscendingOrder | src/sim_csv_script/app.py:402-404 | the i-th read of a record field reads record i + 1 |
| EngineProperties.ReadIssuesNoUpdate | src/sim_csv_script/app.py:384-446 | a read changes no file and issues no update |
| EngineProperties.OutsideAppsSelectsNothing | src/sim_csv_script/app.py:273-325 | a field outside the ISIM and USIM maps passes the contexts with no command at all |
| EngineProperties.IsimSelectedBeforeUsim | src/sim_csv_script/app.py:339-340 | a name in both maps selects ISIM first and, once ISIM passes, checks the file and then selects USIM |
| EngineProperties.AppCheckFailures | src/sim_csv_script/app.py:284-324 | a select exception, a non-9000 select status and a missing file each fail with the matching `RequiresIsimError`/`RequiresUsimError` cause |
| EngineProperties.ParseAdmPinInjective | src/sim_csv_script/app.py:370-373 | two PINs that parse to the same form are equal |
| EngineProperties.ReadRecordsJoins | src/sim_csv_script/app.py:402-415 | a successful read of records 1..k returns their concatenation |
| EngineProperties.ReadRecordsWithoutOverrides | src/sim_csv_script/app.py:402-415 | with no scripted read status on the file, reading records 1..k succeeds with their concatenation |
| EngineProperties.RecordFieldRead | src/sim_csv_script/app.py:394-415 | a record field issues the count query, then reads records 1, 2, ... in order; it succeeds iff every record read answers 9000, with all records joined, and fails with a `ReadFieldError` otherwise |
| EngineProperties.RecordFieldReadsEveryRecord | src/sim_csv_script/app.py:397-415 | reading a record field is the count query followed by reading every record |
| EngineProperties.WriteRecordsInAscendingOrder | src/sim_csv_script/app.py:504-517 | the i-th update of a full-width record write goes to record i + 1 with slice `value[i*rs*2:(i*rs+rs)*2]` |
| EngineProperties.FailuresPrecedeUpdates | src/sim_csv_script/app.py:477-497 | any write failure other than `WriteFieldError` leaves the files unchanged and issues no update |
| EngineProperties.DryRunWritesNothing | src/sim_csv_script/app.py:513-549 | a dry-run write changes no file and issues no update |
| EngineProperties.SingleRecordWriteStores | src/sim_csv_script/app.py:482-535 | outside a dry run, a one-record value written to record n (1..count) of an unscripted file succeeds after the two size queries and one update, replacing record n and nothing else |
| EngineProperties.RecordWriteAssertions | src/sim_csv_script/app.py:482-497 | a full-width value with a record number, a partial value without one, a record number outside 1..count and a record-number value of the wrong size each fail the assertion, before any update |
| EngineProperties.Slices | src/sim_csv_script/app.py:507-509 | the first k record slices of a value |
| EngineProperties.WriteRecordsStores | src/sim_csv_script/app.py:504-521 | with no scripted update status, writing records 1..k succeeds and replaces exactly those records with their slices |
| EngineProperties.SlicesJoin | src/sim_csv_script/app.py:507-509 | the first k slices joined give the value's first k records' worth of characters |
| EngineProperties.RecordFieldRoundTrip | src/sim_csv_script/app.py:476-521 | a full-width value written to a record field whose width is a multiple of its record count reads back as that value |
| EngineProperties.FlatFieldRoundTrip | src/sim_csv_script/app.py:538-549 | a flat write succeeds and reads back as the overwrite of the old data, which equals the value iff the value is at least as long |
| EngineProperties.WriteSimpleOkMeansStored | src/sim_csv_script/app.py:593-608 | after a successful `write_fieldname_simple`, the card reads back the lower-cased value |
| EngineProperties.VerifiedMeansStored | src/sim_csv_script/app.py:597-602 | after a successful verify, the card reads back the value written |
| EngineProperties.WriteSimpleDryRunWritesNothing | src/sim_csv_script/app.py:569-608 | a dry-run `write_fieldname_simple` changes no file and issues no update |
| EngineProperties.WriteSimpleDryRunFailsOnDifference | src/sim_csv_script/app.py:593-602 | in a dry run, a card value other than the lower-cased value fails; for a flat field with passing contexts, the failure is exactly the `VerifyFieldError` with both values |
| EngineProperties.ReadWriteSkipsUnchanged | src/sim_csv_script/app.py:648-651 | when the card already holds the lower-cased value, `read_write_to_fieldname` returns true with no update |
| EngineProperties.ReadWriteDryRunWritesNothing | src/sim_csv_script/app.py:668 | a dry run of `read_write_to_fieldname` changes no file and issues no update |
| EngineProperties.ReadWriteReportNeedsLength | src/sim_csv_script/app.py:654-658 | with the difference report on, a card value shorter than the new value fails with an index error and changes nothing |
| EngineProperties.ReadWriteOkMeansStored | src/sim_csv_script/app.py:668-684 | after a successful non-dry `read_write_to_fieldname`, the card reads back the lower-cased value |
| PyText.LowerChar | csv_utils.py:13 | an upper-case letter becomes the letter 32 code points above it, its lower-case form; any other character is kept |
| PyText.Lower | csv_utils.py:13 | same length, each character lower-cased |
| PyText.RemoveSpaces | csv_utils.py:16 | no space remains, the length drops by the number of spaces, and the rest keeps its order |
| PyText.LowerRemoveSpacesCommute | csv_utils.py:13 | lower-casing and removing spaces commute |
| PyText.Strip | src/sim_csv_gui/app.py:595 | the result neither starts nor ends with whitespace |
| PyText.StripCutsOnlySpace | src/sim_csv_gui/app.py:595 | the result is a slice of the text with nothing but whitespace cut off before and after it |
| PyText.LStripCutsOnlySpace | src/sim_csv_gui/app.py:595 | everything `lstrip` removes is whitespace |
| PyText.RStripCutsOnlySpace | src/sim_csv_gui/app.py:595 | everything `rstrip` removes is whitespace |
| PyText.PySlice | src/sim_csv_script/app.py:507-509 | Python's clamped slice: an in-range slice is the Dafny slice, with the clamped length otherwise |
| PyText.Reverse | filter_script.py:52 | `s[::-1]`: the same characters in reverse order |
| PyText.DropLastTwo | filter_script.py:52 | `s[:-2]`: all but the last two characters, or empty |
| CsvUtils.ConvertCell | csv_utils.py:10-16 | every converted cell is space-free, shorter by its spaces; a `FieldValue` cell is also lower-case; other columns keep their case |
| CsvUtils.ConvertCellIdempotent | csv_utils.py:10-16 | converting a converted cell changes nothing |
| CsvUtils.ConvertRows | csv_utils.py:6-28 | every cell of every column goes through its column's converter |
| CsvUtils.DropComments | csv_utils.py:30-31 | the kept rows are a subsequence, none starts with `#`, every other row is kept, and exactly the comment rows are dropped (the length falls by their number) |
| CsvUtils.NoCommentsKeepsAll | csv_utils.py:30-31 | without comment rows, nothing is dropped |
| CsvUtils.GetDataframeFromCsv | csv_utils.py:22-33 | a missing path fails before parsing; otherwise it succeeds iff the table has a `FieldName` column, keeps the columns, and its rows are the converted rows without the comment rows |
| CsvUtils.LoadedTableIsNormal | csv_utils.py:22-33 | every loaded cell is already in converted form and no loaded row is a comment |
| CsvUtils.ReloadIsStable | csv_utils.py:22-33 | loading a loaded table again gives the same table |
| PyDicts.Put | filter_script.py:14 | `d[k] = v`: the value map is updated, and a new key goes to the end of the key order |
| PyDicts.PutKeepsOthers | filter_script.py:14 | `d[k] = v` changes no other key's value |
| PyDicts.PutExisting | filter_script.py:52 | assigning to an existing key keeps the key order and the key set |
| FilterScript.CheckArgs | filter_script.py:32-38 | accepts iff there is a first argument of exactly two characters, all digits, and returns it; each failure gives its own assertion or value error |
| FilterScript.IndexNames | filter_script.py:14 | the `FieldName` of every row, in order |
| FilterScript.GetCsvDict | filter_script.py:9-16 | keying succeeds iff every row has a `FieldName` |
| FilterScript.CsvDictOfLast | filter_script.py:14 | the dictionary of all rows is that of all but the last, with the last row put under its name |
| FilterScript.CsvDictKeys | filter_script.py:14 | the dictionary's keys are a subsequence of the names, and every name is a key |
| FilterScript.CsvDictKeysInOrder | filter_script.py:14 | the keys are a subsequence of the names |
| FilterScript.FirstOccurrences | filter_script.py:14 | the names of a list, each once, holding exactly the listed names |
| FilterScript.CsvDictKeysAreFirstOccurrences | filter_script.py:14 | the keys are exactly the names in the order each first occurs |
| FilterScript.CsvDictValuesAreNames | filter_script.py:14 | the dictionary holds a value for every row name and for no other name |
| FilterScript.CsvDictHoldsEveryName | filter_script.py:14 | every row's name is a key |
| FilterScript.LastRowWins | filter_script.py:14 | a name holds its last row |
| FilterScript.CsvDictPassesAddedFieldsCheck | filter_script.py:14 | keying the rows never adds a field name |
| FilterScript.SpnValueShape | filter_script.py:52 | the new SPN value starts with `value[:-2]` and ends with the reversed argument |
| FilterScript.SpnKeepsLength | filter_script.py:52 | with a two-character argument and a value of length two or more, the length is kept and only the last two characters change, to the argument reversed |
| FilterScript.SpnExample | filter_script.py:52 | `"54455354"` with `"42"` gives `"54455324"` |
| FilterScript.RewriteSpn | filter_script.py:52 | a missing `SPN` row or `FieldValue` column is a key error; otherwise it succeeds |
| FilterScript.RewriteSpnChangesOnlyTheValue | filter_script.py:46-57 | only the SPN row's `FieldValue` changes, to the new SPN value; no key, row or column is added or removed |
| CsvWriter.DoubleQuotes | filter_script.py:22-24 | every `"` is written twice: the length grows by the number of quotes, and text without quotes is kept |
| CsvWriter.UndoubleDouble | filter_script.py:22-24 | undoing the doubling of quote characters gives back the text |
| CsvWriter.QuoteRoundTrip | filter_script.py:22-24 | unquoting a quoted cell gives back the cell |
| CsvWriter.FormatRow | filter_script.py:24 | a row is written iff it has no key outside the header |
| CsvWriter.RowsText | filter_script.py:24 | the first k rows are written iff none has an extra key |
| CsvWriter.CsvText | filter_script.py:19-26 | an empty dictionary fails as `next` on no values; otherwise writing succeeds iff no row has a key outside the first row's keys |
| CsvWriter.SameColumnsAreWritten | filter_script.py:21-24 | when every row has the first row's columns, writing succeeds |
| CsvWriter.GetStrFromCsvDict | filter_script.py:19-26 | the text of `CsvText` |
| CsvWriter.WriteRows | filter_script.py:24 | the text of every row, in dictionary order |
| FilterMain.Lift | filter_script.py:29-64 | a filter result keeps its success and value |
| FilterMain.Run | filter_script.py:29-64 | the argument check, keying, SPN rewrite and writing, in that order |
| FilterMain.FilterKeepsFieldNames | filter_script.py:29-64 | a successful filter keeps the key order and passes the added-fields check |
| Generate.RFind | src/sim_csv_gui/generate.py:14 | the last index holding the character, or -1 |
| Generate.Basename | src/sim_csv_gui/generate.py:14 | the basename has no `/` and ends the path; a path without `/` is its own basename |
| Generate.Root | src/sim_csv_gui/generate.py:14 | the root is a prefix of the name |
| Generate.DerivedNamesHaveNoDirectory | src/sim_csv_gui/generate.py:12-19 | neither derived name has a directory part |
| Generate.DirectoryIsIgnored | src/sim_csv_gui/generate.py:12-19 | the derived names do not depend on the directory |
| Generate.OnlyLastExtensionIsRemoved | src/sim_csv_gui/generate.py:12-19 | `stem.ext` gives `stem.py` and `stem_rc.py` |
| Generate.ExampleNames | src/sim_csv_gui/generate.py:17-19 | `a.b.ui` gives `a.b.py` |
| Generate.DotFileHasNoExtension | src/sim_csv_gui/generate.py:17-19 | a name whose only dots lead it has no extension to drop: both derived names are the whole name plus their suffix |
| Generate.ExtensionArgType | src/sim_csv_gui/generate.py:69-105 | accepts an existing file iff its lower-cased name ends with the extension, and returns it; a missing file fails with its message |
| Generate.UIFileArgType | src/sim_csv_gui/generate.py:80-91 | accepts an existing file iff its lower-cased name ends with `.ui` |
| Generate.ResourceFileArgType | src/sim_csv_gui/generate.py:94-105 | accepts an existing file iff its lower-cased name ends with `.qrc` |
| Generate.ExtensionCaseIgnored | src/sim_csv_gui/generate.py:88 | an existing `.UI` file is accepted |
| Generate.LineEnd | src/sim_csv_gui/generate.py:47 | the end of the line from a position: a newline or the end of the text |
| Generate.LastRc | src/sim_csv_gui/generate.py:47 | the last `_rc` before the line end, the greedy `.*` backtracking to it |
| Generate.MatchEnd | src/sim_csv_gui/generate.py:47 | a match starts with `import` and a whitespace character |
| Generate.ResourceModules | src/sim_csv_gui/generate.py:51-52 | every captured module name ends with `_rc` and stays on one line |
| Generate.EmptyInsertIsIdentity | src/sim_csv_gui/generate.py:61-63 | inserting nothing leaves the text unchanged |
| Generate.SubLength | src/sim_csv_gui/generate.py:61-63 | the rewrite grows the text by one insertion per match |
| Generate.NoResourceImportsUnchanged | src/sim_csv_gui/generate.py:61-63 | text with no resource import is left unchanged |
| Generate.FirstMissing | src/sim_csv_gui/generate.py:53-58 | the first module, in order, whose `.py` file does not exist, or none iff all exist |
| Generate.PrefixSpec | src/sim_csv_gui/generate.py:45-66 | fails on a missing file or the first missing resource module, changing nothing; otherwise the file holds the rewritten text and no other file changes |
| Generate.Workspace.PrefixUiPythonFileResourceImports | src/sim_csv_gui/generate.py:45-66 | the files afterwards and the error are those of `PrefixSpec` |
| GuiWorkers.Differences | src/sim_csv_gui/app.py:206-207 | `"X"` exactly where the two values differ, `""` exactly where they are equal |
| GuiWorkers.Reports | src/sim_csv_gui/app.py:201-207 | one report per row |
| GuiWorkers.Apply | src/sim_csv_gui/app.py:182-204 | a successful pass has one result per row; progress, when emitted, is `Progress(i, n)` for each row started |
| GuiWorkers.ApplyErrStays | src/sim_csv_gui/app.py:182-187 | once a pass has failed, later rows change nothing |
| GuiWorkers.ApplyNext | src/sim_csv_gui/app.py:191-198 | one more row of a pass: its result, files and commands, and its progress value |
| GuiWorkers.ApplyKeepingFiles | src/sim_csv_gui/app.py:182-204 | a pass of steps that keep the files succeeds iff every row's step succeeds, with those results |
| GuiWorkers.VerifyAllWidths | src/sim_csv_gui/app.py:182-187 | the outcome and commands of the width pass |
| GuiWorkers.ReadEachField | src/sim_csv_gui/app.py:189-204 | the outcome, progress and commands of the read pass |
| GuiWorkers.ReadCardWorkerRun | src/sim_csv_gui/app.py:169-209 | the outcome, progress and commands of `ReadWorkerSpec` |
| GuiWorkers.SelectPin | src/sim_csv_gui/app.py:245-250 | with a dictionary, the PIN is `dict[imsi]` and a missing IMSI fails its assertion; without one, the given PIN must be present |
| GuiWorkers.PinStep | src/sim_csv_gui/app.py:266-268 | a dry run submits no PIN; otherwise it is `check_pin_adm` |
| GuiWorkers.WriteEachField | src/sim_csv_gui/app.py:270-285 | the outcome, progress, files and commands of the write pass |
| GuiWorkers.WriteCardWorkerRun | src/sim_csv_gui/app.py:237-290 | the outcome, progress, files and commands of `WriteWorkerSpec` |
| GuiWorkers.WriteWorkerAfterPin | src/sim_csv_gui/app.py:256-290 | once the PIN is chosen, the widths pass and the PIN is accepted, the write worker ends with the write pass and issues widths, PIN, then writes |
| GuiProperties.ProgressBounds | src/sim_csv_gui/app.py:192 | progress is at most 100, and 100 exactly on the last row |
| GuiProperties.ProgressMonotone | src/sim_csv_gui/app.py:271 | progress does not decrease with the row index |
| GuiProperties.PassProgressRises | src/sim_csv_gui/app.py:191-193 | the progress values a pass emits are nondecreasing and end at 100 when it succeeds |
| GuiProperties.ApplyRow | src/sim_csv_gui/app.py:201-204 | each result of a successful pass is that row's step on the files before it |
| GuiProperties.ApplyOnlyQueries | src/sim_csv_gui/app.py:182-187 | a pass of query-only steps issues only queries |
| GuiProperties.ContextsOnlyQuery | src/sim_csv_script/app.py:273-325 | the context checks issue only queries |
| GuiProperties.WidthCheckOnlyQueries | src/sim_csv_script/app.py:328-357 | the width check issues only queries |
| GuiProperties.ReadOnlyQueries | src/sim_csv_script/app.py:384-446 | a read issues only queries |
| GuiProperties.ReadSimpleOnlyQueries | src/sim_csv_script/app.py:555-566 | `read_fieldname_simple` issues only queries |
| GuiProperties.DryWriteOnlyQueries | src/sim_csv_script/app.py:449-552 | a dry-run write changes nothing and issues only queries |
| GuiProperties.DryWriteSimpleOnlyQueries | src/sim_csv_script/app.py:569-608 | a dry-run `write_fieldname_simple` changes nothing and issues only queries |
| GuiProperties.WidthStepOnlyQueries | src/sim_csv_gui/app.py:182-187 | every width step issues only queries |
| GuiProperties.ReadWorkerReport | src/sim_csv_gui/app.py:169-209 | the read worker succeeds iff every width check and every read succeeds; each report row carries its name, its value, the value read and `X` exactly where they differ |
| GuiProperties.ReadWorkerOnlyQueries | src/sim_csv_gui/app.py:169-209 | the read worker changes nothing and issues only queries |
| GuiProperties.PinAssertionsPrecedeCardAccess | src/sim_csv_gui/app.py:245-250 | a failed PIN assertion ends the write worker with no command, no progress and no change |
| GuiProperties.WidthChecksComeFirst | src/sim_csv_gui/app.py:256-261 | the write worker's commands start with the width pass, which only queries; a failed width check ends it there with no change |
| GuiProperties.PinPrecedesWrites | src/sim_csv_gui/app.py:256-268 | outside a dry run, the width pass is followed by the PIN verify before any write; a rejected PIN ends the worker there with no change |
| GuiProperties.DryRunOnlyQueries | src/sim_csv_gui/app.py:237-290 | a dry-run write worker changes nothing and issues only queries |
| GuiProperties.WriteWorkerReport | src/sim_csv_gui/app.py:282-288 | each report row of a successful write worker carries the lower-cased value as the card value, and `X` exactly where that differs from the raw value |
| GuiProperties.WritePassLowers | src/sim_csv_gui/app.py:274-279 | each result of a successful write pass is the row's lower-cased value |
| GuiInputs.SettingsAfter | src/sim_csv_gui/app.py:297-298 | the keys set are exactly the keys of the calls made |
| GuiInputs.ReplayAgreesWithMostRecent | src/sim_csv_gui/app.py:297-301 | looking a key up after the calls gives the most recent value set for it, or the default |
| GuiInputs.LatestCallWins | src/sim_csv_gui/app.py:297-301 | a key not set again afterwards holds the value of its last `setValue` |
| GuiInputs.UnsetKeyGivesDefault | src/sim_csv_gui/app.py:300-301 | a key never set gives the default |
| GuiInputs.TempSettings.constructor | src/sim_csv_gui/app.py:294-295 | starts empty, with no calls made |
| GuiInputs.TempSettings.SetValue | src/sim_csv_gui/app.py:297-298 | the dictionary gets the key's new value, and the call is added to the history the invariant replays |
| GuiInputs.TempSettings.Value | src/sim_csv_gui/app.py:300-301 | the most recent value set for the key, or the default |
| GuiInputs.HexToggle | src/sim_csv_gui/app.py:843-848 | checking prepends `0x`; unchecking removes one leading `0x`; any other state keeps the text |
| GuiInputs.CheckThenUncheckRestores | src/sim_csv_gui/app.py:843-848 | checking then unchecking restores the text |
| GuiInputs.UncheckThenCheckRestores | src/sim_csv_gui/app.py:843-848 | unchecking then checking restores a `0x` text |
| GuiInputs.UncheckRemovesOnePrefix | src/sim_csv_gui/app.py:848 | unchecking removes only one `0x` |
| GuiInputs.AdmPinInputs.constructor | src/sim_csv_gui/app.py:592-604 | the two radio buttons and the line edit's text |
| GuiInputs.AdmPinInputs.OnAdmPinHexadecimalCheckboxStateChanged | src/sim_csv_gui/app.py:840-848 | the line edit ends up holding `HexToggle` of its text |
| GuiInputs.AdmPinInputs.GetAdmPinFromInputFields | src/sim_csv_gui/app.py:592-604 | the typed PIN is stripped and rejected iff it starts with `0x` and is not valid hex; the file choice passes the JSON result through; with neither button checked, `pin_adm` is unbound |
| GuiInputs.InvalidHexPinRaisesBeforeCardAccess | src/sim_csv_gui/app.py:595-597 | a typed `0x` PIN that is not valid hex ends write mode with that exception before any card command |
| GuiInputs.SetupTable | src/sim_csv_gui/app.py:528-540 | without a selected CSV file it raises; with the filter box checked an empty stripped command raises, and otherwise the filter's output is taken iff it adds no field and passes validation; without the filter the loaded rows are taken iff they pass validation; a taken table is always valid |
| GuiInputs.WorkerRows | src/sim_csv_gui/app.py:540 | each row's `FieldName` and `FieldValue`, in order |
| GuiInputs.ModesValidateBeforeCardAccess | src/sim_csv_gui/app.py:528-547 | a table the setup rejects ends read and write mode with that error before any card command; any card command means the table passed validation, and in write mode that the PIN was taken |
| GuiInputs.NoCsvNoCardAccess | src/sim_csv_gui/app.py:529-530 | without a selected CSV file both modes end with "CSV File is Required" and no card command |
| GuiInputs.ReadModeOnlyQueries | src/sim_csv_gui/app.py:582-587 | read mode changes nothing on the card and issues only queries |
| GuiInputs.WriteModeReadsFirst | src/sim_csv_gui/app.py:619-662 | with the table set up, write mode runs the read worker first, which only queries; after a failed read or a declined prompt it stops there; otherwise it runs the write worker and succeeds iff that does |
| GuiInputs.TypedPinReachesWriteWorker | src/sim_csv_gui/app.py:621-638 | with a valid table and a successful read, an accepted typed PIN reaches the write worker stripped, with no dictionary |
| GuiInputs.DryRunWriteModeOnlyQueries | src/sim_csv_gui/app.py:619-666 | in a dry run, write mode changes nothing and issues only queries |

## Left out

- Reading files, writing files and running subprocesses are not modelled;
  file existence and file contents are parameters. This covers the filter
  command in `run_filter_command_on_csv_bytes` and `filter_dataframe`. The
  filter's output rows are an input to `Validation.GetFilteredRows`.
- pandas is not modelled: `read_csv`, `to_csv` and `DataFrame.apply` are
  left out. A table is a sequence of rows, and `df.apply` is the ordered
  pass `GuiWorkers.Apply`.
- `csv.DictReader` parsing is not modelled. The filter takes the parsed
  rows; `csv.DictWriter` quoting is modelled after the minimal-quoting
  rule.
- pySim internals are not modelled: reader initialisation, `card_detect`,
  the CLA/selection probing, `read_card_initial_data`, `sanitize_pin_adm`
  and `h2b`. The IMSI is a parameter, and the sanitiser's acceptance and the
  card's answer for each PIN form are part of the card profile.
- The command-line `main`, `get_args`, the argparse file checks of
  `src/sim_csv_script/app.py`, logging, the `input()` prompts and the
  wait-for-card loop are not modelled; they are I/O and a driver over the
  modelled operations. `JSONFileArgType`'s result is a given `Result`.
- `generate.py`'s `main`, `pyuic5` and `pyrcc5` calls are left out:
  subprocesses and a loop that only calls the modelled functions.
- Qt is left out: widgets, table model, message boxes, palettes, signals,
  `QThread` and `WaitForSIMCardWorker`. They are concurrency and
  presentation. Write mode's prompt answer is the parameter `accepted`.
- GuiInputs.SetupTable: models the table step of
  `setup_card_reader_and_wait_for_sim_card` only. The card reader set-up and
  the wait for a card that follow it are left out as I/O. The loaded rows and
  the filter's output rows are parameters, so the loader's own errors
  (`CsvUtils.GetDataframeFromCsv`) are not chained in, and `shlex.split` of
  the filter command is not modelled.
- Validation.CheckThatFieldIsValid: the model's error carries the field name
  for every rule. The source's message for the spaces check
  (src/sim_csv_script/app.py:129) names no field.
- Card.SimCard.VerifyChvWith: `verify_chv` is taken always to answer with a
  status word and never to raise. A PIN form the sanitiser rejects never
  reaches it: that case is the profile's missing entry.
- The workers' finish codes and their `finished` signal are not modelled.
  The table they return is the list of reports.
- `TempSettings.status` and `TempSettings.sync` are left out; they do
  nothing.
- Text is ASCII: `lower`, `isdigit`, `strip` and `int(s, 16)` are
  modelled on ASCII characters only.
- GuiWorkers.Progress: computes `int((k+1)/n*100)` as an exact integer
  floor, not in floating point, and takes the row label to be the 0-based
  position (the default index).
- Engine.ReadWriteSpec: the difference report's only effect modelled is
  the `IndexError` for a card value shorter than the new value. The
  symbols are only logged; `Engine.DiffSymbols` computes them.
- Log text and the `num_chars_to_display` ellipsis are left out.
- JSON values are taken to be strings.
- `setup.py` packaging and `src/sim_csv_script/csv_utils.py` are left out.
  The latter is only a file-existence check followed by `pd.read_csv`.

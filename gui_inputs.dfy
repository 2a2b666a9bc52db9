/**
 * The input side of the desktop front end (src/sim_csv_gui/app.py): the
 * in-memory settings store `TempSettings`, the ADM PIN input fields with the
 * hexadecimal check box that toggles a `0x` prefix, the table step of
 * `setup_card_reader_and_wait_for_sim_card`, `read_mode`, and `write_mode`,
 * which takes the PIN from those fields, sets up the table, runs the read
 * worker and, once the user accepts, the write worker.
 */
module GuiInputs {
  import opened Wrappers
  import opened PyText
  import opened Registry
  import opened Card
  import opened Engine
  import opened GuiWorkers
  import GuiProperties
  import Validation

  // ---------------------------------------------------------------------------
  // TempSettings

  /** The store after replaying the `setValue` calls `ops` on an empty dictionary. */
  function SettingsAfter<V>(ops: seq<(string, V)>): (r: map<string, V>)
    ensures r.Keys == set i | 0 <= i < |ops| :: ops[i].0
    decreases |ops|
  {
    if ops == [] then map[]
    else
      var init := ops[..|ops| - 1];
      assert forall i :: 0 <= i < |init| ==> init[i] == ops[i];
      SettingsAfter(init)[ops[|ops| - 1].0 := ops[|ops| - 1].1]
  }

  /** The value of the most recent call for `key`, or `d` when there was none. */
  function MostRecent<V>(ops: seq<(string, V)>, key: string, d: V): V
    decreases |ops|
  {
    if ops == [] then d
    else if ops[|ops| - 1].0 == key then ops[|ops| - 1].1
    else MostRecent(ops[..|ops| - 1], key, d)
  }

  /** Looking a key up in the replayed store gives the most recent value set for it. */
  lemma {:induction false} ReplayAgreesWithMostRecent<V>(ops: seq<(string, V)>, key: string, d: V)
    ensures (if key in SettingsAfter(ops) then SettingsAfter(ops)[key] else d) == MostRecent(ops, key, d)
    decreases |ops|
  {
    if ops != [] {
      ReplayAgreesWithMostRecent(ops[..|ops| - 1], key, d);
    }
  }

  /** The call at index `i` is the most recent one for its key when no later call names that key. */
  lemma {:induction false} LatestCallWins<V>(ops: seq<(string, V)>, i: nat, d: V)
    requires i < |ops|
    requires forall j :: i < j < |ops| ==> ops[j].0 != ops[i].0
    ensures MostRecent(ops, ops[i].0, d) == ops[i].1
    decreases |ops|
  {
    if i < |ops| - 1 {
      var init := ops[..|ops| - 1];
      assert forall j :: 0 <= j < |init| ==> init[j] == ops[j];
      LatestCallWins(init, i, d);
    }
  }

  /** A key no call named gives the default. */
  lemma {:induction false} UnsetKeyGivesDefault<V>(ops: seq<(string, V)>, key: string, d: V)
    requires forall j :: 0 <= j < |ops| ==> ops[j].0 != key
    ensures MostRecent(ops, key, d) == d
    decreases |ops|
  {
    if ops != [] {
      var init := ops[..|ops| - 1];
      assert forall j :: 0 <= j < |init| ==> init[j] == ops[j];
      UnsetKeyGivesDefault(init, key, d);
    }
  }

  /**
   * `TempSettings`: a dictionary standing in for `QSettings`. The ghost
   * `history` records the `setValue` calls made so far; the dictionary is
   * always their replay.
   */
  class TempSettings<V> {
    var settings: map<string, V>
    ghost var history: seq<(string, V)>

    ghost predicate Valid()
      reads this
    {
      settings == SettingsAfter(history)
    }

    constructor()
      ensures Valid() && history == [] && settings == map[]
    {
      settings := map[];
      history := [];
    }

    /** `setValue(key, value)`: the entry for `key` becomes `value`, and every other entry stays. */
    method SetValue(key: string, value: V)
      requires Valid()
      modifies this
      ensures Valid() && history == old(history) + [(key, value)]
      ensures settings == old(settings)[key := value]
    {
      assert (history + [(key, value)])[..|history|] == history;
      settings := settings[key := value];
      history := history + [(key, value)];
    }

    /** `value(key, defaultValue)`: the most recent value set for `key`, else the default. */
    function Value(key: string, defaultValue: V): (r: V)
      requires Valid()
      reads this
      ensures r == MostRecent(history, key, defaultValue)
    {
      ReplayAgreesWithMostRecent(history, key, defaultValue);
      if key in settings then settings[key] else defaultValue
    }
  }

  // ---------------------------------------------------------------------------
  // The ADM PIN input fields

  /** `Qt.CheckState`. */
  const QT_UNCHECKED: int := 0
  const QT_PARTIALLY_CHECKED: int := 1
  const QT_CHECKED: int := 2

  /** The line edit's text after the hexadecimal check box reports `state`. */
  function HexToggle(text: string, state: int): (r: string)
    ensures state == QT_CHECKED ==> r == "0x" + text
    ensures state == QT_UNCHECKED && StartsWith(text, "0x") ==> "0x" + r == text
    ensures state != QT_CHECKED && (state != QT_UNCHECKED || !StartsWith(text, "0x")) ==> r == text
  {
    if state == QT_CHECKED then "0x" + text
    else if state == QT_UNCHECKED then RemovePrefix(text, "0x")
    else text
  }

  /** Checking the box and then unchecking it gives back the text typed. */
  lemma CheckThenUncheckRestores(text: string)
    ensures HexToggle(HexToggle(text, QT_CHECKED), QT_UNCHECKED) == text
  {
    var t := HexToggle(text, QT_CHECKED);
    assert StartsWith(t, "0x");
    assert t[2..] == text;
  }

  /** Unchecking and then checking gives back a text that had the prefix. */
  lemma UncheckThenCheckRestores(text: string)
    requires StartsWith(text, "0x")
    ensures HexToggle(HexToggle(text, QT_UNCHECKED), QT_CHECKED) == text
  {
  }

  /** Unchecking removes one prefix only: a doubled prefix leaves one behind. */
  lemma UncheckRemovesOnePrefix(text: string)
    ensures HexToggle("0x0x" + text, QT_UNCHECKED) == "0x" + text
  {
    var t := "0x0x" + text;
    assert StartsWith(t, "0x");
    assert t[2..] == "0x" + text;
  }

  datatype InputError =
    | Exception(message: string)      // `raise Exception(...)`
    | JsonFileError(message: string)  // what `JSONFileArgType` raised
    | UnboundLocal(name: string)      // neither radio button checked

  /** What `get_adm_pin_from_input_fields` returns: `(pin_adm, imsi_to_pin_dict)`. */
  datatype PinChoice = PinChoice(pinAdm: Option<string>, pinDict: Option<map<string, string>>)

  /** The widgets of the ADM PIN group of the main window. */
  class AdmPinInputs {
    var pinChecked: bool      // `admPinRadioButton`
    var fileChecked: bool     // `admPinFileRadioButton`
    var text: string          // `admPinLineEdit`

    constructor(pinChecked: bool, fileChecked: bool, text: string)
      ensures this.pinChecked == pinChecked && this.fileChecked == fileChecked && this.text == text
    {
      this.pinChecked := pinChecked;
      this.fileChecked := fileChecked;
      this.text := text;
    }

    /** `on_admPinHexadecimalCheckbox_stateChanged`: only the line edit changes. */
    method OnAdmPinHexadecimalCheckboxStateChanged(state: int)
      modifies this`text
      ensures text == HexToggle(old(text), state)
    {
      if state == QT_CHECKED {
        text := "0x" + text;
      } else if state == QT_UNCHECKED {
        text := RemovePrefix(text, "0x");
      }
    }

    /**
     * `get_adm_pin_from_input_fields`, given what `JSONFileArgType` makes of
     * the selected file: the typed PIN, stripped and rejected when it has
     * the `0x` prefix but is not hexadecimal, or the IMSI to PIN dictionary.
     */
    function GetAdmPinFromInputFields(json: Result<map<string, string>, string>): (r: Result<PinChoice, InputError>)
      reads this
      ensures pinChecked ==> (r.Ok? <==> !(StartsWith(Strip(text), "0x") && !Validation.IsValidHex(Strip(text))))
      ensures pinChecked && r.Ok? ==> r.value == PinChoice(Some(Strip(text)), None)
      ensures pinChecked && r.Err? ==> r.error == Exception("ADM PIN is not valid hex")
      ensures !pinChecked && fileChecked ==> (r.Ok? <==> json.Ok?)
      ensures !pinChecked && fileChecked && json.Ok? ==> r.value == PinChoice(None, Some(json.value))
      ensures !pinChecked && fileChecked && json.Err? ==> r.error == JsonFileError(json.error)
      ensures !pinChecked && !fileChecked ==> r == Err(UnboundLocal("pin_adm"))
    {
      if pinChecked then
        var pin := Strip(text);
        if StartsWith(pin, "0x") && !Validation.IsValidHex(pin) then Err(Exception("ADM PIN is not valid hex"))
        else Ok(PinChoice(Some(pin), None))
      else if fileChecked then
        match json
        case Ok(d) => Ok(PinChoice(None, Some(d)))
        case Err(e) => Err(JsonFileError(e))
      else Err(UnboundLocal("pin_adm"))
    }
  }

  // ---------------------------------------------------------------------------
  // setup_card_reader_and_wait_for_sim_card, read_mode and write_mode

  /**
   * What the table step of `setup_card_reader_and_wait_for_sim_card` works
   * from: whether a CSV file is selected, the filter check box and the filter
   * command's text, the rows `get_dataframe_from_csv` loaded, and the rows
   * the filter command produced from them.
   */
  datatype TableInputs = TableInputs(csvSelected: bool, filterChecked: bool, filterText: string,
                                     loaded: seq<Validation.Row>, filtered: seq<Validation.Row>)

  datatype ModeError =
    | InputRejected(input: InputError)
    | CsvRequired                                     // "CSV File is Required"
    | FilterCommandEmpty                              // "Filter command is empty."
    | TableRejected(invalid: Validation.ValidationError)
    | ReadFailed(error: WorkerError)
    | WriteFailed(error: WorkerError)

  /**
   * The table a card session works on: without a selected CSV file the setup
   * raises; with the filter box checked, the stripped filter command must not
   * be empty and the filter's output must pass `get_filtered_dataframe`;
   * otherwise the loaded rows must pass `check_that_fields_are_valid`.
   */
  function SetupTable(reg: Registry, t: TableInputs): (r: Result<seq<Validation.Row>, ModeError>)
    ensures !t.csvSelected ==> r == Err(CsvRequired)
    ensures t.csvSelected && t.filterChecked && Strip(t.filterText) == [] ==> r == Err(FilterCommandEmpty)
    ensures t.csvSelected && t.filterChecked && Strip(t.filterText) != [] ==>
      && (r.Ok? <==> Validation.CheckForAddedFieldsAfterFilter(Validation.Names(t.loaded), Validation.Names(t.filtered)).Ok?
                     && Validation.AllFieldsValid(reg, t.filtered))
      && (r.Ok? ==> r.value == t.filtered)
    ensures t.csvSelected && !t.filterChecked ==>
      && (r.Ok? <==> Validation.AllFieldsValid(reg, t.loaded))
      && (r.Ok? ==> r.value == t.loaded)
    ensures r.Ok? ==> Validation.AllFieldsValid(reg, r.value)
    ensures r.Err? && (t.csvSelected && (t.filterChecked ==> Strip(t.filterText) != [])) ==> r.error.TableRejected?
  {
    if !t.csvSelected then Err(CsvRequired)
    else if t.filterChecked then
      if Strip(t.filterText) == [] then Err(FilterCommandEmpty)
      else
        match Validation.GetFilteredRows(reg, t.loaded, t.filtered)
        case Err(e) => Err(TableRejected(e))
        case Ok(rows) => Ok(rows)
    else
      match Validation.CheckThatFieldsAreValid(reg, t.loaded)
      case Err(e) => Err(TableRejected(e))
      case Ok(_) => Ok(t.loaded)
  }

  /** The table's rows as the workers see them: each `FieldName` with its `FieldValue`. */
  function WorkerRows(rows: seq<Validation.Row>): (r: seq<Row>)
    ensures |r| == |rows|
    ensures forall i :: 0 <= i < |rows| ==> r[i].name == rows[i].name && r[i].value == rows[i].value
  {
    seq(|rows|, i requires 0 <= i < |rows| => Row(rows[i].name, rows[i].value))
  }

  /**
   * The end of read or write mode: in write mode `Ok(None)` when the user
   * declined to write after the read; `Ok(Some(reports))` with the last
   * worker's table otherwise; the card's files afterwards and every card
   * command issued.
   */
  datatype Mode = Mode(out: Result<Option<seq<Report>>, ModeError>, files: Files, calls: seq<Command>)

  /** `read_mode` once a card is in the reader: set up the table, then run the read worker on it. */
  function ReadModeSpec(p: Profile, fs: Files, reg: Registry, table: TableInputs): (r: Mode)
  {
    match SetupTable(reg, table)
    case Err(e) => Mode(Err(e), fs, [])
    case Ok(valid) =>
      var rd := ReadWorkerSpec(p, fs, reg, WorkerRows(valid));
      var out := if rd.out.Err? then Err(ReadFailed(rd.out.error)) else Ok(Some(rd.out.value));
      Mode(out, rd.files, rd.calls)
  }

  /**
   * `write_mode` once a card is in the reader: take the PIN from the input
   * fields (a failure raises before anything else), set up the table, run
   * the read worker on it, and when it finishes without error and the user
   * `accepted` the prompt, run the write worker on the same table.
   */
  function WriteModeSpec(choice: Result<PinChoice, InputError>, accepted: bool, p: Profile, fs: Files,
                         reg: Registry, table: TableInputs, imsi: string, dryRun: bool): (r: Mode)
  {
    match choice
    case Err(e) => Mode(Err(InputRejected(e)), fs, [])
    case Ok(c) =>
      match SetupTable(reg, table)
      case Err(e) => Mode(Err(e), fs, [])
      case Ok(valid) =>
        var rows := WorkerRows(valid);
        var rd := ReadWorkerSpec(p, fs, reg, rows);
        if rd.out.Err? then Mode(Err(ReadFailed(rd.out.error)), rd.files, rd.calls)
        else if !accepted then Mode(Ok(None), rd.files, rd.calls)
        else
          var wr := WriteWorkerSpec(p, rd.files, reg, rows, imsi, c.pinAdm, c.pinDict, dryRun);
          var out := if wr.out.Err? then Err(WriteFailed(wr.out.error)) else Ok(Some(wr.out.value));
          Mode(out, wr.files, rd.calls + wr.calls)
  }

  /** A typed PIN with the `0x` prefix that is not hexadecimal fails before any card command. */
  lemma InvalidHexPinRaisesBeforeCardAccess(inputs: AdmPinInputs, json: Result<map<string, string>, string>,
                                            accepted: bool, p: Profile, fs: Files, reg: Registry,
                                            table: TableInputs, imsi: string, dryRun: bool)
    requires inputs.pinChecked
    requires StartsWith(Strip(inputs.text), "0x") && !Validation.IsValidHex(Strip(inputs.text))
    ensures var r := WriteModeSpec(inputs.GetAdmPinFromInputFields(json), accepted, p, fs, reg, table, imsi, dryRun);
      r.out == Err(InputRejected(Exception("ADM PIN is not valid hex"))) && r.files == fs && r.calls == []
  {
  }

  /**
   * Both modes touch the card only with a table that passed validation: a
   * table the setup rejects ends either mode with that error before any card
   * command, and any card command means the table is valid.
   */
  lemma ModesValidateBeforeCardAccess(choice: Result<PinChoice, InputError>, accepted: bool, p: Profile, fs: Files,
                                      reg: Registry, table: TableInputs, imsi: string, dryRun: bool)
    ensures var s := SetupTable(reg, table);
      var w := WriteModeSpec(choice, accepted, p, fs, reg, table, imsi, dryRun);
      var rm := ReadModeSpec(p, fs, reg, table);
      && (s.Err? ==> rm == Mode(Err(s.error), fs, []))
      && (s.Err? && choice.Ok? ==> w == Mode(Err(s.error), fs, []))
      && (w.calls != [] || rm.calls != [] ==> s.Ok? && Validation.AllFieldsValid(reg, s.value))
      && (w.calls != [] ==> choice.Ok?)
  {
  }

  /** Without a selected CSV file neither mode issues a card command. */
  lemma NoCsvNoCardAccess(c: PinChoice, accepted: bool, p: Profile, fs: Files,
                          reg: Registry, table: TableInputs, imsi: string, dryRun: bool)
    requires !table.csvSelected
    ensures WriteModeSpec(Ok(c), accepted, p, fs, reg, table, imsi, dryRun) == Mode(Err(CsvRequired), fs, [])
    ensures ReadModeSpec(p, fs, reg, table) == Mode(Err(CsvRequired), fs, [])
  {
  }

  /** Read mode only queries the card and leaves it as it was. */
  lemma ReadModeOnlyQueries(p: Profile, fs: Files, reg: Registry, table: TableInputs)
    ensures var r := ReadModeSpec(p, fs, reg, table);
      r.files == fs && GuiProperties.OnlyQueries(r.calls)
  {
    var s := SetupTable(reg, table);
    if s.Ok? {
      GuiProperties.ReadWorkerOnlyQueries(p, fs, reg, WorkerRows(s.value));
    }
  }

  /**
   * Once the PIN and the table are taken, write mode first reads: the read
   * worker's commands come first, query only, and leave the card as it was,
   * so the write worker starts from the card as inserted. Declining the
   * prompt leaves the card unchanged.
   */
  lemma WriteModeReadsFirst(c: PinChoice, accepted: bool, p: Profile, fs: Files,
                            reg: Registry, table: TableInputs, imsi: string, dryRun: bool)
    ensures var s := SetupTable(reg, table);
      s.Ok? ==>
        var rows := WorkerRows(s.value);
        var r := WriteModeSpec(Ok(c), accepted, p, fs, reg, table, imsi, dryRun);
        var rd := ReadWorkerSpec(p, fs, reg, rows);
        && rd.calls <= r.calls && GuiProperties.OnlyQueries(rd.calls)
        && (rd.out.Err? || !accepted ==> r.files == fs && r.calls == rd.calls)
        && (rd.out.Ok? && accepted ==>
              var wr := WriteWorkerSpec(p, fs, reg, rows, imsi, c.pinAdm, c.pinDict, dryRun);
              r.files == wr.files && r.calls == rd.calls + wr.calls && (r.out.Ok? <==> wr.out.Ok?))
  {
    var s := SetupTable(reg, table);
    if s.Ok? {
      GuiProperties.ReadWorkerOnlyQueries(p, fs, reg, WorkerRows(s.value));
    }
  }

  /** The PIN typed into the line edit, stripped, is the PIN the write worker submits. */
  lemma TypedPinReachesWriteWorker(inputs: AdmPinInputs, json: Result<map<string, string>, string>,
                                   p: Profile, fs: Files, reg: Registry, table: TableInputs, imsi: string, dryRun: bool)
    requires inputs.pinChecked && inputs.GetAdmPinFromInputFields(json).Ok?
    requires SetupTable(reg, table).Ok?
    requires ReadWorkerSpec(p, fs, reg, WorkerRows(SetupTable(reg, table).value)).out.Ok?
    ensures var rows := WorkerRows(SetupTable(reg, table).value);
      var r := WriteModeSpec(inputs.GetAdmPinFromInputFields(json), true, p, fs, reg, table, imsi, dryRun);
      var wr := WriteWorkerSpec(p, fs, reg, rows, imsi, Some(Strip(inputs.text)), None, dryRun);
      r.files == wr.files && r.calls == ReadWorkerSpec(p, fs, reg, rows).calls + wr.calls
  {
    GuiProperties.ReadWorkerOnlyQueries(p, fs, reg, WorkerRows(SetupTable(reg, table).value));
  }

  /** In a dry run (the front end's default), write mode changes nothing on the card and only queries it. */
  lemma DryRunWriteModeOnlyQueries(choice: Result<PinChoice, InputError>, accepted: bool, p: Profile, fs: Files,
                                   reg: Registry, table: TableInputs, imsi: string)
    ensures var r := WriteModeSpec(choice, accepted, p, fs, reg, table, imsi, true);
      r.files == fs && GuiProperties.OnlyQueries(r.calls)
  {
    var s := SetupTable(reg, table);
    if choice.Ok? && s.Ok? {
      var c := choice.value;
      var rows := WorkerRows(s.value);
      GuiProperties.ReadWorkerOnlyQueries(p, fs, reg, rows);
      var rd := ReadWorkerSpec(p, fs, reg, rows);
      var wr := WriteWorkerSpec(p, rd.files, reg, rows, imsi, c.pinAdm, c.pinDict, true);
      GuiProperties.DryRunOnlyQueries(p, fs, reg, rows, imsi, c.pinAdm, c.pinDict);
      GuiProperties.QueriesJoin(rd.calls, wr.calls);
    }
  }
}

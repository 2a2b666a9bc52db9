/**
 * The field-programming engine of src/sim_csv_script/app.py over the card of
 * module Card.
 *
 * Every operation is given twice: as a specification function over a card
 * profile and its files, returning a `Run` (the outcome, the files afterwards
 * and the card commands issued in order), and as a method over a `SimCard`
 * that issues those commands one by one and is proved to agree with it.
 * Properties of the operations are proved about the specification functions
 * (here and in module EngineProperties).
 */
module Engine {
  import opened Wrappers
  import opened PyText
  import opened Registry
  import opened Card
  import opened Seqs

  /** The CHV number of the ADM key passed to `verify_chv`. */
  const ADM_CHV: int := 0x0A

  /** `num_chars_to_display` of `read_write_to_fieldname`: the width of the difference line. */
  const DIFF_DISPLAY_CHARS: nat := 50

  /** How a card command failed: it raised, or it returned a status other than "9000". */
  datatype Cause = Raised | BadStatus(sw: string)

  /** Why an application-context check failed. */
  datatype ContextCause = SelectRaised | SelectStatus(sw: string) | FileMissing(ef: FileId)

  datatype Error =
    | KeyError(name: FieldName)                                    // name not in ALL_FieldName_to_EF
    | AssertionFailed                                              // a Python `assert`
    | RequiresApp(app: App, field: FieldName, cause: ContextCause) // RequiresIsimError / RequiresUsimError
    | CardException                                                // a pySim exception the engine lets through
    | ZeroDivision                                                 // width // record count with no records
    | IndexError                                                   // the difference report indexing past the card value
    | WidthMismatch(valueBytes: int, width: int)                   // ValueError of verify_full_field_width
    | PinRejectedBySanitiser                                       // pySim's sanitize_pin_adm raised
    | InvalidAdmPin                                                // InvalidADMPinError
    | ReadField(field: FieldName, readCause: Cause)                // ReadFieldError
    | WriteField(field: FieldName, writeCause: Cause)              // WriteFieldError
    | VerifyField(field: FieldName, expected: string, actual: string) // VerifyFieldError

  /** The verdicts of `verify_full_field_width` that are not errors: True, or pd.NA. */
  datatype WidthVerdict = Matches | Inconclusive

  /** An operation's outcome, the card's files afterwards and the commands it issued. */
  datatype Run<+T> = Run(out: Result<T, Error>, files: Files, calls: seq<Command>)

  function AppMap(reg: Registry, app: App): map<FieldName, FileId> {
    match app
    case Isim => reg.isim
    case Usim => reg.usim
  }

  // ---------------------------------------------------------------------------
  // check_isim_field / check_usim_field
  // ---------------------------------------------------------------------------

  /** `check_isim_field` (app = Isim) and `check_usim_field` (app = Usim). */
  function AppCheck(p: Profile, fs: Files, reg: Registry, app: App, name: FieldName): (r: Run<()>)
    ensures r.files == fs
    ensures name !in AppMap(reg, app) ==> r.out.Ok? && r.calls == []
    ensures name in AppMap(reg, app) ==>
      (r.out.Ok? <==> app in p.apps && SelectReply(p, app) == Status(SW_OK) && reg.All()[name] in fs)
    ensures name in AppMap(reg, app) && app !in p.apps ==> r.out == Err(AssertionFailed) && r.calls == []
    ensures name in AppMap(reg, app) && app in p.apps ==> |r.calls| > 0 && r.calls[0] == SelectAdf(app)
    ensures r.out.Err? ==> r.out.error == AssertionFailed || (r.out.error.RequiresApp? && r.out.error.app == app)
  {
    if name !in AppMap(reg, app) then Run(Ok(()), fs, [])
    else if app !in p.apps then Run(Err(AssertionFailed), fs, [])
    else
      match SelectReply(p, app)
      case Raises => Run(Err(RequiresApp(app, name, SelectRaised)), fs, [SelectAdf(app)])
      case Status(sw) =>
        if sw != SW_OK then Run(Err(RequiresApp(app, name, SelectStatus(sw))), fs, [SelectAdf(app)])
        else
          var ef := reg.All()[name];
          var calls := [SelectAdf(app), FileExists(ef)];
          if ef !in fs then Run(Err(RequiresApp(app, name, FileMissing(ef))), fs, calls)
          else Run(Ok(()), fs, calls)
  }

  /** The ISIM check followed by the USIM check, as every per-field operation starts. */
  function Contexts(p: Profile, fs: Files, reg: Registry, name: FieldName): (r: Run<()>)
    ensures r.files == fs
    ensures r.out.Ok? <==> AppCheck(p, fs, reg, Isim, name).out.Ok? && AppCheck(p, fs, reg, Usim, name).out.Ok?
    ensures name !in reg.isim && name !in reg.usim ==> r.out.Ok? && r.calls == []
  {
    var i := AppCheck(p, fs, reg, Isim, name);
    if i.out.Err? then i
    else
      var u := AppCheck(p, fs, reg, Usim, name);
      Run(u.out, fs, i.calls + u.calls)
  }

  method CheckAppField(card: SimCard, reg: Registry, app: App, name: FieldName) returns (out: Result<(), Error>)
    modifies card`trace
    ensures var r := AppCheck(card.profile, card.files, reg, app, name);
      out == r.out && card.trace == old(card.trace) + r.calls
  {
    if name !in AppMap(reg, app) {
      return Ok(());
    }
    if app !in card.profile.apps {
      return Err(AssertionFailed);
    }
    var reply := card.SelectAdfByAid(app);
    if reply.Raises? {
      return Err(RequiresApp(app, name, SelectRaised));
    }
    if reply.sw != SW_OK {
      return Err(RequiresApp(app, name, SelectStatus(reply.sw)));
    }
    var ef := reg.All()[name];
    var onCard := card.FileExistsOnCard(ef);
    if !onCard {
      return Err(RequiresApp(app, name, FileMissing(ef)));
    }
    return Ok(());
  }

  /** `check_isim_field` then `check_usim_field`. */
  method CheckContexts(card: SimCard, reg: Registry, name: FieldName) returns (out: Result<(), Error>)
    modifies card`trace
    ensures var r := Contexts(card.profile, card.files, reg, name);
      out == r.out && card.trace == old(card.trace) + r.calls
  {
    out := CheckAppField(card, reg, Isim, name);
    if out.Err? {
      return;
    }
    out := CheckAppField(card, reg, Usim, name);
  }

  // ---------------------------------------------------------------------------
  // verify_full_field_width
  // ---------------------------------------------------------------------------

  function WidthCheck(p: Profile, fs: Files, reg: Registry, name: FieldName, value: string): (r: Run<WidthVerdict>)
    ensures r.files == fs
    ensures Contexts(p, fs, reg, name).out.Ok? && name in reg.All() ==>
      var ef := reg.All()[name];
      && (r.out == Ok(Inconclusive) <==> ef !in p.sizes)
      && (r.out == Ok(Matches) <==> ef in p.sizes && p.sizes[ef] == |value| / 2)
      && (r.out.Err? <==> ef in p.sizes && p.sizes[ef] != |value| / 2)
      && (r.out.Err? ==> r.out.error == WidthMismatch(|value| / 2, p.sizes[ef]))
    ensures Contexts(p, fs, reg, name).out.Err? ==> r.out == Err(Contexts(p, fs, reg, name).out.error)
  {
    var c := Contexts(p, fs, reg, name);
    if c.out.Err? then Run(Err(c.out.error), fs, c.calls)
    else if name !in reg.All() then Run(Err(KeyError(name)), fs, c.calls)
    else
      var ef := reg.All()[name];
      var calls := c.calls + [BinarySize(ef)];
      if ef !in p.sizes then Run(Ok(Inconclusive), fs, calls)
      else if p.sizes[ef] == |value| / 2 then Run(Ok(Matches), fs, calls)
      else Run(Err(WidthMismatch(|value| / 2, p.sizes[ef])), fs, calls)
  }

  method VerifyFullFieldWidth(card: SimCard, reg: Registry, name: FieldName, value: string)
    returns (out: Result<WidthVerdict, Error>)
    modifies card`trace
    ensures var r := WidthCheck(card.profile, card.files, reg, name, value);
      out == r.out && card.trace == old(card.trace) + r.calls
  {
    var valueBytes := |value| / 2;
    var contexts := CheckContexts(card, reg, name);
    if contexts.Err? {
      return Err(contexts.error);
    }
    if name !in reg.All() {
      return Err(KeyError(name));
    }
    var ef := reg.All()[name];
    var width := card.BinarySizeOf(ef);
    if width.None? {
      return Ok(Inconclusive);
    }
    if width.value == valueBytes {
      return Ok(Matches);
    }
    return Err(WidthMismatch(valueBytes, width.value));
  }

  // ---------------------------------------------------------------------------
  // check_pin_adm
  // ---------------------------------------------------------------------------

  /** A PIN starting with "0x" is hex digits after the prefix; any other PIN is ASCII. */
  function ParseAdmPin(pin: string): (r: AdmPin)
    ensures r.HexPin? <==> StartsWith(pin, "0x")
    ensures r.HexPin? ==> "0x" + r.digits == pin
    ensures r.AsciiPin? ==> r.text == pin
  {
    if StartsWith(pin, "0x") then HexPin(pin[2..]) else AsciiPin(pin)
  }

  function PinCheck(p: Profile, fs: Files, pin: string): (r: Run<()>)
    ensures r.files == fs
    ensures r.out.Ok? <==> ParseAdmPin(pin) in p.admStatus && p.admStatus[ParseAdmPin(pin)] == SW_OK
    ensures r.out == Err(InvalidAdmPin) <==> ParseAdmPin(pin) in p.admStatus && p.admStatus[ParseAdmPin(pin)] != SW_OK
    ensures r.calls == if ParseAdmPin(pin) in p.admStatus then [VerifyChv(ADM_CHV, ParseAdmPin(pin))] else []
  {
    var form := ParseAdmPin(pin);
    if form !in p.admStatus then Run(Err(PinRejectedBySanitiser), fs, [])
    else if p.admStatus[form] != SW_OK then Run(Err(InvalidAdmPin), fs, [VerifyChv(ADM_CHV, form)])
    else Run(Ok(()), fs, [VerifyChv(ADM_CHV, form)])
  }

  method CheckPinAdm(card: SimCard, pin: string) returns (out: Result<(), Error>)
    modifies card`trace
    ensures var r := PinCheck(card.profile, card.files, pin);
      out == r.out && card.trace == old(card.trace) + r.calls
  {
    var form := ParseAdmPin(pin);
    if form !in card.profile.admStatus {
      return Err(PinRejectedBySanitiser);
    }
    var sw := card.VerifyChvWith(ADM_CHV, form);
    if sw != SW_OK {
      return Err(InvalidAdmPin);
    }
    return Ok(());
  }

  // ---------------------------------------------------------------------------
  // read_field_data
  // ---------------------------------------------------------------------------

  /** The outcome of one read command of `t` for `name`. */
  function ReadOnce(p: Profile, fs: Files, name: FieldName, t: Target): (r: Result<string, Error>)
    ensures r.Ok? <==> ReadReply(p, fs, t) == Status(SW_OK)
    ensures r.Ok? ==> r.value == DataAt(fs, t)
    ensures r.Err? ==> r.error.ReadField? && r.error.field == name
  {
    match ReadReply(p, fs, t)
    case Raises => Err(ReadField(name, Raised))
    case Status(sw) => if sw != SW_OK then Err(ReadField(name, BadStatus(sw))) else Ok(DataAt(fs, t))
  }

  /** Reading records 1..k of `ef` in ascending order, concatenating what they hold. */
  function ReadRecordsSpec(p: Profile, fs: Files, name: FieldName, ef: FileId, k: nat): (r: Run<string>)
    ensures r.files == fs && |r.calls| <= k
    ensures r.out.Ok? <==> forall j :: 1 <= j <= k ==> ReadReply(p, fs, Record(ef, j)) == Status(SW_OK)
    ensures r.out.Ok? ==> |r.calls| == k
    ensures r.out.Err? ==> r.out.error.ReadField? && r.out.error.field == name
  {
    if k == 0 then Run(Ok(""), fs, [])
    else
      var prev := ReadRecordsSpec(p, fs, name, ef, k - 1);
      if prev.out.Err? then prev
      else
        var calls := prev.calls + [ReadRecord(ef, k)];
        match ReadOnce(p, fs, name, Record(ef, k))
        case Err(e) => Run(Err(e), fs, calls)
        case Ok(data) => Run(Ok(prev.out.value + data), fs, calls)
  }

  /** `read_field_data(card, name, record_number=rn)`. */
  function ReadSpec(p: Profile, fs: Files, reg: Registry, name: FieldName, rn: Option<int>): (r: Run<string>)
    ensures r.files == fs
    ensures name !in reg.All() ==> r.out == Err(KeyError(name)) && r.calls == []
    ensures name in reg.All() && name !in RECORD_FIELDS ==>
      r.calls == [ReadBinary(reg.All()[name])] && r.out == ReadOnce(p, fs, name, Whole(reg.All()[name]))
  {
    if name !in reg.All() then Run(Err(KeyError(name)), fs, [])
    else
      var ef := reg.All()[name];
      if name in RECORD_FIELDS then
        match RecordCountOf(fs, ef)
        case None => Run(Err(CardException), fs, [RecordCount(ef)])
        case Some(count) =>
          match rn
          case None =>
            var all := ReadRecordsSpec(p, fs, name, ef, count);
            Run(all.out, fs, [RecordCount(ef)] + all.calls)
          case Some(n) =>
            Run(ReadOnce(p, fs, name, Record(ef, n)), fs, [RecordCount(ef), ReadRecord(ef, n)])
      else
        Run(ReadOnce(p, fs, name, Whole(ef)), fs, [ReadBinary(ef)])
  }

  /** Once reading records 1..k has failed, reading further records changes nothing. */
  lemma {:induction false} ReadRecordsErrStays(p: Profile, fs: Files, name: FieldName, ef: FileId, k: nat, m: nat)
    requires k <= m && ReadRecordsSpec(p, fs, name, ef, k).out.Err?
    ensures ReadRecordsSpec(p, fs, name, ef, m) == ReadRecordsSpec(p, fs, name, ef, k)
    decreases m - k
  {
    if k < m {
      ReadRecordsErrStays(p, fs, name, ef, k, m - 1);
    }
  }

  method ReadFieldData(card: SimCard, reg: Registry, name: FieldName, recordNumber: Option<int>)
    returns (out: Result<string, Error>)
    modifies card`trace
    ensures var r := ReadSpec(card.profile, card.files, reg, name, recordNumber);
      out == r.out && card.trace == old(card.trace) + r.calls
  {
    if name !in reg.All() {
      return Err(KeyError(name));
    }
    var ef := reg.All()[name];
    if name !in RECORD_FIELDS {
      var reply, data := card.ReadBinaryOf(ef);
      if reply.Raises? {
        return Err(ReadField(name, Raised));
      }
      if reply.sw != SW_OK {
        return Err(ReadField(name, BadStatus(reply.sw)));
      }
      return Ok(data);
    }
    var count := card.RecordCountOfFile(ef);
    if count.None? {
      return Err(CardException);
    }
    if recordNumber.Some? {
      var reply, data := card.ReadRecordOf(ef, recordNumber.value);
      if reply.Raises? {
        return Err(ReadField(name, Raised));
      }
      if reply.sw != SW_OK {
        return Err(ReadField(name, BadStatus(reply.sw)));
      }
      return Ok(data);
    }
    out := ReadAllRecords(card, name, ef, count.value);
  }

  /** The loop of `read_field_data` over records 1..count. */
  method ReadAllRecords(card: SimCard, name: FieldName, ef: FileId, count: nat) returns (out: Result<string, Error>)
    modifies card`trace
    ensures var r := ReadRecordsSpec(card.profile, card.files, name, ef, count);
      out == r.out && card.trace == old(card.trace) + r.calls
  {
    var readValue := "";
    var recNo := 1;
    while recNo <= count
      invariant 1 <= recNo <= count + 1
      invariant var s := ReadRecordsSpec(card.profile, card.files, name, ef, recNo - 1);
        s.out == Ok(readValue) && card.trace == old(card.trace) + s.calls
    {
      var reply, data := card.ReadRecordOf(ef, recNo);
      if reply.Raises? || reply.sw != SW_OK {
        ReadRecordsErrStays(card.profile, card.files, name, ef, recNo, count);
        if reply.Raises? {
          return Err(ReadField(name, Raised));
        }
        return Err(ReadField(name, BadStatus(reply.sw)));
      }
      readValue := readValue + data;
      recNo := recNo + 1;
    }
    return Ok(readValue);
  }

  // ---------------------------------------------------------------------------
  // write_field_data
  // ---------------------------------------------------------------------------

  /** The assertions of `write_field_data` on a record field, in the order they fire. */
  predicate RecordArgumentsHold(valueBytes: int, width: int, count: int, recordSize: int, rn: Option<int>) {
    && (valueBytes == width ==> rn.None?)
    && (rn.None? ==> valueBytes == width)
    && (rn.Some? ==> 0 < rn.value <= count)
    && (rn.Some? ==> valueBytes == recordSize)
  }

  /** `value[i*rs*2 : (i*rs+rs)*2]`: the hex characters written to record i + 1 when a full-width value is split. */
  function Slice(value: string, recordSize: nat, i: nat): string {
    PySlice(value, i * recordSize * 2, (i * recordSize + recordSize) * 2)
  }

  /** Updating records 1..k of `ef` with consecutive slices; the status is ignored, only an exception stops it. */
  function WriteRecordsSpec(p: Profile, fs: Files, name: FieldName, ef: FileId, value: string, recordSize: nat, k: nat): (r: Run<bool>)
    ensures |r.calls| <= k
    ensures r.out.Ok? ==> |r.calls| == k && r.out.value
    ensures r.out.Err? ==> r.out.error == WriteField(name, Raised)
    ensures r.files.Keys == fs.Keys
  {
    if k == 0 then Run(Ok(true), fs, [])
    else
      var prev := WriteRecordsSpec(p, fs, name, ef, value, recordSize, k - 1);
      if prev.out.Err? then prev
      else
        var data := Slice(value, recordSize, k - 1);
        var t := Record(ef, k);
        var files := AfterUpdate(p, prev.files, t, data);
        var calls := prev.calls + [UpdateRecord(ef, k, data)];
        if UpdateReply(p, prev.files, t) == Raises then Run(Err(WriteField(name, Raised)), files, calls)
        else Run(Ok(true), files, calls)
  }

  lemma {:induction false} WriteRecordsErrStays(p: Profile, fs: Files, name: FieldName, ef: FileId, value: string, recordSize: nat, k: nat, m: nat)
    requires k <= m && WriteRecordsSpec(p, fs, name, ef, value, recordSize, k).out.Err?
    ensures WriteRecordsSpec(p, fs, name, ef, value, recordSize, m) == WriteRecordsSpec(p, fs, name, ef, value, recordSize, k)
    decreases m - k
  {
    if k < m {
      WriteRecordsErrStays(p, fs, name, ef, value, recordSize, k, m - 1);
    }
  }

  function WriteRecordField(p: Profile, fs: Files, name: FieldName, ef: FileId, value: string, rn: Option<int>, dryRun: bool): (r: Run<bool>)
  {
    match RecordCountOf(fs, ef)
    case None => Run(Err(CardException), fs, [RecordCount(ef)])
    case Some(count) =>
      var pre := [RecordCount(ef), BinarySize(ef)];
      if ef !in p.sizes then Run(Err(CardException), fs, pre)
      else if count == 0 then Run(Err(ZeroDivision), fs, pre)
      else
        var width := p.sizes[ef];
        var recordSize := width / count;
        if !RecordArgumentsHold(|value| / 2, width, count, recordSize, rn) then Run(Err(AssertionFailed), fs, pre)
        else if dryRun then Run(Ok(true), fs, pre)
        else
          match rn
          case None =>
            var w := WriteRecordsSpec(p, fs, name, ef, value, recordSize, count);
            Run(w.out, w.files, pre + w.calls)
          case Some(n) =>
            var t := Record(ef, n);
            var calls := pre + [UpdateRecord(ef, n, value)];
            var files := AfterUpdate(p, fs, t, value);
            if UpdateReply(p, fs, t) == Raises then Run(Err(WriteField(name, Raised)), files, calls)
            else Run(Ok(true), files, calls)
  }

  /** `write_field_data(card, name, value, record_number=rn, dry_run=dryRun)`. */
  function WriteSpec(p: Profile, fs: Files, reg: Registry, name: FieldName, value: string, rn: Option<int>, dryRun: bool): (r: Run<bool>)
    ensures r.out.Ok? ==> r.out.value
    ensures r.files.Keys == fs.Keys
  {
    if name !in reg.All() then Run(Err(KeyError(name)), fs, [])
    else
      var ef := reg.All()[name];
      if name in RECORD_FIELDS then WriteRecordField(p, fs, name, ef, value, rn, dryRun)
      else if dryRun then Run(Ok(true), fs, [])
      else
        var t := Whole(ef);
        var files := AfterUpdate(p, fs, t, value);
        var calls := [UpdateBinary(ef, value)];
        match UpdateReply(p, fs, t)
        case Raises => Run(Err(WriteField(name, Raised)), files, calls)
        case Status(sw) =>
          if sw != SW_OK then Run(Err(WriteField(name, BadStatus(sw))), files, calls)
          else Run(Ok(true), files, calls)
  }

  method WriteFieldData(card: SimCard, reg: Registry, name: FieldName, value: string, recordNumber: Option<int>, dryRun: bool)
    returns (out: Result<bool, Error>)
    modifies card
    ensures var r := WriteSpec(card.profile, old(card.files), reg, name, value, recordNumber, dryRun);
      out == r.out && card.files == r.files && card.trace == old(card.trace) + r.calls
  {
    if name !in reg.All() {
      return Err(KeyError(name));
    }
    var ef := reg.All()[name];
    if name !in RECORD_FIELDS {
      if !dryRun {
        var reply := card.UpdateBinaryOf(ef, value);
        if reply.Raises? {
          return Err(WriteField(name, Raised));
        }
        if reply.sw != SW_OK {
          return Err(WriteField(name, BadStatus(reply.sw)));
        }
      }
      return Ok(true);
    }
    out := WriteRecordFieldData(card, name, ef, value, recordNumber, dryRun);
  }

  /** The record-field branch of `write_field_data`: every assertion before the first update. */
  method WriteRecordFieldData(card: SimCard, name: FieldName, ef: FileId, value: string, recordNumber: Option<int>, dryRun: bool)
    returns (out: Result<bool, Error>)
    modifies card
    ensures var r := WriteRecordField(card.profile, old(card.files), name, ef, value, recordNumber, dryRun);
      out == r.out && card.files == r.files && card.trace == old(card.trace) + r.calls
  {
    ghost var p, fs, t0 := card.profile, card.files, card.trace;
    var count := card.RecordCountOfFile(ef);
    if count.None? {
      return Err(CardException);
    }
    var width := card.BinarySizeOf(ef);
    ghost var pre := [RecordCount(ef), BinarySize(ef)];
    assert card.trace == t0 + pre && card.files == fs;
    if width.None? {
      return Err(CardException);
    }
    if count.value == 0 {
      return Err(ZeroDivision);
    }
    var recordSize := width.value / count.value;
    var valueBytes := |value| / 2;
    if valueBytes == width.value && recordNumber.Some? {
      return Err(AssertionFailed);
    }
    if recordNumber.None? && valueBytes != width.value {
      return Err(AssertionFailed);
    }
    if recordNumber.Some? && !(recordNumber.value > 0 && recordNumber.value <= count.value) {
      return Err(AssertionFailed);
    }
    if recordNumber.Some? && valueBytes != recordSize {
      return Err(AssertionFailed);
    }
    assert RecordArgumentsHold(valueBytes, width.value, count.value, recordSize, recordNumber);
    if dryRun {
      return Ok(true);
    }
    if recordNumber.Some? {
      var reply := card.UpdateRecordOf(ef, recordNumber.value, value);
      if reply.Raises? {
        return Err(WriteField(name, Raised));
      }
      return Ok(true);
    }
    out := WriteAllRecords(card, name, ef, value, recordSize, count.value);
  }

  /** The loop of `write_field_data` writing a full-width value record by record. */
  method WriteAllRecords(card: SimCard, name: FieldName, ef: FileId, value: string, recordSize: nat, count: nat)
    returns (out: Result<bool, Error>)
    modifies card
    ensures var r := WriteRecordsSpec(card.profile, old(card.files), name, ef, value, recordSize, count);
      out == r.out && card.files == r.files && card.trace == old(card.trace) + r.calls
  {
    var i := 0;
    while i < count
      invariant 0 <= i <= count
      invariant var s := WriteRecordsSpec(card.profile, old(card.files), name, ef, value, recordSize, i);
        s.out.Ok? && card.files == s.files && card.trace == old(card.trace) + s.calls
    {
      ghost var prev := WriteRecordsSpec(card.profile, old(card.files), name, ef, value, recordSize, i);
      var recNo := i + 1;
      var slice := Slice(value, recordSize, i);
      var reply := card.UpdateRecordOf(ef, recNo, slice);
      assert WriteRecordsSpec(card.profile, old(card.files), name, ef, value, recordSize, i + 1)
        == Run(if reply.Raises? then Err(WriteField(name, Raised)) else Ok(true), card.files, prev.calls + [UpdateRecord(ef, recNo, slice)]);
      if reply.Raises? {
        WriteRecordsErrStays(card.profile, old(card.files), name, ef, value, recordSize, i + 1, count);
        return Err(WriteField(name, Raised));
      }
      i := i + 1;
    }
    return Ok(true);
  }

  // ---------------------------------------------------------------------------
  // read_fieldname_simple / write_fieldname_simple / read_write_to_fieldname
  // ---------------------------------------------------------------------------

  /** `read_fieldname_simple`: the context checks, then one read of the whole field. */
  function ReadSimpleSpec(p: Profile, fs: Files, reg: Registry, name: FieldName): (r: Run<string>)
    ensures r.files == fs
    ensures r.out.Ok? <==> Contexts(p, fs, reg, name).out.Ok? && ReadSpec(p, fs, reg, name, None).out.Ok?
    ensures r.out.Ok? ==> r.out == ReadSpec(p, fs, reg, name, None).out
  {
    var c := Contexts(p, fs, reg, name);
    if c.out.Err? then Run(Err(c.out.error), fs, c.calls)
    else
      var b := ReadSpec(p, fs, reg, name, None);
      Run(b.out, fs, c.calls + b.calls)
  }

  /**
   * The write-and-verify portion shared by `write_fieldname_simple` and
   * `read_write_to_fieldname`: write the whole field, read it back and raise
   * VerifyFieldError unless the card now holds `v`.
   */
  function WriteVerifySpec(p: Profile, fs: Files, reg: Registry, name: FieldName, v: string, dryRun: bool): (r: Run<string>)
    ensures r.out.Ok? ==> r.out.value == v
    ensures r.files == WriteSpec(p, fs, reg, name, v, None, dryRun).files
  {
    var w := WriteSpec(p, fs, reg, name, v, None, dryRun);
    if w.out.Err? then Run(Err(w.out.error), w.files, w.calls)
    else
      var a := ReadSpec(p, w.files, reg, name, None);
      var calls := w.calls + a.calls;
      if a.out.Err? then Run(Err(a.out.error), w.files, calls)
      else if v != a.out.value then Run(Err(VerifyField(name, v, a.out.value)), w.files, calls)
      else Run(Ok(a.out.value), w.files, calls)
  }

  /**
   * `write_fieldname_simple`: lower-case the value, check the contexts, read,
   * then write and verify (even when unchanged, and even in a dry run).
   */
  function WriteSimpleSpec(p: Profile, fs: Files, reg: Registry, name: FieldName, value: string, dryRun: bool): (r: Run<string>)
    ensures r.out.Ok? ==> r.out.value == Lower(value)
  {
    var v := Lower(value);
    var c := Contexts(p, fs, reg, name);
    if c.out.Err? then Run(Err(c.out.error), fs, c.calls)
    else
      var b := ReadSpec(p, fs, reg, name, None);
      if b.out.Err? then Run(Err(b.out.error), fs, c.calls + b.calls)
      else
        var wv := WriteVerifySpec(p, fs, reg, name, v, dryRun);
        Run(wv.out, wv.files, c.calls + b.calls + wv.calls)
  }

  /**
   * `read_write_to_fieldname`: lower-case the value, check the contexts and
   * read; an unchanged value is not written; the difference report indexes the
   * card value at every position of the new value; outside a dry run, write
   * and verify.
   */
  function ReadWriteSpec(p: Profile, fs: Files, reg: Registry, name: FieldName, value: string, dryRun: bool, reportDifferences: bool): (r: Run<bool>)
    ensures r.out.Ok? ==> r.out.value
  {
    var v := Lower(value);
    var c := Contexts(p, fs, reg, name);
    if c.out.Err? then Run(Err(c.out.error), fs, c.calls)
    else
      var b := ReadSpec(p, fs, reg, name, None);
      if b.out.Err? then Run(Err(b.out.error), fs, c.calls + b.calls)
      else
        var before := b.out.value;
        if v == before then Run(Ok(true), fs, c.calls + b.calls)
        else if reportDifferences && |before| < |v| then Run(Err(IndexError), fs, c.calls + b.calls)
        else if dryRun then Run(Ok(true), fs, c.calls + b.calls)
        else
          var wv := WriteVerifySpec(p, fs, reg, name, v, false);
          Run(if wv.out.Ok? then Ok(true) else Err(wv.out.error), wv.files, c.calls + b.calls + wv.calls)
  }

  /** The positions from `i` on where `value` and the card value differ, in ascending order. */
  function DiffIndexesFrom(before: string, value: string, i: nat): (r: seq<nat>)
    requires |value| <= |before|
    ensures forall j :: 0 <= j < |r| ==> i <= r[j] < |value|
    ensures forall k :: k in r <==> i <= k < |value| && before[k] != value[k]
    ensures forall j, k :: 0 <= j < k < |r| ==> r[j] < r[k]
    decreases |value| - i
  {
    if i >= |value| then []
    else if before[i] != value[i] then [i] + DiffIndexesFrom(before, value, i + 1)
    else DiffIndexesFrom(before, value, i + 1)
  }

  /** `diff_indexes`: every position of `value` where the card value differs, in ascending order. */
  function DiffIndexes(before: string, value: string): (r: seq<nat>)
    requires |value| <= |before|
    ensures forall k: nat :: k in r <==> k < |value| && before[k] != value[k]
    ensures forall j, k :: 0 <= j < k < |r| ==> r[j] < r[k]
  {
    DiffIndexesFrom(before, value, 0)
  }

  /** `diff_symbols`: a line of `width` blanks with '^' under each difference that fits. */
  method DiffSymbols(indexes: seq<nat>, width: nat) returns (line: string)
    requires forall j, k :: 0 <= j < k < |indexes| ==> indexes[j] < indexes[k]
    ensures |line| == width
    ensures forall k :: 0 <= k < width ==> line[k] == if k in indexes then '^' else ' '
  {
    var symbols := new char[width](_ => ' ');
    var n := 0;
    while n < |indexes|
      invariant 0 <= n <= |indexes|
      invariant forall j :: 0 <= j < n ==> indexes[j] < width
      invariant forall k :: 0 <= k < width ==> symbols[k] == if k in indexes[..n] then '^' else ' '
    {
      if indexes[n] >= width {
        break;
      }
      symbols[indexes[n]] := '^';
      n := n + 1;
    }
    forall k | 0 <= k < width && k in indexes
      ensures k in indexes[..n]
    {
      var j :| 0 <= j < |indexes| && indexes[j] == k;
      assert j < n;
    }
    line := symbols[..];
  }

  method ReadFieldnameSimple(card: SimCard, reg: Registry, name: FieldName) returns (out: Result<string, Error>)
    modifies card`trace
    ensures var r := ReadSimpleSpec(card.profile, card.files, reg, name);
      out == r.out && card.trace == old(card.trace) + r.calls
  {
    var contexts := CheckContexts(card, reg, name);
    if contexts.Err? {
      return Err(contexts.error);
    }
    out := ReadFieldData(card, reg, name, None);
  }

  method WriteAndVerify(card: SimCard, reg: Registry, name: FieldName, v: string, dryRun: bool)
    returns (out: Result<string, Error>)
    modifies card
    ensures var r := WriteVerifySpec(card.profile, old(card.files), reg, name, v, dryRun);
      out == r.out && card.files == r.files && card.trace == old(card.trace) + r.calls
  {
    ghost var t0 := card.trace;
    var written := WriteFieldData(card, reg, name, v, None, dryRun);
    if written.Err? {
      return Err(written.error);
    }
    ghost var w := WriteSpec(card.profile, old(card.files), reg, name, v, None, dryRun);
    var after := ReadFieldData(card, reg, name, None);
    AppendAssociative(t0, w.calls, ReadSpec(card.profile, card.files, reg, name, None).calls);
    if after.Err? {
      return Err(after.error);
    }
    if v != after.value {
      return Err(VerifyField(name, v, after.value));
    }
    return Ok(after.value);
  }

  method WriteFieldnameSimple(card: SimCard, reg: Registry, name: FieldName, value: string, dryRun: bool)
    returns (out: Result<string, Error>)
    modifies card
    ensures var r := WriteSimpleSpec(card.profile, old(card.files), reg, name, value, dryRun);
      out == r.out && card.files == r.files && card.trace == old(card.trace) + r.calls
  {
    ghost var p, fs, t0 := card.profile, card.files, card.trace;
    ghost var c, b := Contexts(p, fs, reg, name), ReadSpec(p, fs, reg, name, None);
    var v := Lower(value);
    var contexts := CheckContexts(card, reg, name);
    if contexts.Err? {
      return Err(contexts.error);
    }
    var before := ReadFieldData(card, reg, name, None);
    if before.Err? {
      return Err(before.error);
    }
    AppendAssociative(t0, c.calls, b.calls);
    out := WriteAndVerify(card, reg, name, v, dryRun);
    ghost var wv := WriteVerifySpec(p, fs, reg, name, v, dryRun);
    AppendAssociative(t0, c.calls + b.calls, wv.calls);
  }

  method ReadWriteToFieldname(card: SimCard, reg: Registry, name: FieldName, value: string, dryRun: bool, reportDifferences: bool)
    returns (out: Result<bool, Error>)
    modifies card
    ensures var r := ReadWriteSpec(card.profile, old(card.files), reg, name, value, dryRun, reportDifferences);
      out == r.out && card.files == r.files && card.trace == old(card.trace) + r.calls
  {
    ghost var p, fs, t0 := card.profile, card.files, card.trace;
    ghost var c, b := Contexts(p, fs, reg, name), ReadSpec(p, fs, reg, name, None);
    var v := Lower(value);
    var contexts := CheckContexts(card, reg, name);
    if contexts.Err? {
      return Err(contexts.error);
    }
    var before := ReadFieldData(card, reg, name, None);
    if before.Err? {
      return Err(before.error);
    }
    AppendAssociative(t0, c.calls, b.calls);
    if v == before.value {
      return Ok(true);
    }
    if reportDifferences {
      if |before.value| < |v| {
        return Err(IndexError);
      }
      var indexes := DiffIndexes(before.value, v);
      var symbols := DiffSymbols(indexes, DIFF_DISPLAY_CHARS);
    }
    if dryRun {
      return Ok(true);
    }
    ghost var t1 := card.trace;
    var verified := WriteAndVerify(card, reg, name, v, false);
    ghost var wv := WriteVerifySpec(p, fs, reg, name, v, false);
    assert card.trace == t1 + wv.calls;
    AppendAssociative(t0, c.calls + b.calls, wv.calls);
    assert ReadWriteSpec(p, fs, reg, name, value, dryRun, reportDifferences)
      == Run(if wv.out.Ok? then Ok(true) else Err(wv.out.error), wv.files, c.calls + b.calls + wv.calls);
    if verified.Err? {
      return Err(verified.error);
    }
    return Ok(true);
  }
}

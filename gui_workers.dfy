/**
 * The card workers of the desktop front end (src/sim_csv_gui/app.py),
 * `ReadCardWorker.run` and `WriteCardWorker.run`, over the engine of module
 * Engine.
 *
 * A worker makes passes over its table with `df.apply(f, axis=1)`, which
 * calls a card operation `f` on each row in turn; `Apply` is that pass, over
 * any step from the card's files and a row to a `Run` of module Engine. Each
 * worker is a specification function built from passes, returning the
 * outcome, the card's files afterwards, the card commands issued and the
 * progress values emitted; the workers are methods over a `SimCard` proved to
 * agree with those functions. Properties of the workers are proved in module
 * GuiProperties.
 */
module GuiWorkers {
  import opened Wrappers
  import opened PyText
  import opened Seqs
  import opened Registry
  import opened Card
  import opened Engine

  /** A row of the table a worker is given: its `FieldName` and `FieldValue`. */
  datatype Row = Row(name: FieldName, value: string)

  /** A row of the table a worker finishes with, with the added columns `Value On Card` and `Differences`. */
  datatype Report = Report(name: FieldName, value: string, onCard: string, differences: string)

  datatype WorkerError =
    | EngineError(error: Error)        // raised by a check, read or write of the engine
    | AssertionError(message: string)  // the ADM PIN assertions of WriteCardWorker.run

  /** A pass over rows: its outcome, the files afterwards, the commands issued and the progress values emitted. */
  datatype Pass<+T> = Pass(out: Result<T, Error>, files: Files, calls: seq<Command>, progress: seq<nat>)

  /** What a worker's `run` ends with. */
  datatype Outcome = Outcome(out: Result<seq<Report>, WorkerError>, files: Files, calls: seq<Command>, progress: seq<nat>)

  /** The `Differences` cell: "X" where `FieldValue` and `Value On Card` differ. */
  function Differences(value: string, onCard: string): (r: string)
    ensures r == "X" <==> value != onCard
    ensures r == "" <==> value == onCard
  {
    if value != onCard then "X" else ""
  }

  /** `int(((k + 1) / n) * 100)` in exact arithmetic: the percentage emitted when row k (from 0) of n starts. */
  function Progress(k: nat, n: nat): nat
    requires k < n
  {
    (k + 1) * 100 / n
  }

  /** The finished table: each row with the value read back and its difference marker. */
  function Reports(rows: seq<Row>, onCard: seq<string>): (r: seq<Report>)
    requires |onCard| == |rows|
    ensures |r| == |rows|
  {
    seq(|rows|, i requires 0 <= i < |rows| =>
      Report(rows[i].name, rows[i].value, onCard[i], Differences(rows[i].value, onCard[i])))
  }

  // ---------------------------------------------------------------------------
  // df.apply(f, axis=1)
  // ---------------------------------------------------------------------------

  /**
   * `step` applied to rows 0..k-1 in order, each on the files the rows before
   * it left; the first error stops the pass. When `emits`, each row's progress
   * is emitted before the step runs on it.
   */
  function Apply<T>(step: (Files, Row) -> Run<T>, emits: bool, fs: Files, rows: seq<Row>, k: nat): (r: Pass<seq<T>>)
    requires k <= |rows|
    ensures r.out.Ok? ==> |r.out.value| == k
    ensures !emits ==> r.progress == []
    ensures emits ==> |r.progress| <= k && (r.out.Ok? ==> |r.progress| == k)
    ensures emits ==> forall i :: 0 <= i < |r.progress| ==> r.progress[i] == Progress(i, |rows|)
    decreases k
  {
    if k == 0 then Pass(Ok([]), fs, [], [])
    else
      var prev := Apply(step, emits, fs, rows, k - 1);
      if prev.out.Err? then prev
      else
        var w := step(prev.files, rows[k - 1]);
        var progress := if emits then prev.progress + [Progress(k - 1, |rows|)] else prev.progress;
        var calls := prev.calls + w.calls;
        if w.out.Err? then Pass(Err(w.out.error), w.files, calls, progress)
        else Pass(Ok(prev.out.value + [w.out.value]), w.files, calls, progress)
  }

  /** Once a pass has failed, the rows after the failing one are never visited. */
  lemma {:induction false} ApplyErrStays<T>(step: (Files, Row) -> Run<T>, emits: bool, fs: Files, rows: seq<Row>, k: nat, m: nat)
    requires k <= m <= |rows| && Apply(step, emits, fs, rows, k).out.Err?
    ensures Apply(step, emits, fs, rows, m) == Apply(step, emits, fs, rows, k)
    decreases m - k
  {
    if k < m {
      ApplyErrStays(step, emits, fs, rows, k, m - 1);
    }
  }

  /** One more row: the pass so far, then the step on the files it left. */
  lemma ApplyNext<T>(step: (Files, Row) -> Run<T>, emits: bool, fs: Files, rows: seq<Row>, i: nat,
                     prev: Pass<seq<T>>, w: Run<T>)
    requires i < |rows| && prev == Apply(step, emits, fs, rows, i) && prev.out.Ok?
    requires w == step(prev.files, rows[i])
    ensures Apply(step, emits, fs, rows, i + 1) ==
      Pass(if w.out.Err? then Err(w.out.error) else Ok(prev.out.value + [w.out.value]), w.files, prev.calls + w.calls,
           if emits then prev.progress + [Progress(i, |rows|)] else prev.progress)
  {
  }

  /** A step that leaves the card's files as they are, as every check and read does. */
  ghost predicate KeepsFiles<T>(step: (Files, Row) -> Run<T>) {
    forall fs, row :: step(fs, row).files == fs
  }

  /** `verify_full_field_width(card, row["FieldName"], row["FieldValue"])`. */
  function WidthStep(p: Profile, reg: Registry): (Files, Row) -> Run<WidthVerdict> {
    (fs: Files, row: Row) => WidthCheck(p, fs, reg, row.name, row.value)
  }

  /** `read_fieldname_simple(card, row["FieldName"])`. */
  function ReadStep(p: Profile, reg: Registry): (Files, Row) -> Run<string> {
    (fs: Files, row: Row) => ReadSimpleSpec(p, fs, reg, row.name)
  }

  /** `write_fieldname_simple(card, row["FieldName"], row["FieldValue"], dry_run)`. */
  function WriteStep(p: Profile, reg: Registry, dryRun: bool): (Files, Row) -> Run<string> {
    (fs: Files, row: Row) => WriteSimpleSpec(p, fs, reg, row.name, row.value, dryRun)
  }

  lemma WidthStepKeepsFiles(p: Profile, reg: Registry)
    ensures KeepsFiles(WidthStep(p, reg))
  {
  }

  lemma ReadStepKeepsFiles(p: Profile, reg: Registry)
    ensures KeepsFiles(ReadStep(p, reg))
  {
  }

  /** With a step that keeps the files, every row sees the files the pass started with. */
  lemma {:induction false} ApplyKeepingFiles<T>(step: (Files, Row) -> Run<T>, emits: bool, fs: Files, rows: seq<Row>, k: nat)
    requires k <= |rows| && KeepsFiles(step)
    ensures Apply(step, emits, fs, rows, k).files == fs
    ensures Apply(step, emits, fs, rows, k).out.Ok? <==> forall i :: 0 <= i < k ==> step(fs, rows[i]).out.Ok?
    ensures Apply(step, emits, fs, rows, k).out.Ok? ==>
      forall i :: 0 <= i < k ==> Apply(step, emits, fs, rows, k).out.value[i] == step(fs, rows[i]).out.value
    decreases k
  {
    if k > 0 {
      ApplyKeepingFiles(step, emits, fs, rows, k - 1);
    }
  }

  // ---------------------------------------------------------------------------
  // ReadCardWorker
  // ---------------------------------------------------------------------------

  /** `ReadCardWorker.run`: the width pass, then the read pass; the table gains the two columns. */
  function ReadWorkerSpec(p: Profile, fs: Files, reg: Registry, rows: seq<Row>): (r: Outcome)
  {
    var w := Apply(WidthStep(p, reg), false, fs, rows, |rows|);
    if w.out.Err? then Outcome(Err(EngineError(w.out.error)), w.files, w.calls, [])
    else
      var e := Apply(ReadStep(p, reg), true, w.files, rows, |rows|);
      var calls := w.calls + e.calls;
      if e.out.Err? then Outcome(Err(EngineError(e.out.error)), e.files, calls, e.progress)
      else Outcome(Ok(Reports(rows, e.out.value)), e.files, calls, e.progress)
  }

  /** The width pass; its verdicts are what `df.apply` returns, which both workers discard. */
  method VerifyAllWidths(card: SimCard, reg: Registry, rows: seq<Row>) returns (out: Result<seq<WidthVerdict>, Error>)
    modifies card`trace
    ensures var r := Apply(WidthStep(card.profile, reg), false, card.files, rows, |rows|);
      out == r.out && card.trace == old(card.trace) + r.calls
  {
    ghost var t0 := card.trace;
    var step := WidthStep(card.profile, reg);
    var verdicts: seq<WidthVerdict> := [];
    ghost var calls: seq<Command> := [];
    var i := 0;
    while i < |rows|
      invariant 0 <= i <= |rows|
      invariant Apply(step, false, card.files, rows, i) == Pass(Ok(verdicts), card.files, calls, [])
      invariant card.trace == t0 + calls
    {
      ghost var w := WidthCheck(card.profile, card.files, reg, rows[i].name, rows[i].value);
      ApplyNext(step, false, card.files, rows, i, Apply(step, false, card.files, rows, i), w);
      var verdict := VerifyFullFieldWidth(card, reg, rows[i].name, rows[i].value);
      AppendAssociative(t0, calls, w.calls);
      calls := calls + w.calls;
      if verdict.Err? {
        ApplyErrStays(step, false, card.files, rows, i + 1, |rows|);
        return Err(verdict.error);
      }
      verdicts := verdicts + [verdict.value];
      i := i + 1;
    }
    return Ok(verdicts);
  }

  /** The read pass: for each row, emit its progress and call `read_fieldname_simple`. */
  method ReadEachField(card: SimCard, reg: Registry, rows: seq<Row>)
    returns (out: Result<seq<string>, Error>, progress: seq<nat>)
    modifies card`trace
    ensures var r := Apply(ReadStep(card.profile, reg), true, card.files, rows, |rows|);
      out == r.out && progress == r.progress && card.trace == old(card.trace) + r.calls
  {
    ghost var p, fs, t0 := card.profile, card.files, card.trace;
    var step := ReadStep(p, reg);
    progress := [];
    var onCard: seq<string> := [];
    ghost var calls: seq<Command> := [];
    var i := 0;
    while i < |rows|
      invariant 0 <= i <= |rows| && card.files == fs
      invariant Apply(step, true, fs, rows, i) == Pass(Ok(onCard), fs, calls, progress)
      invariant card.trace == t0 + calls
    {
      ghost var b := ReadSimpleSpec(p, fs, reg, rows[i].name);
      ApplyNext(step, true, fs, rows, i, Apply(step, true, fs, rows, i), b);
      progress := progress + [Progress(i, |rows|)];
      var value := ReadFieldnameSimple(card, reg, rows[i].name);
      AppendAssociative(t0, calls, b.calls);
      calls := calls + b.calls;
      if value.Err? {
        ApplyErrStays(step, true, fs, rows, i + 1, |rows|);
        return Err(value.error), progress;
      }
      onCard := onCard + [value.value];
      i := i + 1;
    }
    out := Ok(onCard);
  }

  /** `ReadCardWorker.run`; `progress` is the sequence of values emitted on the progress signal. */
  method ReadCardWorkerRun(card: SimCard, reg: Registry, rows: seq<Row>)
    returns (out: Result<seq<Report>, WorkerError>, progress: seq<nat>)
    modifies card`trace
    ensures var r := ReadWorkerSpec(card.profile, card.files, reg, rows);
      out == r.out && progress == r.progress && card.trace == old(card.trace) + r.calls
  {
    progress := [];
    var widths := VerifyAllWidths(card, reg, rows);
    if widths.Err? {
      return Err(EngineError(widths.error)), progress;
    }
    ghost var w := Apply(WidthStep(card.profile, reg), false, card.files, rows, |rows|);
    WidthStepKeepsFiles(card.profile, reg);
    ApplyKeepingFiles(WidthStep(card.profile, reg), false, card.files, rows, |rows|);
    var onCard;
    onCard, progress := ReadEachField(card, reg, rows);
    AppendAssociative(old(card.trace), w.calls, Apply(ReadStep(card.profile, reg), true, card.files, rows, |rows|).calls);
    if onCard.Err? {
      return Err(EngineError(onCard.error)), progress;
    }
    out := Ok(Reports(rows, onCard.value));
  }

  // ---------------------------------------------------------------------------
  // WriteCardWorker
  // ---------------------------------------------------------------------------

  /**
   * The ADM PIN the write worker submits: with an IMSI-to-PIN dictionary, the
   * entry of the card's IMSI; otherwise the PIN typed in. Each is asserted to
   * be present.
   */
  function SelectPin(imsi: string, pinAdm: Option<string>, pinDict: Option<map<string, string>>): (r: Result<string, WorkerError>)
    ensures pinDict.Some? ==> (r.Ok? <==> imsi in pinDict.value) && (r.Ok? ==> r.value == pinDict.value[imsi])
    ensures pinDict.Some? && imsi !in pinDict.value ==>
      r == Err(AssertionError("IMSI " + imsi + " is not found in PIN ADM JSON file"))
    ensures pinDict.None? ==> (r.Ok? <==> pinAdm.Some?) && (r.Ok? ==> r.value == pinAdm.value)
    ensures pinDict.None? && pinAdm.None? ==> r == Err(AssertionError("ADM PIN is None"))
  {
    if pinDict.Some? then
      if imsi in pinDict.value then Ok(pinDict.value[imsi])
      else Err(AssertionError("IMSI " + imsi + " is not found in PIN ADM JSON file"))
    else if pinAdm.Some? then Ok(pinAdm.value)
    else Err(AssertionError("ADM PIN is None"))
  }

  /** The PIN step of the write worker: `check_pin_adm` outside a dry run, nothing in one. */
  function PinStep(p: Profile, fs: Files, pin: string, dryRun: bool): (r: Run<()>)
    ensures r.files == fs
    ensures dryRun ==> r.out.Ok? && r.calls == []
    ensures !dryRun ==> r == PinCheck(p, fs, pin)
  {
    if dryRun then Run(Ok(()), fs, []) else PinCheck(p, fs, pin)
  }

  /**
   * `WriteCardWorker.run`: choose the PIN, make the width pass, submit the PIN
   * unless in a dry run, then make the write pass; the table gains the two
   * columns.
   */
  function WriteWorkerSpec(p: Profile, fs: Files, reg: Registry, rows: seq<Row>, imsi: string,
                           pinAdm: Option<string>, pinDict: Option<map<string, string>>, dryRun: bool): (r: Outcome)
  {
    match SelectPin(imsi, pinAdm, pinDict)
    case Err(e) => Outcome(Err(e), fs, [], [])
    case Ok(pin) =>
      var w := Apply(WidthStep(p, reg), false, fs, rows, |rows|);
      if w.out.Err? then Outcome(Err(EngineError(w.out.error)), w.files, w.calls, [])
      else
        var c := PinStep(p, w.files, pin, dryRun);
        if c.out.Err? then Outcome(Err(EngineError(c.out.error)), c.files, w.calls + c.calls, [])
        else
          var e := Apply(WriteStep(p, reg, dryRun), true, c.files, rows, |rows|);
          var calls := w.calls + c.calls + e.calls;
          if e.out.Err? then Outcome(Err(EngineError(e.out.error)), e.files, calls, e.progress)
          else Outcome(Ok(Reports(rows, e.out.value)), e.files, calls, e.progress)
  }

  /** The write pass: for each row, emit its progress and call `write_fieldname_simple`. */
  method WriteEachField(card: SimCard, reg: Registry, rows: seq<Row>, dryRun: bool)
    returns (out: Result<seq<string>, Error>, progress: seq<nat>)
    modifies card
    ensures var r := Apply(WriteStep(card.profile, reg, dryRun), true, old(card.files), rows, |rows|);
      out == r.out && progress == r.progress && card.files == r.files && card.trace == old(card.trace) + r.calls
  {
    ghost var p, fs, t0 := card.profile, card.files, card.trace;
    var step := WriteStep(p, reg, dryRun);
    progress := [];
    var onCard: seq<string> := [];
    ghost var calls: seq<Command> := [];
    var i := 0;
    while i < |rows|
      invariant 0 <= i <= |rows|
      invariant Apply(step, true, fs, rows, i) == Pass(Ok(onCard), card.files, calls, progress)
      invariant card.trace == t0 + calls
    {
      ghost var b := WriteSimpleSpec(p, card.files, reg, rows[i].name, rows[i].value, dryRun);
      ApplyNext(step, true, fs, rows, i, Apply(step, true, fs, rows, i), b);
      progress := progress + [Progress(i, |rows|)];
      var value := WriteFieldnameSimple(card, reg, rows[i].name, rows[i].value, dryRun);
      AppendAssociative(t0, calls, b.calls);
      calls := calls + b.calls;
      if value.Err? {
        ApplyErrStays(step, true, fs, rows, i + 1, |rows|);
        return Err(value.error), progress;
      }
      onCard := onCard + [value.value];
      i := i + 1;
    }
    out := Ok(onCard);
  }

  /** `WriteCardWorker.run`; `progress` is the sequence of values emitted on the progress signal. */
  method WriteCardWorkerRun(card: SimCard, reg: Registry, rows: seq<Row>, imsi: string,
                            pinAdm: Option<string>, pinDict: Option<map<string, string>>, dryRun: bool)
    returns (out: Result<seq<Report>, WorkerError>, progress: seq<nat>)
    modifies card
    ensures var r := WriteWorkerSpec(card.profile, old(card.files), reg, rows, imsi, pinAdm, pinDict, dryRun);
      out == r.out && progress == r.progress && card.files == r.files && card.trace == old(card.trace) + r.calls
  {
    progress := [];
    var pin := SelectPin(imsi, pinAdm, pinDict);
    if pin.Err? {
      return Err(pin.error), progress;
    }
    ghost var p, fs, t0 := card.profile, card.files, card.trace;
    var widths := VerifyAllWidths(card, reg, rows);
    ghost var w := Apply(WidthStep(p, reg), false, fs, rows, |rows|);
    WidthStepKeepsFiles(p, reg);
    ApplyKeepingFiles(WidthStep(p, reg), false, fs, rows, |rows|);
    if widths.Err? {
      return Err(EngineError(widths.error)), progress;
    }
    ghost var c := PinStep(p, fs, pin.value, dryRun);
    if !dryRun {
      var checked := CheckPinAdm(card, pin.value);
      if checked.Err? {
        return Err(EngineError(checked.error)), progress;
      }
    }
    assert card.trace == t0 + (w.calls + c.calls) && card.files == fs && c.out.Ok?;
    var written;
    written, progress := WriteEachField(card, reg, rows, dryRun);
    ghost var e := Apply(WriteStep(p, reg, dryRun), true, fs, rows, |rows|);
    AppendAssociative(t0, w.calls + c.calls, e.calls);
    WriteWorkerAfterPin(p, fs, reg, rows, imsi, pinAdm, pinDict, dryRun);
    if written.Err? {
      return Err(EngineError(written.error)), progress;
    }
    out := Ok(Reports(rows, written.value));
  }

  /** Past the PIN step, the write worker's outcome is the write pass's, after the width and PIN commands. */
  lemma WriteWorkerAfterPin(p: Profile, fs: Files, reg: Registry, rows: seq<Row>, imsi: string,
                            pinAdm: Option<string>, pinDict: Option<map<string, string>>, dryRun: bool)
    requires SelectPin(imsi, pinAdm, pinDict).Ok?
    requires Apply(WidthStep(p, reg), false, fs, rows, |rows|).out.Ok?
    requires Apply(WidthStep(p, reg), false, fs, rows, |rows|).files == fs
    requires PinStep(p, fs, SelectPin(imsi, pinAdm, pinDict).value, dryRun).out.Ok?
    ensures var w := Apply(WidthStep(p, reg), false, fs, rows, |rows|);
      var c := PinStep(p, fs, SelectPin(imsi, pinAdm, pinDict).value, dryRun);
      var e := Apply(WriteStep(p, reg, dryRun), true, fs, rows, |rows|);
      WriteWorkerSpec(p, fs, reg, rows, imsi, pinAdm, pinDict, dryRun) ==
        Outcome(if e.out.Err? then Err(EngineError(e.out.error)) else Ok(Reports(rows, e.out.value)),
                e.files, w.calls + c.calls + e.calls, e.progress)
  {
  }
}

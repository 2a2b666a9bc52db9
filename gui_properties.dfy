/**
 * Properties of the card workers of module GuiWorkers, proved about their
 * specification functions (which the worker methods are proved to implement).
 */
module GuiProperties {
  import opened Wrappers
  import opened PyText
  import opened Registry
  import opened Card
  import opened Engine
  import opened EngineProperties
  import opened GuiWorkers

  // ---------------------------------------------------------------------------
  // Progress
  // ---------------------------------------------------------------------------

  /** Progress never passes 100, and reaches it exactly on the last row. */
  lemma ProgressBounds(k: nat, n: nat)
    requires k < n
    ensures Progress(k, n) <= 100
    ensures Progress(k, n) == 100 <==> k == n - 1
  {
    if k < n - 1 {
      assert (k + 1) * 100 < n * 100;
      DivBelow((k + 1) * 100, n, 100);
    } else {
      assert (k + 1) * 100 == n * 100;
    }
  }

  lemma DivBelow(a: nat, n: nat, q: nat)
    requires 0 < n && a < n * q
    ensures a / n < q
  {
  }

  /** Progress does not fall from one row to a later one. */
  lemma ProgressMonotone(j: nat, k: nat, n: nat)
    requires j <= k < n
    ensures Progress(j, n) <= Progress(k, n)
  {
    DivMonotone((j + 1) * 100, (k + 1) * 100, n);
  }

  lemma DivMonotone(a: nat, b: nat, n: nat)
    requires a <= b && 0 < n
    ensures a / n <= b / n
  {
    var qa, qb := a / n, b / n;
    assert qa * n <= a && b < qb * n + n;
    if qb < qa {
      MulMonotone(qb + 1, qa, n);
    }
  }

  lemma {:induction false} MulMonotone(x: int, y: int, n: nat)
    requires x <= y
    ensures x * n <= y * n
    decreases y - x
  {
    if x < y {
      MulMonotone(x + 1, y, n);
      assert (x + 1) * n == x * n + n;
    }
  }

  /** The progress a reading or writing pass emits rises, and a completed pass over a non-empty table ends at 100. */
  lemma PassProgressRises<T>(step: (Files, Row) -> Run<T>, fs: Files, rows: seq<Row>)
    ensures var r := Apply(step, true, fs, rows, |rows|);
      && (forall i, j :: 0 <= i <= j < |r.progress| ==> r.progress[i] <= r.progress[j])
      && (r.out.Ok? && |rows| > 0 ==> r.progress[|rows| - 1] == 100)
  {
    var r := Apply(step, true, fs, rows, |rows|);
    forall i, j | 0 <= i <= j < |r.progress| ensures r.progress[i] <= r.progress[j] {
      ProgressMonotone(i, j, |rows|);
    }
    if r.out.Ok? && |rows| > 0 {
      ProgressBounds(|rows| - 1, |rows|);
    }
  }

  // ---------------------------------------------------------------------------
  // Passes
  // ---------------------------------------------------------------------------

  /** Row i of a successful pass holds what the step gave on the files rows 0..i-1 left. */
  lemma {:induction false} ApplyRow<T>(step: (Files, Row) -> Run<T>, emits: bool, fs: Files, rows: seq<Row>, k: nat, i: nat)
    requires i < k <= |rows| && Apply(step, emits, fs, rows, k).out.Ok?
    ensures Apply(step, emits, fs, rows, i).out.Ok?
    ensures step(Apply(step, emits, fs, rows, i).files, rows[i]).out == Ok(Apply(step, emits, fs, rows, k).out.value[i])
    decreases k
  {
    var prev := Apply(step, emits, fs, rows, k - 1);
    assert prev.out.Ok?;
    if i < k - 1 {
      ApplyRow(step, emits, fs, rows, k - 1, i);
      assert Apply(step, emits, fs, rows, k).out.value[i] == prev.out.value[i];
    }
  }

  /** A command that neither updates a file nor submits a PIN. */
  predicate IsQuery(c: Command) {
    !IsUpdate(c) && !c.VerifyChv?
  }

  predicate OnlyQueries(cs: seq<Command>) {
    forall i :: 0 <= i < |cs| ==> IsQuery(cs[i])
  }

  lemma QueriesJoin(a: seq<Command>, b: seq<Command>)
    requires OnlyQueries(a) && OnlyQueries(b)
    ensures OnlyQueries(a + b)
  {
    forall i | 0 <= i < |a + b| ensures IsQuery((a + b)[i]) {
      if i >= |a| {
        assert (a + b)[i] == b[i - |a|];
      }
    }
  }

  /** A pass whose step only queries the card only queries the card. */
  lemma {:induction false} ApplyOnlyQueries<T>(step: (Files, Row) -> Run<T>, emits: bool, fs: Files, rows: seq<Row>, k: nat)
    requires k <= |rows|
    requires forall fs', row :: OnlyQueries(step(fs', row).calls)
    ensures OnlyQueries(Apply(step, emits, fs, rows, k).calls)
    decreases k
  {
    if k > 0 {
      var prev := Apply(step, emits, fs, rows, k - 1);
      ApplyOnlyQueries(step, emits, fs, rows, k - 1);
      if prev.out.Ok? {
        QueriesJoin(prev.calls, step(prev.files, rows[k - 1]).calls);
      }
    }
  }

  // ---------------------------------------------------------------------------
  // Which engine operations only query the card
  // ---------------------------------------------------------------------------

  lemma ContextsOnlyQuery(p: Profile, fs: Files, reg: Registry, name: FieldName)
    ensures OnlyQueries(Contexts(p, fs, reg, name).calls)
  {
    var i := AppCheck(p, fs, reg, Isim, name);
    var u := AppCheck(p, fs, reg, Usim, name);
    assert OnlyQueries(i.calls) && OnlyQueries(u.calls);
    QueriesJoin(i.calls, u.calls);
  }

  lemma WidthCheckOnlyQueries(p: Profile, fs: Files, reg: Registry, name: FieldName, value: string)
    ensures OnlyQueries(WidthCheck(p, fs, reg, name, value).calls)
  {
    ContextsOnlyQuery(p, fs, reg, name);
    var c := Contexts(p, fs, reg, name);
    if c.out.Ok? && name in reg.All() {
      QueriesJoin(c.calls, [BinarySize(reg.All()[name])]);
    }
  }

  lemma ReadOnlyQueries(p: Profile, fs: Files, reg: Registry, name: FieldName, rn: Option<int>)
    ensures OnlyQueries(ReadSpec(p, fs, reg, name, rn).calls)
  {
    if name in reg.All() && name in RECORD_FIELDS {
      var ef := reg.All()[name];
      if RecordCountOf(fs, ef).Some? && rn.None? {
        var all := ReadRecordsSpec(p, fs, name, ef, RecordCountOf(fs, ef).value);
        ReadRecordsInAscendingOrder(p, fs, name, ef, RecordCountOf(fs, ef).value);
        forall i | 0 <= i < |all.calls| ensures IsQuery(all.calls[i]) {
          assert all.calls[i] == ReadRecord(ef, i + 1);
        }
        QueriesJoin([RecordCount(ef)], all.calls);
      }
    }
  }

  lemma ReadSimpleOnlyQueries(p: Profile, fs: Files, reg: Registry, name: FieldName)
    ensures OnlyQueries(ReadSimpleSpec(p, fs, reg, name).calls)
  {
    ContextsOnlyQuery(p, fs, reg, name);
    ReadOnlyQueries(p, fs, reg, name, None);
    QueriesJoin(Contexts(p, fs, reg, name).calls, ReadSpec(p, fs, reg, name, None).calls);
  }

  lemma DryWriteOnlyQueries(p: Profile, fs: Files, reg: Registry, name: FieldName, value: string, rn: Option<int>)
    ensures var r := WriteSpec(p, fs, reg, name, value, rn, true);
      r.files == fs && OnlyQueries(r.calls)
  {
  }

  /** In a dry run `write_fieldname_simple` only queries the card. */
  lemma DryWriteSimpleOnlyQueries(p: Profile, fs: Files, reg: Registry, name: FieldName, value: string)
    ensures var r := WriteSimpleSpec(p, fs, reg, name, value, true);
      r.files == fs && OnlyQueries(r.calls)
  {
    var v := Lower(value);
    var c := Contexts(p, fs, reg, name);
    var b := ReadSpec(p, fs, reg, name, None);
    var w := WriteSpec(p, fs, reg, name, v, None, true);
    ContextsOnlyQuery(p, fs, reg, name);
    ReadOnlyQueries(p, fs, reg, name, None);
    DryWriteOnlyQueries(p, fs, reg, name, v, None);
    QueriesJoin(c.calls, b.calls);
    QueriesJoin(w.calls, b.calls);
    QueriesJoin(c.calls + b.calls, w.calls);
    QueriesJoin(c.calls + b.calls, w.calls + b.calls);
    assert WriteVerifySpec(p, fs, reg, name, v, true).calls == w.calls
      || WriteVerifySpec(p, fs, reg, name, v, true).calls == w.calls + b.calls;
  }

  lemma WidthStepOnlyQueries(p: Profile, reg: Registry)
    ensures forall fs, row :: OnlyQueries(WidthStep(p, reg)(fs, row).calls)
  {
    forall fs, row ensures OnlyQueries(WidthStep(p, reg)(fs, row).calls) {
      WidthCheckOnlyQueries(p, fs, reg, row.name, row.value);
    }
  }

  // ---------------------------------------------------------------------------
  // ReadCardWorker
  // ---------------------------------------------------------------------------

  /**
   * The read worker succeeds iff every width check and every read does; then
   * each row carries the value read from the card, marked "X" exactly where
   * it differs from `FieldValue`.
   */
  lemma ReadWorkerReport(p: Profile, fs: Files, reg: Registry, rows: seq<Row>)
    ensures ReadWorkerSpec(p, fs, reg, rows).out.Ok? <==>
      && (forall i :: 0 <= i < |rows| ==> WidthCheck(p, fs, reg, rows[i].name, rows[i].value).out.Ok?)
      && (forall i :: 0 <= i < |rows| ==> ReadSimpleSpec(p, fs, reg, rows[i].name).out.Ok?)
    ensures ReadWorkerSpec(p, fs, reg, rows).out.Ok? ==>
      var report := ReadWorkerSpec(p, fs, reg, rows).out.value;
      && |report| == |rows|
      && forall i :: 0 <= i < |rows| ==>
        && report[i].name == rows[i].name && report[i].value == rows[i].value
        && report[i].onCard == ReadSimpleSpec(p, fs, reg, rows[i].name).out.value
        && (report[i].differences == "X" <==> rows[i].value != report[i].onCard)
  {
    WidthStepKeepsFiles(p, reg);
    ReadStepKeepsFiles(p, reg);
    ApplyKeepingFiles(WidthStep(p, reg), false, fs, rows, |rows|);
    ApplyKeepingFiles(ReadStep(p, reg), true, fs, rows, |rows|);
  }

  /** The read worker changes no file and only queries the card: no update and no PIN. */
  lemma ReadWorkerOnlyQueries(p: Profile, fs: Files, reg: Registry, rows: seq<Row>)
    ensures var r := ReadWorkerSpec(p, fs, reg, rows);
      r.files == fs && OnlyQueries(r.calls)
  {
    WidthStepKeepsFiles(p, reg);
    ReadStepKeepsFiles(p, reg);
    ApplyKeepingFiles(WidthStep(p, reg), false, fs, rows, |rows|);
    ApplyKeepingFiles(ReadStep(p, reg), true, fs, rows, |rows|);
    WidthStepOnlyQueries(p, reg);
    forall fs', row ensures OnlyQueries(ReadStep(p, reg)(fs', row).calls) {
      ReadSimpleOnlyQueries(p, fs', reg, row.name);
    }
    ApplyOnlyQueries(WidthStep(p, reg), false, fs, rows, |rows|);
    ApplyOnlyQueries(ReadStep(p, reg), true, fs, rows, |rows|);
    QueriesJoin(Apply(WidthStep(p, reg), false, fs, rows, |rows|).calls, Apply(ReadStep(p, reg), true, fs, rows, |rows|).calls);
  }

  // ---------------------------------------------------------------------------
  // WriteCardWorker
  // ---------------------------------------------------------------------------

  /** A missing PIN fails the write worker before any card command. */
  lemma PinAssertionsPrecedeCardAccess(p: Profile, fs: Files, reg: Registry, rows: seq<Row>, imsi: string,
                                       pinAdm: Option<string>, pinDict: Option<map<string, string>>, dryRun: bool)
    requires SelectPin(imsi, pinAdm, pinDict).Err?
    ensures var r := WriteWorkerSpec(p, fs, reg, rows, imsi, pinAdm, pinDict, dryRun);
      r.out == Err(SelectPin(imsi, pinAdm, pinDict).error) && r.files == fs && r.calls == [] && r.progress == []
  {
  }

  /**
   * Every width check runs before the PIN is submitted and before any write:
   * the worker's commands start with the whole width pass, which only queries
   * the card, and a failing width check ends the worker there.
   */
  lemma WidthChecksComeFirst(p: Profile, fs: Files, reg: Registry, rows: seq<Row>, imsi: string,
                             pinAdm: Option<string>, pinDict: Option<map<string, string>>, dryRun: bool)
    requires SelectPin(imsi, pinAdm, pinDict).Ok?
    ensures var r := WriteWorkerSpec(p, fs, reg, rows, imsi, pinAdm, pinDict, dryRun);
      var w := Apply(WidthStep(p, reg), false, fs, rows, |rows|);
      && OnlyQueries(w.calls)
      && |w.calls| <= |r.calls| && r.calls[..|w.calls|] == w.calls
      && (w.out.Err? ==> r.out == Err(EngineError(w.out.error)) && r.files == fs && r.calls == w.calls)
  {
    WidthStepKeepsFiles(p, reg);
    ApplyKeepingFiles(WidthStep(p, reg), false, fs, rows, |rows|);
    WidthStepOnlyQueries(p, reg);
    ApplyOnlyQueries(WidthStep(p, reg), false, fs, rows, |rows|);
    var r := WriteWorkerSpec(p, fs, reg, rows, imsi, pinAdm, pinDict, dryRun);
    var w := Apply(WidthStep(p, reg), false, fs, rows, |rows|);
    if w.out.Ok? {
      var c := PinStep(p, fs, SelectPin(imsi, pinAdm, pinDict).value, dryRun);
      var e := Apply(WriteStep(p, reg, dryRun), true, fs, rows, |rows|);
      assert r.calls == w.calls + c.calls || r.calls == w.calls + c.calls + e.calls;
    }
  }

  /**
   * Outside a dry run, once the width pass succeeds the next command is
   * `verify_chv` with the ADM key, and a rejected PIN ends the worker before
   * any write.
   */
  lemma PinPrecedesWrites(p: Profile, fs: Files, reg: Registry, rows: seq<Row>, imsi: string,
                          pinAdm: Option<string>, pinDict: Option<map<string, string>>)
    requires SelectPin(imsi, pinAdm, pinDict).Ok?
    requires Apply(WidthStep(p, reg), false, fs, rows, |rows|).out.Ok?
    ensures var r := WriteWorkerSpec(p, fs, reg, rows, imsi, pinAdm, pinDict, false);
      var w := Apply(WidthStep(p, reg), false, fs, rows, |rows|);
      var c := PinCheck(p, fs, SelectPin(imsi, pinAdm, pinDict).value);
      && r.calls[..|w.calls| + |c.calls|] == w.calls + c.calls
      && (c.out.Err? ==> r.out == Err(EngineError(c.out.error)) && r.files == fs && r.calls == w.calls + c.calls)
  {
    WidthStepKeepsFiles(p, reg);
    ApplyKeepingFiles(WidthStep(p, reg), false, fs, rows, |rows|);
    var r := WriteWorkerSpec(p, fs, reg, rows, imsi, pinAdm, pinDict, false);
    var w := Apply(WidthStep(p, reg), false, fs, rows, |rows|);
    var c := PinCheck(p, fs, SelectPin(imsi, pinAdm, pinDict).value);
    if c.out.Ok? {
      var e := Apply(WriteStep(p, reg, false), true, fs, rows, |rows|);
      assert r.calls == w.calls + c.calls + e.calls;
    }
  }

  /** In a dry run the write worker changes no file and only queries the card: in particular no PIN is submitted. */
  lemma DryRunOnlyQueries(p: Profile, fs: Files, reg: Registry, rows: seq<Row>, imsi: string,
                          pinAdm: Option<string>, pinDict: Option<map<string, string>>)
    ensures var r := WriteWorkerSpec(p, fs, reg, rows, imsi, pinAdm, pinDict, true);
      r.files == fs && OnlyQueries(r.calls)
  {
    WidthStepKeepsFiles(p, reg);
    ApplyKeepingFiles(WidthStep(p, reg), false, fs, rows, |rows|);
    WidthStepOnlyQueries(p, reg);
    ApplyOnlyQueries(WidthStep(p, reg), false, fs, rows, |rows|);
    var step := WriteStep(p, reg, true);
    forall fs', row ensures step(fs', row).files == fs' && OnlyQueries(step(fs', row).calls) {
      DryWriteSimpleOnlyQueries(p, fs', reg, row.name, row.value);
    }
    ApplyKeepingFiles(step, true, fs, rows, |rows|);
    ApplyOnlyQueries(step, true, fs, rows, |rows|);
    var w := Apply(WidthStep(p, reg), false, fs, rows, |rows|);
    QueriesJoin(w.calls, Apply(step, true, fs, rows, |rows|).calls);
    assert w.calls + [] == w.calls;
  }

  /**
   * A successful write worker leaves every row's lower-cased value as its
   * `Value On Card`, so `Differences` is "X" exactly on the rows whose
   * `FieldValue` has an upper-case letter.
   */
  lemma WriteWorkerReport(p: Profile, fs: Files, reg: Registry, rows: seq<Row>, imsi: string,
                          pinAdm: Option<string>, pinDict: Option<map<string, string>>, dryRun: bool)
    requires WriteWorkerSpec(p, fs, reg, rows, imsi, pinAdm, pinDict, dryRun).out.Ok?
    ensures var report := WriteWorkerSpec(p, fs, reg, rows, imsi, pinAdm, pinDict, dryRun).out.value;
      && |report| == |rows|
      && forall i :: 0 <= i < |rows| ==>
        && report[i].name == rows[i].name && report[i].value == rows[i].value
        && report[i].onCard == Lower(rows[i].value)
        && (report[i].differences == "X" <==> Lower(rows[i].value) != rows[i].value)
  {
    WidthStepKeepsFiles(p, reg);
    ApplyKeepingFiles(WidthStep(p, reg), false, fs, rows, |rows|);
    WritePassLowers(p, PinStep(p, fs, SelectPin(imsi, pinAdm, pinDict).value, dryRun).files, reg, rows, dryRun);
  }

  /** Every value a successful write pass reports is the row's lower-cased `FieldValue`. */
  lemma WritePassLowers(p: Profile, fs: Files, reg: Registry, rows: seq<Row>, dryRun: bool)
    requires Apply(WriteStep(p, reg, dryRun), true, fs, rows, |rows|).out.Ok?
    ensures forall i :: 0 <= i < |rows| ==>
      Apply(WriteStep(p, reg, dryRun), true, fs, rows, |rows|).out.value[i] == Lower(rows[i].value)
  {
    var step := WriteStep(p, reg, dryRun);
    forall i | 0 <= i < |rows|
      ensures Apply(step, true, fs, rows, |rows|).out.value[i] == Lower(rows[i].value)
    {
      ApplyRow(step, true, fs, rows, |rows|, i);
    }
  }
}

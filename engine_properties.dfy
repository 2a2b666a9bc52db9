/**
 * Properties of the field-programming engine, proved about the specification
 * functions of module Engine (which its methods are proved to implement).
 */
module EngineProperties {
  import opened Wrappers
  import opened PyText
  import opened Registry
  import opened Card
  import opened Engine

  // ---------------------------------------------------------------------------
  // Checks and reads never update the card
  // ---------------------------------------------------------------------------

  lemma ContextsIssueNoUpdate(p: Profile, fs: Files, reg: Registry, name: FieldName)
    ensures NoUpdates(Contexts(p, fs, reg, name).calls)
  {
    var i := AppCheck(p, fs, reg, Isim, name);
    var u := AppCheck(p, fs, reg, Usim, name);
    assert NoUpdates(i.calls) && NoUpdates(u.calls);
    assert NoUpdates(i.calls + u.calls) by {
      forall j | 0 <= j < |i.calls + u.calls|
        ensures !IsUpdate((i.calls + u.calls)[j])
      {
        if j >= |i.calls| {
          assert (i.calls + u.calls)[j] == u.calls[j - |i.calls|];
        }
      }
    }
  }

  /** `verify_full_field_width` never issues a write, whatever its verdict. */
  lemma WidthCheckIssuesNoUpdate(p: Profile, fs: Files, reg: Registry, name: FieldName, value: string)
    ensures var r := WidthCheck(p, fs, reg, name, value);
      r.files == fs && NoUpdates(r.calls)
  {
    ContextsIssueNoUpdate(p, fs, reg, name);
    var c := Contexts(p, fs, reg, name);
    if c.out.Ok? && name in reg.All() {
      var calls := c.calls + [BinarySize(reg.All()[name])];
      assert forall j :: 0 <= j < |c.calls| ==> calls[j] == c.calls[j];
    }
  }

  /** Reading records 1..k issues exactly `read_record(ef, 1)`, `read_record(ef, 2)`, ... up to the first failure. */
  lemma {:induction false} ReadRecordsInAscendingOrder(p: Profile, fs: Files, name: FieldName, ef: FileId, k: nat)
    ensures forall i :: 0 <= i < |ReadRecordsSpec(p, fs, name, ef, k).calls| ==>
      ReadRecordsSpec(p, fs, name, ef, k).calls[i] == ReadRecord(ef, i + 1)
  {
    if k > 0 {
      ReadRecordsInAscendingOrder(p, fs, name, ef, k - 1);
    }
  }

  lemma ReadIssuesNoUpdate(p: Profile, fs: Files, reg: Registry, name: FieldName, rn: Option<int>)
    ensures var r := ReadSpec(p, fs, reg, name, rn);
      r.files == fs && NoUpdates(r.calls)
  {
    if name in reg.All() && name in RECORD_FIELDS {
      var ef := reg.All()[name];
      if RecordCountOf(fs, ef).Some? && rn.None? {
        var all := ReadRecordsSpec(p, fs, name, ef, RecordCountOf(fs, ef).value);
        ReadRecordsInAscendingOrder(p, fs, name, ef, RecordCountOf(fs, ef).value);
        forall i | 0 <= i < |all.calls|
          ensures !IsUpdate(all.calls[i])
        {
          assert all.calls[i] == ReadRecord(ef, i + 1);
        }
        NoUpdatesJoin([RecordCount(ef)], all.calls);
      }
    }
  }

  // ---------------------------------------------------------------------------
  // Context checks
  // ---------------------------------------------------------------------------

  /** A field outside both application maps passes without any application select. */
  lemma OutsideAppsSelectsNothing(p: Profile, fs: Files, reg: Registry, name: FieldName)
    requires name !in reg.isim && name !in reg.usim
    ensures Contexts(p, fs, reg, name) == Run(Ok(()), fs, [])
  {
  }

  /** A field in both maps selects the ISIM application, and only once that check passes, the USIM one. */
  lemma IsimSelectedBeforeUsim(p: Profile, fs: Files, reg: Registry, name: FieldName)
    requires name in reg.isim && name in reg.usim && Isim in p.apps
    ensures Contexts(p, fs, reg, name).calls[0] == SelectAdf(Isim)
    ensures AppCheck(p, fs, reg, Isim, name).out.Ok? && Usim in p.apps ==>
      var calls := Contexts(p, fs, reg, name).calls;
      |calls| >= 3 && calls[..3] == [SelectAdf(Isim), FileExists(reg.All()[name]), SelectAdf(Usim)]
  {
  }

  /** Each way a context check fails, for a field of that application's map. */
  lemma AppCheckFailures(p: Profile, fs: Files, reg: Registry, app: App, name: FieldName)
    requires name in AppMap(reg, app) && app in p.apps
    ensures SelectReply(p, app) == Raises ==> AppCheck(p, fs, reg, app, name).out == Err(RequiresApp(app, name, SelectRaised))
    ensures SelectReply(p, app).Status? && SelectReply(p, app).sw != SW_OK ==>
      AppCheck(p, fs, reg, app, name).out == Err(RequiresApp(app, name, SelectStatus(SelectReply(p, app).sw)))
    ensures SelectReply(p, app) == Status(SW_OK) && reg.All()[name] !in fs ==>
      AppCheck(p, fs, reg, app, name).out == Err(RequiresApp(app, name, FileMissing(reg.All()[name])))
  {
  }

  // ---------------------------------------------------------------------------
  // check_pin_adm
  // ---------------------------------------------------------------------------

  /** Different PIN texts reach the card as different PIN forms. */
  lemma ParseAdmPinInjective(a: string, b: string)
    requires ParseAdmPin(a) == ParseAdmPin(b)
    ensures a == b
  {
    if ParseAdmPin(a).HexPin? {
      assert a == "0x" + ParseAdmPin(a).digits == b;
    }
  }

  // ---------------------------------------------------------------------------
  // read_field_data
  // ---------------------------------------------------------------------------

  /** A successful read of records 1..k of a record file returns them joined. */
  lemma {:induction false} ReadRecordsJoins(p: Profile, fs: Files, name: FieldName, ef: FileId, k: nat)
    requires ef in fs && fs[ef].Records? && k <= |fs[ef].records|
    requires ReadRecordsSpec(p, fs, name, ef, k).out.Ok?
    ensures ReadRecordsSpec(p, fs, name, ef, k).out.value == Join(fs[ef].records[..k])
  {
    if k > 0 {
      var rs := fs[ef].records;
      var prev := ReadRecordsSpec(p, fs, name, ef, k - 1);
      assert prev.out.Ok?;
      ReadRecordsJoins(p, fs, name, ef, k - 1);
      assert ReadOnce(p, fs, name, Record(ef, k)) == Ok(rs[k - 1]);
      assert ReadRecordsSpec(p, fs, name, ef, k).out.value == prev.out.value + rs[k - 1];
      assert rs[..k][..k - 1] == rs[..k - 1];
      assert Join(rs[..k]) == Join(rs[..k - 1]) + rs[k - 1];
    }
  }

  /** Without read overrides, every record of a record file reads back as stored. */
  lemma {:induction false} ReadRecordsWithoutOverrides(p: Profile, fs: Files, name: FieldName, ef: FileId, k: nat)
    requires ef in fs && fs[ef].Records? && k <= |fs[ef].records|
    requires forall t :: t in p.readReplies ==> t.ef != ef
    ensures ReadRecordsSpec(p, fs, name, ef, k).out == Ok(Join(fs[ef].records[..k]))
  {
    assert forall j :: 1 <= j <= k ==> ReadReply(p, fs, Record(ef, j)) == Status(SW_OK);
    ReadRecordsJoins(p, fs, name, ef, k);
  }

  /** `read_field_data` with no record number on a record field: every record, joined, or a ReadFieldError. */
  lemma RecordFieldRead(p: Profile, fs: Files, reg: Registry, name: FieldName, ef: FileId)
    requires name in reg.All() && name in RECORD_FIELDS && ef == reg.All()[name]
    requires ef in fs && fs[ef].Records?
    ensures ReadSpec(p, fs, reg, name, None).calls[0] == RecordCount(ef)
    ensures forall i :: 1 <= i < |ReadSpec(p, fs, reg, name, None).calls| ==>
      ReadSpec(p, fs, reg, name, None).calls[i] == ReadRecord(ef, i)
    ensures ReadSpec(p, fs, reg, name, None).out.Ok? <==>
      forall j :: 1 <= j <= |fs[ef].records| ==> ReadReply(p, fs, Record(ef, j)) == Status(SW_OK)
    ensures ReadSpec(p, fs, reg, name, None).out.Ok? ==> ReadSpec(p, fs, reg, name, None).out.value == Join(fs[ef].records)
    ensures ReadSpec(p, fs, reg, name, None).out.Err? ==> ReadSpec(p, fs, reg, name, None).out.error.ReadField?
  {
    var count := |fs[ef].records|;
    var all := ReadRecordsSpec(p, fs, name, ef, count);
    var r := ReadSpec(p, fs, reg, name, None);
    RecordFieldReadsEveryRecord(p, fs, reg, name, ef);
    assert r.calls == [RecordCount(ef)] + all.calls && r.out == all.out;
    ReadRecordsInAscendingOrder(p, fs, name, ef, count);
    forall i | 1 <= i < |r.calls| ensures r.calls[i] == ReadRecord(ef, i) {
      assert r.calls[i] == all.calls[i - 1];
    }
    if all.out.Ok? {
      ReadRecordsJoins(p, fs, name, ef, count);
      assert fs[ef].records[..count] == fs[ef].records;
    }
  }

  lemma RecordFieldReadsEveryRecord(p: Profile, fs: Files, reg: Registry, name: FieldName, ef: FileId)
    requires name in reg.All() && name in RECORD_FIELDS && ef == reg.All()[name]
    requires ef in fs && fs[ef].Records?
    ensures var all := ReadRecordsSpec(p, fs, name, ef, |fs[ef].records|);
      ReadSpec(p, fs, reg, name, None) == Run(all.out, fs, [RecordCount(ef)] + all.calls)
  {
  }

  // ---------------------------------------------------------------------------
  // write_field_data
  // ---------------------------------------------------------------------------

  /** Updating records 1..k issues `update_record(ef, i + 1, slice i)` in ascending order. */
  lemma {:induction false} WriteRecordsInAscendingOrder(p: Profile, fs: Files, name: FieldName, ef: FileId, value: string, recordSize: nat, k: nat)
    ensures forall i :: 0 <= i < |WriteRecordsSpec(p, fs, name, ef, value, recordSize, k).calls| ==>
      WriteRecordsSpec(p, fs, name, ef, value, recordSize, k).calls[i] == UpdateRecord(ef, i + 1, Slice(value, recordSize, i))
  {
    if k > 0 {
      var prev := WriteRecordsSpec(p, fs, name, ef, value, recordSize, k - 1);
      WriteRecordsInAscendingOrder(p, fs, name, ef, value, recordSize, k - 1);
      if prev.out.Ok? {
        assert WriteRecordsSpec(p, fs, name, ef, value, recordSize, k).calls == prev.calls + [UpdateRecord(ef, k, Slice(value, recordSize, k - 1))];
      }
    }
  }

  /** Every failure of `write_field_data` other than a WriteFieldError happens before any update. */
  lemma FailuresPrecedeUpdates(p: Profile, fs: Files, reg: Registry, name: FieldName, value: string, rn: Option<int>, dryRun: bool)
    requires var r := WriteSpec(p, fs, reg, name, value, rn, dryRun); r.out.Err? && !r.out.error.WriteField?
    ensures var r := WriteSpec(p, fs, reg, name, value, rn, dryRun); r.files == fs && NoUpdates(r.calls)
  {
  }

  /** A dry run issues no update and changes no file. */
  lemma DryRunWritesNothing(p: Profile, fs: Files, reg: Registry, name: FieldName, value: string, rn: Option<int>)
    ensures var r := WriteSpec(p, fs, reg, name, value, rn, true); r.files == fs && NoUpdates(r.calls)
  {
  }

  /** The argument assertions of a record write, on a record file whose size is known. */
  lemma RecordWriteAssertions(p: Profile, fs: Files, reg: Registry, name: FieldName, value: string, rn: Option<int>, dryRun: bool)
    requires name in reg.All() && name in RECORD_FIELDS
    requires var ef := reg.All()[name]; ef in fs && fs[ef].Records? && |fs[ef].records| > 0 && ef in p.sizes
    ensures var ef := reg.All()[name]; var count := |fs[ef].records|; var width := p.sizes[ef];
      var r := WriteSpec(p, fs, reg, name, value, rn, dryRun);
      && (|value| / 2 == width && rn.Some? ==> r.out == Err(AssertionFailed))
      && (rn.None? && |value| / 2 != width ==> r.out == Err(AssertionFailed))
      && (rn.Some? && !(1 <= rn.value <= count) ==> r.out == Err(AssertionFailed))
      && (rn.Some? && |value| / 2 != width / count ==> r.out == Err(AssertionFailed))
      && (r.out == Err(AssertionFailed) ==> r.files == fs && NoUpdates(r.calls))
  {
  }

  /** No status override for any part of `ef`: the card answers as its files say. */
  predicate Unscripted(p: Profile, ef: FileId) {
    && (forall t :: t in p.readReplies ==> t.ef != ef)
    && (forall t :: t in p.updateReplies ==> t.ef != ef)
  }

  /** The first k slices of a full-width value. */
  function Slices(value: string, recordSize: nat, k: nat): (r: seq<string>)
    ensures |r| == k
  {
    if k == 0 then [] else Slices(value, recordSize, k - 1) + [Slice(value, recordSize, k - 1)]
  }

  /** An unscripted update of a record the file holds replaces exactly that record. */
  lemma StoreRecord(p: Profile, files: Files, ef: FileId, k: int, data: string)
    requires Present(files, Record(ef, k)) && Record(ef, k) !in p.updateReplies
    ensures UpdateReply(p, files, Record(ef, k)) == Status(SW_OK)
    ensures AfterUpdate(p, files, Record(ef, k), data) == files[ef := Records(files[ef].records[k - 1 := data])]
  {
  }

  /**
   * Outside a dry run, a value of one record's width written to record n of
   * an unscripted record file succeeds after the two size queries and one
   * update, and replaces record n and nothing else.
   */
  lemma SingleRecordWriteStores(p: Profile, fs: Files, reg: Registry, name: FieldName, value: string, n: int)
    requires name in reg.All() && name in RECORD_FIELDS
    requires var ef := reg.All()[name];
      && ef in fs && fs[ef].Records? && |fs[ef].records| > 0 && Unscripted(p, ef) && ef in p.sizes
      && |value| / 2 != p.sizes[ef] && 1 <= n <= |fs[ef].records|
      && |value| / 2 == p.sizes[ef] / |fs[ef].records|
    ensures var ef := reg.All()[name];
      var w := WriteSpec(p, fs, reg, name, value, Some(n), false);
      && w.out == Ok(true)
      && w.files == fs[ef := Records(fs[ef].records[n - 1 := value])]
      && w.calls == [RecordCount(ef), BinarySize(ef), UpdateRecord(ef, n, value)]
  {
    StoreRecord(p, fs, reg.All()[name], n, value);
  }

  lemma ReplaceAfterPrefix(prefix: seq<string>, rest: seq<string>, x: string)
    requires |rest| > 0
    ensures (prefix + rest)[|prefix| := x] == prefix + [x] + rest[1..]
  {
  }

  /** One more record: the next slice replaces record k, after the k - 1 slices already stored. */
  lemma WriteRecordsStoresStep(p: Profile, fs: Files, name: FieldName, ef: FileId, value: string, recordSize: nat, k: nat)
    requires ef in fs && fs[ef].Records? && 0 < k <= |fs[ef].records| && Unscripted(p, ef)
    requires var prev := WriteRecordsSpec(p, fs, name, ef, value, recordSize, k - 1);
      prev.out == Ok(true) && prev.files == fs[ef := Records(Slices(value, recordSize, k - 1) + fs[ef].records[k - 1..])]
    ensures var r := WriteRecordsSpec(p, fs, name, ef, value, recordSize, k);
      r.out == Ok(true) && r.files == fs[ef := Records(Slices(value, recordSize, k) + fs[ef].records[k..])]
  {
    var rs := fs[ef].records;
    var prev := WriteRecordsSpec(p, fs, name, ef, value, recordSize, k - 1);
    var data := Slice(value, recordSize, k - 1);
    StoreRecord(p, prev.files, ef, k, data);
    ReplaceAfterPrefix(Slices(value, recordSize, k - 1), rs[k - 1..], data);
    assert rs[k - 1..][1..] == rs[k..];
  }

  lemma {:induction false} WriteRecordsStores(p: Profile, fs: Files, name: FieldName, ef: FileId, value: string, recordSize: nat, k: nat)
    requires ef in fs && fs[ef].Records? && k <= |fs[ef].records| && Unscripted(p, ef)
    ensures var r := WriteRecordsSpec(p, fs, name, ef, value, recordSize, k);
      r.out == Ok(true) && r.files == fs[ef := Records(Slices(value, recordSize, k) + fs[ef].records[k..])]
  {
    if k > 0 {
      WriteRecordsStores(p, fs, name, ef, value, recordSize, k - 1);
      WriteRecordsStoresStep(p, fs, name, ef, value, recordSize, k);
    } else {
      assert Slices(value, recordSize, 0) + fs[ef].records[0..] == fs[ef].records;
      assert fs[ef := Records(fs[ef].records)] == fs;
    }
  }

  lemma {:induction false} SlicesJoin(value: string, recordSize: nat, k: nat)
    requires k * recordSize * 2 <= |value|
    ensures Join(Slices(value, recordSize, k)) == value[..k * recordSize * 2]
  {
    if k > 0 {
      var a := (k - 1) * recordSize;
      assert a + recordSize == k * recordSize;
      var lo := a * 2;
      var hi := (a + recordSize) * 2;
      assert lo <= hi;
      SlicesJoin(value, recordSize, k - 1);
      var ss := Slices(value, recordSize, k);
      assert ss[..|ss| - 1] == Slices(value, recordSize, k - 1);
      assert value[..lo] + value[lo..hi] == value[..hi];
    }
  }

  /**
   * Writing a full-width value to a record field whose width is a multiple of
   * its record count, on a card that answers as its files say, succeeds, and
   * reading the field back returns the value.
   */
  lemma RecordFieldRoundTrip(p: Profile, fs: Files, reg: Registry, name: FieldName, value: string)
    requires name in reg.All() && name in RECORD_FIELDS
    requires var ef := reg.All()[name];
      && ef in fs && fs[ef].Records? && |fs[ef].records| > 0 && Unscripted(p, ef)
      && ef in p.sizes && p.sizes[ef] % |fs[ef].records| == 0 && |value| == 2 * p.sizes[ef]
    ensures var w := WriteSpec(p, fs, reg, name, value, None, false);
      w.out == Ok(true) && ReadSpec(p, w.files, reg, name, None).out == Ok(value)
  {
    var ef := reg.All()[name];
    var count := |fs[ef].records|;
    var width := p.sizes[ef];
    var recordSize := width / count;
    assert count * recordSize == width;
    assert count * recordSize * 2 == |value|;
    assert RecordArgumentsHold(|value| / 2, width, count, recordSize, None);
    WriteRecordsStores(p, fs, name, ef, value, recordSize, count);
    var w := WriteRecordsSpec(p, fs, name, ef, value, recordSize, count);
    assert WriteSpec(p, fs, reg, name, value, None, false) == Run(w.out, w.files, [RecordCount(ef), BinarySize(ef)] + w.calls);
    assert fs[ef].records[count..] == [];
    assert w.files[ef] == Records(Slices(value, recordSize, count));
    RecordFieldReadsEveryRecord(p, w.files, reg, name, ef);
    ReadRecordsWithoutOverrides(p, w.files, name, ef, count);
    SlicesJoin(value, recordSize, count);
    assert Slices(value, recordSize, count)[..count] == Slices(value, recordSize, count);
    assert value[..count * recordSize * 2] == value;
  }

  /**
   * Writing a transparent field on a card that answers as its files say
   * succeeds and overwrites the leading characters: reading it back returns
   * the value exactly when the value is at least as long as what was stored.
   */
  lemma FlatFieldRoundTrip(p: Profile, fs: Files, reg: Registry, name: FieldName, value: string)
    requires name in reg.All() && name !in RECORD_FIELDS
    requires var ef := reg.All()[name]; ef in fs && fs[ef].Flat? && Unscripted(p, ef)
    ensures var ef := reg.All()[name]; var w := WriteSpec(p, fs, reg, name, value, None, false);
      && w.out == Ok(true)
      && ReadSpec(p, w.files, reg, name, None).out == Ok(Overwrite(fs[ef].data, value))
      && (Overwrite(fs[ef].data, value) == value <==> |value| >= |fs[ef].data|)
  {
    var ef := reg.All()[name];
    var w := WriteSpec(p, fs, reg, name, value, None, false);
    assert Present(fs, Whole(ef));
    assert w.files[ef] == Flat(Overwrite(fs[ef].data, value));
    assert Present(w.files, Whole(ef));
  }

  // ---------------------------------------------------------------------------
  // write_fieldname_simple / read_write_to_fieldname
  // ---------------------------------------------------------------------------

  /** A successful `write_fieldname_simple` leaves the lower-cased value on the card. */
  lemma WriteSimpleOkMeansStored(p: Profile, fs: Files, reg: Registry, name: FieldName, value: string, dryRun: bool)
    requires WriteSimpleSpec(p, fs, reg, name, value, dryRun).out.Ok?
    ensures ReadSpec(p, WriteSimpleSpec(p, fs, reg, name, value, dryRun).files, reg, name, None).out == Ok(Lower(value))
  {
    var wv := WriteVerifySpec(p, fs, reg, name, Lower(value), dryRun);
    assert WriteSimpleSpec(p, fs, reg, name, value, dryRun).files == wv.files && wv.out.Ok?;
    VerifiedMeansStored(p, fs, reg, name, Lower(value), dryRun);
  }

  /** A write that passed its verification read leaves `v` where the read looks. */
  lemma VerifiedMeansStored(p: Profile, fs: Files, reg: Registry, name: FieldName, v: string, dryRun: bool)
    requires WriteVerifySpec(p, fs, reg, name, v, dryRun).out.Ok?
    ensures ReadSpec(p, WriteVerifySpec(p, fs, reg, name, v, dryRun).files, reg, name, None).out == Ok(v)
  {
  }

  /** In a dry run `write_fieldname_simple` issues no update and changes no file. */
  lemma WriteSimpleDryRunWritesNothing(p: Profile, fs: Files, reg: Registry, name: FieldName, value: string)
    ensures var r := WriteSimpleSpec(p, fs, reg, name, value, true);
      r.files == fs && NoUpdates(r.calls)
  {
    var c := Contexts(p, fs, reg, name);
    var b := ReadSpec(p, fs, reg, name, None);
    var w := WriteSpec(p, fs, reg, name, Lower(value), None, true);
    ContextsIssueNoUpdate(p, fs, reg, name);
    ReadIssuesNoUpdate(p, fs, reg, name, None);
    DryRunWritesNothing(p, fs, reg, name, Lower(value), None);
    NoUpdatesJoin(c.calls, b.calls);
    NoUpdatesJoin(c.calls + b.calls, w.calls);
    NoUpdatesJoin(w.calls, b.calls);
    NoUpdatesJoin(c.calls + b.calls, w.calls + b.calls);
    assert WriteVerifySpec(p, fs, reg, name, Lower(value), true).calls == w.calls || 
      WriteVerifySpec(p, fs, reg, name, Lower(value), true).calls == w.calls + b.calls;
  }

  /**
   * In a dry run `write_fieldname_simple` still writes and verifies, so it
   * fails on every field whose card value differs from the lower-cased value.
   */
  lemma WriteSimpleDryRunFailsOnDifference(p: Profile, fs: Files, reg: Registry, name: FieldName, value: string)
    requires ReadSpec(p, fs, reg, name, None).out.Ok? && ReadSpec(p, fs, reg, name, None).out.value != Lower(value)
    ensures WriteSimpleSpec(p, fs, reg, name, value, true).out.Err?
    ensures name !in RECORD_FIELDS && Contexts(p, fs, reg, name).out.Ok? ==>
      WriteSimpleSpec(p, fs, reg, name, value, true).out
        == Err(VerifyField(name, Lower(value), ReadSpec(p, fs, reg, name, None).out.value))
  {
    DryRunWritesNothing(p, fs, reg, name, Lower(value), None);
  }

  /** An unchanged value is not written: the outcome is true and the card is untouched. */
  lemma ReadWriteSkipsUnchanged(p: Profile, fs: Files, reg: Registry, name: FieldName, value: string, dryRun: bool, reportDifferences: bool)
    requires Contexts(p, fs, reg, name).out.Ok?
    requires ReadSpec(p, fs, reg, name, None).out == Ok(Lower(value))
    ensures var r := ReadWriteSpec(p, fs, reg, name, value, dryRun, reportDifferences);
      r.out == Ok(true) && r.files == fs && NoUpdates(r.calls)
  {
    ContextsIssueNoUpdate(p, fs, reg, name);
    ReadIssuesNoUpdate(p, fs, reg, name, None);
    NoUpdatesJoin(Contexts(p, fs, reg, name).calls, ReadSpec(p, fs, reg, name, None).calls);
  }

  /** In a dry run `read_write_to_fieldname` issues no update and changes no file. */
  lemma ReadWriteDryRunWritesNothing(p: Profile, fs: Files, reg: Registry, name: FieldName, value: string, reportDifferences: bool)
    ensures var r := ReadWriteSpec(p, fs, reg, name, value, true, reportDifferences);
      r.files == fs && NoUpdates(r.calls)
  {
    ContextsIssueNoUpdate(p, fs, reg, name);
    ReadIssuesNoUpdate(p, fs, reg, name, None);
    NoUpdatesJoin(Contexts(p, fs, reg, name).calls, ReadSpec(p, fs, reg, name, None).calls);
  }

  /** The difference report on a card value shorter than the new value raises before any write. */
  lemma ReadWriteReportNeedsLength(p: Profile, fs: Files, reg: Registry, name: FieldName, value: string, dryRun: bool)
    requires Contexts(p, fs, reg, name).out.Ok?
    requires ReadSpec(p, fs, reg, name, None).out.Ok?
    requires |ReadSpec(p, fs, reg, name, None).out.value| < |Lower(value)|
    ensures var r := ReadWriteSpec(p, fs, reg, name, value, dryRun, true);
      r.out == Err(IndexError) && r.files == fs
  {
  }

  /** Outside a dry run, a successful `read_write_to_fieldname` leaves the lower-cased value on the card. */
  lemma ReadWriteOkMeansStored(p: Profile, fs: Files, reg: Registry, name: FieldName, value: string, reportDifferences: bool)
    requires ReadWriteSpec(p, fs, reg, name, value, false, reportDifferences).out.Ok?
    ensures ReadSpec(p, ReadWriteSpec(p, fs, reg, name, value, false, reportDifferences).files, reg, name, None).out == Ok(Lower(value))
  {
    var b := ReadSpec(p, fs, reg, name, None);
    if b.out != Ok(Lower(value)) {
      var wv := WriteVerifySpec(p, fs, reg, name, Lower(value), false);
      assert ReadWriteSpec(p, fs, reg, name, value, false, reportDifferences).files == wv.files && wv.out.Ok?;
      VerifiedMeansStored(p, fs, reg, name, Lower(value), false);
    }
  }

  lemma NoUpdatesJoin(a: seq<Command>, b: seq<Command>)
    requires NoUpdates(a) && NoUpdates(b)
    ensures NoUpdates(a + b)
  {
    forall j | 0 <= j < |a + b|
      ensures !IsUpdate((a + b)[j])
    {
      if j >= |a| {
        assert (a + b)[j] == b[j - |a|];
      }
    }
  }
}

/**
 * The pySim card as the field-programming engine sees it: a store of
 * elementary files that answers select, size, read and update commands with a
 * status word, or by raising. How the card answers is fixed by a `Profile`;
 * what it stores changes with accepted updates. Every command issued is
 * appended to a ghost trace, so that contracts can speak about which commands
 * were sent and in which order.
 */
module Card {
  import opened Wrappers
  import opened Registry

  /** The status word of success. */
  const SW_OK: string := "9000"
  /** The status word the model's card gives for a target it does not hold ("file not found"). */
  const SW_NOT_FOUND: string := "6a82"

  /** A transparent file holds one hex string; a linear fixed file holds records. */
  datatype Content = Flat(data: string) | Records(records: seq<string>)

  type Files = map<FileId, Content>

  /** What a read or update addresses: a whole transparent file, or one record (numbered from 1). */
  datatype Target = Whole(ef: FileId) | Record(ef: FileId, n: int)

  /** A command's answer: it raised, or it returned a status word. */
  datatype Reply = Raises | Status(sw: string)

  datatype App = Isim | Usim

  /** The ADM PIN as `check_pin_adm` hands it on: hex digits (after `0x`) or ASCII text. */
  datatype AdmPin = AsciiPin(text: string) | HexPin(digits: string)

  datatype Command =
    | SelectAdf(app: App)
    | FileExists(ef: FileId)
    | BinarySize(ef: FileId)
    | RecordCount(ef: FileId)
    | ReadBinary(ef: FileId)
    | ReadRecord(ef: FileId, n: int)
    | UpdateBinary(ef: FileId, data: string)
    | UpdateRecord(ef: FileId, n: int, data: string)
    | VerifyChv(chv: int, pin: AdmPin)

  predicate IsUpdate(c: Command) { c.UpdateBinary? || c.UpdateRecord? }

  predicate NoUpdates(cs: seq<Command>) {
    forall i :: 0 <= i < |cs| ==> !IsUpdate(cs[i])
  }

  /**
   * How a card answers, fixed for a session:
   * - `apps`: the applications the card object supports (`IsimCard`, `UsimCard`);
   * - `selectReplies`: answers of `select_adf_by_aid` (absent: "9000");
   * - `sizes`: what `binary_size` reports (absent: it raises);
   * - `readReplies`, `updateReplies`: answers that override the default for a
   *   target (default: "9000" if the card holds the target, "6a82" otherwise);
   * - `admStatus`: the status `verify_chv` gives for the key pySim derives from
   *   each PIN form; a form absent from it is one pySim's PIN sanitiser rejects.
   */
  datatype Profile = Profile(
    apps: set<App>,
    selectReplies: map<App, Reply>,
    sizes: map<FileId, nat>,
    readReplies: map<Target, Reply>,
    updateReplies: map<Target, Reply>,
    admStatus: map<AdmPin, string>)

  predicate Present(fs: Files, t: Target) {
    match t
    case Whole(ef) => ef in fs && fs[ef].Flat?
    case Record(ef, n) => ef in fs && fs[ef].Records? && 1 <= n <= |fs[ef].records|
  }

  /** The data a read of `t` returns. */
  function DataAt(fs: Files, t: Target): string {
    if !Present(fs, t) then ""
    else match t
      case Whole(ef) => fs[ef].data
      case Record(ef, n) => fs[ef].records[n - 1]
  }

  function DefaultReply(fs: Files, t: Target): (r: Reply)
    ensures r == Status(SW_OK) <==> Present(fs, t)
  {
    if Present(fs, t) then Status(SW_OK) else Status(SW_NOT_FOUND)
  }

  function ReadReply(p: Profile, fs: Files, t: Target): Reply {
    if t in p.readReplies then p.readReplies[t] else DefaultReply(fs, t)
  }

  function UpdateReply(p: Profile, fs: Files, t: Target): Reply {
    if t in p.updateReplies then p.updateReplies[t] else DefaultReply(fs, t)
  }

  function SelectReply(p: Profile, app: App): Reply {
    if app in p.selectReplies then p.selectReplies[app] else Status(SW_OK)
  }

  /** `record_count`: the number of records, raising (None) unless the file is record structured. */
  function RecordCountOf(fs: Files, ef: FileId): (r: Option<nat>)
    ensures r.Some? <==> ef in fs && fs[ef].Records?
    ensures r.Some? ==> r.value == |fs[ef].records|
  {
    if ef in fs && fs[ef].Records? then Some(|fs[ef].records|) else None
  }

  /** UPDATE BINARY at offset 0: the leading characters are replaced, a longer old tail stays. */
  function Overwrite(prev: string, data: string): (r: string)
    ensures |r| == if |data| < |prev| then |prev| else |data|
    ensures r[..|data|] == data && r[|data|..] == if |data| < |prev| then prev[|data|..] else []
  {
    if |data| < |prev| then data + prev[|data|..] else data
  }

  /** The files once an update of `t` with `data` has been accepted. */
  function Store(fs: Files, t: Target, data: string): (r: Files)
    ensures r.Keys == fs.Keys
    ensures forall ef :: ef in fs && ef != t.ef ==> r[ef] == fs[ef]
    ensures Present(fs, t) ==> Present(r, t) && DataAt(r, t) == (if t.Whole? then Overwrite(DataAt(fs, t), data) else data)
  {
    if !Present(fs, t) then fs
    else match t
      case Whole(ef) => fs[ef := Flat(Overwrite(fs[ef].data, data))]
      case Record(ef, n) => fs[ef := Records(fs[ef].records[n - 1 := data])]
  }

  /** An update changes the files only when the card answers "9000". */
  function AfterUpdate(p: Profile, fs: Files, t: Target, data: string): Files {
    if UpdateReply(p, fs, t) == Status(SW_OK) then Store(fs, t, data) else fs
  }

  class SimCard {
    const profile: Profile
    var files: Files
    ghost var trace: seq<Command>

    constructor (profile: Profile, files: Files)
      ensures this.profile == profile && this.files == files && trace == []
    {
      this.profile := profile;
      this.files := files;
      trace := [];
    }

    method SelectAdfByAid(app: App) returns (reply: Reply)
      modifies this`trace
      ensures reply == SelectReply(profile, app)
      ensures trace == old(trace) + [SelectAdf(app)]
    {
      reply := SelectReply(profile, app);
      trace := trace + [SelectAdf(app)];
    }

    method FileExistsOnCard(ef: FileId) returns (b: bool)
      modifies this`trace
      ensures b <==> ef in files
      ensures trace == old(trace) + [FileExists(ef)]
    {
      b := ef in files;
      trace := trace + [FileExists(ef)];
    }

    /** `binary_size`: None when it raises. */
    method BinarySizeOf(ef: FileId) returns (size: Option<nat>)
      modifies this`trace
      ensures size == if ef in profile.sizes then Some(profile.sizes[ef]) else None
      ensures trace == old(trace) + [BinarySize(ef)]
    {
      size := if ef in profile.sizes then Some(profile.sizes[ef]) else None;
      trace := trace + [BinarySize(ef)];
    }

    /** `record_count`: None when it raises. */
    method RecordCountOfFile(ef: FileId) returns (count: Option<nat>)
      modifies this`trace
      ensures count == RecordCountOf(files, ef)
      ensures trace == old(trace) + [RecordCount(ef)]
    {
      count := RecordCountOf(files, ef);
      trace := trace + [RecordCount(ef)];
    }

    method ReadBinaryOf(ef: FileId) returns (reply: Reply, data: string)
      modifies this`trace
      ensures reply == ReadReply(profile, files, Whole(ef)) && data == DataAt(files, Whole(ef))
      ensures trace == old(trace) + [ReadBinary(ef)]
    {
      reply := ReadReply(profile, files, Whole(ef));
      data := DataAt(files, Whole(ef));
      trace := trace + [ReadBinary(ef)];
    }

    method ReadRecordOf(ef: FileId, n: int) returns (reply: Reply, data: string)
      modifies this`trace
      ensures reply == ReadReply(profile, files, Record(ef, n)) && data == DataAt(files, Record(ef, n))
      ensures trace == old(trace) + [ReadRecord(ef, n)]
    {
      reply := ReadReply(profile, files, Record(ef, n));
      data := DataAt(files, Record(ef, n));
      trace := trace + [ReadRecord(ef, n)];
    }

    method UpdateBinaryOf(ef: FileId, data: string) returns (reply: Reply)
      modifies this
      ensures reply == UpdateReply(profile, old(files), Whole(ef))
      ensures files == AfterUpdate(profile, old(files), Whole(ef), data)
      ensures trace == old(trace) + [UpdateBinary(ef, data)]
    {
      reply := UpdateReply(profile, files, Whole(ef));
      files := AfterUpdate(profile, files, Whole(ef), data);
      trace := trace + [UpdateBinary(ef, data)];
    }

    method UpdateRecordOf(ef: FileId, n: int, data: string) returns (reply: Reply)
      modifies this
      ensures reply == UpdateReply(profile, old(files), Record(ef, n))
      ensures files == AfterUpdate(profile, old(files), Record(ef, n), data)
      ensures trace == old(trace) + [UpdateRecord(ef, n, data)]
    {
      reply := UpdateReply(profile, files, Record(ef, n));
      files := AfterUpdate(profile, files, Record(ef, n), data);
      trace := trace + [UpdateRecord(ef, n, data)];
    }

    /** `verify_chv(chv, key)` with the key pySim derives from `pin`. */
    method VerifyChvWith(chv: int, pin: AdmPin) returns (sw: string)
      requires pin in profile.admStatus
      modifies this`trace
      ensures sw == profile.admStatus[pin]
      ensures trace == old(trace) + [VerifyChv(chv, pin)]
    {
      sw := profile.admStatus[pin];
      trace := trace + [VerifyChv(chv, pin)];
    }
  }
}

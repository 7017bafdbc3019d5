/**
  The backup state file (`BackupState.to_dict` and `from_dict` in backend/app/backup.py). JSON objects
  are maps over the keys the two functions use.
 */
module BackupState {
  import opened Wrappers

  datatype Name =
    | Schema | LastBackup | LastCheck | LastDrill | Recent
    | FileName | At | Size | EncSha256 | StatusName | Reason | RequestId

  datatype Json = JNull | JInt(n: int) | JText(s: string) | JArray(items: seq<Json>) | JObject(fields: map<Name, Json>)

  /** BackupRecord. */
  datatype BackupRecord = BackupRecord(file: string, at: string, size: int, encSha256: string, status: string,
                                       reason: string, requestId: string)

  /** The two reports are kept as the JSON they are. */
  datatype State = State(lastBackup: Option<BackupRecord>, lastCheck: Json, lastDrill: Json, recent: seq<BackupRecord>)

  datatype Error = UnsupportedSchema

  function RecordToDict(r: BackupRecord): Json {
    JObject(map[FileName := JText(r.file), At := JText(r.at), Size := JInt(r.size), EncSha256 := JText(r.encSha256),
                StatusName := JText(r.status), Reason := JText(r.reason), RequestId := JText(r.requestId)])
  }

  function RecordsToDict(records: seq<BackupRecord>): seq<Json> {
    seq(|records|, i requires 0 <= i < |records| => RecordToDict(records[i]))
  }

  function ToDict(s: State): Json {
    JObject(map[Schema := JInt(1),
                LastBackup := if s.lastBackup.None? then JNull else RecordToDict(s.lastBackup.value),
                LastCheck := s.lastCheck,
                LastDrill := s.lastDrill,
                Recent := JArray(RecordsToDict(s.recent))])
  }

  function Get(fields: map<Name, Json>, name: Name): Json { if name in fields then fields[name] else JNull }

  function Text(j: Json): string { if j.JText? then j.s else "" }

  function Number(j: Json): int { if j.JInt? then j.n else 0 }

  /** `_record`: anything but an object is dropped, and missing fields are empty. */
  function RecordOf(item: Json): Option<BackupRecord> {
    if !item.JObject? then None
    else
      var f := item.fields;
      Some(BackupRecord(Text(Get(f, FileName)), Text(Get(f, At)), Number(Get(f, Size)), Text(Get(f, EncSha256)),
                        Text(Get(f, StatusName)), Text(Get(f, Reason)), Text(Get(f, RequestId))))
  }

  function RecordsOf(items: seq<Json>): seq<BackupRecord> {
    if items == [] then []
    else
      var last := RecordOf(items[|items| - 1]);
      RecordsOf(items[..|items| - 1]) + if last.Some? then [last.value] else []
  }

  function FromDict(payload: Json): Result<State, Error> {
    if !payload.JObject? || Get(payload.fields, Schema) != JInt(1) then Failure(UnsupportedSchema)
    else
      var f := payload.fields;
      var recent := Get(f, Recent);
      var records := RecordsOf(if recent.JArray? then recent.items else []);
      var own := RecordOf(Get(f, LastBackup));
      var last := if own.Some? then own else if records != [] then Some(records[0]) else None;
      Success(State(last, Get(f, LastCheck), Get(f, LastDrill), records))
  }

  lemma RecordRoundTrip(r: BackupRecord)
    ensures RecordOf(RecordToDict(r)) == Some(r)
  {
  }

  lemma {:induction false} RecordsRoundTrip(records: seq<BackupRecord>)
    ensures RecordsOf(RecordsToDict(records)) == records
  {
    if records != [] {
      var n := |records| - 1;
      RecordsRoundTrip(records[..n]);
      RecordRoundTrip(records[n]);
      assert RecordsToDict(records)[..n] == RecordsToDict(records[..n]);
    }
  }

  /**
    What is saved is read back exactly when the state names a last backup or has no recent ones: a
    missing last backup is otherwise filled in from the list. Saving what was read changes nothing.
   */
  lemma RoundTripIff(s: State)
    ensures FromDict(ToDict(s)) == Success(s) <==> s.lastBackup.Some? || s.recent == []
    ensures FromDict(ToDict(s)).Success? && FromDict(ToDict(FromDict(ToDict(s)).value)) == FromDict(ToDict(s))
  {
    StateRead(s);
    StateRead(FromDict(ToDict(s)).value);
  }

  lemma StateRead(s: State)
    ensures FromDict(ToDict(s)) ==
      Success(if s.lastBackup.None? && s.recent != [] then s.(lastBackup := Some(s.recent[0])) else s)
  {
    RecordsRoundTrip(s.recent);
    if s.lastBackup.Some? {
      RecordRoundTrip(s.lastBackup.value);
    }
  }

  lemma {:induction false} RecordsConcat(a: seq<Json>, b: seq<Json>)
    ensures RecordsOf(a + b) == RecordsOf(a) + RecordsOf(b)
  {
    if b == [] {
      assert a + b == a;
    } else {
      var n := |b| - 1;
      RecordsConcat(a, b[..n]);
      assert (a + b)[..|a + b| - 1] == a + b[..n];
    }
  }

  lemma StrangerAlone(strange: Json)
    requires !strange.JObject?
    ensures RecordsOf([strange]) == []
  {
    assert [strange][..0] == [];
  }

  /** What stands in the list besides objects is skipped, wherever it stands. */
  lemma StrangersAreSkipped(a: seq<Json>, strange: Json, b: seq<Json>)
    requires !strange.JObject?
    ensures RecordsOf((a + [strange]) + b) == RecordsOf(a) + RecordsOf(b)
  {
    RecordsConcat(a + [strange], b);
    RecordsConcat(a, [strange]);
    StrangerAlone(strange);
    assert RecordsOf(a) + [] == RecordsOf(a);
  }

  /** A missing text is empty, a present one is read. */
  ghost predicate TextField(fields: map<Name, Json>, name: Name, text: string) {
    if name in fields then fields[name].JText? ==> fields[name] == JText(text) else text == ""
  }

  /** Any object is a record, field by field under its own key. */
  lemma RecordReads(fields: map<Name, Json>)
    ensures RecordOf(JObject(fields)).Some?
    ensures var r := RecordOf(JObject(fields)).value;
            && TextField(fields, FileName, r.file) && TextField(fields, At, r.at) && TextField(fields, EncSha256, r.encSha256)
            && TextField(fields, StatusName, r.status) && TextField(fields, Reason, r.reason) && TextField(fields, RequestId, r.requestId)
            && (Size !in fields || fields[Size] == JNull ==> r.size == 0)
            && (Size in fields && fields[Size].JInt? ==> fields[Size] == JInt(r.size))
  {
  }

  /**
    A state file is read exactly when it is an object with schema 1. Anything else in it may be missing:
    a missing list is empty, and without a last backup the first of the list stands in.
   */
  lemma FileReads(payload: Json)
    ensures FromDict(payload).Success? <==> payload.JObject? && Schema in payload.fields && payload.fields[Schema] == JInt(1)
    ensures FromDict(payload).Failure? ==> FromDict(payload) == Failure(UnsupportedSchema)
    ensures FromDict(payload).Success? ==>
      var f, s := payload.fields, FromDict(payload).value;
      && s.lastCheck == (if LastCheck in f then f[LastCheck] else JNull)
      && s.lastDrill == (if LastDrill in f then f[LastDrill] else JNull)
      && (Recent !in f || f[Recent] == JNull ==> s.recent == [])
      && (Recent in f && f[Recent].JArray? ==> s.recent == RecordsOf(f[Recent].items))
      && (if LastBackup in f && f[LastBackup].JObject? then s.lastBackup == RecordOf(f[LastBackup])
          else if s.recent == [] then s.lastBackup.None? else s.lastBackup == Some(s.recent[0]))
  {
  }

  /** The keys under which a state is saved. */
  lemma FileKeeps(s: State)
    ensures ToDict(s).JObject?
    ensures var f := ToDict(s).fields;
            && f.Keys == {Schema, LastBackup, LastCheck, LastDrill, Recent}
            && f[Schema] == JInt(1) && f[LastCheck] == s.lastCheck && f[LastDrill] == s.lastDrill
            && (f[LastBackup] == JNull <==> s.lastBackup.None?) && f[Recent].JArray? && |f[Recent].items| == |s.recent|
  {
  }

  function Recorded(s: State, r: BackupRecord): State {
    s.(lastBackup := Some(r), recent := if |s.recent| < 20 then [r] + s.recent else [r] + s.recent[..19])
  }

  function AfterRuns(records: seq<BackupRecord>): State {
    if records == [] then State(None, JNull, JNull, [])
    else Recorded(AfterRuns(records[..|records| - 1]), records[|records| - 1])
  }

  lemma RecordedAt(s: State, r: BackupRecord, i: nat)
    requires |s.recent| <= 20 && i < |Recorded(s, r).recent|
    ensures |Recorded(s, r).recent| == if |s.recent| < 20 then |s.recent| + 1 else 20
    ensures Recorded(s, r).recent[i] == if i == 0 then r else s.recent[i - 1]
  {
  }

  /** The state lists the newest twenty records, newest first. */
  lemma {:induction false} RecentAreNewest(records: seq<BackupRecord>, i: nat)
    ensures |AfterRuns(records).recent| == if |records| < 20 then |records| else 20
    ensures i < |AfterRuns(records).recent| ==> AfterRuns(records).recent[i] == records[|records| - 1 - i]
  {
    if records != [] {
      var front := records[..|records| - 1];
      RecentAreNewest(front, if i == 0 then 0 else i - 1);
      RecordedAt(AfterRuns(front), records[|records| - 1], if i < |AfterRuns(records).recent| then i else 0);
    }
  }

  /** Every state that runs of backups produce survives the file. */
  lemma RunsSurviveTheFile(records: seq<BackupRecord>)
    ensures FromDict(ToDict(AfterRuns(records))) == Success(AfterRuns(records))
  {
    RecentAreNewest(records, 0);
    RoundTripIff(AfterRuns(records));
  }
}

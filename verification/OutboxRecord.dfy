/** The durable form of a captured job (vprinter/outbox.py): writing a record and reading it back. */
module OutboxRecord {
  import opened Json
  import opened Prelude
  import opened Capture

  datatype RecordError = InvalidUid | NotAnObject | UidMismatch

  /** What the model does not define itself: how other JSON values print as text, how text reads
      as a number, and how text reads as an ISO timestamp; `now` is the fallback timestamp. */
  datatype Env = Env(
    show: Json -> string, parseInt: string -> Option<int>, parseDate: string -> Option<string>, now: string,
    freshUid: string)

  predicate UidChar(c: char) {
    'A' <= c <= 'Z' || 'a' <= c <= 'z' || '0' <= c <= '9' || c == '_' || c == '-'
  }

  predicate ValidUid(uid: string) {
    uid != "" && forall i :: 0 <= i < |uid| ==> UidChar(uid[i])
  }

  function ToRecord(job: CapturedJob): Result<Json, RecordError> {
    if ValidUid(job.uid) then Ok(JObj(Fields(job))) else Err(InvalidUid)
  }

  function Fields(job: CapturedJob): map<string, Json> {
    map[
      "record_version" := JInt(1),
      "member_id" := JStr(job.memberId),
      "filename" := JStr(job.filename),
      "file_path" := JStr(job.filePath),
      "sha256" := JStr(job.sha256),
      "size" := JInt(job.size),
      "ams_mapping" := job.amsMapping,
      "use_ams" := JBool(job.useAms),
      "required_filaments" := JList(job.requiredFilaments),
      "submitted_at" := JStr(job.submittedAt),
      "submission_uid" := JStr(job.uid),
      "plate" := if job.plate.Some? then JInt(job.plate.value) else JNull,
      "attempts" := JInt(job.attempts)
    ]
  }

  function Field(r: map<string, Json>, names: seq<string>, default: Json): Json {
    if names == [] then default
    else if names[0] in r then r[names[0]]
    else Field(r, names[1..], default)
  }

  function Show(env: Env, v: Json): string {
    match v
    case JStr(s) => s
    case _ => env.show(v)
  }

  function StrField(env: Env, r: map<string, Json>, names: seq<string>): string {
    var v := Field(r, names, JStr(""));
    if v == JNull then "" else Show(env, v)
  }

  /** `int(value)`, with None for a value that raises. */
  function AsInt(env: Env, v: Json): Option<int> {
    match v
    case JInt(n) => Some(n)
    case JBool(b) => Some(if b then 1 else 0)
    case JStr(s) => env.parseInt(s)
    case _ => None
  }

  function IntField(env: Env, r: map<string, Json>, names: seq<string>, default: int): int {
    match AsInt(env, Field(r, names, JInt(default)))
    case Some(n) => n
    case None => default
  }

  function PlateField(env: Env, r: map<string, Json>): Option<int> {
    var v := Field(r, ["plate"], JNull);
    if v == JNull || v == JStr("") then None else AsInt(env, v)
  }

  function Truthy(s: string): bool {
    LowerCase(s) in {"1", "true", "yes", "on"}
  }

  function BoolField(r: map<string, Json>, names: seq<string>): bool {
    match Field(r, names, JBool(false))
    case JBool(b) => b
    case JStr(s) => Truthy(s)
    case JInt(n) => n != 0
    case _ => false
  }

  function ListField(r: map<string, Json>, names: seq<string>): seq<Json> {
    match Field(r, names, JList([]))
    case JList(items) => items
    case _ => []
  }

  function ReadDate(env: Env, text: string): string {
    match env.parseDate(text)
    case Some(d) => d
    case None => env.now
  }

  function DateField(env: Env, r: map<string, Json>): string {
    match Field(r, ["submitted_at", "submittedAt"], JNull)
    case JStr(s) => ReadDate(env, s)
    case _ => env.now
  }

  function FromRecord(env: Env, record: Json): Result<CapturedJob, RecordError> {
    match record
    case JObj(r) =>
      var rawUid := Field(r, ["submission_uid", "submissionUid", "hubSubmissionUid"], JNull);
      var uid := if rawUid == JNull then env.freshUid else Show(env, rawUid);
      if rawUid != JNull && !ValidUid(uid) then Err(InvalidUid)
      else
        Ok(CapturedJob(
          StrField(env, r, ["member_id", "memberId"]),
          StrField(env, r, ["filename", "fileName"]),
          StrField(env, r, ["file_path", "filePath", "filename", "fileName"]),
          StrField(env, r, ["sha256", "file_sha256", "fileSha256"]),
          IntField(env, r, ["size", "file_size", "fileSizeBytes"], 0),
          Field(r, ["ams_mapping", "amsMapping"], JList([])),
          BoolField(r, ["use_ams", "useAms"]),
          ListField(r, ["required_filaments", "requiredFilaments"]),
          DateField(env, r),
          uid,
          PlateField(env, r),
          Max(0, IntField(env, r, ["attempts"], 0))))
    case _ => Err(NotAnObject)
  }

  /** Reading one outbox file: its name is the authority on the submission id. */
  function LoadFile(env: Env, uid: string, record: Json): Result<CapturedJob, RecordError> {
    if !ValidUid(uid) then Err(InvalidUid)
    else
      var named :=
        if record.JObj? && "submission_uid" !in record.fields
        then JObj(record.fields["submission_uid" := JStr(uid)]) else record;
      match FromRecord(env, named)
      case Ok(job) => if job.uid == uid then Ok(job) else Err(UidMismatch)
      case Err(e) => Err(e)
  }

  /** The written record holds every attribute of the job under its own name. */
  ghost predicate Describes(r: map<string, Json>, job: CapturedJob) {
    && "member_id" in r && r["member_id"] == JStr(job.memberId)
    && "filename" in r && r["filename"] == JStr(job.filename)
    && "file_path" in r && r["file_path"] == JStr(job.filePath)
    && "sha256" in r && r["sha256"] == JStr(job.sha256)
    && "size" in r && r["size"] == JInt(job.size)
    && "ams_mapping" in r && r["ams_mapping"] == job.amsMapping
    && "use_ams" in r && r["use_ams"] == JBool(job.useAms)
    && "required_filaments" in r && r["required_filaments"] == JList(job.requiredFilaments)
    && "submission_uid" in r && r["submission_uid"] == JStr(job.uid)
    && "submitted_at" in r && r["submitted_at"] == JStr(job.submittedAt)
    && "plate" in r && r["plate"] == (if job.plate.Some? then JInt(job.plate.value) else JNull)
    && "attempts" in r && r["attempts"] == JInt(job.attempts)
  }

  lemma {:induction false} FieldsDescribe(job: CapturedJob)
    ensures Describes(Fields(job), job)
  {
  }

  lemma {:induction false} DescribedTexts(env: Env, r: map<string, Json>, job: CapturedJob)
    requires Describes(r, job)
    ensures StrField(env, r, ["member_id", "memberId"]) == job.memberId
    ensures StrField(env, r, ["filename", "fileName"]) == job.filename
    ensures StrField(env, r, ["file_path", "filePath", "filename", "fileName"]) == job.filePath
    ensures StrField(env, r, ["sha256", "file_sha256", "fileSha256"]) == job.sha256
    ensures Field(r, ["submission_uid", "submissionUid", "hubSubmissionUid"], JNull) == JStr(job.uid)
    ensures DateField(env, r) == ReadDate(env, job.submittedAt)
  {
  }

  lemma {:induction false} DescribedValues(env: Env, r: map<string, Json>, job: CapturedJob)
    requires Describes(r, job)
    ensures IntField(env, r, ["size", "file_size", "fileSizeBytes"], 0) == job.size
    ensures Field(r, ["ams_mapping", "amsMapping"], JList([])) == job.amsMapping
    ensures BoolField(r, ["use_ams", "useAms"]) == job.useAms
    ensures ListField(r, ["required_filaments", "requiredFilaments"]) == job.requiredFilaments
    ensures PlateField(env, r) == job.plate
    ensures IntField(env, r, ["attempts"], 0) == job.attempts
  {
  }

  /** Writing a job and loading the file gives back the same job, exactly when the job's attempt
      count is not negative and its timestamp is one that ISO parsing reproduces. */
  lemma {:induction false} RoundTrip(env: Env, job: CapturedJob)
    requires ValidUid(job.uid)
    ensures ToRecord(job).Ok?
    ensures LoadFile(env, job.uid, ToRecord(job).value) == Ok(job)
            <==> job.attempts >= 0 && ReadDate(env, job.submittedAt) == job.submittedAt
  {
    var r := Fields(job);
    FieldsDescribe(job);
    hide Fields, Field, StrField, IntField, BoolField, ListField, PlateField, DateField, ReadDate;
    DescribedTexts(env, r, job);
    DescribedValues(env, r, job);
  }

  /** A record under the older names alone, in which the flag is a text. */
  ghost predicate DescribesOlder(r: map<string, Json>, job: CapturedJob, flag: string) {
    && "memberId" in r && r["memberId"] == JStr(job.memberId) && "member_id" !in r
    && "fileName" in r && r["fileName"] == JStr(job.filename) && "filename" !in r
    && "filePath" in r && r["filePath"] == JStr(job.filePath) && "file_path" !in r
    && "fileSha256" in r && r["fileSha256"] == JStr(job.sha256) && "sha256" !in r && "file_sha256" !in r
    && "fileSizeBytes" in r && r["fileSizeBytes"] == JInt(job.size) && "size" !in r && "file_size" !in r
    && "amsMapping" in r && r["amsMapping"] == job.amsMapping && "ams_mapping" !in r
    && "useAms" in r && r["useAms"] == JStr(flag) && "use_ams" !in r
    && "requiredFilaments" in r && r["requiredFilaments"] == JList(job.requiredFilaments) && "required_filaments" !in r
    && "submittedAt" in r && r["submittedAt"] == JStr(job.submittedAt) && "submitted_at" !in r
    && "submissionUid" in r && r["submissionUid"] == JStr(job.uid) && "submission_uid" !in r
    && "plate" in r && r["plate"] == (if job.plate.Some? then JInt(job.plate.value) else JNull)
    && "attempts" in r && r["attempts"] == JInt(job.attempts)
  }

  lemma {:induction false} SecondName(r: map<string, Json>, names: seq<string>, default: Json)
    requires |names| >= 2 && names[0] !in r && names[1] in r
    ensures Field(r, names, default) == r[names[1]]
  {
    assert Field(r, names, default) == Field(r, names[1..], default);
  }

  lemma {:induction false} ThirdName(r: map<string, Json>, names: seq<string>, default: Json)
    requires |names| >= 3 && names[0] !in r && names[1] !in r && names[2] in r
    ensures Field(r, names, default) == r[names[2]]
  {
    assert Field(r, names, default) == Field(r, names[1..], default);
    SecondName(r, names[1..], default);
  }

  lemma {:induction false} FlagText(flag: string)
    ensures Truthy(flag) <==> flag == "1" || SameText(flag, "true") || SameText(flag, "yes") || SameText(flag, "on")
  {
    hide SameText;
    LowerIs(flag, "1");
    LowerIs(flag, "true");
    LowerIs(flag, "yes");
    LowerIs(flag, "on");
    OneDigit(flag);
  }

  lemma {:induction false} OneDigit(flag: string)
    ensures SameText(flag, "1") <==> flag == "1"
  {
    assert "1"[0] == '1';
  }

  lemma {:induction false} LowerIs(s: string, small: string)
    requires forall i :: 0 <= i < |small| ==> !('A' <= small[i] <= 'Z')
    ensures LowerCase(s) == small <==> SameText(s, small)
  {
    assert LowerCase(small) == small;
    TextCase(s, small);
  }

  lemma {:induction false} OlderTexts(env: Env, r: map<string, Json>, job: CapturedJob, flag: string)
    requires DescribesOlder(r, job, flag)
    ensures StrField(env, r, ["member_id", "memberId"]) == job.memberId
    ensures StrField(env, r, ["filename", "fileName"]) == job.filename
    ensures StrField(env, r, ["file_path", "filePath", "filename", "fileName"]) == job.filePath
    ensures StrField(env, r, ["sha256", "file_sha256", "fileSha256"]) == job.sha256
    ensures Field(r, ["submission_uid", "submissionUid", "hubSubmissionUid"], JNull) == JStr(job.uid)
    ensures DateField(env, r) == ReadDate(env, job.submittedAt)
  {
    hide Field, ReadDate;
    SecondName(r, ["member_id", "memberId"], JStr(""));
    SecondName(r, ["filename", "fileName"], JStr(""));
    SecondName(r, ["file_path", "filePath", "filename", "fileName"], JStr(""));
    ThirdName(r, ["sha256", "file_sha256", "fileSha256"], JStr(""));
    SecondName(r, ["submission_uid", "submissionUid", "hubSubmissionUid"], JNull);
    SecondName(r, ["submitted_at", "submittedAt"], JNull);
  }

  lemma {:induction false} OlderValues(env: Env, r: map<string, Json>, job: CapturedJob, flag: string)
    requires DescribesOlder(r, job, flag)
    ensures IntField(env, r, ["size", "file_size", "fileSizeBytes"], 0) == job.size
    ensures Field(r, ["ams_mapping", "amsMapping"], JList([])) == job.amsMapping
    ensures BoolField(r, ["use_ams", "useAms"]) == Truthy(flag)
    ensures ListField(r, ["required_filaments", "requiredFilaments"]) == job.requiredFilaments
    ensures PlateField(env, r) == job.plate
    ensures IntField(env, r, ["attempts"], 0) == job.attempts
  {
    hide Field, Truthy;
    ThirdName(r, ["size", "file_size", "fileSizeBytes"], JInt(0));
    SecondName(r, ["ams_mapping", "amsMapping"], JList([]));
    SecondName(r, ["use_ams", "useAms"], JBool(false));
    SecondName(r, ["required_filaments", "requiredFilaments"], JList([]));
    FirstName(r, ["plate"], JNull);
    FirstName(r, ["attempts"], JInt(0));
  }

  lemma {:induction false} FirstName(r: map<string, Json>, names: seq<string>, default: Json)
    requires names != [] && names[0] in r
    ensures Field(r, names, default) == r[names[0]]
  {
  }

  /** A record under the older names is read as the same job, with the use of the AMS written as a text. */
  lemma {:induction false} OlderNamesAreRead(env: Env, r: map<string, Json>, job: CapturedJob, flag: string)
    requires ValidUid(job.uid) && DescribesOlder(r, job, flag)
    requires job.attempts >= 0 && env.parseDate(job.submittedAt) == Some(job.submittedAt)
    requires job.useAms <==> flag == "1" || SameText(flag, "true") || SameText(flag, "yes") || SameText(flag, "on")
    ensures FromRecord(env, JObj(r)) == Ok(job)
  {
    hide Field, StrField, IntField, BoolField, ListField, PlateField, DateField, Truthy, SameText, DescribesOlder;
    OlderTexts(env, r, job, flag);
    OlderValues(env, r, job, flag);
    FlagText(flag);
  }
}

/** What pairing makes of one upload and one print intent: when they make a job, which job, and which error otherwise. */
module CaptureJobs {
  import opened Json
  import opened Prelude
  import opened Capture

  // ----- when a pair makes a job, and which -------------------------------------------------------

  /** The intent names no MD5, or the file's, up to case. */
  predicate Md5Agrees(i: Intent, facts: FileFacts) {
    i.md5.None? || (facts.md5.Some? && SameText(facts.md5.value, i.md5.value))
  }

  /** The file is the one the intent means, and its filaments can be read. */
  predicate Fits(i: Intent, facts: FileFacts) {
    Md5Agrees(i, facts) && facts.filaments.Some?
  }

  predicate SameNames(u: Upload, i: Intent) {
    u.filename == i.filename && u.memberId == i.memberId
  }

  /** The intent's mapping, or both its forms when it carries the second one. */
  ghost predicate MappingOf(i: Intent, m: Json) {
    if i.amsMapping2 == JNull then m == i.amsMapping
    else
      && m.JObj? && m.fields.Keys == {"ams_mapping", "ams_mapping2"}
      && m.fields["ams_mapping"] == i.amsMapping && m.fields["ams_mapping2"] == i.amsMapping2
  }

  /** The slot list that goes into the submission id: the first form of the mapping, where it is a list. */
  ghost predicate PrimarySlots(i: Intent, slots: seq<Json>) {
    if i.amsMapping.JList? then slots == i.amsMapping.items
    else if i.amsMapping2 == JNull && i.amsMapping.JObj? && "ams_mapping" in i.amsMapping.fields
            && i.amsMapping.fields["ams_mapping"].JList?
    then slots == i.amsMapping.fields["ams_mapping"].items
    else slots == []
  }

  /** The job of a pair: the upload's member and file, the intent's settings, the filaments read from the file. */
  ghost predicate JobOf(cfg: Config, u: Upload, i: Intent, facts: FileFacts, job: CapturedJob) {
    && job.memberId == u.memberId && job.filename == u.filename && job.filePath == u.filePath
    && job.sha256 == u.sha256 && job.size == u.size
    && MappingOf(i, job.amsMapping) && job.useAms == i.useAms && job.plate == i.plate
    && facts.filaments == Some(job.requiredFilaments) && job.submittedAt == facts.submittedAt
    && job.attempts == 0
    && exists slots :: PrimarySlots(i, slots) && job.uid == cfg.digest(u.memberId, u.sha256, i.plate, slots)
  }

  /** The fact behind each assembly error; the names are compared first, the MD5 next, the filaments read last. */
  predicate Fault(u: Upload, i: Intent, facts: FileFacts, error: AssembleError) {
    match error
    case FilenameMismatch => u.filename != i.filename
    case MemberMismatch => u.filename == i.filename && u.memberId != i.memberId
    case Md5Mismatch =>
      SameNames(u, i) && i.md5.Some? && facts.md5.Some? && !SameText(facts.md5.value, i.md5.value)
    case UnreadableFile =>
      SameNames(u, i) && ((i.md5.Some? && facts.md5.None?) || (Md5Agrees(i, facts) && facts.filaments.None?))
  }

  lemma {:induction false} PrimaryIsFound(i: Intent, m: Json)
    requires MappingOf(i, m)
    ensures PrimarySlots(i, AmsMappingList(m))
  {
  }

  /** A pair makes a job exactly when the names agree and the file fits; it is the job of the pair; and each error is
      given exactly for its fact. */
  lemma {:induction false} AssemblyIsExact(cfg: Config, u: Upload, i: Intent, facts: FileFacts)
    ensures var r := Assemble(cfg, u, i, facts);
            && (r.Ok? <==> SameNames(u, i) && Fits(i, facts))
            && (r.Ok? ==> JobOf(cfg, u, i, facts, r.value))
            && forall error :: r == Err(error) <==> Fault(u, i, facts, error)
  {
    hide SameText, AmsMappingList, PrimarySlots;
    if i.md5.Some? && facts.md5.Some? {
      TextCase(facts.md5.value, i.md5.value);
    }
    var r := Assemble(cfg, u, i, facts);
    if r.Ok? {
      PrimaryIsFound(i, r.value.amsMapping);
    }
  }
}

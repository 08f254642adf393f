/**
 * Room's type converters: each enum is stored as its constant name and read
 * back with `valueOf`, which throws on an unknown name; null maps to null in
 * both directions.
 */
module Converters {
  import opened Wrappers
  import opened Statuses
  import opened Formats

  /** The exception `valueOf` throws for a string that names no constant. */
  function NoConstant(enumName: string, value: string): string
  {
    "No enum constant com.debatefeedback.domain.model." + enumName + "." + value
  }

  function FromFormat(f: Option<DebateFormat>): (r: Option<string>)
    ensures f.None? <==> r.None?
    ensures f.Some? ==> r == Some(f.value.Name())
  {
    if f.Some? then Some(f.value.Name()) else None
  }

  function ToFormat(value: Option<string>): (r: Result<Option<DebateFormat>>)
    ensures value.None? ==> r == Success(None)
    ensures value.Some? && r.Success? ==> r.value.Some? && r.value.value.Name() == value.value
    ensures value.Some? && r.Failure? ==> forall f: DebateFormat :: f.Name() != value.value
  {
    match value
    case None => Success(None)
    case Some(s) =>
      if s == "WSDC" then Success(Some(Wsdc))
      else if s == "MODIFIED_WSDC" then Success(Some(ModifiedWsdc))
      else if s == "BP" then Success(Some(Bp))
      else if s == "AP" then Success(Some(Ap))
      else if s == "AUSTRALS" then Success(Some(Australs))
      else Failure(NoConstant("DebateFormat", s))
  }

  function FromLevel(l: Option<StudentLevel>): (r: Option<string>)
    ensures l.None? <==> r.None?
    ensures l.Some? ==> r == Some(l.value.Name())
  {
    if l.Some? then Some(l.value.Name()) else None
  }

  function ToLevel(value: Option<string>): (r: Result<Option<StudentLevel>>)
    ensures value.None? ==> r == Success(None)
    ensures value.Some? && r.Success? ==> r.value.Some? && r.value.value.Name() == value.value
    ensures value.Some? && r.Failure? ==> forall l: StudentLevel :: l.Name() != value.value
  {
    match value
    case None => Success(None)
    case Some(s) =>
      if s == "PRIMARY" then Success(Some(Primary))
      else if s == "SECONDARY" then Success(Some(Secondary))
      else Failure(NoConstant("StudentLevel", s))
  }

  function FromUploadStatus(u: Option<UploadStatus>): (r: Option<string>)
    ensures u.None? <==> r.None?
    ensures u.Some? ==> r == Some(u.value.Name())
  {
    if u.Some? then Some(u.value.Name()) else None
  }

  function ToUploadStatus(value: Option<string>): (r: Result<Option<UploadStatus>>)
    ensures value.None? ==> r == Success(None)
    ensures value.Some? && r.Success? ==> r.value.Some? && r.value.value.Name() == value.value
    ensures value.Some? && r.Failure? ==> forall u: UploadStatus :: u.Name() != value.value
  {
    match value
    case None => Success(None)
    case Some(s) =>
      if s == "PENDING" then Success(Some(UploadStatus.Pending))
      else if s == "UPLOADING" then Success(Some(UploadStatus.Uploading))
      else if s == "UPLOADED" then Success(Some(UploadStatus.Uploaded))
      else if s == "FAILED" then Success(Some(UploadStatus.Failed))
      else Failure(NoConstant("UploadStatus", s))
  }

  function FromProcessingStatus(p: Option<ProcessingStatus>): (r: Option<string>)
    ensures p.None? <==> r.None?
    ensures p.Some? ==> r == Some(p.value.Name())
  {
    if p.Some? then Some(p.value.Name()) else None
  }

  function ToProcessingStatus(value: Option<string>): (r: Result<Option<ProcessingStatus>>)
    ensures value.None? ==> r == Success(None)
    ensures value.Some? && r.Success? ==> r.value.Some? && r.value.value.Name() == value.value
    ensures value.Some? && r.Failure? ==> forall p: ProcessingStatus :: p.Name() != value.value
  {
    match value
    case None => Success(None)
    case Some(s) =>
      if s == "PENDING" then Success(Some(ProcessingStatus.Pending))
      else if s == "PROCESSING" then Success(Some(ProcessingStatus.Processing))
      else if s == "COMPLETE" then Success(Some(ProcessingStatus.Complete))
      else if s == "FAILED" then Success(Some(ProcessingStatus.Failed))
      else Failure(NoConstant("ProcessingStatus", s))
  }

  /** Storing then reading any value, or null, gives it back. */
  lemma ConvertersRoundTrip(f: Option<DebateFormat>, l: Option<StudentLevel>, u: Option<UploadStatus>, p: Option<ProcessingStatus>)
    ensures ToFormat(FromFormat(f)) == Success(f)
    ensures ToLevel(FromLevel(l)) == Success(l)
    ensures ToUploadStatus(FromUploadStatus(u)) == Success(u)
    ensures ToProcessingStatus(FromProcessingStatus(p)) == Success(p)
  {
  }

  /** Reading then storing a readable string gives it back: the name is the whole stored form. */
  lemma ConvertersReverseRoundTrip(s: string)
    ensures ToFormat(Some(s)).Success? ==> FromFormat(ToFormat(Some(s)).value) == Some(s)
    ensures ToLevel(Some(s)).Success? ==> FromLevel(ToLevel(Some(s)).value) == Some(s)
    ensures ToUploadStatus(Some(s)).Success? ==> FromUploadStatus(ToUploadStatus(Some(s)).value) == Some(s)
    ensures ToProcessingStatus(Some(s)).Success? ==> FromProcessingStatus(ToProcessingStatus(Some(s)).value) == Some(s)
  {
  }

  /** Distinct constants are stored as distinct strings. */
  lemma ConvertersInjective(f1: DebateFormat, f2: DebateFormat, l1: StudentLevel, l2: StudentLevel,
                            u1: UploadStatus, u2: UploadStatus, p1: ProcessingStatus, p2: ProcessingStatus)
    ensures FromFormat(Some(f1)) == FromFormat(Some(f2)) ==> f1 == f2
    ensures FromLevel(Some(l1)) == FromLevel(Some(l2)) ==> l1 == l2
    ensures FromUploadStatus(Some(u1)) == FromUploadStatus(Some(u2)) ==> u1 == u2
    ensures FromProcessingStatus(Some(p1)) == FromProcessingStatus(Some(p2)) ==> p1 == p2
  {
    ConvertersRoundTrip(Some(f1), Some(l1), Some(u1), Some(p1));
    ConvertersRoundTrip(Some(f2), Some(l2), Some(u2), Some(p2));
  }

  /** The display name is not the stored form: "Modified WSDC" does not read back. */
  lemma DisplayNameIsNotStored()
    ensures FromFormat(Some(ModifiedWsdc)) == Some("MODIFIED_WSDC")
    ensures ToFormat(Some(ModifiedWsdc.DisplayName())).Failure?
  {
  }
}

/** The output projection of a recording row (`mapRecording`). A row's
    `personId` and `sentenceId` are either raw references or, when the query
    populated them, the referenced documents (with the selected fields), or
    null when the referenced document no longer exists. */
module RecordingMapper {
  import opened Common
  import opened RecordingModel

  /** A recording's `personId` as a query returns it. */
  datatype PersonRef =
    | PersonRaw(id: Id)                        // not populated
    | PersonDoc(id: Id, email: Option<string>) // populated, selected fields
    | PersonMissing                            // populated, referent absent: null

  /** A recording's `sentenceId` as a query returns it. */
  datatype SentenceRef =
    | SentenceRaw(id: Id)
    | SentenceDoc(id: Id, content: Option<string>, status: Option<int>)
    | SentenceMissing

  /** A recording document as a query returns it. */
  datatype Row = Row(id: Id, person: PersonRef, sentence: SentenceRef, audioUrl: string,
                     isApproved: int, duration: Option<int>, recordedAt: int)

  /** The object `mapRecording` builds. */
  datatype MappedRecording = MappedRecording(
    recordingId: Id, personId: Option<Id>, sentenceId: Option<Id>, audioUrl: string,
    isApproved: int, duration: Option<int>, recordedAt: int,
    email: Option<string>, content: Option<string>, sentenceStatus: Option<int>)

  /** The row of a recording read without `populate`. */
  function Plain(r: Recording): Row
  {
    Row(r.id, PersonRaw(r.personId), SentenceRaw(r.sentenceId), r.audioUrl,
        r.isApproved, r.duration, r.recordedAt)
  }

  function PersonRefId(p: PersonRef): Option<Id>
  {
    match p
    case PersonRaw(id) => Some(id)
    case PersonDoc(id, _) => Some(id)
    case PersonMissing => None
  }

  function SentenceRefId(s: SentenceRef): Option<Id>
  {
    match s
    case SentenceRaw(id) => Some(id)
    case SentenceDoc(id, _, _) => Some(id)
    case SentenceMissing => None
  }

  /** `mapRecording(row)`. Identity fields are copied; the reference ids are
      the populated document's id or the raw reference; the joined fields are
      null unless populated; and every `|| null` turns an absent, empty or
      zero value into null. */
  function MapRecording(row: Row): (m: MappedRecording)
    ensures m.recordingId == row.id && m.audioUrl == row.audioUrl
    ensures m.isApproved == row.isApproved && m.recordedAt == row.recordedAt
    ensures m.personId.None? <==> row.person.PersonMissing?
    ensures m.sentenceId.None? <==> row.sentence.SentenceMissing?
    ensures m.personId.Some? ==> m.personId.value == row.person.id
    ensures m.sentenceId.Some? ==> m.sentenceId.value == row.sentence.id
    ensures m.email.Some? ==> row.person.PersonDoc? && row.person.email == m.email && m.email.value != ""
    ensures m.content.Some? ==> row.sentence.SentenceDoc? && row.sentence.content == m.content && m.content.value != ""
    ensures m.email.None? <==> !row.person.PersonDoc? || row.person.email.None? || row.person.email == Some("")
    ensures m.content.None? <==> !row.sentence.SentenceDoc? || row.sentence.content.None? || row.sentence.content == Some("")
    ensures m.sentenceStatus.Some? ==> row.sentence.SentenceDoc? && row.sentence.status == m.sentenceStatus
    ensures m.sentenceStatus.None? <==> !row.sentence.SentenceDoc? || row.sentence.status.None? || row.sentence.status == Some(0)
    ensures m.duration.None? <==> row.duration.None? || row.duration == Some(0)
    ensures m.duration.Some? ==> m.duration == row.duration
  {
    MappedRecording(
      row.id,
      PersonRefId(row.person),
      SentenceRefId(row.sentence),
      row.audioUrl,
      row.isApproved,
      ZeroToNull(row.duration),
      row.recordedAt,
      if row.person.PersonDoc? then EmptyToNull(row.person.email) else None,
      if row.sentence.SentenceDoc? then EmptyToNull(row.sentence.content) else None,
      if row.sentence.SentenceDoc? then ZeroToNull(row.sentence.status) else None)
  }

  /** Mapping a row read without `populate` keeps both references and
      yields no joined fields. */
  lemma MapPlain(r: Recording)
    ensures MapRecording(Plain(r)).personId == Some(r.personId)
    ensures MapRecording(Plain(r)).sentenceId == Some(r.sentenceId)
    ensures MapRecording(Plain(r)).email.None?
    ensures MapRecording(Plain(r)).content.None?
    ensures MapRecording(Plain(r)).sentenceStatus.None?
    ensures MapRecording(Plain(r)).isApproved == r.isApproved
  {
  }
}

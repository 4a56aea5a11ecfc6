/** The Recording document: one person's audio for one sentence, with its
    moderation status. Its schema file is not part of this model; the fields
    are those the upload handler writes, plus the creation timestamp the
    listings sort on. */
module RecordingModel {
  import opened Common

  /** Moderation status (`isApproved`) values. */
  const Pending: int := 0
  const Approved: int := 1
  const Rejected: int := 2
  const CannotApprove: int := 3

  datatype Recording = Recording(id: Id, personId: Id, sentenceId: Id, audioUrl: string,
                                 isApproved: int, duration: Option<int>,
                                 recordedAt: int, createdAt: int)

  /** Grouping and sorting keys. */
  function PersonOf(r: Recording): Id { r.personId }
  function SentenceOf(r: Recording): Id { r.sentenceId }
  function CreatedAtOf(r: Recording): int { r.createdAt }
  function RecordedAtOf(r: Recording): int { r.recordedAt }
}

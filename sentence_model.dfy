/** The Sentence document: a text to be recorded, its lower-cased lookup
    copy, its lifecycle status and who contributed it. */
module SentenceModel {
  import opened Common
  import opened Text

  /** Status values: 0 user-created, 1 available (admin-seeded), 2 has an
      approved recording, 3 rejected as a duplicate. */
  const UserCreated: int := 0
  const Available: int := 1
  const HasApprovedRecording: int := 2
  const RejectedDuplicate: int := 3

  /** `createdBy` is the contributor's email, or null for system-seeded
      sentences. `createdById` is not declared by the schema; older
      documents may carry it and the user detail view queries it. */
  datatype Sentence = Sentence(id: Id, content: string, contentLower: Option<string>,
                               status: int, createdBy: Option<string>,
                               createdById: Option<Id>, createdAt: int)

  predicate ValidStatus(s: int)
  {
    0 <= s <= 3
  }

  /** What the schema guarantees of a stored sentence: content present
      (non-empty), status in the enum, `contentLower` lower-case. */
  predicate Valid(s: Sentence)
  {
    s.content != [] && ValidStatus(s.status)
    && (s.contentLower.Some? ==> IsLower(s.contentLower.value))
  }

  /** Creating a Sentence document at time `now` from the given (possibly
      missing) fields: defaults are applied, `contentLower` goes through the
      `lowercase` setter, undeclared paths are dropped, then the validators
      run. */
  function Create(id: Id, content: Option<string>, contentLower: Option<string>,
                  status: Option<int>, createdBy: Option<string>, now: int): (r: Result<Sentence>)
    ensures r.Ok? <==> content.Some? && content.value != [] && (status.None? || ValidStatus(status.value))
    ensures r.Err? ==> r.error == ValidationFailed
    ensures r.Ok? ==> Valid(r.value) && r.value.id == id && r.value.content == content.value
    ensures r.Ok? ==> r.value.status == (if status.None? then Available else status.value)
    ensures r.Ok? ==> r.value.createdBy == createdBy && r.value.createdById.None?
    ensures r.Ok? ==> r.value.createdAt == now
    ensures r.Ok? ==> (r.value.contentLower.Some? <==> contentLower.Some?)
    ensures r.Ok? && contentLower.Some? ==> r.value.contentLower.value == ToLower(contentLower.value)
  {
    var st := if status.None? then Available else status.value;
    var lower := if contentLower.Some? then Some(ToLower(contentLower.value)) else None;
    if content.None? || content.value == [] || !ValidStatus(st) then Err(ValidationFailed)
    else
      assert lower.Some? ==> IsLower(lower.value) by {
        if contentLower.Some? { ToLowerIsLower(contentLower.value); }
      }
      Ok(Sentence(id, content.value, lower, st, createdBy, None, now))
  }
}

/** Values shared by every part of the model: document ids, optional values,
    the errors the services throw, and the null-coalescing reads the services
    use on optional numbers. */
module Common {

  /** A document id (`_id`). Ids are opaque in the services; only equality matters. */
  type Id = nat

  datatype Option<T> = None | Some(value: T)

  /** The outcome of a service call: a value, or the error it throws. */
  datatype Result<T> = Ok(value: T) | Err(error: Error)

  /** The errors the services throw, one constructor per distinct message. */
  datatype Error =
    | RecordingNotFound         // "Recording not found"
    | SentenceNotFound          // "Sentence not found"
    | UserNotFound              // "User not found" / "User không tồn tại"
    | SentenceAlreadyApproved   // the target sentence already has an approved recording
    | DuplicateContentApproved  // another approved sentence has the same normalised content
    | InvalidStatus             // status outside 0..3
    | EmailRequired
    | UserIdRequired
    | NameRequired              // blank display name
    | NameTaken                 // display name used by another person
    | ValidationFailed          // the document schema refused the write
    | TypeError                 // a property read on `undefined`

  /** `x ?? 0` / `$ifNull: [x, 0]` / `x || 0` on an optional number. */
  function OrZero(o: Option<int>): int
  {
    if o.Some? then o.value else 0
  }

  /** `x || null` on an optional number: absent and zero both become null. */
  function ZeroToNull(o: Option<int>): (r: Option<int>)
    ensures r.None? <==> (o.None? || o.value == 0)
    ensures r.Some? ==> r == o
  {
    if o.Some? && o.value != 0 then o else None
  }

  /** `s || null` on an optional string: absent and empty both become null. */
  function EmptyToNull(o: Option<string>): (r: Option<string>)
    ensures r.None? <==> (o.None? || o.value == "")
    ensures r.Some? ==> r == o
  {
    if o.Some? && o.value != "" then o else None
  }
}

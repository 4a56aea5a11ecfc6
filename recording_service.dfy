/** The recording service: the paginated listing with its global counts,
    the moderation transitions (approve, reject) and the listing by status. */
module RecordingService {
  import opened Common
  import opened Text
  import opened PersonModel
  import opened SentenceModel
  import opened RecordingModel
  import opened Pipeline
  import opened Query
  import opened Database
  import opened RecordingMapper

  // ------------------------------------------------------- getAllRecordings

  /** `populate("personId", "email")`. */
  function PopulatePerson(ps: seq<Person>, id: Id): PersonRef
  {
    var p := PersonById(ps, id);
    if p.None? then PersonMissing else PersonDoc(id, Some(p.value.email))
  }

  /** `populate("sentenceId", "content")`: the status is not selected. */
  function PopulateSentence(ss: seq<Sentence>, id: Id): SentenceRef
  {
    var s := SentenceById(ss, id);
    if s.None? then SentenceMissing else SentenceDoc(id, Some(s.value.content), None)
  }

  function Populated(db: Db, r: Recording): Row
  {
    Row(r.id, PopulatePerson(db.persons, r.personId), PopulateSentence(db.sentences, r.sentenceId),
        r.audioUrl, r.isApproved, r.duration, r.recordedAt)
  }

  /** The result object of `getAllRecordings` (the hour conversions aside). */
  datatype RecordingsPage = RecordingsPage(
    recordings: seq<MappedRecording>, count: nat, totalCount: nat, totalPages: nat,
    currentPage: nat, totalDurationSeconds: int, approvedCount: nat,
    approvedDurationSeconds: int, pendingCount: nat, rejectedCount: nat)

  /** The documents on one page of the listing, newest `createdAt` first. */
  function RecordingsOnPage(rs: seq<Recording>, page: nat, limit: nat): (docs: seq<Recording>)
    requires page >= 1
    ensures |docs| == (if Skip(page, limit) >= |rs| then 0 else Min(limit, |rs| - Skip(page, limit)))
    ensures forall k :: 0 <= k < |docs| ==> docs[k] == SortDesc(rs, CreatedAtOf)[Skip(page, limit) + k]
  {
    Page(SortDesc(rs, CreatedAtOf), Skip(page, limit), limit)
  }

  /** The rows of one page, each populated and mapped: a row carries the
      email of the recording's person and the content of its sentence when
      those documents exist and the values are non-empty, and never a
      sentence status, since the populate selects only `content`. */
  function MapPopulated(db: Db, docs: seq<Recording>): (rows: seq<MappedRecording>)
    ensures |rows| == |docs|
    ensures forall k :: 0 <= k < |docs| ==> rows[k].recordingId == docs[k].id
    ensures forall k :: 0 <= k < |docs| ==>
              var p := PersonById(db.persons, docs[k].personId);
              && (rows[k].personId.Some? <==> p.Some?)
              && (rows[k].personId.Some? ==> rows[k].personId.value == docs[k].personId)
              && (rows[k].email.Some? <==> p.Some? && p.value.email != "")
              && (rows[k].email.Some? ==> rows[k].email.value == p.value.email)
    ensures forall k :: 0 <= k < |docs| ==>
              var s := SentenceById(db.sentences, docs[k].sentenceId);
              && (rows[k].sentenceId.Some? <==> s.Some?)
              && (rows[k].sentenceId.Some? ==> rows[k].sentenceId.value == docs[k].sentenceId)
              && (rows[k].content.Some? <==> s.Some? && s.value.content != "")
              && (rows[k].content.Some? ==> rows[k].content.value == s.value.content)
              && rows[k].sentenceStatus.None?
  {
    seq(|docs|, k requires 0 <= k < |docs| => MapRecording(Populated(db, docs[k])))
  }

  /** The three global `countDocuments({ isApproved: s })` of the listing. */
  datatype StatusCounts = StatusCounts(approved: nat, pending: nat, rejected: nat)

  function CountsOf(rs: seq<Recording>): (c: StatusCounts)
    ensures c.approved == CountStatus(rs, Approved)
    ensures c.pending == CountStatus(rs, Pending)
    ensures c.rejected == CountStatus(rs, Rejected)
    ensures c.approved + c.pending + c.rejected <= |rs|
  {
    StatusCountsBounded(rs);
    StatusCounts(CountStatus(rs, Approved), CountStatus(rs, Pending), CountStatus(rs, Rejected))
  }

  /** The summed `duration` of some recordings (`$sum: "$duration"`). */
  function DurationOf(rs: seq<Recording>): int
  {
    TallyOf(rs).duration
  }

  function GetAllRecordings(db: Db, page: nat, limit: nat): (r: RecordingsPage)
    requires page >= 1 && limit >= 1
    ensures r.count == |r.recordings| <= limit
    ensures r.count == (if Skip(page, limit) >= |db.recordings| then 0 else Min(limit, |db.recordings| - Skip(page, limit)))
    ensures forall k :: 0 <= k < r.count ==>
              r.recordings[k].recordingId == SortDesc(db.recordings, CreatedAtOf)[Skip(page, limit) + k].id
    ensures r.totalCount == |db.recordings|
    ensures r.approvedCount == CountStatus(db.recordings, Approved)
    ensures r.pendingCount == CountStatus(db.recordings, Pending)
    ensures r.rejectedCount == CountStatus(db.recordings, Rejected)
    ensures r.approvedCount + r.pendingCount + r.rejectedCount <= r.totalCount
    ensures r.totalPages == CeilDiv(r.totalCount, limit)
    ensures r.currentPage == page
  {
    var docs := RecordingsOnPage(db.recordings, page, limit);
    var rows := MapPopulated(db, docs);
    var c := CountsOf(db.recordings);
    RecordingsPage(
      rows, |rows|, |db.recordings|, CeilDiv(|db.recordings|, limit), page,
      DurationOf(docs),
      c.approved,
      DurationOf(Where(db.recordings, RecordingFilter(StatusIn({Approved}), AnyTime))),
      c.pending,
      c.rejected)
  }

  /** Paging happens after the global sort: every recording on an earlier
      page was created no earlier than every recording on a later page. */
  lemma ListingPagesOrdered(rs: seq<Recording>, limit: nat, p: nat, q: nat)
    requires limit >= 1 && 1 <= p < q
    ensures forall i, j :: 0 <= i < |RecordingsOnPage(rs, p, limit)| && 0 <= j < |RecordingsOnPage(rs, q, limit)|
              ==> RecordingsOnPage(rs, p, limit)[i].createdAt >= RecordingsOnPage(rs, q, limit)[j].createdAt
  {
    PagesRanked(SortDesc(rs, CreatedAtOf), CreatedAtOf, limit, p, q);
  }

  // ------------------------------------------------------- approveRecording

  /** `s` is another sentence, already approved, whose stored lower-case
      copy equals `key`. */
  predicate IsApprovedDuplicate(s: Sentence, self: Id, key: string)
  {
    s.id != self && s.status == HasApprovedRecording && s.contentLower == Some(key)
  }

  predicate HasApprovedDuplicate(ss: seq<Sentence>, self: Id, key: string)
  {
    exists i :: 0 <= i < |ss| && IsApprovedDuplicate(ss[i], self, key)
  }

  /** `Sentence.findOne({ _id: { $ne: self }, status: 2, contentLower: key })`. */
  function FindApprovedDuplicate(ss: seq<Sentence>, self: Id, key: string): (r: Option<nat>)
    ensures r.Some? ==> r.value < |ss| && IsApprovedDuplicate(ss[r.value], self, key)
    ensures r.None? <==> !HasApprovedDuplicate(ss, self, key)
  {
    if ss == [] then None
    else if IsApprovedDuplicate(ss[0], self, key) then Some(0)
    else
      var r := FindApprovedDuplicate(ss[1..], self, key);
      assert forall i :: 1 <= i < |ss| ==> ss[i] == ss[1..][i - 1];
      if r.None? then None else Some(r.value + 1)
  }

  /** The effect of `approveRecording(id)` taken as one atomic step: the new
      store and the result (the updated recording, mapped, or the error). */
  function Approve(db: Db, id: Id): (Db, Result<MappedRecording>)
  {
    var rec := RecordingById(db.recordings, id);
    if rec.None? then (db, Err(RecordingNotFound))
    else
      var sen := SentenceById(db.sentences, rec.value.sentenceId);
      if sen.None? then (db, Err(SentenceNotFound))
      else if sen.value.status == HasApprovedRecording then
        (db.(recordings := SetRecordingStatus(db.recordings, id, CannotApprove)), Err(SentenceAlreadyApproved))
      else if HasApprovedDuplicate(db.sentences, sen.value.id, Normalize(sen.value.content)) then
        (db.(recordings := SetRecordingStatus(db.recordings, id, CannotApprove),
             sentences := SetSentenceStatus(db.sentences, sen.value.id, RejectedDuplicate)),
         Err(DuplicateContentApproved))
      else
        (db.(recordings := SetRecordingStatus(db.recordings, id, Approved),
             sentences := SetSentenceStatus(db.sentences, sen.value.id, HasApprovedRecording)),
         Ok(MapRecording(Plain(rec.value.(isApproved := Approved)))))
  }

  /** `approveRecording(id)` on the live store, writing in the source's order. */
  method ApproveRecording(store: Store, id: Id) returns (res: Result<MappedRecording>)
    requires store.Indexed()
    modifies store
    ensures (store.Snapshot(), res) == Approve(old(store.Snapshot()), id)
    ensures store.nextId == old(store.nextId)
  {
    var ri := RecordingIndex(store.recordings, id);
    if ri.None? {
      return Err(RecordingNotFound);
    }
    var rec := store.recordings[ri.value];
    var si := SentenceIndex(store.sentences, rec.sentenceId);
    if si.None? {
      return Err(SentenceNotFound);
    }
    var sen := store.sentences[si.value];
    if sen.status == HasApprovedRecording {
      SetRecordingAtIndex(store.recordings, ri.value, CannotApprove);
      store.recordings := store.recordings[ri.value := rec.(isApproved := CannotApprove)];
      return Err(SentenceAlreadyApproved);
    }
    var dup := FindApprovedDuplicate(store.sentences, sen.id, Normalize(sen.content));
    if dup.Some? {
      SetRecordingAtIndex(store.recordings, ri.value, CannotApprove);
      SetSentenceAtIndex(store.sentences, si.value, RejectedDuplicate);
      store.recordings := store.recordings[ri.value := rec.(isApproved := CannotApprove)];
      store.sentences := store.sentences[si.value := sen.(status := RejectedDuplicate)];
      return Err(DuplicateContentApproved);
    }
    var updated := rec.(isApproved := Approved);
    SetRecordingAtIndex(store.recordings, ri.value, Approved);
    SetSentenceAtIndex(store.sentences, si.value, HasApprovedRecording);
    store.recordings := store.recordings[ri.value := updated];
    store.sentences := store.sentences[si.value := sen.(status := HasApprovedRecording)];
    res := Ok(MapRecording(Plain(updated)));
  }

  /** A missing recording or a missing sentence fails and changes nothing. */
  lemma ApproveNotFound(db: Db, id: Id)
    requires RecordingById(db.recordings, id).None?
             || SentenceById(db.sentences, RecordingById(db.recordings, id).value.sentenceId).None?
    ensures Approve(db, id).0 == db
    ensures Approve(db, id).1 == Err(if RecordingById(db.recordings, id).None? then RecordingNotFound else SentenceNotFound)
  {
  }

  /** The recording `id` now has status `rs`; no other recording changed. */
  ghost predicate RecordingNowHas(before: Db, after: Db, id: Id, rs: int)
  {
    && RecordingById(before.recordings, id).Some?
    && RecordingById(after.recordings, id) == Some(RecordingById(before.recordings, id).value.(isApproved := rs))
    && forall x :: x != id ==> RecordingById(after.recordings, x) == RecordingById(before.recordings, x)
  }

  /** The sentence `sid` now has status `ss`; no other sentence changed. */
  ghost predicate SentenceNowHas(before: Db, after: Db, sid: Id, ss: int)
  {
    && SentenceById(before.sentences, sid).Some?
    && SentenceById(after.sentences, sid) == Some(SentenceById(before.sentences, sid).value.(status := ss))
    && forall x :: x != sid ==> SentenceById(after.sentences, x) == SentenceById(before.sentences, x)
  }

  /** Both status writes of an approval, seen through lookups. */
  lemma StatusWrites(db: Db, id: Id, rs: int, sid: Id, ss: int)
    requires RecordingById(db.recordings, id).Some? && SentenceById(db.sentences, sid).Some?
    ensures RecordingNowHas(db, db.(recordings := SetRecordingStatus(db.recordings, id, rs)), id, rs)
    ensures var after := db.(recordings := SetRecordingStatus(db.recordings, id, rs),
                             sentences := SetSentenceStatus(db.sentences, sid, ss));
            RecordingNowHas(db, after, id, rs) && SentenceNowHas(db, after, sid, ss)
  {
    forall x ensures RecordingById(SetRecordingStatus(db.recordings, id, rs), x)
                     == if x == id then Some(RecordingById(db.recordings, id).value.(isApproved := rs))
                        else RecordingById(db.recordings, x) {
      RecordingAfterSetStatus(db.recordings, id, rs, x);
    }
    forall x ensures SentenceById(SetSentenceStatus(db.sentences, sid, ss), x)
                     == if x == sid then Some(SentenceById(db.sentences, sid).value.(status := ss))
                        else SentenceById(db.sentences, x) {
      SentenceAfterSetStatus(db.sentences, sid, ss, x);
    }
  }

  /** The defensive guard: when the target sentence already has status 2 the
      recording is demoted to 3 and the call fails; sentences and persons are
      untouched. This holds even for the recording that was approved. */
  lemma ApproveGuardDemotes(db: Db, id: Id)
    requires RecordingById(db.recordings, id).Some?
    requires var sen := SentenceById(db.sentences, RecordingById(db.recordings, id).value.sentenceId);
             sen.Some? && sen.value.status == HasApprovedRecording
    ensures Approve(db, id).1 == Err(SentenceAlreadyApproved)
    ensures RecordingNowHas(db, Approve(db, id).0, id, CannotApprove)
    ensures Approve(db, id).0.sentences == db.sentences && Approve(db, id).0.persons == db.persons
  {
    var sid := RecordingById(db.recordings, id).value.sentenceId;
    assert Approve(db, id) == (db.(recordings := SetRecordingStatus(db.recordings, id, CannotApprove)), Err(SentenceAlreadyApproved));
    StatusWrites(db, id, CannotApprove, sid, 0);
  }

  /** Another approved sentence with the same normalised content: the
      recording and its sentence both become 3 and the call fails; nothing
      else changes. */
  lemma ApproveDuplicateRejects(db: Db, id: Id)
    requires RecordingById(db.recordings, id).Some?
    requires var sen := SentenceById(db.sentences, RecordingById(db.recordings, id).value.sentenceId);
             && sen.Some? && sen.value.status != HasApprovedRecording
             && HasApprovedDuplicate(db.sentences, sen.value.id, Normalize(sen.value.content))
    ensures Approve(db, id).1 == Err(DuplicateContentApproved)
    ensures RecordingNowHas(db, Approve(db, id).0, id, CannotApprove)
    ensures SentenceNowHas(db, Approve(db, id).0, RecordingById(db.recordings, id).value.sentenceId, RejectedDuplicate)
    ensures Approve(db, id).0.persons == db.persons
  {
    var sid := RecordingById(db.recordings, id).value.sentenceId;
    assert Approve(db, id) == (db.(recordings := SetRecordingStatus(db.recordings, id, CannotApprove),
                                   sentences := SetSentenceStatus(db.sentences, sid, RejectedDuplicate)),
                               Err(DuplicateContentApproved));
    StatusWrites(db, id, CannotApprove, sid, RejectedDuplicate);
  }

  /** Approval succeeds exactly when the recording and its sentence exist,
      the sentence is not yet approved and no other approved sentence has the
      same content; then the recording becomes 1, its sentence 2, and no
      other document changes. */
  lemma ApproveSucceeds(db: Db, id: Id)
    ensures Approve(db, id).1.Ok? <==>
              && RecordingById(db.recordings, id).Some?
              && var sen := SentenceById(db.sentences, RecordingById(db.recordings, id).value.sentenceId);
                 && sen.Some? && sen.value.status != HasApprovedRecording
                 && !HasApprovedDuplicate(db.sentences, sen.value.id, Normalize(sen.value.content))
    ensures Approve(db, id).1.Ok? ==>
              && RecordingNowHas(db, Approve(db, id).0, id, Approved)
              && SentenceNowHas(db, Approve(db, id).0, RecordingById(db.recordings, id).value.sentenceId, HasApprovedRecording)
              && Approve(db, id).0.persons == db.persons
              && Approve(db, id).1.value.recordingId == id
              && Approve(db, id).1.value.isApproved == Approved
  {
    if Approve(db, id).1.Ok? {
      var rec := RecordingById(db.recordings, id).value;
      var sid := rec.sentenceId;
      assert Approve(db, id) == (db.(recordings := SetRecordingStatus(db.recordings, id, Approved),
                                     sentences := SetSentenceStatus(db.sentences, sid, HasApprovedRecording)),
                                 Ok(MapRecording(Plain(rec.(isApproved := Approved)))));
      StatusWrites(db, id, Approved, sid, HasApprovedRecording);
    }
  }

  /** Every outcome of an approval keeps the store valid. */
  lemma ApproveKeepsValid(db: Db, id: Id, n: Id)
    requires ValidDb(db) && IdsBelow(db, n)
    ensures ValidDb(Approve(db, id).0) && IdsBelow(Approve(db, id).0, n)
  {
    var rec := RecordingById(db.recordings, id);
    if rec.Some? {
      var sen := SentenceById(db.sentences, rec.value.sentenceId);
      if sen.Some? {
        var sid := sen.value.id;
        if sen.value.status == HasApprovedRecording {
          SetStatusKeepsValid(db, id, CannotApprove, sid, RejectedDuplicate, n);
        } else if HasApprovedDuplicate(db.sentences, sid, Normalize(sen.value.content)) {
          assert Approve(db, id).0 == db.(recordings := SetRecordingStatus(db.recordings, id, CannotApprove),
                                          sentences := SetSentenceStatus(db.sentences, sid, RejectedDuplicate));
          SetStatusKeepsValid(db, id, CannotApprove, sid, RejectedDuplicate, n);
        } else {
          assert Approve(db, id).0 == db.(recordings := SetRecordingStatus(db.recordings, id, Approved),
                                          sentences := SetSentenceStatus(db.sentences, sid, HasApprovedRecording));
          SetStatusKeepsValid(db, id, Approved, sid, HasApprovedRecording, n);
        }
      }
    }
  }

  /** Two approvals of recordings of the same sentence cannot both succeed:
      the first success sets the sentence to 2 and the second call then hits
      the guard, which demotes its recording to 3. With `r2 == r1` this is
      re-approving an approved recording, which demotes it. */
  lemma SecondApprovalFails(db: Db, r1: Id, r2: Id)
    requires ValidDb(db)
    requires Approve(db, r1).1.Ok?
    requires RecordingById(db.recordings, r2).Some?
    requires RecordingById(db.recordings, r2).value.sentenceId == RecordingById(db.recordings, r1).value.sentenceId
    ensures Approve(Approve(db, r1).0, r2).1 == Err(SentenceAlreadyApproved)
    ensures RecordingById(Approve(Approve(db, r1).0, r2).0.recordings, r2)
            == Some(RecordingById(db.recordings, r2).value.(isApproved := CannotApprove))
  {
    var db1 := Approve(db, r1).0;
    var sid := RecordingById(db.recordings, r1).value.sentenceId;
    ApproveSucceeds(db, r1);
    assert RecordingById(db1.recordings, r2).Some?;
    assert RecordingById(db1.recordings, r2).value.sentenceId == sid;
    ApproveGuardDemotes(db1, r2);
  }

  /** Once a recording is approved, its sentence is an approved duplicate
      for every other sentence whose key is the sentence's stored copy. */
  lemma ApprovedSentenceIsDuplicate(db: Db, r1: Id, self: Id)
    requires Approve(db, r1).1.Ok?
    requires self != RecordingById(db.recordings, r1).value.sentenceId
    requires SentenceById(db.sentences, RecordingById(db.recordings, r1).value.sentenceId).value.contentLower.Some?
    ensures HasApprovedDuplicate(Approve(db, r1).0.sentences, self,
              SentenceById(db.sentences, RecordingById(db.recordings, r1).value.sentenceId).value.contentLower.value)
  {
    var s1 := SentenceById(db.sentences, RecordingById(db.recordings, r1).value.sentenceId).value;
    ApproveSucceeds(db, r1);
    var ss1 := Approve(db, r1).0.sentences;
    var s1' := SentenceById(ss1, s1.id).value;
    assert s1' == s1.(status := HasApprovedRecording);
    assert IsApprovedDuplicate(s1', self, s1.contentLower.value);
    var i :| 0 <= i < |ss1| && ss1[i] == s1';
  }

  /** Two recordings of two different sentences with the same normalised
      content: once the first is approved, approving the second fails and
      leaves the second recording and its sentence both at 3. This needs the
      first sentence's stored lower-case copy to be its normalised content. */
  lemma SameContentSecondApprovalFails(db: Db, r1: Id, r2: Id)
    requires Approve(db, r1).1.Ok?
    requires RecordingById(db.recordings, r2).Some?
    requires var s1 := SentenceById(db.sentences, RecordingById(db.recordings, r1).value.sentenceId).value;
             var s2 := SentenceById(db.sentences, RecordingById(db.recordings, r2).value.sentenceId);
             && s2.Some? && s2.value.id != s1.id
             && s2.value.status != HasApprovedRecording
             && s1.contentLower == Some(Normalize(s1.content))
             && Normalize(s2.value.content) == Normalize(s1.content)
    ensures Approve(Approve(db, r1).0, r2).1 == Err(DuplicateContentApproved)
    ensures var db2 := Approve(Approve(db, r1).0, r2).0;
            var rec2 := RecordingById(db.recordings, r2).value;
            var s2 := SentenceById(db.sentences, rec2.sentenceId).value;
            && RecordingById(db2.recordings, r2) == Some(rec2.(isApproved := CannotApprove))
            && SentenceById(db2.sentences, s2.id) == Some(s2.(status := RejectedDuplicate))
  {
    var rec2 := RecordingById(db.recordings, r2).value;
    var s2 := SentenceById(db.sentences, rec2.sentenceId).value;
    ApproveSucceeds(db, r1);
    var db1 := Approve(db, r1).0;
    assert RecordingById(db1.recordings, r2) == Some(rec2);
    assert SentenceById(db1.sentences, s2.id) == Some(s2);
    ApprovedSentenceIsDuplicate(db, r1, s2.id);
    ApproveDuplicateRejects(db1, r2);
    var db2 := Approve(db1, r2).0;
    assert RecordingById(db2.recordings, r2) == Some(rec2.(isApproved := CannotApprove));
    assert SentenceById(db2.sentences, s2.id) == Some(s2.(status := RejectedDuplicate));
  }

  /** The duplicate lookup compares the stored lower-case copy with a trimmed
      key, so a sentence whose stored copy keeps surrounding white space is
      never found as a duplicate. */
  lemma DuplicateKeyIsTrimmed(s: Sentence, self: Id, content: string)
    requires IsApprovedDuplicate(s, self, Normalize(content))
    ensures Trim(s.contentLower.value) == s.contentLower.value
    ensures IsLower(s.contentLower.value)
  {
    NormalizeIdempotent(content);
  }

  // -------------------------------------------------------- rejectRecording

  /** The effect of `rejectRecording(id)`. */
  function Reject(db: Db, id: Id): (Db, Result<MappedRecording>)
  {
    var rec := RecordingById(db.recordings, id);
    if rec.None? then (db, Err(RecordingNotFound))
    else (db.(recordings := SetRecordingStatus(db.recordings, id, Rejected)),
          Ok(MapRecording(Plain(rec.value.(isApproved := Rejected)))))
  }

  method RejectRecording(store: Store, id: Id) returns (res: Result<MappedRecording>)
    requires store.Indexed()
    modifies store
    ensures (store.Snapshot(), res) == Reject(old(store.Snapshot()), id)
    ensures store.nextId == old(store.nextId)
  {
    var ri := RecordingIndex(store.recordings, id);
    if ri.None? {
      return Err(RecordingNotFound);
    }
    var updated := store.recordings[ri.value].(isApproved := Rejected);
    SetRecordingAtIndex(store.recordings, ri.value, Rejected);
    store.recordings := store.recordings[ri.value := updated];
    res := Ok(MapRecording(Plain(updated)));
  }

  /** Rejection fails only on a missing recording, sets status 2 whatever the
      prior status, and never touches a sentence or person. */
  lemma RejectOutcome(db: Db, id: Id)
    ensures Reject(db, id).0.sentences == db.sentences && Reject(db, id).0.persons == db.persons
    ensures Reject(db, id).1.Err? <==> RecordingById(db.recordings, id).None?
    ensures Reject(db, id).1.Err? ==> Reject(db, id).0 == db && Reject(db, id).1.error == RecordingNotFound
    ensures Reject(db, id).1.Ok? ==>
              RecordingNowHas(db, Reject(db, id).0, id, Rejected) && Reject(db, id).1.value.isApproved == Rejected
  {
    forall x { RecordingAfterSetStatus(db.recordings, id, Rejected, x); }
  }

  // ------------------------------------------------- getRecordingsByStatus

  /** The recordings with status `status`, newest `createdAt` first: each
      one once, and no other. */
  function NewestWithStatus(rs: seq<Recording>, status: int): (r: seq<Recording>)
    ensures |r| == CountStatus(rs, status)
    ensures multiset(r) == multiset(Where(rs, RecordingFilter(StatusIn({status}), AnyTime)))
    ensures forall x :: x in r <==> x in rs && x.isApproved == status
    ensures SortedDesc(r, CreatedAtOf)
  {
    var w := Where(rs, RecordingFilter(StatusIn({status}), AnyTime));
    var r := SortDesc(w, CreatedAtOf);
    forall x ensures x in r <==> x in rs && x.isApproved == status {
      assert x in r <==> x in multiset(r);
      assert x in w <==> x in multiset(w);
      assert Matches(x, RecordingFilter(StatusIn({status}), AnyTime)) <==> x.isApproved == status;
    }
    r
  }

  function GetRecordingsByStatus(db: Db, status: int): (r: Result<seq<MappedRecording>>)
    ensures r.Err? <==> !ValidStatus(status)
    ensures r.Err? ==> r.error == InvalidStatus
    ensures r.Ok? ==> |r.value| == CountStatus(db.recordings, status)
    ensures r.Ok? ==> forall k :: 0 <= k < |r.value| ==>
                        r.value[k].isApproved == status
                        && r.value[k].recordingId == NewestWithStatus(db.recordings, status)[k].id
  {
    if !ValidStatus(status) then Err(InvalidStatus)
    else
      var docs := NewestWithStatus(db.recordings, status);
      assert forall k :: 0 <= k < |docs| ==> docs[k] in docs;
      Ok(seq(|docs|, k requires 0 <= k < |docs| => MapRecording(Plain(docs[k]))))
  }
}

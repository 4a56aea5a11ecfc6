/** The document store the services share: the three collections, the
    guarantees their schemas and indexes give (unique ids, unique normalised
    emails, valid documents), and the `findByIdAndUpdate` writes the
    moderation operations perform. */
module Database {
  import opened Common
  import opened Text
  import opened PersonModel
  import opened SentenceModel
  import opened RecordingModel
  import opened Query

  /** A snapshot of the three collections, in store (insertion) order. */
  datatype Db = Db(persons: seq<Person>, sentences: seq<Sentence>, recordings: seq<Recording>)

  predicate UniquePersonIds(ps: seq<Person>)
  {
    forall i, j :: 0 <= i < j < |ps| ==> ps[i].id != ps[j].id
  }

  predicate UniqueSentenceIds(ss: seq<Sentence>)
  {
    forall i, j :: 0 <= i < j < |ss| ==> ss[i].id != ss[j].id
  }

  predicate UniqueRecordingIds(rs: seq<Recording>)
  {
    forall i, j :: 0 <= i < j < |rs| ==> rs[i].id != rs[j].id
  }

  /** What the schemas and the unique indexes guarantee of stored documents. */
  predicate ValidDb(db: Db)
  {
    && UniquePersonIds(db.persons)
    && UniqueSentenceIds(db.sentences)
    && UniqueRecordingIds(db.recordings)
    && (forall i :: 0 <= i < |db.persons| ==> PersonModel.Valid(db.persons[i]))
    && UniqueEmails(db.persons)
    && (forall i :: 0 <= i < |db.sentences| ==> SentenceModel.Valid(db.sentences[i]))
  }

  /** Every id in the store is below `n`, so `n` is fresh. */
  predicate IdsBelow(db: Db, n: Id)
  {
    && (forall i :: 0 <= i < |db.persons| ==> db.persons[i].id < n)
    && (forall i :: 0 <= i < |db.sentences| ==> db.sentences[i].id < n)
    && (forall i :: 0 <= i < |db.recordings| ==> db.recordings[i].id < n)
  }

  /** With unique emails, the lookup by a stored person's email finds that
      person. */
  lemma PersonByOwnEmail(ps: seq<Person>, p: Person)
    requires UniqueEmails(ps) && p in ps
    ensures PersonByEmail(ps, p.email) == Some(p)
  {
    var found := PersonByEmail(ps, p.email);
    var i :| 0 <= i < |ps| && ps[i] == p;
    var j :| 0 <= j < |ps| && ps[j] == found.value;
    assert !(i < j) && !(j < i);
  }

  // ------------------------------------------------------------------ writes

  /** `Recording.findByIdAndUpdate(id, { isApproved: status })`. */
  function SetRecordingStatus(rs: seq<Recording>, id: Id, status: int): (r: seq<Recording>)
    ensures |r| == |rs|
    ensures forall i :: 0 <= i < |rs| ==> r[i] == if rs[i].id == id then rs[i].(isApproved := status) else rs[i]
  {
    seq(|rs|, i requires 0 <= i < |rs| => if rs[i].id == id then rs[i].(isApproved := status) else rs[i])
  }

  /** `Sentence.findByIdAndUpdate(id, { status })`. */
  function SetSentenceStatus(ss: seq<Sentence>, id: Id, status: int): (r: seq<Sentence>)
    ensures |r| == |ss|
    ensures forall i :: 0 <= i < |ss| ==> r[i] == if ss[i].id == id then ss[i].(status := status) else ss[i]
  {
    seq(|ss|, i requires 0 <= i < |ss| => if ss[i].id == id then ss[i].(status := status) else ss[i])
  }

  /** Replacing the document at the position `findById` found is the same
      write as updating by id, because ids are unique. */
  lemma SetRecordingAtIndex(rs: seq<Recording>, i: nat, status: int)
    requires UniqueRecordingIds(rs) && i < |rs|
    ensures rs[i := rs[i].(isApproved := status)] == SetRecordingStatus(rs, rs[i].id, status)
  {
  }

  lemma SetSentenceAtIndex(ss: seq<Sentence>, i: nat, status: int)
    requires UniqueSentenceIds(ss) && i < |ss|
    ensures ss[i := ss[i].(status := status)] == SetSentenceStatus(ss, ss[i].id, status)
  {
  }

  /** A lookup by id sees only the ids, so two collections with the same ids
      in the same order find the same position. */
  lemma SameIdsSameRecordingIndex(a: seq<Recording>, b: seq<Recording>, x: Id)
    requires |a| == |b| && forall i :: 0 <= i < |a| ==> a[i].id == b[i].id
    ensures RecordingIndex(a, x) == RecordingIndex(b, x)
  {
    var ia, ib := RecordingIndex(a, x), RecordingIndex(b, x);
    if ia.Some? && ib.Some? {
      assert !(ia.value < ib.value) && !(ib.value < ia.value);
    }
  }

  lemma SameIdsSamePersonIndex(a: seq<Person>, b: seq<Person>, x: Id)
    requires |a| == |b| && forall i :: 0 <= i < |a| ==> a[i].id == b[i].id
    ensures PersonIndex(a, x) == PersonIndex(b, x)
  {
    var ia, ib := PersonIndex(a, x), PersonIndex(b, x);
    if ia.Some? && ib.Some? {
      assert !(ia.value < ib.value) && !(ib.value < ia.value);
    }
  }

  lemma SameIdsSameSentenceIndex(a: seq<Sentence>, b: seq<Sentence>, x: Id)
    requires |a| == |b| && forall i :: 0 <= i < |a| ==> a[i].id == b[i].id
    ensures SentenceIndex(a, x) == SentenceIndex(b, x)
  {
    var ia, ib := SentenceIndex(a, x), SentenceIndex(b, x);
    if ia.Some? && ib.Some? {
      assert !(ia.value < ib.value) && !(ib.value < ia.value);
    }
  }

  /** After a status write, looking up the written id gives the old document
      with the new status, and looking up any other id gives what it gave
      before. */
  lemma RecordingAfterSetStatus(rs: seq<Recording>, id: Id, status: int, x: Id)
    ensures RecordingById(SetRecordingStatus(rs, id, status), x)
            == if x == id && RecordingById(rs, x).Some?
               then Some(RecordingById(rs, x).value.(isApproved := status))
               else RecordingById(rs, x)
  {
    SameIdsSameRecordingIndex(SetRecordingStatus(rs, id, status), rs, x);
  }

  lemma SentenceAfterSetStatus(ss: seq<Sentence>, id: Id, status: int, x: Id)
    ensures SentenceById(SetSentenceStatus(ss, id, status), x)
            == if x == id && SentenceById(ss, x).Some?
               then Some(SentenceById(ss, x).value.(status := status))
               else SentenceById(ss, x)
  {
    SameIdsSameSentenceIndex(SetSentenceStatus(ss, id, status), ss, x);
  }

  /** Status writes keep the store valid when the new sentence status is in
      the enum. */
  lemma SetStatusKeepsValid(db: Db, rid: Id, rstatus: int, sid: Id, sstatus: int, n: Id)
    requires ValidDb(db) && IdsBelow(db, n) && ValidStatus(sstatus)
    ensures var after := db.(recordings := SetRecordingStatus(db.recordings, rid, rstatus));
            ValidDb(after) && IdsBelow(after, n)
    ensures var after := db.(recordings := SetRecordingStatus(db.recordings, rid, rstatus),
                             sentences := SetSentenceStatus(db.sentences, sid, sstatus));
            ValidDb(after) && IdsBelow(after, n)
  {
  }

  /** Adding a valid person with a fresh id and an email nobody has keeps
      the store valid, and its ids below any bound above the new id. */
  lemma AddPersonKeepsValid(db: Db, p: Person, n: Id)
    requires ValidDb(db) && PersonModel.Valid(p)
    requires forall i :: 0 <= i < |db.persons| ==> db.persons[i].id != p.id && db.persons[i].email != p.email
    ensures ValidDb(db.(persons := db.persons + [p]))
    ensures IdsBelow(db, n) && p.id < n ==> IdsBelow(db.(persons := db.persons + [p]), n)
  {
    var ps := db.persons + [p];
    AppendPersonKeepsKeys(db.persons, p);
    forall k | 0 <= k < |ps| ensures PersonModel.Valid(ps[k]) && (IdsBelow(db, n) && p.id < n ==> ps[k].id < n) {
      if k < |db.persons| {
        assert ps[k] == db.persons[k];
      }
    }
  }

  /** Appending a person whose id and email nobody has keeps both unique. */
  lemma AppendPersonKeepsKeys(ps: seq<Person>, p: Person)
    requires UniquePersonIds(ps) && UniqueEmails(ps)
    requires forall i :: 0 <= i < |ps| ==> ps[i].id != p.id && ps[i].email != p.email
    ensures UniquePersonIds(ps + [p]) && UniqueEmails(ps + [p])
  {
    var r := ps + [p];
    forall i, j | 0 <= i < j < |r| ensures r[i].id != r[j].id && r[i].email != r[j].email {
      assert r[i] == ps[i];
    }
  }

  /** Replacing persons by persons with the same id and email keeps the store
      valid. */
  lemma SamePersonKeysKeepValid(db: Db, ps: seq<Person>, n: Id)
    requires ValidDb(db) && IdsBelow(db, n) && |ps| == |db.persons|
    requires forall i :: 0 <= i < |ps| ==> ps[i].id == db.persons[i].id && ps[i].email == db.persons[i].email
    ensures ValidDb(db.(persons := ps)) && IdsBelow(db.(persons := ps), n)
  {
    forall i | 0 <= i < |ps| ensures PersonModel.Valid(ps[i]) {
      assert PersonModel.Valid(db.persons[i]);
    }
  }

  /** Removing one person keeps the store valid and its ids bounded. */
  lemma RemovePersonKeepsValid(db: Db, i: nat, n: Id)
    requires ValidDb(db) && i < |db.persons|
    ensures ValidDb(db.(persons := db.persons[..i] + db.persons[i + 1..]))
    ensures IdsBelow(db, n) ==> IdsBelow(db.(persons := db.persons[..i] + db.persons[i + 1..]), n)
  {
    RemoveAtPositions(db.persons, i);
  }

  /** After removing position `i`, each position holds the person one step
      further along from `i` on. */
  lemma RemoveAtPositions(ps: seq<Person>, i: nat)
    requires i < |ps|
    ensures var r := ps[..i] + ps[i + 1..];
            && |r| == |ps| - 1
            && (forall k :: 0 <= k < i ==> r[k] == ps[k])
            && (forall k :: i <= k < |r| ==> r[k] == ps[k + 1])
  {
  }

  // ------------------------------------------------------------------- store

  /** The live store. Each service call reads or writes it as one atomic step. */
  class Store {
    var persons: seq<Person>
    var sentences: seq<Sentence>
    var recordings: seq<Recording>
    /** The next fresh document id. */
    var nextId: Id

    function Snapshot(): Db
      reads this
    {
      Db(persons, sentences, recordings)
    }

    ghost predicate Valid()
      reads this
    {
      ValidDb(Snapshot()) && IdsBelow(Snapshot(), nextId)
    }

    /** The unique indexes on `_id`, which make a positional write the same
        as a write by id. */
    ghost predicate Indexed()
      reads this
    {
      UniquePersonIds(persons) && UniqueSentenceIds(sentences) && UniqueRecordingIds(recordings)
    }

    constructor ()
      ensures Valid()
      ensures Snapshot() == Db([], [], [])
    {
      persons, sentences, recordings := [], [], [];
      nextId := 0;
    }
  }
}

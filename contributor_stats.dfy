/** Statistics on the sentences users contributed: the contributor ranking
    (`getTopContributors`), the per-user sentence breakdown
    (`getUsersBySentenceCount`) and the contributed-sentence listing
    (`getTotalUserContributions`). */
module ContributorStats {
  import opened Common
  import opened PersonModel
  import opened SentenceModel
  import opened RecordingModel
  import opened Pipeline
  import opened Query
  import opened Database
  import opened Aggregates
  import opened UserStats

  /** The sentences with a creator (`createdBy: { $ne: null }`). */
  const ContributedSentences := SentenceFilter(HasCreator, AnyStatus)

  // ------------------------------------------------------ getTopContributors

  /** `Math.max(1, Number(page) || 1)`: a missing, zero or negative page
      reads as the first. */
  function SafePage(page: int): (r: nat)
    ensures r >= 1
    ensures page >= 1 ==> r == page
    ensures page < 1 ==> r == 1
  {
    if page >= 1 then page else 1
  }

  /** `Math.min(100, Math.max(1, Number(limit) || 10))`: zero means the
      default 10, and anything else is clamped into [1, 100]. */
  function SafeLimit(limit: int): (r: nat)
    ensures 1 <= r <= 100
    ensures 1 <= limit <= 100 ==> r == limit
    ensures limit == 0 ==> r == 10
    ensures limit < 0 ==> r == 1
    ensures limit > 100 ==> r == 100
  {
    if limit == 0 then 10 else if limit < 1 then 1 else if limit > 100 then 100 else limit
  }

  /** One row of the contributor ranking; the person's fields are null when
      no person has the creator's email. */
  datatype Contributor = Contributor(userId: Option<Id>, email: Option<string>, gender: Option<Gender>,
                                     role: Option<Role>, createdAt: Option<int>,
                                     totalContributedSentences: nat, totalRecordings: nat,
                                     approvedRecordings: nat)

  function ContributorRecordings(c: Contributor): int { c.totalRecordings }

  datatype ContributorsPage = ContributorsPage(users: seq<Contributor>, count: nat, totalCount: nat,
                                               totalPages: nat, currentPage: nat)

  function EmailOf(p: Person): string { p.email }

  /** The person a creator email stands for: the last person in store order
      with that email (the one left in the lookup object). An empty email is
      dropped by `filter(Boolean)` and stands for nobody. */
  function CreatorPerson(ps: seq<Person>, creator: Option<string>): (r: Option<Person>)
    ensures r.Some? ==> r.value in ps && Some(r.value.email) == creator
    ensures r.None? <==> creator.None? || creator.value == [] || forall i :: 0 <= i < |ps| ==> ps[i].email != creator.value
  {
    if creator.None? || creator.value == [] then None else LastByKey(ps, EmailOf, creator.value)
  }

  /** With unique emails, the creator's person is the one `findOne` finds. */
  lemma CreatorPersonUnique(ps: seq<Person>, e: string)
    requires UniqueEmails(ps) && e != []
    ensures CreatorPerson(ps, Some(e)) == PersonByEmail(ps, e)
  {
    var r, q := CreatorPerson(ps, Some(e)), PersonByEmail(ps, e);
    if r.Some? {
      var i :| 0 <= i < |ps| && ps[i] == r.value;
      var j :| 0 <= j < |ps| && ps[j] == q.value;
      assert i == j;
    }
  }

  /** A contributor's row, defined directly from the collections. */
  function ContributorOf(db: Db, c: CreatorCount): Contributor
  {
    var p := CreatorPerson(db.persons, c.creator);
    if p.None? then Contributor(None, c.creator, None, None, None, c.count, 0, 0)
    else
      var t := TallyOf(WithKey(db.recordings, PersonOf, p.value.id));
      Contributor(Some(p.value.id), c.creator, Some(p.value.gender), Some(p.value.role),
                  Some(p.value.createdAt), c.count, t.total, t.approved)
  }

  function ContributorsOf(db: Db, cs: seq<CreatorCount>): (rows: seq<Contributor>)
    ensures |rows| == |cs|
  {
    if cs == [] then [] else ContributorsOf(db, cs[..|cs| - 1]) + [ContributorOf(db, cs[|cs| - 1])]
  }

  lemma {:induction false} ContributorsOfAt(db: Db, cs: seq<CreatorCount>, i: nat)
    requires i < |cs|
    ensures ContributorsOf(db, cs)[i] == ContributorOf(db, cs[i])
  {
    if i < |cs| - 1 {
      ContributorsOfAt(db, cs[..|cs| - 1], i);
    }
  }

  /** The per-creator sentence counts. */
  function CreatorStats(db: Db): (r: seq<CreatorCount>)
    ensures |r| == |Keys(SentencesWhere(db.sentences, ContributedSentences), CreatorOf)|
  {
    CreatorCounts(SentencesWhere(db.sentences, ContributedSentences))
  }

  /** Every contributor, most recordings first (ties in group order). */
  function RankedContributors(db: Db): (r: seq<Contributor>)
    ensures multiset(r) == multiset(ContributorsOf(db, CreatorStats(db)))
    ensures SortedDesc(r, ContributorRecordings)
  {
    SortDesc(ContributorsOf(db, CreatorStats(db)), ContributorRecordings)
  }

  /** What `getTopContributors(page, limit)` returns. */
  function TopContributors(db: Db, page: int, limit: int): ContributorsPage
  {
    var safePage, safeLimit := SafePage(page), SafeLimit(limit);
    var stats := CreatorStats(db);
    if |stats| == 0 then ContributorsPage([], 0, 0, 0, safePage)
    else
      var users := Page(RankedContributors(db), Skip(safePage, safeLimit), safeLimit);
      ContributorsPage(users, |users|, |stats|, CeilDiv(|stats|, safeLimit), safePage)
  }

  /** `allStats.map(s => s._id).filter(Boolean)`: the non-empty creator
      emails, in group order. */
  function NonEmptyEmails(cs: seq<CreatorCount>): (r: seq<string>)
    ensures forall e :: e in r ==> e != []
    ensures forall i :: 0 <= i < |cs| && cs[i].creator.Some? && cs[i].creator.value != [] ==> cs[i].creator.value in r
  {
    if cs == [] then []
    else
      var c := cs[|cs| - 1];
      var init := NonEmptyEmails(cs[..|cs| - 1]);
      assert forall i :: 0 <= i < |cs| - 1 ==> cs[..|cs| - 1][i] == cs[i];
      if c.creator.Some? && c.creator.value != [] then init + [c.creator.value] else init
  }

  /** `Person.find({ email: { $in: emails } })`, in store order. */
  function PersonsWithEmailIn(ps: seq<Person>, emails: seq<string>): seq<Person>
  {
    if ps == [] then []
    else
      var p := ps[|ps| - 1];
      PersonsWithEmailIn(ps[..|ps| - 1], emails) + (if p.email in emails then [p] else [])
  }

  /** Keeping only the persons whose email is listed keeps the last person
      of every listed email and drops every other email. */
  lemma {:induction false} LastOfPersonsWithEmailIn(ps: seq<Person>, emails: seq<string>, e: string)
    ensures LastByKey(PersonsWithEmailIn(ps, emails), EmailOf, e)
            == if e in emails then LastByKey(ps, EmailOf, e) else None
  {
    if ps != [] {
      var init, p := ps[..|ps| - 1], ps[|ps| - 1];
      var f := PersonsWithEmailIn(init, emails);
      LastOfPersonsWithEmailIn(init, emails, e);
      if p.email in emails {
        assert (f + [p])[..|f + [p]| - 1] == f;
      } else {
        assert f + [] == f;
      }
    }
  }

  /** `personByEmail[email] || null`. */
  function PersonAt(personByEmail: map<string, Person>, creator: Option<string>): Option<Person>
  {
    if creator.Some? && creator.value in personByEmail then Some(personByEmail[creator.value]) else None
  }

  /** The lookup object of the persons with a listed email finds the
      creator's person. */
  lemma PersonAtIsCreatorPerson(ps: seq<Person>, emails: seq<string>, personByEmail: map<string, Person>,
                                creator: Option<string>)
    requires forall e :: e in emails ==> e != []
    requires creator.Some? && creator.value != [] ==> creator.value in emails
    requires IndexOf(personByEmail, PersonsWithEmailIn(ps, emails), EmailOf)
    ensures PersonAt(personByEmail, creator) == CreatorPerson(ps, creator)
  {
    if creator.Some? {
      LastOfPersonsWithEmailIn(ps, emails, creator.value);
    }
  }

  /** A contributor's row as the service reads it from the two lookup
      objects; a creator not in `personByEmail` gets the null fields. */
  function ContributorFromLookups(personByEmail: map<string, Person>, recordingMap: map<Id, PersonTally>,
                                  c: CreatorCount): Contributor
  {
    var p := PersonAt(personByEmail, c.creator);
    if p.None? then Contributor(None, c.creator, None, None, None, c.count, 0, 0)
    else
      var t := TallyAt(recordingMap, p.value.id);
      Contributor(Some(p.value.id), c.creator, Some(p.value.gender), Some(p.value.role),
                  Some(p.value.createdAt), c.count, t.total, t.approved)
  }

  lemma ContributorFromLookupsIsRow(db: Db, emails: seq<string>, personByEmail: map<string, Person>,
                                    recordingMap: map<Id, PersonTally>, c: CreatorCount)
    requires forall e :: e in emails ==> e != []
    requires c.creator.Some? && c.creator.value != [] ==> c.creator.value in emails
    requires IndexOf(personByEmail, PersonsWithEmailIn(db.persons, emails), EmailOf)
    requires IndexOf(recordingMap, PersonTallies(db.recordings), PersonTallyKey)
    ensures ContributorFromLookups(personByEmail, recordingMap, c) == ContributorOf(db, c)
  {
    PersonAtIsCreatorPerson(db.persons, emails, personByEmail, c.creator);
    var p := PersonAt(personByEmail, c.creator);
    if p.Some? {
      TallyLookup(db.recordings, recordingMap, p.value.id);
    }
  }

  /** The rows `allStats.map(...)` builds. */
  function LookupContributors(personByEmail: map<string, Person>, recordingMap: map<Id, PersonTally>,
                              cs: seq<CreatorCount>): (rows: seq<Contributor>)
    ensures |rows| == |cs|
  {
    if cs == [] then []
    else LookupContributors(personByEmail, recordingMap, cs[..|cs| - 1])
         + [ContributorFromLookups(personByEmail, recordingMap, cs[|cs| - 1])]
  }

  lemma {:induction false} LookupContributorsAreRows(db: Db, emails: seq<string>, personByEmail: map<string, Person>,
                                                     recordingMap: map<Id, PersonTally>, cs: seq<CreatorCount>)
    requires forall e :: e in emails ==> e != []
    requires forall i :: 0 <= i < |cs| && cs[i].creator.Some? && cs[i].creator.value != [] ==> cs[i].creator.value in emails
    requires IndexOf(personByEmail, PersonsWithEmailIn(db.persons, emails), EmailOf)
    requires IndexOf(recordingMap, PersonTallies(db.recordings), PersonTallyKey)
    ensures LookupContributors(personByEmail, recordingMap, cs) == ContributorsOf(db, cs)
  {
    if cs != [] {
      LookupContributorsAreRows(db, emails, personByEmail, recordingMap, cs[..|cs| - 1]);
      ContributorFromLookupsIsRow(db, emails, personByEmail, recordingMap, cs[|cs| - 1]);
    }
  }

  method BuildContributors(personByEmail: map<string, Person>, recordingMap: map<Id, PersonTally>,
                           cs: seq<CreatorCount>) returns (rows: seq<Contributor>)
    ensures rows == LookupContributors(personByEmail, recordingMap, cs)
  {
    rows := [];
    var i := 0;
    while i < |cs|
      invariant 0 <= i <= |cs|
      invariant rows == LookupContributors(personByEmail, recordingMap, cs[..i])
    {
      assert cs[..i + 1][..i] == cs[..i];
      rows := rows + [ContributorFromLookups(personByEmail, recordingMap, cs[i])];
      i := i + 1;
    }
    assert cs[..i] == cs;
  }

  /** `getTopContributors` as the service runs it: the creator groups, an
      early answer when there are none, the persons of the non-empty
      emails and the recording groups read into lookup objects, every row
      built, then sorted and sliced. */
  method GetTopContributors(db: Db, page: int, limit: int) returns (r: ContributorsPage)
    ensures r == TopContributors(db, page, limit)
  {
    var safePage := SafePage(page);
    var safeLimit := SafeLimit(limit);
    var allStats := CreatorStats(db);
    if |allStats| == 0 {
      return ContributorsPage([], 0, 0, 0, safePage);
    }
    var allEmails := NonEmptyEmails(allStats);
    var personByEmail := IndexBy(PersonsWithEmailIn(db.persons, allEmails), EmailOf);
    var recordingMap := IndexBy(PersonTallies(db.recordings), PersonTallyKey);
    var allUsers := BuildContributors(personByEmail, recordingMap, allStats);
    LookupContributorsAreRows(db, allEmails, personByEmail, recordingMap, allStats);
    var users := Page(SortDesc(allUsers, ContributorRecordings), Skip(safePage, safeLimit), safeLimit);
    r := ContributorsPage(users, |users|, |allStats|, CeilDiv(|allStats|, safeLimit), safePage);
  }

  /** The clamps, the count of creators and the page as a slice of the
      ranking. */
  lemma TopContributorsPage(db: Db, page: int, limit: int)
    ensures var r := TopContributors(db, page, limit);
            && r.currentPage == SafePage(page) >= 1
            && r.count == |r.users| <= SafeLimit(limit) <= 100
            && r.totalCount == |Keys(SentencesWhere(db.sentences, ContributedSentences), CreatorOf)|
            && r.totalPages == CeilDiv(r.totalCount, SafeLimit(limit))
            && (forall k :: 0 <= k < |r.users| ==>
                  r.users[k] == RankedContributors(db)[Skip(SafePage(page), SafeLimit(limit)) + k])
  {
  }

  /** Every creator counted is the non-null `createdBy` of a stored
      sentence ... */
  lemma CountedCreatorExists(db: Db, k: Option<string>)
    requires k in Keys(SentencesWhere(db.sentences, ContributedSentences), CreatorOf)
    ensures k.Some? && exists s :: s in db.sentences && s.createdBy == k
  {
    var ss := SentencesWhere(db.sentences, ContributedSentences);
    var j :| 0 <= j < |ss| && CreatorOf(ss[j]) == k;
    assert ss[j] in ss;
  }

  /** ... and every non-null `createdBy` is counted. */
  lemma EveryCreatorCounted(db: Db, s: Sentence)
    requires s in db.sentences && s.createdBy.Some?
    ensures s.createdBy in Keys(SentencesWhere(db.sentences, ContributedSentences), CreatorOf)
  {
    var ss := SentencesWhere(db.sentences, ContributedSentences);
    assert s in ss;
    var j :| 0 <= j < |ss| && ss[j] == s;
    assert CreatorOf(ss[j]) == s.createdBy;
  }

  /** Rows are ranked by recordings over all statuses, within a page and
      from one page to any later one. */
  lemma TopContributorsRanked(db: Db, page: int, limit: int, later: int)
    requires later > SafePage(page)
    ensures var us := TopContributors(db, page, limit).users;
            forall i, j :: 0 <= i < j < |us| ==> us[i].totalRecordings >= us[j].totalRecordings
    ensures var us, vs := TopContributors(db, page, limit).users, TopContributors(db, later, limit).users;
            forall i, j :: 0 <= i < |us| && 0 <= j < |vs| ==> us[i].totalRecordings >= vs[j].totalRecordings
  {
    var ranked := RankedContributors(db);
    var safeLimit := SafeLimit(limit);
    PagesRanked(ranked, ContributorRecordings, safeLimit, SafePage(page), SafePage(later));
    var us := TopContributors(db, page, limit).users;
    if CreatorStats(db) != [] {
      forall i, j | 0 <= i < j < |us| ensures us[i].totalRecordings >= us[j].totalRecordings {
        var off := Skip(SafePage(page), safeLimit);
        assert ContributorRecordings(ranked[off + i]) >= ContributorRecordings(ranked[off + j]);
      }
    }
  }

  /** What a row says about its creator: the number of sentences they
      created, and either their person's recordings over all statuses or,
      when no person has the email, null fields and no recordings. */
  lemma ContributorMeaning(db: Db, c: CreatorCount)
    ensures var row := ContributorOf(db, c);
            && row.email == c.creator && row.totalContributedSentences == c.count
            && (row.userId.None? <==> CreatorPerson(db.persons, c.creator).None?)
            && (row.userId.None? ==> row.gender.None? && row.totalRecordings == 0 && row.approvedRecordings == 0)
            && (row.userId.Some? ==>
                  && (exists i :: 0 <= i < |db.persons| && db.persons[i].id == row.userId.value
                                  && Some(db.persons[i].email) == c.creator)
                  && row.totalRecordings == |WithKey(db.recordings, PersonOf, row.userId.value)|
                  && row.approvedRecordings == CountStatus(WithKey(db.recordings, PersonOf, row.userId.value), Approved))
  {
    var p := CreatorPerson(db.persons, c.creator);
    if p.Some? {
      StatusCountsBounded(WithKey(db.recordings, PersonOf, p.value.id));
      var i :| 0 <= i < |db.persons| && db.persons[i] == p.value;
    }
  }

  /** A creator no person has the email of appears with a null user and no
      recordings. */
  lemma UnknownCreatorHasNoRecordings(db: Db, c: CreatorCount)
    requires c.creator.Some?
    requires forall i :: 0 <= i < |db.persons| ==> db.persons[i].email != c.creator.value
    ensures ContributorOf(db, c).userId.None?
    ensures ContributorOf(db, c).totalRecordings == 0 && ContributorOf(db, c).approvedRecordings == 0
  {
  }

  /** Every creator has a row somewhere in the ranking. */
  lemma EveryCreatorRanked(db: Db, e: Option<string>)
    requires e in Keys(SentencesWhere(db.sentences, ContributedSentences), CreatorOf)
    ensures exists k :: 0 <= k < |RankedContributors(db)| && RankedContributors(db)[k].email == e
  {
    var stats := CreatorStats(db);
    var ks := Keys(SentencesWhere(db.sentences, ContributedSentences), CreatorOf);
    var i :| 0 <= i < |ks| && ks[i] == e;
    var rows := ContributorsOf(db, stats);
    ContributorsOfAt(db, stats, i);
    assert rows[i] in multiset(rows);
    var ranked := RankedContributors(db);
    assert rows[i] in multiset(ranked);
    var k :| 0 <= k < |ranked| && ranked[k] == rows[i];
  }

  // ------------------------------------------------ getUsersBySentenceCount

  /** The sentences the breakdown counts: with a creator and in status 1,
      2 or 3. */
  const RatedSentences := SentenceFilter(HasCreator, StatusIn({Available, HasApprovedRecording, RejectedDuplicate}))

  function RatedOf(db: Db): seq<Sentence>
  {
    SentencesWhere(db.sentences, RatedSentences)
  }

  /** Narrowing a list of groups keeps every group's breakdown. */
  lemma TalliesOfSubset(cs: seq<CreatorTally>, ds: seq<CreatorTally>, ss: seq<Sentence>)
    requires TalliesOf(cs, ss)
    requires forall x :: x in ds ==> x in cs
    ensures TalliesOf(ds, ss)
  {
    forall i | 0 <= i < |ds| ensures ds[i].tally == SentenceTallyOf(WithKey(ss, CreatorOf, ds[i].creator)) {
      assert ds[i] in ds;
      var j :| 0 <= j < |cs| && cs[j] == ds[i];
    }
  }

  /** The creator breakdown, most sentences first, cut to `limit` when that
      is positive. */
  function TopCreatorTallies(db: Db, limit: Option<int>): (r: seq<CreatorTally>)
    ensures SortedDesc(r, CreatorTallyTotal)
    ensures TalliesOf(r, RatedOf(db))
    ensures limit.Some? && limit.value > 0 ==> |r| <= limit.value
    ensures !(limit.Some? && limit.value > 0) ==> multiset(r) == multiset(CreatorTallies(RatedOf(db)))
  {
    var all := CreatorTallies(RatedOf(db));
    var sorted := SortDesc(all, CreatorTallyTotal);
    var r := if limit.Some? && limit.value > 0 then Page(sorted, 0, limit.value) else sorted;
    forall x | x in r ensures x in all {
      assert x in sorted;
      assert x in multiset(sorted);
    }
    TalliesOfSubset(all, r, RatedOf(db));
    r
  }

  /** One sentence a user has approved recordings of. */
  datatype RecordedSentence = RecordedSentence(sentenceId: Id, content: Option<string>,
                                               recordingCount: nat, approvedCount: nat)

  /** The per-sentence groups of `rs`, with the content of each sentence
      (null when it is gone or empty). */
  function RecordedSentencesOf(ss: seq<Sentence>, rs: seq<Recording>): (r: seq<RecordedSentence>)
    ensures |r| == |Keys(rs, SentenceOf)|
    ensures forall k :: 0 <= k < |r| ==>
              && r[k].sentenceId == Keys(rs, SentenceOf)[k]
              && r[k].recordingCount == |WithKey(rs, SentenceOf, r[k].sentenceId)|
              && r[k].approvedCount == TallyOf(WithKey(rs, SentenceOf, r[k].sentenceId)).approved
    ensures forall k :: 0 <= k < |r| ==>
              var s := SentenceById(ss, r[k].sentenceId);
              && (r[k].content.Some? <==> s.Some? && s.value.content != "")
              && (r[k].content.Some? ==> r[k].content.value == s.value.content)
  {
    var cs := SentenceCounts(rs);
    seq(|cs|, k requires 0 <= k < |cs| =>
          var s := SentenceById(ss, cs[k].sentenceId);
          RecordedSentence(cs[k].sentenceId, if s.None? then None else EmptyToNull(Some(s.value.content)),
                           cs[k].count, TallyOf(WithKey(rs, SentenceOf, cs[k].sentenceId)).approved))
  }

  /** One row per person. */
  datatype SentenceCountRow = SentenceCountRow(userEmail: string, userId: Id, totalSentences: nat,
                                               status1Count: nat, status2Count: nat, status3Count: nat,
                                               createdAt: Option<int>,
                                               recordedSentences: seq<RecordedSentence>,
                                               recordingTotalCount: nat)

  const NoSentences := SentenceTally(0, 0, 0, 0)

  /** The breakdown of `email` in the (limited) groups, zeros when it has
      none: `statsMap[email] || { totalSentences: 0, ... }`. */
  function StatFor(top: seq<CreatorTally>, email: string): SentenceTally
  {
    var c := LastByKey(top, CreatorTallyKey, Some(email));
    if c.None? then NoSentences else c.value.tally
  }

  /** A person's row given their breakdown: the recorded sentences are only
      gathered when the breakdown is not empty. */
  function RowWithStat(db: Db, p: Person, stat: SentenceTally): SentenceCountRow
  {
    var rs := ApprovedBy(db, p.id);
    if stat.total > 0 then
      SentenceCountRow(p.email, p.id, stat.total, stat.status1, stat.status2, stat.status3, Some(p.createdAt),
                       RecordedSentencesOf(db.sentences, rs), TotalCount(SentenceCounts(rs)))
    else
      SentenceCountRow(p.email, p.id, stat.total, stat.status1, stat.status2, stat.status3, Some(p.createdAt), [], 0)
  }

  function SentenceCountRows(db: Db, top: seq<CreatorTally>, ps: seq<Person>): (rows: seq<SentenceCountRow>)
    ensures |rows| == |ps|
  {
    if ps == [] then []
    else SentenceCountRows(db, top, ps[..|ps| - 1]) + [RowWithStat(db, ps[|ps| - 1], StatFor(top, ps[|ps| - 1].email))]
  }

  lemma {:induction false} SentenceCountRowsAt(db: Db, top: seq<CreatorTally>, ps: seq<Person>, i: nat)
    requires i < |ps|
    ensures SentenceCountRows(db, top, ps)[i] == RowWithStat(db, ps[i], StatFor(top, ps[i].email))
  {
    if i < |ps| - 1 {
      SentenceCountRowsAt(db, top, ps[..|ps| - 1], i);
    }
  }

  /** What `getUsersBySentenceCount(limit)` returns: every person, in store
      order, with their breakdown among the top creators. */
  function UsersBySentenceCount(db: Db, limit: Option<int>): seq<SentenceCountRow>
  {
    SentenceCountRows(db, TopCreatorTallies(db, limit), db.persons)
  }

  /** The breakdown read from `statsMap`. */
  function StatAt(statsMap: map<Option<string>, CreatorTally>, email: string): SentenceTally
  {
    if Some(email) in statsMap then statsMap[Some(email)].tally else NoSentences
  }

  function LookupSentenceCountRows(db: Db, statsMap: map<Option<string>, CreatorTally>,
                                   ps: seq<Person>): (rows: seq<SentenceCountRow>)
    ensures |rows| == |ps|
  {
    if ps == [] then []
    else LookupSentenceCountRows(db, statsMap, ps[..|ps| - 1])
         + [RowWithStat(db, ps[|ps| - 1], StatAt(statsMap, ps[|ps| - 1].email))]
  }

  lemma {:induction false} LookupSentenceCountRowsAreRows(db: Db, top: seq<CreatorTally>,
                                                          statsMap: map<Option<string>, CreatorTally>, ps: seq<Person>)
    requires IndexOf(statsMap, top, CreatorTallyKey)
    ensures LookupSentenceCountRows(db, statsMap, ps) == SentenceCountRows(db, top, ps)
  {
    if ps != [] {
      LookupSentenceCountRowsAreRows(db, top, statsMap, ps[..|ps| - 1]);
      var e := ps[|ps| - 1].email;
      assert Some(e) in statsMap <==> LastByKey(top, CreatorTallyKey, Some(e)).Some?;
    }
  }

  method BuildSentenceCountRows(db: Db, statsMap: map<Option<string>, CreatorTally>, ps: seq<Person>)
    returns (results: seq<SentenceCountRow>)
    ensures results == LookupSentenceCountRows(db, statsMap, ps)
  {
    results := [];
    var i := 0;
    while i < |ps|
      invariant 0 <= i <= |ps|
      invariant results == LookupSentenceCountRows(db, statsMap, ps[..i])
    {
      assert ps[..i + 1][..i] == ps[..i];
      results := results + [RowWithStat(db, ps[i], StatAt(statsMap, ps[i].email))];
      i := i + 1;
    }
    assert ps[..i] == ps;
  }

  /** `getUsersBySentenceCount` as the service runs it: the breakdown read
      into a lookup object, then one row pushed per person. */
  method GetUsersBySentenceCount(db: Db, limit: Option<int>) returns (results: seq<SentenceCountRow>)
    ensures results == UsersBySentenceCount(db, limit)
  {
    var stats := TopCreatorTallies(db, limit);
    var statsMap := IndexBy(stats, CreatorTallyKey);
    results := BuildSentenceCountRows(db, statsMap, db.persons);
    LookupSentenceCountRowsAreRows(db, stats, statsMap, db.persons);
  }

  /** One row per person, in store order (not ranked by count). */
  lemma SentenceCountRowsPerPerson(db: Db, limit: Option<int>)
    ensures var r := UsersBySentenceCount(db, limit);
            && |r| == |db.persons|
            && (forall i :: 0 <= i < |r| ==>
                  && r[i].userId == db.persons[i].id && r[i].userEmail == db.persons[i].email
                  && r[i].createdAt == Some(db.persons[i].createdAt))
  {
    var top := TopCreatorTallies(db, limit);
    forall i | 0 <= i < |db.persons|
      ensures var row := UsersBySentenceCount(db, limit)[i];
              row.userId == db.persons[i].id && row.userEmail == db.persons[i].email
              && row.createdAt == Some(db.persons[i].createdAt)
    {
      SentenceCountRowsAt(db, top, db.persons, i);
    }
  }

  /** In any list of groups carrying their breakdowns, a listed creator
      reads the breakdown of exactly their sentences, anyone else zeros. */
  lemma StatForIn(top: seq<CreatorTally>, ss: seq<Sentence>, e: string)
    requires TalliesOf(top, ss)
    ensures (exists k :: 0 <= k < |top| && top[k].creator == Some(e))
            ==> StatFor(top, e) == SentenceTallyOf(WithKey(ss, CreatorOf, Some(e)))
    ensures (forall k :: 0 <= k < |top| ==> top[k].creator != Some(e)) ==> StatFor(top, e) == NoSentences
  {
    var c := LastByKey(top, CreatorTallyKey, Some(e));
    if c.Some? {
      var k :| 0 <= k < |top| && top[k] == c.value;
    }
  }

  /** A creator among the top groups reads the breakdown of exactly their
      rated sentences; anyone else reads zeros. */
  lemma StatForMeaning(db: Db, limit: Option<int>, e: string)
    ensures var top := TopCreatorTallies(db, limit);
            (exists k :: 0 <= k < |top| && top[k].creator == Some(e))
            ==> StatFor(top, e) == SentenceTallyOf(WithKey(RatedOf(db), CreatorOf, Some(e)))
    ensures var top := TopCreatorTallies(db, limit);
            (forall k :: 0 <= k < |top| ==> top[k].creator != Some(e)) ==> StatFor(top, e) == NoSentences
  {
    StatForIn(TopCreatorTallies(db, limit), RatedOf(db), e);
  }

  /** A breakdown over sentences all in status 1, 2 or 3 adds up. */
  lemma StatAddsUp(top: seq<CreatorTally>, ss: seq<Sentence>, e: string)
    requires TalliesOf(top, ss)
    requires forall x :: x in ss ==> x.status in {1, 2, 3}
    ensures StatFor(top, e).status1 + StatFor(top, e).status2 + StatFor(top, e).status3 == StatFor(top, e).total
  {
    var c := LastByKey(top, CreatorTallyKey, Some(e));
    if c.Some? {
      var k :| 0 <= k < |top| && top[k] == c.value;
      var w := WithKey(ss, CreatorOf, Some(e));
      assert forall j :: 0 <= j < |w| ==> w[j] in w;
    }
  }

  lemma RatedStatuses(db: Db)
    ensures forall x :: x in RatedOf(db) ==> x.status in {1, 2, 3}
  {
    forall x | x in RatedOf(db) ensures x.status in {1, 2, 3} {
      assert SentenceMatches(x, RatedSentences);
    }
  }

  /** Only statuses 1, 2 and 3 are counted, so the three counts add up to
      the total. */
  lemma StatusCountsAddUp(db: Db, limit: Option<int>, i: nat)
    requires i < |db.persons|
    ensures var row := UsersBySentenceCount(db, limit)[i];
            row.status1Count + row.status2Count + row.status3Count == row.totalSentences
  {
    var top := TopCreatorTallies(db, limit);
    SentenceCountRowsAt(db, top, db.persons, i);
    RatedStatuses(db);
    StatAddsUp(top, RatedOf(db), db.persons[i].email);
  }

  /** A permutation of the groups holds exactly the creators that occur. */
  lemma GroupOfCreator(top: seq<CreatorTally>, ss: seq<Sentence>, e: Option<string>)
    requires multiset(top) == multiset(CreatorTallies(ss))
    ensures e in Keys(ss, CreatorOf) <==> exists j :: 0 <= j < |top| && top[j].creator == e
  {
    var all := CreatorTallies(ss);
    var ks := Keys(ss, CreatorOf);
    if e in ks {
      var k :| 0 <= k < |ks| && ks[k] == e;
      assert all[k] in multiset(top);
      var j :| 0 <= j < |top| && top[j] == all[k];
      assert top[j].creator == e;
    }
    if j :| 0 <= j < |top| && top[j].creator == e {
      assert top[j] in multiset(all);
      var k :| 0 <= k < |all| && all[k] == top[j];
      assert ks[k] in ks;
    }
  }

  /** Groups holding every creator read each creator's full count. */
  lemma StatForAllGroups(top: seq<CreatorTally>, ss: seq<Sentence>, e: string)
    requires TalliesOf(top, ss)
    requires multiset(top) == multiset(CreatorTallies(ss))
    ensures StatFor(top, e).total == |WithKey(ss, CreatorOf, Some(e))|
  {
    StatForIn(top, ss, e);
    GroupOfCreator(top, ss, Some(e));
    CountKeyPositive(ss, CreatorOf, Some(e));
  }

  /** Without a positive limit every person's total is the number of their
      rated sentences. */
  lemma UnlimitedCountsEveryone(db: Db, limit: Option<int>, e: string)
    requires !(limit.Some? && limit.value > 0)
    ensures StatFor(TopCreatorTallies(db, limit), e).total == |WithKey(RatedOf(db), CreatorOf, Some(e))|
  {
    StatForAllGroups(TopCreatorTallies(db, limit), RatedOf(db), e);
  }

  /** A person outside the (limited) top groups gets zero counts and no
      recorded sentences. */
  lemma OutsideTopGetsZeros(db: Db, limit: Option<int>, i: nat)
    requires i < |db.persons|
    requires forall k :: 0 <= k < |TopCreatorTallies(db, limit)| ==>
               TopCreatorTallies(db, limit)[k].creator != Some(db.persons[i].email)
    ensures var row := UsersBySentenceCount(db, limit)[i];
            && row.totalSentences == 0 && row.status1Count == 0 && row.status2Count == 0 && row.status3Count == 0
            && row.recordedSentences == [] && row.recordingTotalCount == 0
  {
    SentenceCountRowsAt(db, TopCreatorTallies(db, limit), db.persons, i);
    StatForMeaning(db, limit, db.persons[i].email);
  }

  /** For a person with counted sentences, the recorded sentences are the
      distinct sentences of their approved recordings, each with as many
      approved recordings as recordings, and their counts add up to the
      number of those recordings. */
  lemma RecordedSentencesMeaning(db: Db, limit: Option<int>, i: nat)
    requires i < |db.persons|
    requires UsersBySentenceCount(db, limit)[i].totalSentences > 0
    ensures var row, rs := UsersBySentenceCount(db, limit)[i], ApprovedBy(db, db.persons[i].id);
            && row.recordingTotalCount == |rs|
            && (forall j, k :: 0 <= j < k < |row.recordedSentences| ==>
                  row.recordedSentences[j].sentenceId != row.recordedSentences[k].sentenceId)
            && (forall k :: 0 <= k < |row.recordedSentences| ==>
                  && row.recordedSentences[k].recordingCount == |WithKey(rs, SentenceOf, row.recordedSentences[k].sentenceId)|
                  && row.recordedSentences[k].approvedCount == row.recordedSentences[k].recordingCount)
  {
    var p := db.persons[i];
    var rs := ApprovedBy(db, p.id);
    SentenceCountRowsAt(db, TopCreatorTallies(db, limit), db.persons, i);
    SentenceCountsTotal(rs);
    ApprovedByExact(db, p.id);
    var rsd := RecordedSentencesOf(db.sentences, rs);
    forall k | 0 <= k < |rsd| ensures rsd[k].approvedCount == rsd[k].recordingCount {
      var g := WithKey(rs, SentenceOf, rsd[k].sentenceId);
      forall j | 0 <= j < |g| ensures g[j].isApproved == Approved {
        assert g[j] in g;
      }
    }
  }

  // ---------------------------------------------- getTotalUserContributions

  /** A listed sentence with the selected fields. */
  datatype ContributedSentence = ContributedSentence(id: Id, content: string, status: int,
                                                     createdBy: Option<string>, createdAt: int)

  /** The count alone (`includeSentences: false`), or the count with a page
      of the sentences. */
  datatype Contributions =
    | Summary(totalContributed: nat, currentPage: nat, pageLimit: nat)
    | Listing(totalContributed: nat, sentences: seq<ContributedSentence>, count: nat,
              currentPage: nat, totalPages: nat, pageLimit: nat)

  /** `limit || 20`. */
  function PageLimit(limit: Option<nat>): (r: nat)
    ensures r >= 1
    ensures limit.None? || limit.value == 0 ==> r == 20
    ensures limit.Some? && limit.value > 0 ==> r == limit.value
  {
    if limit.None? || limit.value == 0 then 20 else limit.value
  }

  function Selected(s: Sentence): ContributedSentence
  {
    ContributedSentence(s.id, s.content, s.status, s.createdBy, s.createdAt)
  }

  function SelectedAll(ss: seq<Sentence>): (r: seq<ContributedSentence>)
    ensures |r| == |ss|
    ensures forall k :: 0 <= k < |ss| ==> r[k] == Selected(ss[k])
  {
    seq(|ss|, k requires 0 <= k < |ss| => Selected(ss[k]))
  }

  /** The sentences with a creator, newest first. */
  function NewestContributed(db: Db): (r: seq<Sentence>)
    ensures multiset(r) == multiset(SentencesWhere(db.sentences, ContributedSentences))
    ensures SortedDesc(r, SentenceCreatedAt)
  {
    SortDesc(SentencesWhere(db.sentences, ContributedSentences), SentenceCreatedAt)
  }

  /** `getTotalUserContributions({ includeSentences, limit, page })`: the
      number of sentences with a creator and, when asked for, one page of
      them, newest first. */
  function GetTotalUserContributions(db: Db, includeSentences: bool, limit: Option<nat>, page: nat): (r: Contributions)
    requires page >= 1
    ensures r.Summary? <==> !includeSentences
    ensures r.totalContributed == |SentencesWhere(db.sentences, ContributedSentences)|
    ensures r.currentPage == page && r.pageLimit == PageLimit(limit)
    ensures r.Listing? ==> r.count == |r.sentences| <= r.pageLimit
    ensures r.Listing? ==> r.totalPages == CeilDiv(r.totalContributed, r.pageLimit)
    ensures r.Listing? ==> forall k :: 0 <= k < |r.sentences| ==>
              && Skip(page, PageLimit(limit)) + k < |NewestContributed(db)|
              && r.sentences[k] == Selected(NewestContributed(db)[Skip(page, PageLimit(limit)) + k])
  {
    var pageLimit := PageLimit(limit);
    var total := |SentencesWhere(db.sentences, ContributedSentences)|;
    if !includeSentences then Summary(total, page, pageLimit)
    else
      var sentences := SelectedAll(Page(NewestContributed(db), Skip(page, pageLimit), pageLimit));
      Listing(total, sentences, |sentences|, page, CeilDiv(total, pageLimit), pageLimit)
  }

  /** Every listed sentence has a creator. */
  lemma ContributionListingHasCreators(db: Db, limit: Option<nat>, page: nat)
    requires page >= 1
    ensures var r := GetTotalUserContributions(db, true, limit, page).sentences;
            forall k :: 0 <= k < |r| ==> r[k].createdBy.Some?
  {
    var n := NewestContributed(db);
    var off := Skip(page, PageLimit(limit));
    var r := GetTotalUserContributions(db, true, limit, page).sentences;
    NewestHaveCreators(db);
    forall k | 0 <= k < |r| ensures r[k].createdBy.Some? {
      assert n[off + k] in n;
    }
  }

  lemma NewestHaveCreators(db: Db)
    ensures forall x :: x in NewestContributed(db) ==> x.createdBy.Some?
  {
    var n := NewestContributed(db);
    forall x | x in n ensures x.createdBy.Some? {
      assert x in multiset(n);
      assert x in SentencesWhere(db.sentences, ContributedSentences);
    }
  }

  /** The listing runs newest first, within the page and from one page to
      any later one. */
  lemma ContributionListingOrdered(db: Db, limit: Option<nat>, page: nat, later: nat)
    requires 1 <= page < later
    ensures var r := GetTotalUserContributions(db, true, limit, page).sentences;
            forall i, j :: 0 <= i < j < |r| ==> r[i].createdAt >= r[j].createdAt
    ensures var r, q := GetTotalUserContributions(db, true, limit, page).sentences,
                        GetTotalUserContributions(db, true, limit, later).sentences;
            forall i, j :: 0 <= i < |r| && 0 <= j < |q| ==> r[i].createdAt >= q[j].createdAt
  {
    var n := NewestContributed(db);
    var pl := PageLimit(limit);
    var off := Skip(page, pl);
    var r := GetTotalUserContributions(db, true, limit, page).sentences;
    PagesRanked(n, SentenceCreatedAt, pl, page, later);
    forall i, j | 0 <= i < j < |r| ensures r[i].createdAt >= r[j].createdAt {
      assert SentenceCreatedAt(n[off + i]) >= SentenceCreatedAt(n[off + j]);
    }
  }
}

/** Per-user statistics: the ranked and paginated user list with its global
    totals (`getUsers`), the e-mail search (`searchUserByEmail`) and the
    detail view of one user (`getUserById`). */
module UserStats {
  import opened Common
  import opened Text
  import opened PersonModel
  import opened SentenceModel
  import opened RecordingModel
  import opened Pipeline
  import opened Query
  import opened Database
  import opened Aggregates

  // --------------------------------------------------------------- getUsers

  /** The recordings the per-user statistics count: pending or approved,
      recorded inside the window. */
  function CountedFilter(w: Window): RecordingFilter
  {
    RecordingFilter(StatusIn({Pending, Approved}), w)
  }

  /** The sentences counted as a user's contributions: status 1 with a creator. */
  const ContributedFilter := SentenceFilter(HasCreator, StatusIn({Available}))

  /** A user with the statistics the list ranks on. */
  datatype UserRow = UserRow(person: Person, totalRecordings: nat, totalRecordingDuration: int,
                             approvedRecordings: nat, pendingRecordings: nat,
                             totalSentenceContributions: nat)

  function TotalRecordingsOf(u: UserRow): int { u.totalRecordings }

  /** The recordings of person `id` that the statistics count. */
  function CountedRecordings(db: Db, w: Window, id: Id): seq<Recording>
  {
    WithKey(Where(db.recordings, CountedFilter(w)), PersonOf, id)
  }

  /** The row of person `p`, defined directly from the collections. */
  function UserRowOf(db: Db, w: Window, p: Person): UserRow
  {
    var t := TallyOf(CountedRecordings(db, w, p.id));
    UserRow(p, t.total, t.duration, t.approved, t.pending,
            CountKey(SentencesWhere(db.sentences, ContributedFilter), CreatorOf, Some(p.email)))
  }

  /** One recording in a user's detail list. */
  datatype RecordingDetail = RecordingDetail(sentenceId: Option<Id>, content: Option<string>,
                                             duration: Option<int>, recordedAt: int,
                                             audioUrl: Option<string>, isApproved: int)

  /** A recording read with its sentence populated (content only): a
      missing sentence reads as null, and `|| null` turns empty or zero
      values into null. */
  function DetailOf(ss: seq<Sentence>, r: Recording): RecordingDetail
  {
    var s := SentenceById(ss, r.sentenceId);
    RecordingDetail(if s.None? then None else Some(r.sentenceId),
                    if s.None? then None else EmptyToNull(Some(s.value.content)),
                    ZeroToNull(r.duration), r.recordedAt, EmptyToNull(Some(r.audioUrl)), r.isApproved)
  }

  function DetailsOf(ss: seq<Sentence>, rs: seq<Recording>): (ds: seq<RecordingDetail>)
    ensures |ds| == |rs|
    ensures forall k :: 0 <= k < |rs| ==> ds[k] == DetailOf(ss, rs[k])
  {
    seq(|rs|, k requires 0 <= k < |rs| => DetailOf(ss, rs[k]))
  }

  /** One contributed sentence in a detail list. */
  datatype ContributionDetail = ContributionDetail(sentenceId: Id, content: string, status: int, createdAt: int)

  function ContributionsOf(ss: seq<Sentence>): (cs: seq<ContributionDetail>)
    ensures |cs| == |ss|
    ensures forall k :: 0 <= k < |ss| ==>
              cs[k].sentenceId == ss[k].id && cs[k].status == ss[k].status && cs[k].createdAt == ss[k].createdAt
  {
    seq(|ss|, k requires 0 <= k < |ss| => ContributionDetail(ss[k].id, ss[k].content, ss[k].status, ss[k].createdAt))
  }

  /** A user on the requested page, with the detail lists. */
  datatype UserEntry = UserEntry(row: UserRow, recordings: seq<RecordingDetail>,
                                 contributions: seq<ContributionDetail>)

  /** The detail lists of a user on the page: the counted recordings newest
      `recordedAt` first, and the status-1 sentences they created. */
  function EntryOf(db: Db, w: Window, u: UserRow): UserEntry
  {
    UserEntry(u,
              DetailsOf(db.sentences, SortDesc(CountedRecordings(db, w, u.person.id), RecordedAtOf)),
              ContributionsOf(SentencesWhere(db.sentences, SentenceFilter(CreatedBy(u.person.email), StatusIn({Available})))))
  }

  datatype UsersPage = UsersPage(users: seq<UserEntry>, count: nat, totalCount: nat, totalPages: nat,
                                 currentPage: nat, totalMale: nat, totalFemale: nat,
                                 totalCompletedSentences: nat)

  /** The rows of the persons `ps`, in their order. */
  function RowsOf(db: Db, w: Window, ps: seq<Person>): (rows: seq<UserRow>)
    ensures |rows| == |ps|
  {
    if ps == [] then [] else RowsOf(db, w, ps[..|ps| - 1]) + [UserRowOf(db, w, ps[|ps| - 1])]
  }

  lemma {:induction false} RowsOfAt(db: Db, w: Window, ps: seq<Person>, i: nat)
    requires i < |ps|
    ensures RowsOf(db, w, ps)[i] == UserRowOf(db, w, ps[i])
  {
    if i < |ps| - 1 {
      RowsOfAt(db, w, ps[..|ps| - 1], i);
    }
  }

  /** Every user's row, in store order. */
  function UserRows(db: Db, w: Window): (rows: seq<UserRow>)
    ensures |rows| == |db.persons|
  {
    RowsOf(db, w, db.persons)
  }

  /** All users, most recordings first (ties in store order). */
  function RankedUsers(db: Db, w: Window): (r: seq<UserRow>)
    ensures multiset(r) == multiset(UserRows(db, w))
    ensures SortedDesc(r, TotalRecordingsOf)
  {
    SortDesc(UserRows(db, w), TotalRecordingsOf)
  }

  /** The entries of the users on a page. */
  function Entries(db: Db, w: Window, paged: seq<UserRow>): (es: seq<UserEntry>)
    ensures |es| == |paged|
    ensures forall k :: 0 <= k < |paged| ==> es[k].row == paged[k]
  {
    if paged == [] then [] else Entries(db, w, paged[..|paged| - 1]) + [EntryOf(db, w, paged[|paged| - 1])]
  }

  lemma {:induction false} EntriesAt(db: Db, w: Window, paged: seq<UserRow>, k: nat)
    requires k < |paged|
    ensures Entries(db, w, paged)[k] == EntryOf(db, w, paged[k])
  {
    if k < |paged| - 1 {
      EntriesAt(db, w, paged[..|paged| - 1], k);
    }
  }

  /** What `getUsers(page, limit, { fromDate, toDate })` returns: all users
      are ranked, then the page is cut, then its detail lists are read. */
  function Users(db: Db, page: nat, limit: nat, w: Window): UsersPage
    requires page >= 1 && limit >= 1
  {
    var users := Entries(db, w, Page(RankedUsers(db, w), Skip(page, limit), limit));
    UsersPage(users, |users|, |db.persons|, CeilDiv(|db.persons|, limit), page,
              CountGender(db.persons, Male), CountGender(db.persons, Female),
              CountStatus(db.recordings, Approved))
  }

  /** A user's row as the service reads it from the two lookup objects. */
  function RowFromLookups(recordingMap: map<Id, PersonTally>, contributionMap: map<Option<string>, CreatorCount>,
                          p: Person): UserRow
  {
    var t := TallyAt(recordingMap, p.id);
    UserRow(p, t.total, t.duration, t.approved, t.pending, CountAt(contributionMap, Some(p.email)))
  }

  /** Reading the lookup objects gives the row defined from the collections. */
  lemma RowFromLookupsIsRow(db: Db, w: Window, recordingMap: map<Id, PersonTally>,
                            contributionMap: map<Option<string>, CreatorCount>, p: Person)
    requires IndexOf(recordingMap, PersonTallies(Where(db.recordings, CountedFilter(w))), PersonTallyKey)
    requires IndexOf(contributionMap, CreatorCounts(SentencesWhere(db.sentences, ContributedFilter)), CreatorCountKey)
    ensures RowFromLookups(recordingMap, contributionMap, p) == UserRowOf(db, w, p)
  {
    TallyLookup(Where(db.recordings, CountedFilter(w)), recordingMap, p.id);
    CreatorCountLookup(SentencesWhere(db.sentences, ContributedFilter), contributionMap, Some(p.email));
  }

  /** The rows `allRows.map(...)` builds from the lookup objects. */
  function LookupRows(recordingMap: map<Id, PersonTally>, contributionMap: map<Option<string>, CreatorCount>,
                      ps: seq<Person>): (rows: seq<UserRow>)
    ensures |rows| == |ps|
  {
    if ps == [] then []
    else LookupRows(recordingMap, contributionMap, ps[..|ps| - 1]) + [RowFromLookups(recordingMap, contributionMap, ps[|ps| - 1])]
  }

  lemma {:induction false} LookupRowsAreRows(db: Db, w: Window, recordingMap: map<Id, PersonTally>,
                                              contributionMap: map<Option<string>, CreatorCount>, ps: seq<Person>)
    requires IndexOf(recordingMap, PersonTallies(Where(db.recordings, CountedFilter(w))), PersonTallyKey)
    requires IndexOf(contributionMap, CreatorCounts(SentencesWhere(db.sentences, ContributedFilter)), CreatorCountKey)
    ensures LookupRows(recordingMap, contributionMap, ps) == RowsOf(db, w, ps)
  {
    if ps != [] {
      LookupRowsAreRows(db, w, recordingMap, contributionMap, ps[..|ps| - 1]);
      RowFromLookupsIsRow(db, w, recordingMap, contributionMap, ps[|ps| - 1]);
    }
  }

  /** Every user's row read from the lookup objects, in store order. */
  method BuildUserRows(recordingMap: map<Id, PersonTally>, contributionMap: map<Option<string>, CreatorCount>,
                       ps: seq<Person>) returns (rows: seq<UserRow>)
    ensures rows == LookupRows(recordingMap, contributionMap, ps)
  {
    rows := [];
    var i := 0;
    while i < |ps|
      invariant 0 <= i <= |ps|
      invariant rows == LookupRows(recordingMap, contributionMap, ps[..i])
    {
      assert ps[..i + 1][..i] == ps[..i];
      rows := rows + [RowFromLookups(recordingMap, contributionMap, ps[i])];
      i := i + 1;
    }
    assert ps[..i] == ps;
  }

  /** The detail lists, read user by user for the page. */
  method BuildEntries(db: Db, w: Window, paged: seq<UserRow>) returns (users: seq<UserEntry>)
    ensures users == Entries(db, w, paged)
  {
    users := [];
    var i := 0;
    while i < |paged|
      invariant 0 <= i <= |paged|
      invariant users == Entries(db, w, paged[..i])
    {
      assert paged[..i + 1][..i] == paged[..i];
      users := users + [EntryOf(db, w, paged[i])];
      i := i + 1;
    }
    assert paged[..i] == paged;
  }

  /** `getUsers` as the service runs it: the global totals first, an early
      answer for an empty store, then the two statistics pipelines read into
      lookup objects, every user's row read back from them, the rows sorted
      and sliced, and the detail lists of the page. */
  method GetUsers(db: Db, page: nat, limit: nat, w: Window) returns (r: UsersPage)
    requires page >= 1 && limit >= 1
    ensures r == Users(db, page, limit, w)
  {
    var totalCount := |db.persons|;
    var totalMale := CountGender(db.persons, Male);
    var totalFemale := CountGender(db.persons, Female);
    var totalCompleted := CountStatus(db.recordings, Approved);
    if totalCount == 0 {
      return UsersPage([], 0, 0, 0, page, totalMale, totalFemale, totalCompleted);
    }
    var recordingMap := IndexBy(PersonTallies(Where(db.recordings, CountedFilter(w))), PersonTallyKey);
    var contributionMap := IndexBy(CreatorCounts(SentencesWhere(db.sentences, ContributedFilter)), CreatorCountKey);
    var rows := BuildUserRows(recordingMap, contributionMap, db.persons);
    LookupRowsAreRows(db, w, recordingMap, contributionMap, db.persons);
    var users := BuildEntries(db, w, Page(SortDesc(rows, TotalRecordingsOf), Skip(page, limit), limit));
    r := UsersPage(users, |users|, totalCount, CeilDiv(totalCount, limit), page,
                   totalMale, totalFemale, totalCompleted);
  }

  /** A user's total counts exactly the pending and approved recordings in
      the window, so it is the sum of the two. */
  lemma UserRowCounts(db: Db, w: Window, p: Person)
    ensures var u := UserRowOf(db, w, p);
            && u.totalRecordings == u.approvedRecordings + u.pendingRecordings
            && u.totalRecordings == |CountedRecordings(db, w, p.id)|
            && (forall x :: x in CountedRecordings(db, w, p.id) <==>
                  x in db.recordings && x.personId == p.id && x.isApproved in {Pending, Approved}
                  && InWindow(x.recordedAt, w))
  {
    var rs := CountedRecordings(db, w, p.id);
    assert forall i :: 0 <= i < |rs| ==> rs[i] in rs;
  }

  /** The page is the slice of the ranking at `(page - 1) * limit`, at most
      `limit` long. */
  lemma UsersPageSlice(db: Db, page: nat, limit: nat, w: Window)
    requires page >= 1 && limit >= 1
    ensures var r := Users(db, page, limit, w);
            && r.count == |r.users| <= limit
            && r.totalCount == |db.persons|
            && r.totalPages == CeilDiv(|db.persons|, limit)
            && (forall k :: 0 <= k < |r.users| ==> r.users[k].row == RankedUsers(db, w)[Skip(page, limit) + k])
  {
  }

  /** Ranking happens before paging: the page is ranked, and no row on it
      ranks below a row of a later page. */
  lemma UsersPagesRanked(db: Db, page: nat, limit: nat, w: Window, later: nat)
    requires page >= 1 && limit >= 1 && later > page
    ensures var us := Users(db, page, limit, w).users;
            forall i, j :: 0 <= i < j < |us| ==> us[i].row.totalRecordings >= us[j].row.totalRecordings
    ensures var us, vs := Users(db, page, limit, w).users, Users(db, later, limit, w).users;
            forall i, j :: 0 <= i < |us| && 0 <= j < |vs| ==> us[i].row.totalRecordings >= vs[j].row.totalRecordings
  {
    var ranked := RankedUsers(db, w);
    PagesRanked(ranked, TotalRecordingsOf, limit, page, later);
    var us := Users(db, page, limit, w).users;
    forall i, j | 0 <= i < j < |us| ensures us[i].row.totalRecordings >= us[j].row.totalRecordings {
      assert TotalRecordingsOf(ranked[Skip(page, limit) + i]) >= TotalRecordingsOf(ranked[Skip(page, limit) + j]);
    }
  }

  /** Every user appears in the ranking. */
  lemma EveryUserRanked(db: Db, w: Window, i: nat)
    requires i < |db.persons|
    ensures UserRowOf(db, w, db.persons[i]) in RankedUsers(db, w)
  {
    RowsOfAt(db, w, db.persons, i);
    assert UserRows(db, w)[i] in multiset(UserRows(db, w));
  }

  /** The detail list of a ranked user holds exactly as many recordings as
      the user's total, newest first. */
  lemma EntryOfRankedRow(db: Db, w: Window, u: UserRow)
    requires u in RankedUsers(db, w)
    ensures var e := EntryOf(db, w, u);
            && |e.recordings| == u.totalRecordings
            && (forall i, j :: 0 <= i < j < |e.recordings| ==> e.recordings[i].recordedAt >= e.recordings[j].recordedAt)
  {
    assert u in multiset(UserRows(db, w));
    var i :| 0 <= i < |db.persons| && UserRows(db, w)[i] == u;
    RowsOfAt(db, w, db.persons, i);
    var recs := SortDesc(CountedRecordings(db, w, u.person.id), RecordedAtOf);
    assert forall a, b :: 0 <= a < b < |recs| ==> RecordedAtOf(recs[a]) >= RecordedAtOf(recs[b]);
  }

  /** The detail list of every user on the page matches the user's row. */
  lemma EntryMatchesRow(db: Db, page: nat, limit: nat, w: Window, k: nat)
    requires page >= 1 && limit >= 1
    requires k < |Users(db, page, limit, w).users|
    ensures var e := Users(db, page, limit, w).users[k];
            && |e.recordings| == e.row.totalRecordings
            && (forall i, j :: 0 <= i < j < |e.recordings| ==> e.recordings[i].recordedAt >= e.recordings[j].recordedAt)
  {
    var ranked := RankedUsers(db, w);
    var paged := Page(ranked, Skip(page, limit), limit);
    EntriesAt(db, w, paged, k);
    assert paged[k] in ranked;
    EntryOfRankedRow(db, w, paged[k]);
  }

  /** The global totals ignore the window: male and female users, and every
      approved recording. */
  lemma UsersTotalsIgnoreWindow(db: Db, page: nat, limit: nat, w1: Window, w2: Window)
    requires page >= 1 && limit >= 1
    ensures Users(db, page, limit, w1).totalMale == Users(db, page, limit, w2).totalMale
    ensures Users(db, page, limit, w1).totalFemale == Users(db, page, limit, w2).totalFemale
    ensures Users(db, page, limit, w1).totalCompletedSentences == Users(db, page, limit, w2).totalCompletedSentences
    ensures Users(db, page, limit, w1).totalCompletedSentences == TallyOf(db.recordings).approved
  {
    StatusCountsBounded(db.recordings);
  }

  /** An empty store lists nobody on no pages. */
  lemma UsersEmptyStore(db: Db, page: nat, limit: nat, w: Window)
    requires page >= 1 && limit >= 1 && db.persons == []
    ensures Users(db, page, limit, w).users == [] && Users(db, page, limit, w).totalPages == 0
    ensures Users(db, page, limit, w).totalCount == 0 && Users(db, page, limit, w).totalMale == 0
  {
  }

  // ------------------------------------------------------ searchUserByEmail

  /** A matched user with the statistics of all their pending and approved
      recordings. */
  datatype SearchRow = SearchRow(person: Person, recordingCount: nat, approvedCount: nat,
                                 pendingCount: nat, totalDuration: int)

  datatype SearchPage = SearchPage(users: seq<SearchRow>, count: nat, totalCount: nat, totalPages: nat,
                                   currentPage: nat, searchEmail: string)

  /** The search counts the same recordings as the user list, with no window. */
  function SearchRowOf(db: Db, p: Person): (r: SearchRow)
    ensures r.recordingCount == r.approvedCount + r.pendingCount
    ensures r.recordingCount == |CountedRecordings(db, AnyTime, p.id)|
  {
    UserRowCounts(db, AnyTime, p);
    var u := UserRowOf(db, AnyTime, p);
    SearchRow(p, u.totalRecordings, u.approvedRecordings, u.pendingRecordings, u.totalRecordingDuration)
  }

  function SearchRows(db: Db, ps: seq<Person>): (rows: seq<SearchRow>)
    ensures |rows| == |ps|
    ensures forall k :: 0 <= k < |ps| ==> rows[k] == SearchRowOf(db, ps[k])
  {
    seq(|ps|, k requires 0 <= k < |ps| => SearchRowOf(db, ps[k]))
  }

  /** The users whose email contains the trimmed query, newest first. */
  function SearchRanked(db: Db, needle: string): (r: seq<Person>)
    ensures multiset(r) == multiset(EmailMatches(db.persons, needle))
    ensures SortedDesc(r, PersonCreatedAt)
  {
    SortDesc(EmailMatches(db.persons, needle), PersonCreatedAt)
  }

  /** `searchUserByEmail(email, page, limit)`. The query is a case-insensitive
      substring match on the trimmed email; the sort applies before the skip
      and limit. */
  function SearchUserByEmail(db: Db, email: Option<string>, page: nat, limit: nat): (r: Result<SearchPage>)
    requires page >= 1 && limit >= 1
    ensures r.Err? <==> email.None? || IsBlank(email.value)
    ensures r.Err? ==> r.error == EmailRequired
    ensures r.Ok? ==> r.value.searchEmail == Trim(email.value) && r.value.currentPage == page
    ensures r.Ok? ==> r.value.count == |r.value.users| <= limit
    ensures r.Ok? ==> r.value.totalCount == |EmailMatches(db.persons, Trim(email.value))|
    ensures r.Ok? ==> r.value.totalPages == CeilDiv(r.value.totalCount, limit)
  {
    if email.None? || IsBlank(email.value) then Err(EmailRequired)
    else
      var needle := Trim(email.value);
      var matches := EmailMatches(db.persons, needle);
      var users := SearchRows(db, Page(SearchRanked(db, needle), Skip(page, limit), limit));
      Ok(SearchPage(users, |users|, |matches|, CeilDiv(|matches|, limit), page, needle))
  }

  /** Every listed user matches the query, the list is newest first, and it
      never holds more users than the total. */
  lemma SearchListsMatches(db: Db, email: string, page: nat, limit: nat)
    requires page >= 1 && limit >= 1 && !IsBlank(email)
    ensures var r := SearchUserByEmail(db, Some(email), page, limit).value;
            && r.count <= r.totalCount
            && (forall k :: 0 <= k < |r.users| ==>
                  r.users[k].person in db.persons && ContainsIgnoreCase(r.users[k].person.email, Trim(email)))
            && (forall i, j :: 0 <= i < j < |r.users| ==> r.users[i].person.createdAt >= r.users[j].person.createdAt)
  {
    var needle := Trim(email);
    var ranked := SearchRanked(db, needle);
    var paged := Page(ranked, Skip(page, limit), limit);
    forall k | 0 <= k < |paged|
      ensures paged[k] in EmailMatches(db.persons, needle)
    {
      assert paged[k] in multiset(ranked);
    }
    forall i, j | 0 <= i < j < |paged| ensures paged[i].createdAt >= paged[j].createdAt {
      assert PersonCreatedAt(ranked[Skip(page, limit) + i]) >= PersonCreatedAt(ranked[Skip(page, limit) + j]);
    }
  }

  /** Every matching user is listed on exactly one page. */
  lemma SearchFindsEveryMatch(db: Db, email: string, limit: nat, k: nat)
    requires limit >= 1 && !IsBlank(email)
    requires k < |EmailMatches(db.persons, Trim(email))|
    ensures var users := SearchUserByEmail(db, Some(email), k / limit + 1, limit).value.users;
            k % limit < |users| && users[k % limit] == SearchRowOf(db, SearchRanked(db, Trim(email))[k])
  {
    RowOnPage(SearchRanked(db, Trim(email)), limit, k);
  }

  // ------------------------------------------------------------ getUserById

  /** A sentence the user recorded, with its content (null when the sentence
      is gone or empty). */
  datatype SentenceDone = SentenceDone(sentenceId: Id, content: Option<string>)

  datatype UserDetail = UserDetail(person: Person, sentencesDone: seq<SentenceDone>,
                                   totalRecordingDuration: int, totalSentencesDone: nat,
                                   totalContributedByUser: nat, createdSentences: seq<ContributionDetail>)

  /** The user's approved recordings. */
  function ApprovedBy(db: Db, id: Id): seq<Recording>
  {
    WithKey(Where(db.recordings, RecordingFilter(StatusIn({Approved}), AnyTime)), PersonOf, id)
  }

  /** One entry per group, with the content of the stored sentence of that
      id when it is non-empty (`sentenceById[id] || null`). */
  function SentencesDone(ss: seq<Sentence>, cs: seq<SentenceCount>): (r: seq<SentenceDone>)
    ensures |r| == |cs|
    ensures forall k :: 0 <= k < |cs| ==> r[k].sentenceId == cs[k].sentenceId
    ensures forall k :: 0 <= k < |cs| ==>
              var s := SentenceById(ss, cs[k].sentenceId);
              && (r[k].content.Some? <==> s.Some? && s.value.content != "")
              && (r[k].content.Some? ==> r[k].content.value == s.value.content)
  {
    seq(|cs|, k requires 0 <= k < |cs| =>
          var s := SentenceById(ss, cs[k].sentenceId);
          SentenceDone(cs[k].sentenceId, if s.None? then None else EmptyToNull(Some(s.value.content))))
  }

  /** The sentences the user created, by id or by email, newest first. */
  function CreatedByUser(db: Db, p: Person): (r: seq<Sentence>)
    ensures multiset(r) == multiset(SentencesWhere(db.sentences, SentenceFilter(CreatedByIdOrEmail(p.id, p.email), AnyStatus)))
    ensures SortedDesc(r, SentenceCreatedAt)
  {
    SortDesc(SentencesWhere(db.sentences, SentenceFilter(CreatedByIdOrEmail(p.id, p.email), AnyStatus)), SentenceCreatedAt)
  }

  /** `d` lists each sentence the user has an approved recording of, once. */
  ghost predicate ListsDoneSentences(d: seq<SentenceDone>, db: Db, id: Id)
  {
    && (forall i, j :: 0 <= i < j < |d| ==> d[i].sentenceId != d[j].sentenceId)
    && (forall k :: 0 <= k < |d| ==>
          exists r :: r in db.recordings && r.personId == id && r.isApproved == Approved && r.sentenceId == d[k].sentenceId)
    && (forall r :: r in db.recordings && r.personId == id && r.isApproved == Approved ==>
          exists k :: 0 <= k < |d| && d[k].sentenceId == r.sentenceId)
  }

  /** `createdById` is the user or `createdBy` is the user's email. */
  predicate CreatedByPerson(p: Person, s: Sentence)
  {
    s.createdById == Some(p.id) || s.createdBy == Some(p.email)
  }

  /** Some sentence with id `sid` was created by the user. */
  ghost predicate IsCreatedSentence(db: Db, p: Person, sid: Id)
  {
    exists s :: s in db.sentences && s.id == sid && CreatedByPerson(p, s)
  }

  /** `cs` lists exactly the sentences the user created, newest first. */
  ghost predicate ListsCreatedSentences(cs: seq<ContributionDetail>, db: Db, p: Person)
  {
    && (forall s :: s in db.sentences && CreatedByPerson(p, s) ==> exists k :: 0 <= k < |cs| && cs[k].sentenceId == s.id)
    && (forall k :: 0 <= k < |cs| ==> IsCreatedSentence(db, p, cs[k].sentenceId))
    && (forall i, j :: 0 <= i < j < |cs| ==> cs[i].createdAt >= cs[j].createdAt)
  }

  /** The approved-recordings filter keeps exactly the user's approved
      recordings. */
  lemma ApprovedByExact(db: Db, id: Id)
    ensures forall r :: r in ApprovedBy(db, id) <==> r in db.recordings && r.personId == id && r.isApproved == Approved
  {
    var f := RecordingFilter(StatusIn({Approved}), AnyTime);
    forall r | r in db.recordings && r.personId == id && r.isApproved == Approved
      ensures r in ApprovedBy(db, id)
    {
      assert Matches(r, f);
    }
  }

  /** The sentence ids listed are the distinct sentence keys of `rs`. */
  lemma DoneIdsAreKeys(ss: seq<Sentence>, rs: seq<Recording>)
    ensures var d := SentencesDone(ss, SentenceCounts(rs));
            && (forall i, j :: 0 <= i < j < |d| ==> d[i].sentenceId != d[j].sentenceId)
            && (forall k :: 0 <= k < |d| ==> exists r :: r in rs && r.sentenceId == d[k].sentenceId)
            && (forall r :: r in rs ==> exists k :: 0 <= k < |d| && d[k].sentenceId == r.sentenceId)
  {
    var ks := Keys(rs, SentenceOf);
    var d := SentencesDone(ss, SentenceCounts(rs));
    forall k | 0 <= k < |d| ensures exists r :: r in rs && r.sentenceId == d[k].sentenceId
    {
      assert ks[k] in ks;
      var i :| 0 <= i < |rs| && SentenceOf(rs[i]) == ks[k];
      assert rs[i] in rs;
    }
    forall r | r in rs ensures exists k :: 0 <= k < |d| && d[k].sentenceId == r.sentenceId
    {
      var i :| 0 <= i < |rs| && rs[i] == r;
      assert SentenceOf(rs[i]) in ks;
      var k :| 0 <= k < |ks| && ks[k] == r.sentenceId;
      assert d[k].sentenceId == r.sentenceId;
    }
  }

  lemma DoneFromApproved(db: Db, id: Id)
    ensures ListsDoneSentences(SentencesDone(db.sentences, SentenceCounts(ApprovedBy(db, id))), db, id)
  {
    ApprovedByExact(db, id);
    DoneIdsAreKeys(db.sentences, ApprovedBy(db, id));
  }

  /** The sentences selected by id or email are exactly those created by
      the user under either key. */
  lemma CreatedByUserExact(db: Db, p: Person)
    ensures forall s :: s in CreatedByUser(db, p) <==>
              s in db.sentences && CreatedByPerson(p, s)
  {
    var f := SentenceFilter(CreatedByIdOrEmail(p.id, p.email), AnyStatus);
    var c := CreatedByUser(db, p);
    forall s ensures s in c <==> s in SentencesWhere(db.sentences, f)
    {
      assert s in c <==> s in multiset(c);
    }
  }

  /** Listing a newest-first sequence holding exactly the user's sentences
      meets `ListsCreatedSentences`. */
  lemma ListsCreatedFromMembers(c: seq<Sentence>, db: Db, p: Person)
    requires forall s :: s in c <==> s in db.sentences && CreatedByPerson(p, s)
    requires SortedDesc(c, SentenceCreatedAt)
    ensures ListsCreatedSentences(ContributionsOf(c), db, p)
  {
    var cs := ContributionsOf(c);
    forall s | s in db.sentences && CreatedByPerson(p, s)
      ensures exists k :: 0 <= k < |cs| && cs[k].sentenceId == s.id
    {
      var k :| 0 <= k < |c| && c[k] == s;
      assert cs[k].sentenceId == s.id;
    }
    forall k | 0 <= k < |cs|
      ensures IsCreatedSentence(db, p, cs[k].sentenceId)
    {
      assert c[k] in c;
    }
    forall i, j | 0 <= i < j < |cs| ensures cs[i].createdAt >= cs[j].createdAt {
      assert SentenceCreatedAt(c[i]) >= SentenceCreatedAt(c[j]);
    }
  }

  lemma CreatedFromFilter(db: Db, p: Person)
    ensures ListsCreatedSentences(ContributionsOf(CreatedByUser(db, p)), db, p)
  {
    CreatedByUserExact(db, p);
    ListsCreatedFromMembers(CreatedByUser(db, p), db, p);
  }

  /** With unique sentence ids, the created list names no sentence twice,
      so its length is the number of sentences the user created. */
  lemma CreatedIdsDistinct(db: Db, p: Person)
    ensures var cs := ContributionsOf(CreatedByUser(db, p));
            UniqueSentenceIds(db.sentences) ==> forall i, j :: 0 <= i < j < |cs| ==> cs[i].sentenceId != cs[j].sentenceId
  {
    var f := SentenceFilter(CreatedByIdOrEmail(p.id, p.email), AnyStatus);
    var c := CreatedByUser(db, p);
    var ss := db.sentences;
    CreatedByUserExact(db, p);
    forall i, j | 0 <= i < j < |c| && UniqueSentenceIds(ss) ensures c[i].id != c[j].id
    {
      if c[i].id == c[j].id {
        assert c[i] in c && c[j] in c;
        var a :| 0 <= a < |ss| && ss[a] == c[i];
        var b :| 0 <= b < |ss| && ss[b] == c[j];
        assert a == b;
        TwoCopies(c, i, j);
        SentencesWhereCounts(ss, f);
        var x, y := TwoPositions(ss, c[i]);
        assert false;
      }
    }
  }

  /** `getUserById(userId)`: fails without an id or for an unknown one;
      otherwise lists the distinct sentences the user has an approved
      recording of and the sentences the user created. */
  function GetUserById(db: Db, userId: Option<Id>): (r: Result<UserDetail>)
    ensures r.Err? <==> userId.None? || PersonById(db.persons, userId.value).None?
    ensures r.Err? ==> r.error == (if userId.None? then UserIdRequired else UserNotFound)
    ensures r.Ok? ==> r.value.person == PersonById(db.persons, userId.value).value
    ensures r.Ok? ==> r.value.totalSentencesDone == |r.value.sentencesDone|
    ensures r.Ok? ==> ListsDoneSentences(r.value.sentencesDone, db, userId.value)
    ensures r.Ok? ==> r.value.totalContributedByUser == |r.value.createdSentences|
    ensures r.Ok? ==> ListsCreatedSentences(r.value.createdSentences, db, r.value.person)
    ensures r.Ok? && UniqueSentenceIds(db.sentences) ==>
              forall i, j :: 0 <= i < j < |r.value.createdSentences| ==>
                r.value.createdSentences[i].sentenceId != r.value.createdSentences[j].sentenceId
  {
    if userId.None? then Err(UserIdRequired)
    else
      var user := PersonById(db.persons, userId.value);
      if user.None? then Err(UserNotFound)
      else
        var p := user.value;
        var done := SentencesDone(db.sentences, SentenceCounts(ApprovedBy(db, p.id)));
        var created := ContributionsOf(CreatedByUser(db, p));
        DoneFromApproved(db, p.id);
        CreatedFromFilter(db, p);
        CreatedIdsDistinct(db, p);
        Ok(UserDetail(p, done, TallyOf(ApprovedBy(db, p.id)).duration, |done|, |created|, created))
  }
}

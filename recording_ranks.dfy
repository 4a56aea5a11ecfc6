/** The two recording rankings: users by number of recordings
    (`getUsersByRecordingCount`) and by number of distinct sentences
    recorded (`getUsersByUniqueSentenceCount`), each over the recordings of
    an optional status and cut to the first `limit` rows. */
module RecordingRanks {
  import opened Common
  import opened PersonModel
  import opened RecordingModel
  import opened Pipeline
  import opened Query
  import opened Database
  import opened Aggregates

  /** The recordings of the optional status (`isApproved: Number(statusFilter)`). */
  function Matched(db: Db, statusFilter: Option<int>): seq<Recording>
  {
    Where(db.recordings, RecordingFilter(OptionalStatus(statusFilter), AnyTime))
  }

  /** A person's group holds exactly their recordings of the status. */
  lemma MatchedOfPerson(db: Db, statusFilter: Option<int>, id: Id)
    ensures forall x :: x in WithKey(Matched(db, statusFilter), PersonOf, id) <==>
              x in db.recordings && x.personId == id && (statusFilter.None? || x.isApproved == statusFilter.value)
  {
    var f := RecordingFilter(OptionalStatus(statusFilter), AnyTime);
    forall x | x in db.recordings && x.personId == id && (statusFilter.None? || x.isApproved == statusFilter.value)
      ensures x in Matched(db, statusFilter)
    {
      assert Matches(x, f);
    }
  }

  /** The first `limit` elements of the ranking, and nothing below them: an
      element left out ranks no higher than any kept one. */
  lemma TopIsTop<T>(all: seq<T>, key: T -> int, limit: nat, x: T)
    requires limit >= 1
    requires x in all && x !in Page(SortDesc(all, key), 0, limit)
    ensures forall k :: 0 <= k < |Page(SortDesc(all, key), 0, limit)| ==>
              key(Page(SortDesc(all, key), 0, limit)[k]) >= key(x)
  {
    var sorted := SortDesc(all, key);
    var top := Page(sorted, 0, limit);
    assert x in multiset(sorted);
    var j :| 0 <= j < |sorted| && sorted[j] == x;
    forall k | 0 <= k < |top| ensures key(top[k]) >= key(x) {
      assert top[k] == sorted[k];
    }
  }

  // ----------------------------------------------- getUsersByRecordingCount

  function TallyTotal(t: PersonTally): int { t.tally.total }

  /** The per-person groups, most recordings first, cut to `limit`. */
  function TopTallies(db: Db, statusFilter: Option<int>, limit: nat): (r: seq<PersonTally>)
    ensures |r| <= limit
    ensures SortedDesc(r, TallyTotal)
  {
    var sorted := SortDesc(PersonTallies(Matched(db, statusFilter)), TallyTotal);
    PageRanked(sorted, TallyTotal, 0, limit);
    Page(sorted, 0, limit)
  }

  /** One ranked user; the person's fields are missing when no person has
      the id. */
  datatype RecordingCountRow = RecordingCountRow(userId: Option<Id>, email: Option<string>, gender: Option<Gender>,
                                                 totalRecordings: nat, approvedRecordings: nat,
                                                 pendingRecordings: nat, rejectedRecordings: nat,
                                                 createdAt: Option<int>)

  /** A group with its person read by id (`users.find(...)`). */
  function RecordingCountRowOf(ps: seq<Person>, t: PersonTally): RecordingCountRow
  {
    var u := PersonById(ps, t.personId);
    RecordingCountRow(if u.None? then None else Some(u.value.id),
                      if u.None? then None else Some(u.value.email),
                      if u.None? then None else Some(u.value.gender),
                      t.tally.total, t.tally.approved, t.tally.pending, t.tally.rejected,
                      if u.None? then None else Some(u.value.createdAt))
  }

  /** `getUsersByRecordingCount(statusFilter, limit)`. */
  function UsersByRecordingCount(db: Db, statusFilter: Option<int>, limit: nat): (r: seq<RecordingCountRow>)
    requires limit >= 1
    ensures |r| == |TopTallies(db, statusFilter, limit)| <= limit
    ensures forall k :: 0 <= k < |r| ==> r[k] == RecordingCountRowOf(db.persons, TopTallies(db, statusFilter, limit)[k])
  {
    var top := TopTallies(db, statusFilter, limit);
    seq(|top|, k requires 0 <= k < |top| => RecordingCountRowOf(db.persons, top[k]))
  }

  /** At most `limit` rows, most recordings first; the three status counts
      never exceed the total, since status 3 is counted by none of them. */
  lemma RecordingCountRanked(db: Db, statusFilter: Option<int>, limit: nat)
    requires limit >= 1
    ensures var r := UsersByRecordingCount(db, statusFilter, limit);
            && |r| <= limit
            && (forall i, j :: 0 <= i < j < |r| ==> r[i].totalRecordings >= r[j].totalRecordings)
            && (forall k :: 0 <= k < |r| ==>
                  r[k].approvedRecordings + r[k].pendingRecordings + r[k].rejectedRecordings <= r[k].totalRecordings)
  {
    var top := TopTallies(db, statusFilter, limit);
    var r := UsersByRecordingCount(db, statusFilter, limit);
    forall i, j | 0 <= i < j < |r| ensures r[i].totalRecordings >= r[j].totalRecordings {
      assert TallyTotal(top[i]) >= TallyTotal(top[j]);
    }
    forall k | 0 <= k < |r|
      ensures r[k].approvedRecordings + r[k].pendingRecordings + r[k].rejectedRecordings <= r[k].totalRecordings
    {
      TopTallyIsGroup(db, statusFilter, limit, k);
    }
  }

  /** Every kept group is one of the per-person groups, with its tally. */
  lemma TopTallyIsGroup(db: Db, statusFilter: Option<int>, limit: nat, k: nat)
    requires k < |TopTallies(db, statusFilter, limit)|
    ensures var t := TopTallies(db, statusFilter, limit)[k];
            t.tally == TallyOf(WithKey(Matched(db, statusFilter), PersonOf, t.personId))
  {
    var all := PersonTallies(Matched(db, statusFilter));
    var t := TopTallies(db, statusFilter, limit)[k];
    assert t == SortDesc(all, TallyTotal)[k];
    assert t in multiset(all);
    var i :| 0 <= i < |all| && all[i] == t;
  }

  /** Each row counts exactly its person's recordings of the status, and its
      person, when found, has the row's id. */
  lemma RecordingCountRowMeaning(db: Db, statusFilter: Option<int>, limit: nat, k: nat)
    requires limit >= 1 && k < |UsersByRecordingCount(db, statusFilter, limit)|
    ensures var t := TopTallies(db, statusFilter, limit)[k];
            var row := UsersByRecordingCount(db, statusFilter, limit)[k];
            && row.totalRecordings == |WithKey(Matched(db, statusFilter), PersonOf, t.personId)|
            && (forall x :: x in WithKey(Matched(db, statusFilter), PersonOf, t.personId) <==>
                  x in db.recordings && x.personId == t.personId
                  && (statusFilter.None? || x.isApproved == statusFilter.value))
            && (row.userId.Some? ==> row.userId.value == t.personId)
            && (row.userId.None? <==> forall i :: 0 <= i < |db.persons| ==> db.persons[i].id != t.personId)
  {
    TopTallyIsGroup(db, statusFilter, limit, k);
    MatchedOfPerson(db, statusFilter, TopTallies(db, statusFilter, limit)[k].personId);
  }

  /** A person left out of the rows has no more recordings of the status
      than anyone listed. */
  lemma RecordingCountTopIsTop(db: Db, statusFilter: Option<int>, limit: nat, t: PersonTally)
    requires limit >= 1
    requires t in PersonTallies(Matched(db, statusFilter)) && t !in TopTallies(db, statusFilter, limit)
    ensures forall k :: 0 <= k < |UsersByRecordingCount(db, statusFilter, limit)| ==>
              UsersByRecordingCount(db, statusFilter, limit)[k].totalRecordings >= t.tally.total
  {
    TopIsTop(PersonTallies(Matched(db, statusFilter)), TallyTotal, limit, t);
  }

  // ------------------------------------------ getUsersByUniqueSentenceCount

  /** The key of the first `$group`: one person and one sentence. */
  datatype PersonSentence = PersonSentence(personId: Id, sentenceId: Id)

  function PairOf(r: Recording): PersonSentence { PersonSentence(r.personId, r.sentenceId) }
  function PairPerson(p: PersonSentence): Id { p.personId }

  /** One result of the second `$group`: a person and their number of
      distinct pairs. */
  datatype UniqueCount = UniqueCount(personId: Id, count: nat)

  function UniqueCountOf(u: UniqueCount): int { u.count }

  /** The two `$group` stages: the distinct (person, sentence) pairs, then
      the pairs counted per person. */
  function UniqueCounts(rs: seq<Recording>): (r: seq<UniqueCount>)
    ensures forall i :: 0 <= i < |r| ==> r[i].count == CountKey(Keys(rs, PairOf), PairPerson, r[i].personId)
    ensures forall i, j :: 0 <= i < j < |r| ==> r[i].personId != r[j].personId
  {
    var pairs := Keys(rs, PairOf);
    var ks := Keys(pairs, PairPerson);
    seq(|ks|, i requires 0 <= i < |ks| => UniqueCount(ks[i], CountKey(pairs, PairPerson, ks[i])))
  }

  /** A person's number of distinct pairs is the number of distinct
      sentences among their recordings. */
  lemma {:induction false} PairsOfPerson(rs: seq<Recording>, id: Id)
    ensures CountKey(Keys(rs, PairOf), PairPerson, id) == |Keys(WithKey(rs, PersonOf, id), SentenceOf)|
  {
    if rs != [] {
      var init, x := rs[..|rs| - 1], rs[|rs| - 1];
      PairsOfPerson(init, id);
      var ks0 := Keys(init, PairOf);
      var w0 := WithKey(init, PersonOf, id);
      assert Keys(rs, PairOf) == if PairOf(x) in ks0 then ks0 else ks0 + [PairOf(x)];
      assert WithKey(rs, PersonOf, id) == w0 + (if x.personId == id then [x] else []);
      if PairOf(x) !in ks0 {
        assert (ks0 + [PairOf(x)])[..|ks0|] == ks0;
      }
      if x.personId == id {
        assert (w0 + [x])[..|w0|] == w0;
        PairSeenIffSentenceSeen(init, x, id);
      } else {
        assert w0 + [] == w0;
      }
    }
  }

  lemma PairSeenIffSentenceSeen(init: seq<Recording>, x: Recording, id: Id)
    requires x.personId == id
    ensures PairOf(x) in Keys(init, PairOf) <==> x.sentenceId in Keys(WithKey(init, PersonOf, id), SentenceOf)
  {
    var w0 := WithKey(init, PersonOf, id);
    if PairOf(x) in Keys(init, PairOf) {
      var i :| 0 <= i < |init| && PairOf(init[i]) == PairOf(x);
      assert init[i] in w0;
      var j :| 0 <= j < |w0| && w0[j] == init[i];
      assert SentenceOf(w0[j]) == x.sentenceId;
    }
    if x.sentenceId in Keys(w0, SentenceOf) {
      var j :| 0 <= j < |w0| && SentenceOf(w0[j]) == x.sentenceId;
      assert w0[j] in w0;
      var i :| 0 <= i < |init| && init[i] == w0[j];
      assert PairOf(init[i]) == PairOf(x);
    }
  }

  /** The per-person counts, most distinct sentences first, cut to `limit`. */
  function TopUniqueCounts(db: Db, statusFilter: Option<int>, limit: nat): (r: seq<UniqueCount>)
    ensures |r| <= limit
    ensures SortedDesc(r, UniqueCountOf)
  {
    var sorted := SortDesc(UniqueCounts(Matched(db, statusFilter)), UniqueCountOf);
    PageRanked(sorted, UniqueCountOf, 0, limit);
    Page(sorted, 0, limit)
  }

  /** One ranked user: the id is the group's, the person's fields are null
      when no person has it. */
  datatype UniqueSentenceRow = UniqueSentenceRow(userId: Id, email: Option<string>, uniqueSentences: nat,
                                                 createdAt: Option<int>)

  function UniqueSentenceRowOf(ps: seq<Person>, u: UniqueCount): UniqueSentenceRow
  {
    var user := PersonById(ps, u.personId);
    UniqueSentenceRow(u.personId,
                      if user.None? then None else EmptyToNull(Some(user.value.email)),
                      u.count,
                      if user.None? then None else Some(user.value.createdAt))
  }

  /** `getUsersByUniqueSentenceCount(limit, statusFilter)`. */
  function UsersByUniqueSentenceCount(db: Db, limit: nat, statusFilter: Option<int>): (r: seq<UniqueSentenceRow>)
    requires limit >= 1
    ensures |r| == |TopUniqueCounts(db, statusFilter, limit)| <= limit
    ensures forall k :: 0 <= k < |r| ==> r[k] == UniqueSentenceRowOf(db.persons, TopUniqueCounts(db, statusFilter, limit)[k])
  {
    var top := TopUniqueCounts(db, statusFilter, limit);
    seq(|top|, k requires 0 <= k < |top| => UniqueSentenceRowOf(db.persons, top[k]))
  }

  /** At most `limit` rows, most distinct sentences first, each for a
      different user. */
  lemma UniqueSentenceRanked(db: Db, limit: nat, statusFilter: Option<int>)
    requires limit >= 1
    ensures var r := UsersByUniqueSentenceCount(db, limit, statusFilter);
            && |r| <= limit
            && (forall i, j :: 0 <= i < j < |r| ==> r[i].uniqueSentences >= r[j].uniqueSentences)
            && (forall i, j :: 0 <= i < j < |r| ==> r[i].userId != r[j].userId)
  {
    var all := UniqueCounts(Matched(db, statusFilter));
    var sorted := SortDesc(all, UniqueCountOf);
    var top := TopUniqueCounts(db, statusFilter, limit);
    var r := UsersByUniqueSentenceCount(db, limit, statusFilter);
    forall i, j | 0 <= i < j < |r| ensures r[i].uniqueSentences >= r[j].uniqueSentences {
      assert UniqueCountOf(top[i]) >= UniqueCountOf(top[j]);
    }
    forall i, j | 0 <= i < j < |r| ensures r[i].userId != r[j].userId {
      assert top[i] == sorted[i] && top[j] == sorted[j];
      DistinctAfterSort(all, sorted, i, j);
    }
  }

  /** Sorting keeps the groups' persons distinct. */
  lemma DistinctAfterSort(all: seq<UniqueCount>, sorted: seq<UniqueCount>, i: nat, j: nat)
    requires forall a, b :: 0 <= a < b < |all| ==> all[a].personId != all[b].personId
    requires multiset(sorted) == multiset(all)
    requires i < j < |sorted|
    ensures sorted[i].personId != sorted[j].personId
  {
    assert sorted[i] in multiset(all) && sorted[j] in multiset(all);
    var a :| 0 <= a < |all| && all[a] == sorted[i];
    var b :| 0 <= b < |all| && all[b] == sorted[j];
    if a == b {
      TwoCopies(sorted, i, j);
      OnlyOnce(all, a);
    }
  }

  /** In a list with distinct persons, each group occurs once. */
  lemma {:induction false} OnlyOnce(all: seq<UniqueCount>, a: nat)
    requires forall x, y :: 0 <= x < y < |all| ==> all[x].personId != all[y].personId
    requires a < |all|
    ensures multiset(all)[all[a]] == 1
  {
    var v := all[a];
    if a == |all| - 1 {
      var init := all[..a];
      assert all == init + [v];
      assert v !in init;
    } else {
      var init := all[..|all| - 1];
      assert all == init + [all[|all| - 1]];
      OnlyOnce(init, a);
    }
  }

  /** Each row's count is the number of distinct sentences among its
      person's recordings of the status, so never more than those
      recordings. */
  lemma UniqueSentenceRowMeaning(db: Db, limit: nat, statusFilter: Option<int>, k: nat)
    requires limit >= 1 && k < |UsersByUniqueSentenceCount(db, limit, statusFilter)|
    ensures var row := UsersByUniqueSentenceCount(db, limit, statusFilter)[k];
            var mine := WithKey(Matched(db, statusFilter), PersonOf, row.userId);
            && row.uniqueSentences == |Keys(mine, SentenceOf)| <= |mine|
            && (forall x :: x in mine <==>
                  x in db.recordings && x.personId == row.userId
                  && (statusFilter.None? || x.isApproved == statusFilter.value))
  {
    var all := UniqueCounts(Matched(db, statusFilter));
    var sorted := SortDesc(all, UniqueCountOf);
    var u := TopUniqueCounts(db, statusFilter, limit)[k];
    assert u == sorted[k];
    assert u in multiset(all);
    var i :| 0 <= i < |all| && all[i] == u;
    PairsOfPerson(Matched(db, statusFilter), u.personId);
    MatchedOfPerson(db, statusFilter, u.personId);
  }

  /** A person left out of the rows has no more distinct sentences than
      anyone listed. */
  lemma UniqueSentenceTopIsTop(db: Db, limit: nat, statusFilter: Option<int>, u: UniqueCount)
    requires limit >= 1
    requires u in UniqueCounts(Matched(db, statusFilter)) && u !in TopUniqueCounts(db, statusFilter, limit)
    ensures forall k :: 0 <= k < |UsersByUniqueSentenceCount(db, limit, statusFilter)| ==>
              UsersByUniqueSentenceCount(db, limit, statusFilter)[k].uniqueSentences >= u.count
  {
    TopIsTop(UniqueCounts(Matched(db, statusFilter)), UniqueCountOf, limit, u);
  }
}

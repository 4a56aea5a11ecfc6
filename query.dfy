/** The query side of the document store: `findById`/`findOne` lookups,
    the `$match` filters the services use on recordings, sentences and
    persons, and the per-group accumulators (`$sum`, `$cond`, `$ifNull`)
    of their aggregation pipelines. */
module Query {
  import opened Common
  import opened Text
  import opened RecordingModel
  import opened SentenceModel
  import opened PersonModel

  // ---------------------------------------------------------------- lookups

  /** The position of the document with id `id`, if any (the first one). */
  function PersonIndex(ps: seq<Person>, id: Id): (r: Option<nat>)
    ensures r.Some? ==> r.value < |ps| && ps[r.value].id == id
    ensures r.Some? ==> forall i :: 0 <= i < r.value ==> ps[i].id != id
    ensures r.None? <==> forall i :: 0 <= i < |ps| ==> ps[i].id != id
  {
    if ps == [] then None
    else if ps[0].id == id then Some(0)
    else
      var r := PersonIndex(ps[1..], id);
      if r.None? then None else Some(r.value + 1)
  }

  function SentenceIndex(ss: seq<Sentence>, id: Id): (r: Option<nat>)
    ensures r.Some? ==> r.value < |ss| && ss[r.value].id == id
    ensures r.Some? ==> forall i :: 0 <= i < r.value ==> ss[i].id != id
    ensures r.None? <==> forall i :: 0 <= i < |ss| ==> ss[i].id != id
  {
    if ss == [] then None
    else if ss[0].id == id then Some(0)
    else
      var r := SentenceIndex(ss[1..], id);
      if r.None? then None else Some(r.value + 1)
  }

  function RecordingIndex(rs: seq<Recording>, id: Id): (r: Option<nat>)
    ensures r.Some? ==> r.value < |rs| && rs[r.value].id == id
    ensures r.Some? ==> forall i :: 0 <= i < r.value ==> rs[i].id != id
    ensures r.None? <==> forall i :: 0 <= i < |rs| ==> rs[i].id != id
  {
    if rs == [] then None
    else if rs[0].id == id then Some(0)
    else
      var r := RecordingIndex(rs[1..], id);
      if r.None? then None else Some(r.value + 1)
  }

  /** `Person.findById(id)`. */
  function PersonById(ps: seq<Person>, id: Id): (r: Option<Person>)
    ensures r.Some? ==> r.value in ps && r.value.id == id
    ensures r.None? <==> forall i :: 0 <= i < |ps| ==> ps[i].id != id
  {
    var i := PersonIndex(ps, id);
    if i.None? then None else Some(ps[i.value])
  }

  /** `Sentence.findById(id)`. */
  function SentenceById(ss: seq<Sentence>, id: Id): (r: Option<Sentence>)
    ensures r.Some? ==> r.value in ss && r.value.id == id
    ensures r.None? <==> forall i :: 0 <= i < |ss| ==> ss[i].id != id
  {
    var i := SentenceIndex(ss, id);
    if i.None? then None else Some(ss[i.value])
  }

  /** `Recording.findById(id)`. */
  function RecordingById(rs: seq<Recording>, id: Id): (r: Option<Recording>)
    ensures r.Some? ==> r.value in rs && r.value.id == id
    ensures r.None? <==> forall i :: 0 <= i < |rs| ==> rs[i].id != id
  {
    var i := RecordingIndex(rs, id);
    if i.None? then None else Some(rs[i.value])
  }

  /** `Person.findOne({ email })`. */
  function PersonByEmail(ps: seq<Person>, email: string): (r: Option<Person>)
    ensures r.Some? ==> r.value in ps && r.value.email == email
    ensures r.None? <==> forall i :: 0 <= i < |ps| ==> ps[i].email != email
  {
    if ps == [] then None
    else if ps[0].email == email then Some(ps[0])
    else PersonByEmail(ps[1..], email)
  }

  // --------------------------------------------------------- recording filters

  /** An optional inclusive window on a timestamp (`$gte: from`, `$lte: to`);
      a missing bound does not restrict. */
  datatype Window = Window(from: Option<int>, to: Option<int>)

  const AnyTime := Window(None, None)

  predicate InWindow(t: int, w: Window)
  {
    (w.from.None? || w.from.value <= t) && (w.to.None? || t <= w.to.value)
  }

  /** No condition on the status, or `{ $in: allowed }`. */
  datatype StatusFilter = AnyStatus | StatusIn(allowed: set<int>)

  predicate StatusMatches(s: int, f: StatusFilter)
  {
    f.AnyStatus? || s in f.allowed
  }

  /** The optional status condition `isApproved: Number(statusFilter)`. */
  function OptionalStatus(statusFilter: Option<int>): StatusFilter
  {
    if statusFilter.None? then AnyStatus else StatusIn({statusFilter.value})
  }

  /** A `$match` on recordings: a status condition and a `recordedAt` window. */
  datatype RecordingFilter = RecordingFilter(status: StatusFilter, window: Window)

  predicate Matches(r: Recording, f: RecordingFilter)
  {
    StatusMatches(r.isApproved, f.status) && InWindow(r.recordedAt, f.window)
  }

  /** The recordings that pass `f`, in store order. */
  function Where(rs: seq<Recording>, f: RecordingFilter): (r: seq<Recording>)
    ensures |r| <= |rs|
    ensures forall x :: x in r <==> x in rs && Matches(x, f)
  {
    if rs == [] then []
    else
      var init := rs[..|rs| - 1];
      assert rs == init + [rs[|rs| - 1]];
      Where(init, f) + (if Matches(rs[|rs| - 1], f) then [rs[|rs| - 1]] else [])
  }

  /** The match keeps every copy of a matching recording and no copy of
      any other: it counts exactly the matching documents. */
  lemma {:induction false} WhereCounts(rs: seq<Recording>, f: RecordingFilter)
    ensures forall x :: multiset(Where(rs, f))[x] == if Matches(x, f) then multiset(rs)[x] else 0
  {
    if rs != [] {
      var init := rs[..|rs| - 1];
      assert rs == init + [rs[|rs| - 1]];
      assert multiset(rs) == multiset(init) + multiset{rs[|rs| - 1]};
      WhereCounts(init, f);
    }
  }

  /** The accumulators the recording pipelines compute per group:
      `$sum: 1`, the three `$cond` counts, and the duration `$sum` with
      `$ifNull: [duration, 0]`. */
  datatype Tally = Tally(total: nat, approved: nat, pending: nat, rejected: nat, duration: int)

  function TallyOf(rs: seq<Recording>): (t: Tally)
    ensures t.total == |rs|
    ensures t.approved + t.pending + t.rejected <= t.total
    ensures (forall i :: 0 <= i < |rs| ==> rs[i].isApproved in {Pending, Approved}) ==> t.total == t.approved + t.pending
    ensures (forall i :: 0 <= i < |rs| ==> rs[i].isApproved == Approved) ==> t.approved == t.total
  {
    if rs == [] then Tally(0, 0, 0, 0, 0)
    else
      var init, r := rs[..|rs| - 1], rs[|rs| - 1];
      assert forall i :: 0 <= i < |init| ==> init[i] == rs[i];
      var t := TallyOf(init);
      Tally(t.total + 1,
            t.approved + (if r.isApproved == Approved then 1 else 0),
            t.pending + (if r.isApproved == Pending then 1 else 0),
            t.rejected + (if r.isApproved == Rejected then 1 else 0),
            t.duration + OrZero(r.duration))
  }

  /** The number of recordings with status `s` (`countDocuments({ isApproved: s })`). */
  function CountStatus(rs: seq<Recording>, s: int): nat
  {
    |Where(rs, RecordingFilter(StatusIn({s}), AnyTime))|
  }

  /** Counting a status over a collection extended by one recording. */
  lemma CountStatusSnoc(rs: seq<Recording>, s: int)
    requires rs != []
    ensures CountStatus(rs, s) == CountStatus(rs[..|rs| - 1], s) + (if rs[|rs| - 1].isApproved == s then 1 else 0)
  {
  }

  /** The three status counts of a collection never exceed its size: the
      fourth status (3) is counted by none of them. */
  lemma {:induction false} StatusCountsBounded(rs: seq<Recording>)
    ensures CountStatus(rs, Approved) + CountStatus(rs, Pending) + CountStatus(rs, Rejected) <= |rs|
    ensures CountStatus(rs, Approved) == TallyOf(rs).approved
    ensures CountStatus(rs, Pending) == TallyOf(rs).pending
    ensures CountStatus(rs, Rejected) == TallyOf(rs).rejected
  {
    if rs != [] {
      var init := rs[..|rs| - 1];
      StatusCountsBounded(init);
      CountStatusSnoc(rs, Approved);
      CountStatusSnoc(rs, Pending);
      CountStatusSnoc(rs, Rejected);
    }
  }

  // ---------------------------------------------------------- sentence filters

  /** The conditions on `createdBy` the services use: none, `$ne: null`,
      one email, or "created by this id OR this email". */
  datatype CreatorFilter =
    | AnyCreator
    | HasCreator
    | CreatedBy(email: string)
    | CreatedByIdOrEmail(id: Id, email: string)

  datatype SentenceFilter = SentenceFilter(creator: CreatorFilter, status: StatusFilter)

  predicate CreatorMatches(s: Sentence, c: CreatorFilter)
  {
    match c
    case AnyCreator => true
    case HasCreator => s.createdBy.Some?
    case CreatedBy(e) => s.createdBy == Some(e)
    case CreatedByIdOrEmail(id, e) => s.createdById == Some(id) || s.createdBy == Some(e)
  }

  predicate SentenceMatches(s: Sentence, f: SentenceFilter)
  {
    CreatorMatches(s, f.creator) && StatusMatches(s.status, f.status)
  }

  /** The sentences that pass `f`, in store order. */
  function SentencesWhere(ss: seq<Sentence>, f: SentenceFilter): (r: seq<Sentence>)
    ensures |r| <= |ss|
    ensures forall x :: x in r <==> x in ss && SentenceMatches(x, f)
  {
    if ss == [] then []
    else
      var init := ss[..|ss| - 1];
      assert ss == init + [ss[|ss| - 1]];
      SentencesWhere(init, f) + (if SentenceMatches(ss[|ss| - 1], f) then [ss[|ss| - 1]] else [])
  }

  /** The sentence match counts exactly the matching documents. */
  lemma {:induction false} SentencesWhereCounts(ss: seq<Sentence>, f: SentenceFilter)
    ensures forall x :: multiset(SentencesWhere(ss, f))[x] == if SentenceMatches(x, f) then multiset(ss)[x] else 0
  {
    if ss != [] {
      var init := ss[..|ss| - 1];
      assert ss == init + [ss[|ss| - 1]];
      assert multiset(ss) == multiset(init) + multiset{ss[|ss| - 1]};
      SentencesWhereCounts(init, f);
    }
  }

  /** Grouping and sorting keys of sentences. */
  function CreatorOf(s: Sentence): Option<string> { s.createdBy }
  function SentenceCreatedAt(s: Sentence): int { s.createdAt }

  /** The per-creator accumulators of the sentence pipeline: `$sum: 1` and
      one `$cond` count per status 1, 2, 3. */
  datatype SentenceTally = SentenceTally(total: nat, status1: nat, status2: nat, status3: nat)

  function SentenceTallyOf(ss: seq<Sentence>): (t: SentenceTally)
    ensures t.total == |ss|
    ensures t.status1 + t.status2 + t.status3 <= t.total
    ensures (forall i :: 0 <= i < |ss| ==> ss[i].status in {1, 2, 3}) ==> t.total == t.status1 + t.status2 + t.status3
  {
    if ss == [] then SentenceTally(0, 0, 0, 0)
    else
      var init, s := ss[..|ss| - 1], ss[|ss| - 1];
      assert forall i :: 0 <= i < |init| ==> init[i] == ss[i];
      var t := SentenceTallyOf(init);
      SentenceTally(t.total + 1,
                    t.status1 + (if s.status == 1 then 1 else 0),
                    t.status2 + (if s.status == 2 then 1 else 0),
                    t.status3 + (if s.status == 3 then 1 else 0))
  }

  // ------------------------------------------------------------ person filters

  /** `countDocuments({ gender })`. */
  function CountGender(ps: seq<Person>, g: Gender): (n: nat)
    ensures n <= |ps|
  {
    if ps == [] then 0 else (if ps[0].gender == g then 1 else 0) + CountGender(ps[1..], g)
  }

  /** The persons whose email contains `needle`, ignoring case, in store order. */
  function EmailMatches(ps: seq<Person>, needle: string): (r: seq<Person>)
    ensures |r| <= |ps|
    ensures forall p :: p in r <==> p in ps && ContainsIgnoreCase(p.email, needle)
  {
    if ps == [] then []
    else
      assert ps == [ps[0]] + ps[1..];
      (if ContainsIgnoreCase(ps[0].email, needle) then [ps[0]] else []) + EmailMatches(ps[1..], needle)
  }

  /** The search counts exactly the matching persons. */
  lemma {:induction false} EmailMatchesCounts(ps: seq<Person>, needle: string)
    ensures forall p :: multiset(EmailMatches(ps, needle))[p] == if ContainsIgnoreCase(p.email, needle) then multiset(ps)[p] else 0
  {
    if ps != [] {
      assert ps == [ps[0]] + ps[1..];
      assert multiset(ps) == multiset{ps[0]} + multiset(ps[1..]);
      EmailMatchesCounts(ps[1..], needle);
    }
  }

  function PersonCreatedAt(p: Person): int { p.createdAt }
}

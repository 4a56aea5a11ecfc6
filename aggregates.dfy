/** The `$group` stages of the statistics pipelines, one per group key and
    set of accumulators, and the reads the services make of their results
    through lookup objects filled with `forEach`. Groups come out in order of
    first occurrence of their key. */
module Aggregates {
  import opened Common
  import opened RecordingModel
  import opened SentenceModel
  import opened Pipeline
  import opened Query

  // ------------------------------------------------- recordings per person

  /** One result of `$group: { _id: "$personId", ... }` with the recording
      accumulators. */
  datatype PersonTally = PersonTally(personId: Id, tally: Tally)

  function PersonTallyKey(s: PersonTally): Id { s.personId }

  function PersonTallies(rs: seq<Recording>): (r: seq<PersonTally>)
    ensures |r| == |Keys(rs, PersonOf)|
    ensures forall i :: 0 <= i < |r| ==> r[i].personId == Keys(rs, PersonOf)[i]
    ensures forall i :: 0 <= i < |r| ==> r[i].tally == TallyOf(WithKey(rs, PersonOf, r[i].personId))
  {
    var ks := Keys(rs, PersonOf);
    seq(|ks|, i requires 0 <= i < |ks| => PersonTally(ks[i], TallyOf(WithKey(rs, PersonOf, ks[i]))))
  }

  /** `map[id]?.field || 0` for every field: a person without a group reads
      as all zeros. */
  function TallyAt(m: map<Id, PersonTally>, k: Id): Tally
  {
    if k in m then m[k].tally else Tally(0, 0, 0, 0, 0)
  }

  /** Reading a person's tally back from the lookup object gives the tally
      of exactly that person's recordings, whether or not they had a group. */
  lemma TallyLookup(rs: seq<Recording>, m: map<Id, PersonTally>, k: Id)
    requires IndexOf(m, PersonTallies(rs), PersonTallyKey)
    ensures TallyAt(m, k) == TallyOf(WithKey(rs, PersonOf, k))
  {
    var stats := PersonTallies(rs);
    if k in m {
      var i :| 0 <= i < |stats| && stats[i] == m[k];
    } else {
      CountKeyPositive(rs, PersonOf, k);
      assert forall i :: 0 <= i < |stats| ==> Keys(rs, PersonOf)[i] != k;
      assert WithKey(rs, PersonOf, k) == [];
    }
  }

  // ------------------------------------------------- sentences per creator

  /** One result of `$group: { _id: "$createdBy", count: { $sum: 1 } }`. */
  datatype CreatorCount = CreatorCount(creator: Option<string>, count: nat)

  function CreatorCountKey(c: CreatorCount): Option<string> { c.creator }

  function CreatorCounts(ss: seq<Sentence>): (r: seq<CreatorCount>)
    ensures |r| == |Keys(ss, CreatorOf)|
    ensures forall i :: 0 <= i < |r| ==> r[i].creator == Keys(ss, CreatorOf)[i]
    ensures forall i :: 0 <= i < |r| ==> r[i].count == CountKey(ss, CreatorOf, r[i].creator)
  {
    var ks := Keys(ss, CreatorOf);
    seq(|ks|, i requires 0 <= i < |ks| => CreatorCount(ks[i], CountKey(ss, CreatorOf, ks[i])))
  }

  /** `map[email] || 0`. */
  function CountAt(m: map<Option<string>, CreatorCount>, k: Option<string>): nat
  {
    if k in m then m[k].count else 0
  }

  lemma CreatorCountLookup(ss: seq<Sentence>, m: map<Option<string>, CreatorCount>, k: Option<string>)
    requires IndexOf(m, CreatorCounts(ss), CreatorCountKey)
    ensures CountAt(m, k) == CountKey(ss, CreatorOf, k)
  {
    var stats := CreatorCounts(ss);
    if k in m {
      var i :| 0 <= i < |stats| && stats[i] == m[k];
    } else {
      CountKeyPositive(ss, CreatorOf, k);
      assert forall i :: 0 <= i < |stats| ==> Keys(ss, CreatorOf)[i] != k;
    }
  }

  /** One result of the per-creator status breakdown. */
  datatype CreatorTally = CreatorTally(creator: Option<string>, tally: SentenceTally)

  function CreatorTallyKey(c: CreatorTally): Option<string> { c.creator }
  function CreatorTallyTotal(c: CreatorTally): int { c.tally.total }

  /** Every group carries the breakdown of exactly its creator's sentences. */
  ghost predicate TalliesOf(cs: seq<CreatorTally>, ss: seq<Sentence>)
  {
    forall i :: 0 <= i < |cs| ==> cs[i].tally == SentenceTallyOf(WithKey(ss, CreatorOf, cs[i].creator))
  }

  function CreatorTallies(ss: seq<Sentence>): (r: seq<CreatorTally>)
    ensures |r| == |Keys(ss, CreatorOf)|
    ensures forall i :: 0 <= i < |r| ==> r[i].creator == Keys(ss, CreatorOf)[i]
    ensures TalliesOf(r, ss)
  {
    var ks := Keys(ss, CreatorOf);
    seq(|ks|, i requires 0 <= i < |ks| => CreatorTally(ks[i], SentenceTallyOf(WithKey(ss, CreatorOf, ks[i]))))
  }

  // ---------------------------------------------- recordings per sentence

  /** One result of `$group: { _id: "$sentenceId", count: { $sum: 1 } }`. */
  datatype SentenceCount = SentenceCount(sentenceId: Id, count: nat)

  function SentenceCounts(rs: seq<Recording>): (r: seq<SentenceCount>)
    ensures |r| == |Keys(rs, SentenceOf)|
    ensures forall i :: 0 <= i < |r| ==> r[i].sentenceId == Keys(rs, SentenceOf)[i]
    ensures forall i :: 0 <= i < |r| ==> r[i].count == CountKey(rs, SentenceOf, r[i].sentenceId)
  {
    var ks := Keys(rs, SentenceOf);
    seq(|ks|, i requires 0 <= i < |ks| => SentenceCount(ks[i], CountKey(rs, SentenceOf, ks[i])))
  }

  /** `reduce((acc, r) => acc + r.count, 0)`. */
  function TotalCount(cs: seq<SentenceCount>): nat
  {
    if cs == [] then 0 else cs[0].count + TotalCount(cs[1..])
  }

  lemma {:induction false} TotalCountIsSumCounts(rs: seq<Recording>, cs: seq<SentenceCount>, ks: seq<Id>)
    requires |cs| == |ks|
    requires forall i :: 0 <= i < |cs| ==> cs[i].count == CountKey(rs, SentenceOf, ks[i])
    ensures TotalCount(cs) == SumCounts(rs, SentenceOf, ks)
  {
    if cs != [] {
      TotalCountIsSumCounts(rs, cs[1..], ks[1..]);
    }
  }

  /** The per-sentence counts add up to the number of recordings grouped. */
  lemma SentenceCountsTotal(rs: seq<Recording>)
    ensures TotalCount(SentenceCounts(rs)) == |rs|
  {
    TotalCountIsSumCounts(rs, SentenceCounts(rs), Keys(rs, SentenceOf));
    SumOfGroupCounts(rs, SentenceOf);
  }
}

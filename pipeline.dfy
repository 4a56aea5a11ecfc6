/** The generic stages the aggregation queries are built from: a stable
    descending sort, skip/limit paging with its page count, and grouping
    by a key with per-key counts. */
module Pipeline {
  import opened Common

  function Min(a: int, b: int): int
  {
    if a <= b then a else b
  }

  // ---------------------------------------------------------------- sorting

  /** Ranked: no element has a larger key than any element before it. */
  predicate SortedDesc<T>(s: seq<T>, key: T -> int)
  {
    forall i, j :: 0 <= i < j < |s| ==> key(s[i]) >= key(s[j])
  }

  /** A ranked sequence stays ranked under a new head whose key is at
      least that of the old head. */
  lemma PrependRanked<T>(x: T, s: seq<T>, key: T -> int)
    requires SortedDesc(s, key) && (s != [] ==> key(x) >= key(s[0]))
    ensures SortedDesc([x] + s, key)
  {
    var r := [x] + s;
    forall i, j | 0 <= i < j < |r| ensures key(r[i]) >= key(r[j]) {
      if i > 0 {
        assert r[i] == s[i - 1] && r[j] == s[j - 1];
      } else {
        assert r[j] == s[j - 1];
      }
    }
  }

  /** Inserts `x` before the first element whose key is not larger, so that
      among equal keys earlier insertions stay first. */
  function Insert<T>(x: T, s: seq<T>, key: T -> int): (r: seq<T>)
    requires SortedDesc(s, key)
    ensures |r| == |s| + 1
    ensures multiset(r) == multiset(s) + multiset{x}
    ensures SortedDesc(r, key)
    ensures r[0] == x || (s != [] && r[0] == s[0])
  {
    if s == [] || key(x) >= key(s[0]) then
      PrependRanked(x, s, key);
      assert multiset([x] + s) == multiset{x} + multiset(s);
      [x] + s
    else
      var rest := Insert(x, s[1..], key);
      assert s == [s[0]] + s[1..];
      PrependRanked(s[0], rest, key);
      assert multiset(s) == multiset{s[0]} + multiset(s[1..]);
      assert multiset([s[0]] + rest) == multiset{s[0]} + multiset(rest);
      [s[0]] + rest
  }

  /** Descending sort by `key` (a stable insertion sort: ties keep their
      input order, as JavaScript's `Array.prototype.sort` does). The result
      is ranked and is a permutation of the input. */
  function SortDesc<T>(s: seq<T>, key: T -> int): (r: seq<T>)
    ensures |r| == |s|
    ensures multiset(r) == multiset(s)
    ensures SortedDesc(r, key)
  {
    if s == [] then []
    else
      assert s == [s[0]] + s[1..];
      Insert(s[0], SortDesc(s[1..], key), key)
  }

  // ----------------------------------------------------------------- paging

  /** The offset of page `page` (pages count from 1). */
  function Skip(page: nat, limit: nat): nat
    requires page >= 1
  {
    (page - 1) * limit
  }

  /** `.skip(skip).limit(limit)` / `.slice(skip, skip + limit)`. */
  function Page<T>(s: seq<T>, skip: nat, limit: nat): (r: seq<T>)
    ensures |r| == (if skip >= |s| then 0 else Min(limit, |s| - skip))
    ensures forall k :: 0 <= k < |r| ==> r[k] == s[skip + k]
  {
    if skip >= |s| then [] else s[skip..Min(skip + limit, |s|)]
  }

  /** A slice of a ranked sequence is ranked. */
  lemma PageRanked<T>(s: seq<T>, key: T -> int, skip: nat, limit: nat)
    requires SortedDesc(s, key)
    ensures SortedDesc(Page(s, skip, limit), key)
  {
    var r := Page(s, skip, limit);
    forall i, j | 0 <= i < j < |r| ensures key(r[i]) >= key(r[j]) {
      assert r[i] == s[skip + i] && r[j] == s[skip + j];
    }
  }

  /** `Math.ceil(n / d)` for a positive divisor: the fewest pages of `d`
      rows that hold `n` rows. */
  function CeilDiv(n: nat, d: nat): (r: nat)
    requires d > 0
    ensures r * d >= n
    ensures r > 0 ==> (r - 1) * d < n
    ensures n == 0 <==> r == 0
  {
    var q := (n + d - 1) / d;
    assert q * d <= n + d - 1 < q * d + d;
    q
  }

  lemma MulMono(a: nat, b: nat, c: nat)
    requires a <= b
    ensures a * c <= b * c
  {
  }

  /** Ranking happens before paging: on a ranked sequence, every row of an
      earlier page ranks at least as high as every row of a later page. */
  lemma PagesRanked<T>(s: seq<T>, key: T -> int, limit: nat, p: nat, q: nat)
    requires SortedDesc(s, key)
    requires limit >= 1 && 1 <= p < q
    ensures forall i, j :: 0 <= i < |Page(s, Skip(p, limit), limit)| && 0 <= j < |Page(s, Skip(q, limit), limit)|
              ==> key(Page(s, Skip(p, limit), limit)[i]) >= key(Page(s, Skip(q, limit), limit)[j])
  {
    var a, b := Page(s, Skip(p, limit), limit), Page(s, Skip(q, limit), limit);
    MulMono(p, q - 1, limit);
    assert Skip(p, limit) + limit <= Skip(q, limit);
    forall i, j | 0 <= i < |a| && 0 <= j < |b| ensures key(a[i]) >= key(b[j]) {
      assert a[i] == s[Skip(p, limit) + i] && b[j] == s[Skip(q, limit) + j];
    }
  }

  /** Every row is on exactly the page its rank says: row `k` is at
      position `k % limit` of page `k / limit + 1`. */
  lemma RowOnPage<T>(s: seq<T>, limit: nat, k: nat)
    requires limit >= 1 && k < |s|
    ensures k % limit < |Page(s, Skip(k / limit + 1, limit), limit)|
    ensures Page(s, Skip(k / limit + 1, limit), limit)[k % limit] == s[k]
  {
    assert Skip(k / limit + 1, limit) == (k / limit) * limit;
    assert (k / limit) * limit + k % limit == k;
  }

  /** Pages past `CeilDiv(|s|, limit)` are empty, and those up to it are not. */
  lemma PageCount<T>(s: seq<T>, limit: nat, p: nat)
    requires limit >= 1 && p >= 1
    ensures Page(s, Skip(p, limit), limit) == [] <==> p > CeilDiv(|s|, limit)
  {
    var n := CeilDiv(|s|, limit);
    if p > n {
      MulMono(n, p - 1, limit);
    } else {
      MulMono(p - 1, n - 1, limit);
    }
  }

  // --------------------------------------------------------------- grouping

  /** The distinct keys of `s`, in order of first occurrence (`$group` on
      `key`). */
  function Keys<T(!new), K(==,!new)>(s: seq<T>, key: T -> K): (ks: seq<K>)
    ensures forall i, j :: 0 <= i < j < |ks| ==> ks[i] != ks[j]
    ensures forall k :: k in ks <==> exists i :: 0 <= i < |s| && key(s[i]) == k
    ensures |ks| <= |s|
  {
    if s == [] then []
    else
      var init := s[..|s| - 1];
      var ks := Keys(init, key);
      var k := key(s[|s| - 1]);
      assert forall i :: 0 <= i < |init| ==> init[i] == s[i];
      if k in ks then ks else ks + [k]
  }

  /** The elements of `s` whose key is `k`, in order. */
  function WithKey<T(!new), K(==,!new)>(s: seq<T>, key: T -> K, k: K): (r: seq<T>)
    ensures |r| <= |s|
    ensures forall x :: x in r <==> x in s && key(x) == k
  {
    if s == [] then []
    else
      var init := s[..|s| - 1];
      assert s == init + [s[|s| - 1]];
      WithKey(init, key, k) + (if key(s[|s| - 1]) == k then [s[|s| - 1]] else [])
  }

  /** A group holds every copy of a document with its key and nothing else. */
  lemma {:induction false} WithKeyCounts<T(!new), K(!new)>(s: seq<T>, key: T -> K, k: K)
    ensures forall x :: multiset(WithKey(s, key, k))[x] == if key(x) == k then multiset(s)[x] else 0
  {
    if s != [] {
      var init := s[..|s| - 1];
      assert s == init + [s[|s| - 1]];
      assert multiset(s) == multiset(init) + multiset{s[|s| - 1]};
      WithKeyCounts(init, key, k);
    }
  }

  /** `$sum: 1` within the group of `k`. */
  function CountKey<T(!new), K(==,!new)>(s: seq<T>, key: T -> K, k: K): nat
  {
    |WithKey(s, key, k)|
  }

  /** A key that does not occur has an empty group; one that occurs has a
      non-empty one. */
  lemma CountKeyPositive<T(!new), K(!new)>(s: seq<T>, key: T -> K, k: K)
    ensures CountKey(s, key, k) > 0 <==> k in Keys(s, key)
  {
    var r := WithKey(s, key, k);
    if k in Keys(s, key) {
      var i :| 0 <= i < |s| && key(s[i]) == k;
      assert s[i] in r;
    }
  }

  /** The sum of the group sizes over a list of keys. */
  function SumCounts<T(!new), K(==,!new)>(s: seq<T>, key: T -> K, ks: seq<K>): nat
  {
    if ks == [] then 0 else CountKey(s, key, ks[0]) + SumCounts(s, key, ks[1..])
  }

  function Occurrences<K(==)>(ks: seq<K>, k: K): nat
  {
    if ks == [] then 0 else (if ks[0] == k then 1 else 0) + Occurrences(ks[1..], k)
  }

  lemma {:induction false} OccursOnce<K>(ks: seq<K>, k: K)
    requires forall i, j :: 0 <= i < j < |ks| ==> ks[i] != ks[j]
    requires k in ks
    ensures Occurrences(ks, k) == 1
  {
    if ks[0] != k {
      OccursOnce(ks[1..], k);
    } else {
      OccursNever(ks[1..], k);
    }
  }

  lemma {:induction false} OccursNever<K>(ks: seq<K>, k: K)
    requires k !in ks
    ensures Occurrences(ks, k) == 0
  {
    if ks != [] {
      OccursNever(ks[1..], k);
    }
  }

  lemma {:induction false} SumCountsEmpty<T(!new), K(!new)>(key: T -> K, ks: seq<K>)
    ensures SumCounts([], key, ks) == 0
  {
    if ks != [] {
      SumCountsEmpty(key, ks[1..]);
    }
  }

  lemma {:induction false} SumCountsSnoc<T(!new), K(!new)>(s: seq<T>, x: T, key: T -> K, ks: seq<K>)
    ensures SumCounts(s + [x], key, ks) == SumCounts(s, key, ks) + Occurrences(ks, key(x))
  {
    if ks != [] {
      assert (s + [x])[..|s + [x]| - 1] == s;
      SumCountsSnoc(s, x, key, ks[1..]);
    }
  }

  /** The groups of distinct keys that cover every element partition the
      input: their sizes add up to its length. */
  lemma {:induction false} SumCountsCover<T(!new), K(!new)>(s: seq<T>, key: T -> K, ks: seq<K>)
    requires forall i, j :: 0 <= i < j < |ks| ==> ks[i] != ks[j]
    requires forall i :: 0 <= i < |s| ==> key(s[i]) in ks
    ensures SumCounts(s, key, ks) == |s|
  {
    if s == [] {
      SumCountsEmpty(key, ks);
    } else {
      var init, x := s[..|s| - 1], s[|s| - 1];
      assert s == init + [x];
      SumCountsCover(init, key, ks);
      SumCountsSnoc(init, x, key, ks);
      OccursOnce(ks, key(x));
    }
  }

  /** The counts of all groups add up to the number of grouped elements. */
  lemma SumOfGroupCounts<T(!new), K(!new)>(s: seq<T>, key: T -> K)
    ensures SumCounts(s, key, Keys(s, key)) == |s|
  {
    SumCountsCover(s, key, Keys(s, key));
  }

  // ------------------------------------------------------------ multiplicity

  /** An element at two positions occurs at least twice. */
  lemma TwoCopies<T>(s: seq<T>, i: nat, j: nat)
    requires i < j < |s| && s[i] == s[j]
    ensures multiset(s)[s[i]] >= 2
  {
    assert s == s[..j] + s[j..];
    assert s[..j][i] == s[i] && s[j..][0] == s[j];
    assert s[i] in multiset(s[..j]) && s[j] in multiset(s[j..]);
  }

  /** An element that occurs at least twice sits at two positions. */
  lemma TwoPositions<T>(s: seq<T>, x: T) returns (i: nat, j: nat)
    requires multiset(s)[x] >= 2
    ensures i < j < |s| && s[i] == x && s[j] == x
  {
    assert x in multiset(s);
    i :| 0 <= i < |s| && s[i] == x;
    assert s == s[..i] + [x] + s[i + 1..];
    assert multiset(s) == multiset(s[..i]) + multiset{x} + multiset(s[i + 1..]);
    if x in s[..i] {
      var k :| 0 <= k < i && s[..i][k] == x;
      j := i;
      i := k;
    } else {
      assert x in multiset(s[i + 1..]);
      var k :| 0 <= k < |s[i + 1..]| && s[i + 1..][k] == x;
      j := i + 1 + k;
    }
  }

  // ---------------------------------------------------------------- indexing

  /** The last element of `s` with key `k`: the entry left in an object that
      `forEach(x => obj[key(x)] = x)` fills, since later writes overwrite. */
  function LastByKey<T, K(==)>(s: seq<T>, key: T -> K, k: K): (r: Option<T>)
    ensures r.Some? ==> r.value in s && key(r.value) == k
    ensures r.Some? ==> exists i :: 0 <= i < |s| && s[i] == r.value && forall j :: i < j < |s| ==> key(s[j]) != k
    ensures r.None? <==> forall i :: 0 <= i < |s| ==> key(s[i]) != k
  {
    if s == [] then None
    else if key(s[|s| - 1]) == k then Some(s[|s| - 1])
    else
      var r := LastByKey(s[..|s| - 1], key, k);
      assert forall i :: 0 <= i < |s| - 1 ==> s[..|s| - 1][i] == s[i];
      r
  }

  /** `m` holds, for every key of `s`, the last element with that key, and
      nothing else. */
  ghost predicate IndexOf<T, K(!new)>(m: map<K, T>, s: seq<T>, key: T -> K)
  {
    && (forall k :: k in m <==> LastByKey(s, key, k).Some?)
    && (forall k :: k in m ==> LastByKey(s, key, k) == Some(m[k]))
  }

  /** The lookup object the services build from aggregation results with
      `forEach`. */
  method IndexBy<T, K(==,!new)>(s: seq<T>, key: T -> K) returns (m: map<K, T>)
    ensures IndexOf(m, s, key)
  {
    m := map[];
    var i := 0;
    while i < |s|
      invariant 0 <= i <= |s|
      invariant IndexOf(m, s[..i], key)
    {
      assert s[..i + 1][..i] == s[..i];
      m := m[key(s[i]) := s[i]];
      i := i + 1;
    }
    assert s[..i] == s;
  }
}

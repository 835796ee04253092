/** Ordering of search results. Python sorts the result list with the key
    `(name.startswith(query), query in name)` in reverse, and its sort is
    stable. Since a name that starts with the query also contains it, that
    key takes only three values, so the order is a three-level rank, and the
    stable descending sort is the concatenation of the rank-2, rank-1 and
    rank-0 rows, each group in input order. Ranking is case-sensitive. */
module Ranking {
  import opened Text
  import opened Sequences

  /** One row of a search answer. */
  datatype Row = Row(name: string, phoneNumber: string, isSpam: bool)

  /** The sort key Python computes for a row: two booleans. */
  function SortKey(name: string, query: string): (bool, bool) {
    (StartsWith(name, query), Contains(name, query))
  }

  /** Python's tuple order on the key: lexicographic, `False < True`. */
  predicate KeyBelow(a: (bool, bool), b: (bool, bool)) {
    (!a.0 && b.0) || (a.0 == b.0 && !a.1 && b.1)
  }

  /** 2 for a name that starts with the query, 1 for one that only contains
      it, 0 for any other. */
  function Rank(name: string, query: string): (k: nat)
    ensures k <= 2
    ensures k == 2 <==> StartsWith(name, query)
    ensures k >= 1 <==> Contains(name, query)
  {
    if StartsWith(name, query) then 2 else if Contains(name, query) then 1 else 0
  }

  /** The rank orders rows exactly as Python's key does: one key is below
      another if and only if its rank is lower, and keys tie if and only if
      ranks tie. */
  lemma RankAgreesWithKey(a: string, b: string, query: string)
    ensures KeyBelow(SortKey(a, query), SortKey(b, query)) <==> Rank(a, query) < Rank(b, query)
    ensures SortKey(a, query) == SortKey(b, query) <==> Rank(a, query) == Rank(b, query)
  {
  }

  /** The test "this row has rank `k`", as a value the filter can take. */
  function HasRank(query: string, k: nat): Row -> bool {
    (r: Row) => Rank(r.name, query) == k
  }

  /** The rows of rank `k`, in input order. */
  function Bucket(rows: seq<Row>, query: string, k: nat): seq<Row> {
    Filter(HasRank(query, k), rows)
  }

  /** Ranks never increase along the sequence. */
  predicate SortedByRank(rows: seq<Row>, query: string) {
    forall i, j :: 0 <= i < j < |rows| ==> Rank(rows[i].name, query) >= Rank(rows[j].name, query)
  }

  /** `output` is the stable descending sort of `input` by rank: sorted, and
      for every rank, the rows of that rank are exactly those of the input,
      with the same multiplicities and in the same relative order. */
  ghost predicate StableRankSorted(input: seq<Row>, output: seq<Row>, query: string) {
    SortedByRank(output, query) && forall k: nat :: Bucket(output, query, k) == Bucket(input, query, k)
  }

  /** The three buckets, highest rank first. */
  function Buckets(rows: seq<Row>, query: string): seq<Row> {
    Bucket(rows, query, 2) + Bucket(rows, query, 1) + Bucket(rows, query, 0)
  }

  /** In a sequence sorted by rank, a row whose name starts with the query
      comes before every row whose name does not. */
  lemma StartersComeFirst(rows: seq<Row>, query: string, i: nat, j: nat)
    requires SortedByRank(rows, query)
    requires i < |rows| && j < |rows|
    requires StartsWith(rows[i].name, query) && !StartsWith(rows[j].name, query)
    ensures i < j
  {
  }

  /** `sorted(rows, key=..., reverse=True)`: a permutation of the rows,
      sorted by rank, stable. */
  function RankSort(rows: seq<Row>, query: string): (r: seq<Row>)
    ensures |r| == |rows|
    ensures multiset(r) == multiset(rows)
    ensures StableRankSorted(rows, r, query)
  {
    BucketsPermute(rows, query);
    BucketsSorted(rows, query);
    forall k: nat
      ensures Bucket(Buckets(rows, query), query, k) == Bucket(rows, query, k)
    {
      BucketOfBuckets(rows, query, k);
    }
    assert |multiset(Buckets(rows, query))| == |Buckets(rows, query)|;
    Buckets(rows, query)
  }

  /** The buckets hold every row exactly as often as the input does. */
  lemma BucketsPermute(rows: seq<Row>, query: string)
    ensures multiset(Buckets(rows, query)) == multiset(rows)
  {
    forall x: Row
      ensures multiset(Buckets(rows, query))[x] == multiset(rows)[x]
    {
      FilterCount(HasRank(query, 2), rows, x);
      FilterCount(HasRank(query, 1), rows, x);
      FilterCount(HasRank(query, 0), rows, x);
    }
  }

  /** The buckets, concatenated highest first, are sorted by rank. */
  lemma BucketsSorted(rows: seq<Row>, query: string)
    ensures SortedByRank(Buckets(rows, query), query)
  {
    var b2, b1, b0 := Bucket(rows, query, 2), Bucket(rows, query, 1), Bucket(rows, query, 0);
    var r := Buckets(rows, query);
    forall i | 0 <= i < |r|
      ensures Rank(r[i].name, query) == if i < |b2| then 2 else if i < |b2| + |b1| then 1 else 0
    {
      if i < |b2| {
        assert r[i] == b2[i] && b2[i] in b2;
      } else if i < |b2| + |b1| {
        assert r[i] == b1[i - |b2|] && b1[i - |b2|] in b1;
      } else {
        assert r[i] == b0[i - |b2| - |b1|] && b0[i - |b2| - |b1|] in b0;
      }
    }
  }

  /** Re-bucketing the concatenated buckets by rank `k` gives back bucket `k`. */
  lemma BucketOfBuckets(rows: seq<Row>, query: string, k: nat)
    ensures Bucket(Buckets(rows, query), query, k) == Bucket(rows, query, k)
  {
    var f := HasRank(query, k);
    var b2, b1, b0 := Bucket(rows, query, 2), Bucket(rows, query, 1), Bucket(rows, query, 0);
    FilterConcat(f, b2 + b1, b0);
    FilterConcat(f, b2, b1);
    OneBucket(rows, query, 2, k);
    OneBucket(rows, query, 1, k);
    OneBucket(rows, query, 0, k);
    if k > 2 {
      FilterDropsAll(f, rows);
    }
  }

  /** Bucket `k` of bucket `j` is bucket `k` when `j == k` and empty otherwise. */
  lemma OneBucket(rows: seq<Row>, query: string, j: nat, k: nat)
    ensures Bucket(Bucket(rows, query, j), query, k) == if j == k then Bucket(rows, query, k) else []
  {
    if j == k {
      FilterKeepsAll(HasRank(query, k), Bucket(rows, query, j));
    } else {
      FilterDropsAll(HasRank(query, k), Bucket(rows, query, j));
    }
  }

  /** A sequence sorted by rank is the concatenation of its own buckets. */
  lemma {:induction false} SortedIsBuckets(rows: seq<Row>, query: string)
    requires SortedByRank(rows, query)
    ensures rows == Buckets(rows, query)
  {
    if |rows| > 0 {
      var x, t := rows[0], rows[1..];
      assert rows == [x] + t;
      SortedTail(rows, query);
      SortedIsBuckets(t, query);
      HeadBoundsTail(rows, query);
      ConsKeepsBuckets(x, t, query);
    }
  }

  /** A row ranked at least as high as every row of `t` goes first when
      `[x] + t` is bucketed. */
  lemma ConsKeepsBuckets(x: Row, t: seq<Row>, query: string)
    requires forall y :: y in t ==> Rank(y.name, query) <= Rank(x.name, query)
    ensures Buckets([x] + t, query) == [x] + Buckets(t, query)
  {
    var k := Rank(x.name, query);
    BucketsOfCons(x, t, query);
    if k < 2 {
      FilterDropsAll(HasRank(query, 2), t);
    }
    if k < 1 {
      FilterDropsAll(HasRank(query, 1), t);
    }
    ConcatCons(x, k, Bucket(t, query, 2), Bucket(t, query, 1), Bucket(t, query, 0));
  }

  /** The sequence algebra behind `ConsKeepsBuckets`. */
  lemma ConcatCons(x: Row, k: nat, b2: seq<Row>, b1: seq<Row>, b0: seq<Row>)
    requires k <= 2
    requires k < 2 ==> b2 == []
    requires k < 1 ==> b1 == []
    ensures ((if k == 2 then [x] else []) + b2) + ((if k == 1 then [x] else []) + b1)
      + ((if k == 0 then [x] else []) + b0) == [x] + (b2 + b1 + b0)
  {
  }

  /** The tail of a sorted sequence is sorted. */
  lemma SortedTail(rows: seq<Row>, query: string)
    requires |rows| > 0 && SortedByRank(rows, query)
    ensures SortedByRank(rows[1..], query)
  {
  }

  /** In a sorted sequence no row outranks the first. */
  lemma HeadBoundsTail(rows: seq<Row>, query: string)
    requires |rows| > 0 && SortedByRank(rows, query)
    ensures forall y :: y in rows[1..] ==> Rank(y.name, query) <= Rank(rows[0].name, query)
  {
  }

  /** How the buckets of `[x] + t` arise from those of `t`. */
  lemma BucketsOfCons(x: Row, t: seq<Row>, query: string)
    ensures var k := Rank(x.name, query);
      && Bucket([x] + t, query, 2) == (if k == 2 then [x] else []) + Bucket(t, query, 2)
      && Bucket([x] + t, query, 1) == (if k == 1 then [x] else []) + Bucket(t, query, 1)
      && Bucket([x] + t, query, 0) == (if k == 0 then [x] else []) + Bucket(t, query, 0)
  {
  }

  /** The stable descending sort by rank is unique: any output that is sorted
      by rank and keeps each rank's rows in input order is `RankSort`'s. */
  lemma StableRankSortUnique(input: seq<Row>, output: seq<Row>, query: string)
    requires StableRankSorted(input, output, query)
    ensures output == RankSort(input, query)
  {
    SortedIsBuckets(output, query);
    assert Bucket(output, query, 2) == Bucket(input, query, 2);
    assert Bucket(output, query, 1) == Bucket(input, query, 1);
    assert Bucket(output, query, 0) == Bucket(input, query, 0);
  }

  /** When every row has the same rank, the sort leaves the rows where they are. */
  lemma RankSortKeepsTies(rows: seq<Row>, query: string, k: nat)
    requires forall r :: r in rows ==> Rank(r.name, query) == k
    ensures RankSort(rows, query) == rows
  {
    assert SortedByRank(rows, query) by {
      forall i, j | 0 <= i < j < |rows|
        ensures Rank(rows[i].name, query) >= Rank(rows[j].name, query)
      {
        assert rows[i] in rows && rows[j] in rows;
      }
    }
    SortedIsBuckets(rows, query);
    StableRankSortUnique(rows, rows, query);
  }
}

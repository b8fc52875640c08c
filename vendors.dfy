/** `analyze_vendor_data`: group rating rows by vendor name, take the mean of
    each of the three rating columns, score each vendor by the mean of those
    three means, and list the vendors best first. Means are exact reals. */
module VendorScores {

  /** One row of the rating table. */
  datatype Rating = Rating(vendor: string, delivery: int, quality: int, compliance: int)

  /** One row of the result: a vendor's three column means and its overall
      score. */
  datatype Score = Score(vendor: string, delivery: real, quality: real, compliance: real, overall: real)

  /** The three rating columns the scorer averages. */
  datatype Column = Delivery | Quality | Compliance

  function Value(r: Rating, c: Column): int {
    match c
    case Delivery => r.delivery
    case Quality => r.quality
    case Compliance => r.compliance
  }

  /** The rows of the group whose key is `v`, in table order. */
  function RowsOf(rows: seq<Rating>, v: string): (r: seq<Rating>)
    ensures |r| <= |rows|
    ensures forall k :: 0 <= k < |r| ==> r[k].vendor == v
    ensures |r| > 0 <==> exists i :: 0 <= i < |rows| && rows[i].vendor == v
  {
    if rows == [] then []
    else
      var init, last := rows[..|rows| - 1], rows[|rows| - 1];
      assert forall i :: 0 <= i < |init| ==> init[i] == rows[i];
      RowsOf(init, v) + (if last.vendor == v then [last] else [])
  }

  /** The group of `v` holds every row of `v`, as often as the table does,
      and no other row. */
  lemma {:induction false} RowsOfCounts(rows: seq<Rating>, v: string)
    ensures forall x :: multiset(RowsOf(rows, v))[x] == if x.vendor == v then multiset(rows)[x] else 0
  {
    if rows != [] {
      var init, last := rows[..|rows| - 1], rows[|rows| - 1];
      RowsOfCounts(init, v);
      assert rows == init + [last];
      assert RowsOf(rows, v) == RowsOf(init, v) + (if last.vendor == v then [last] else []);
    }
  }

  function Sum(rows: seq<Rating>, c: Column): int {
    if rows == [] then 0 else Sum(rows[..|rows| - 1], c) + Value(rows[|rows| - 1], c)
  }

  /** The arithmetic mean of column `c` over a non-empty group. */
  function Mean(rows: seq<Rating>, c: Column): real
    requires |rows| > 0
  {
    Sum(rows, c) as real / |rows| as real
  }

  /** The group keys, each once, in order of first appearance. */
  function Vendors(rows: seq<Rating>): (r: seq<string>)
    ensures |r| <= |rows|
    ensures forall i, j :: 0 <= i < j < |r| ==> r[i] != r[j]
    ensures forall k :: 0 <= k < |r| ==> exists i :: 0 <= i < |rows| && rows[i].vendor == r[k]
    ensures forall i :: 0 <= i < |rows| ==> rows[i].vendor in r
  {
    if rows == [] then []
    else
      var init, last := rows[..|rows| - 1], rows[|rows| - 1];
      var vs := Vendors(init);
      assert forall i :: 0 <= i < |init| ==> init[i] == rows[i];
      vs + (if last.vendor in vs then [] else [last.vendor])
  }

  /** The result row for the group `v`. */
  function ScoreOf(rows: seq<Rating>, v: string): (s: Score)
    requires |RowsOf(rows, v)| > 0
    ensures s.vendor == v
  {
    var g := RowsOf(rows, v);
    var d, q, c := Mean(g, Delivery), Mean(g, Quality), Mean(g, Compliance);
    Score(v, d, q, c, (d + q + c) / 3.0)
  }

  /** What `groupby(...).agg(...)` and the overall-score column give, one row per
      group, before sorting. */
  function Aggregate(rows: seq<Rating>): (r: seq<Score>)
    ensures |r| == |Vendors(rows)|
  {
    var vs := Vendors(rows);
    seq(|vs|, k requires 0 <= k < |vs| => ScoreOf(rows, vs[k]))
  }

  /** `a` may stand before `b` in the result. */
  predicate Ahead(a: Score, b: Score) {
    a.overall >= b.overall
  }

  predicate Descending(scores: seq<Score>) {
    forall i, j :: 0 <= i < j < |scores| ==> Ahead(scores[i], scores[j])
  }

  /** Put `s` in front of the first row whose overall score is not above its own. */
  function Insert(s: Score, scores: seq<Score>): (r: seq<Score>)
    ensures |r| == |scores| + 1
  {
    if scores == [] || Ahead(s, scores[0]) then [s] + scores
    else [scores[0]] + Insert(s, scores[1..])
  }

  /** Inserting adds exactly `s`. */
  lemma {:induction false} InsertPermutes(s: Score, scores: seq<Score>)
    ensures multiset(Insert(s, scores)) == multiset(scores) + multiset{s}
  {
    if scores != [] && !Ahead(s, scores[0]) {
      InsertPermutes(s, scores[1..]);
      assert scores == [scores[0]] + scores[1..];
    }
  }

  /** Inserting into a descending list keeps it descending. */
  lemma {:induction false} InsertDescending(s: Score, scores: seq<Score>)
    requires Descending(scores)
    ensures Descending(Insert(s, scores))
  {
    if scores == [] || Ahead(s, scores[0]) {
      ConsDescending(s, scores);
    } else {
      var head, tail := scores[0], scores[1..];
      var rest := Insert(s, tail);
      assert scores == [head] + tail;
      InsertDescending(s, tail);
      InsertPermutes(s, tail);
      AheadOfAll(head, s, tail, rest);
      ConsDescending(head, rest);
    }
  }

  /** A row ahead of `s` and of a sorted tail is ahead of any arrangement of
      the two. */
  lemma AheadOfAll(head: Score, s: Score, tail: seq<Score>, rest: seq<Score>)
    requires Descending([head] + tail) && !Ahead(s, head)
    requires multiset(rest) == multiset(tail) + multiset{s}
    ensures forall k :: 0 <= k < |rest| ==> Ahead(head, rest[k])
  {
    forall k | 0 <= k < |rest| ensures Ahead(head, rest[k]) {
      assert rest[k] in multiset(tail) + multiset{s};
      if rest[k] != s {
        var m :| 0 <= m < |tail| && tail[m] == rest[k];
        assert ([head] + tail)[0] == head && ([head] + tail)[m + 1] == rest[k];
      }
    }
  }

  lemma ConsDescending(head: Score, rest: seq<Score>)
    requires Descending(rest) && forall k :: 0 <= k < |rest| ==> Ahead(head, rest[k])
    ensures Descending([head] + rest)
  {
    var r := [head] + rest;
    assert forall j :: 0 < j < |r| ==> r[j] == rest[j - 1];
  }

  /** `sort_values('Overall_score', ascending=False)`. */
  function SortDescending(scores: seq<Score>): (r: seq<Score>)
    ensures |r| == |scores|
    ensures Descending(r)
    ensures multiset(r) == multiset(scores)
  {
    if scores == [] then []
    else
      var tail := SortDescending(scores[1..]);
      InsertPermutes(scores[0], tail);
      InsertDescending(scores[0], tail);
      assert scores == [scores[0]] + scores[1..];
      Insert(scores[0], tail)
  }

  /** `analyze_vendor_data`. */
  function AnalyzeVendorData(rows: seq<Rating>): (r: seq<Score>)
    ensures Descending(r)
    ensures multiset(r) == multiset(Aggregate(rows))
    ensures |r| <= |rows| && (rows == [] ==> r == [])
  {
    SortDescending(Aggregate(rows))
  }

  /** `s` is the row for its vendor's group: the column means and their mean. */
  predicate GroupScore(rows: seq<Rating>, s: Score) {
    var g := RowsOf(rows, s.vendor);
    && |g| > 0
    && s.delivery == Mean(g, Delivery) && s.quality == Mean(g, Quality)
    && s.compliance == Mean(g, Compliance)
    && s.overall == (s.delivery + s.quality + s.compliance) / 3.0
  }

  lemma ScoreOfGroup(rows: seq<Rating>, v: string)
    requires |RowsOf(rows, v)| > 0
    ensures GroupScore(rows, ScoreOf(rows, v))
  {
  }

  /** Each result row is its vendor's group score. */
  lemma ResultRows(rows: seq<Rating>)
    ensures forall k :: 0 <= k < |AnalyzeVendorData(rows)| ==> GroupScore(rows, AnalyzeVendorData(rows)[k])
  {
    var r := AnalyzeVendorData(rows);
    forall k | 0 <= k < |r| ensures GroupScore(rows, r[k]) {
      RowIsScoreOf(rows, r[k]);
      ScoreOfGroup(rows, r[k].vendor);
    }
  }

  /** A result row is `ScoreOf` its vendor. */
  lemma RowIsScoreOf(rows: seq<Rating>, s: Score)
    requires s in multiset(AnalyzeVendorData(rows))
    ensures |RowsOf(rows, s.vendor)| > 0 && s == ScoreOf(rows, s.vendor)
  {
    AggregateMember(rows, s);
  }

  lemma AggregateMember(rows: seq<Rating>, s: Score)
    requires s in multiset(Aggregate(rows))
    ensures |RowsOf(rows, s.vendor)| > 0 && s == ScoreOf(rows, s.vendor)
  {
    var a, vs := Aggregate(rows), Vendors(rows);
    var j :| 0 <= j < |a| && a[j] == s;
    assert a[j] == ScoreOf(rows, vs[j]);
  }

  predicate DistinctVendors(scores: seq<Score>) {
    forall i, j :: 0 <= i < j < |scores| ==> scores[i].vendor != scores[j].vendor
  }

  predicate Avoids(scores: seq<Score>, v: string) {
    forall k :: 0 <= k < |scores| ==> scores[k].vendor != v
  }

  lemma AvoidsPermutation(x: seq<Score>, y: seq<Score>, v: string)
    requires multiset(x) == multiset(y) && Avoids(y, v)
    ensures Avoids(x, v)
  {
    forall k | 0 <= k < |x| ensures x[k].vendor != v {
      assert x[k] in multiset(y);
    }
  }

  lemma {:induction false} InsertDistinct(s: Score, scores: seq<Score>)
    requires DistinctVendors(scores) && Avoids(scores, s.vendor)
    ensures DistinctVendors(Insert(s, scores))
  {
    if scores != [] && !Ahead(s, scores[0]) {
      var rest := Insert(s, scores[1..]);
      InsertDistinct(s, scores[1..]);
      InsertPermutes(s, scores[1..]);
      forall k | 0 <= k < |rest| ensures rest[k].vendor != scores[0].vendor {
        assert rest[k] in multiset(scores[1..]) + multiset{s};
        if rest[k] != s {
          var m :| 0 <= m < |scores[1..]| && scores[1..][m] == rest[k];
          assert scores[m + 1] == rest[k];
        }
      }
      assert Insert(s, scores) == [scores[0]] + rest;
    }
  }

  lemma {:induction false} SortDistinct(scores: seq<Score>)
    requires DistinctVendors(scores)
    ensures DistinctVendors(SortDescending(scores))
  {
    if scores != [] {
      var tail := scores[1..];
      SortDistinct(tail);
      assert Avoids(tail, scores[0].vendor);
      AvoidsPermutation(SortDescending(tail), tail, scores[0].vendor);
      InsertDistinct(scores[0], SortDescending(tail));
    }
  }

  /** No vendor appears twice in the result. */
  lemma OneRowPerVendor(rows: seq<Rating>)
    ensures DistinctVendors(AnalyzeVendorData(rows))
  {
    var a, vs := Aggregate(rows), Vendors(rows);
    assert forall j :: 0 <= j < |a| ==> a[j].vendor == vs[j];
    SortDistinct(a);
  }

  /** Every vendor named in the table has a result row. */
  lemma EveryVendorScored(rows: seq<Rating>)
    ensures forall i :: 0 <= i < |rows| ==>
      exists k :: 0 <= k < |AnalyzeVendorData(rows)| && AnalyzeVendorData(rows)[k].vendor == rows[i].vendor
  {
    var r, a, vs := AnalyzeVendorData(rows), Aggregate(rows), Vendors(rows);
    forall i | 0 <= i < |rows| ensures exists k :: 0 <= k < |r| && r[k].vendor == rows[i].vendor {
      var j :| 0 <= j < |vs| && vs[j] == rows[i].vendor;
      assert a[j].vendor == vs[j];
      assert a[j] in multiset(r);
    }
  }

  /** Every result row belongs to a vendor named in the table. */
  lemma OnlyVendorsScored(rows: seq<Rating>)
    ensures forall k :: 0 <= k < |AnalyzeVendorData(rows)| ==>
      exists i :: 0 <= i < |rows| && rows[i].vendor == AnalyzeVendorData(rows)[k].vendor
  {
    var r := AnalyzeVendorData(rows);
    forall k | 0 <= k < |r| ensures exists i :: 0 <= i < |rows| && rows[i].vendor == r[k].vendor {
      assert r[k] in multiset(r);
      RowIsScoreOf(rows, r[k]);
    }
  }

  /** Every rating in a table lies in `[lo, hi]`, as `randint(1, 11)` gives. */
  predicate InRange(rows: seq<Rating>, lo: int, hi: int) {
    forall i :: 0 <= i < |rows| ==>
      && lo <= rows[i].delivery <= hi && lo <= rows[i].quality <= hi && lo <= rows[i].compliance <= hi
  }

  /** `x` added up `n` times. */
  function Scale(n: nat, x: int): int {
    if n == 0 then 0 else Scale(n - 1, x) + x
  }

  lemma {:induction false} ScaleIsMul(n: nat, x: int)
    ensures Scale(n, x) == n * x
  {
    if n > 0 {
      ScaleIsMul(n - 1, x);
      assert n * x == (n - 1) * x + x;
    }
  }

  /** A column of ratings in `[lo, hi]` adds up to between `|rows|` times
      `lo` and `|rows|` times `hi`. */
  lemma {:induction false} SumBounds(rows: seq<Rating>, c: Column, lo: int, hi: int)
    requires InRange(rows, lo, hi)
    ensures Scale(|rows|, lo) <= Sum(rows, c) <= Scale(|rows|, hi)
  {
    if rows != [] {
      var init := rows[..|rows| - 1];
      InRangeInit(rows, lo, hi);
      SumBounds(init, c, lo, hi);
      assert lo <= Value(rows[|rows| - 1], c) <= hi;
    }
  }

  lemma InRangeInit(rows: seq<Rating>, lo: int, hi: int)
    requires rows != [] && InRange(rows, lo, hi)
    ensures InRange(rows[..|rows| - 1], lo, hi)
  {
    var init := rows[..|rows| - 1];
    assert forall i :: 0 <= i < |init| ==> init[i] == rows[i];
  }

  lemma DivMono(a: real, b: real, n: real)
    requires n > 0.0 && a <= b
    ensures a / n <= b / n
  {
  }

  lemma MulDiv(x: real, n: real)
    requires n > 0.0
    ensures (n * x) / n == x
  {
  }

  lemma MulAsReal(a: int, b: int)
    ensures (a * b) as real == a as real * b as real
  {
  }

  lemma RatioBounds(total: real, n: real, lo: real, hi: real)
    requires n > 0.0 && n * lo <= total <= n * hi
    ensures lo <= total / n <= hi
  {
    DivMono(n * lo, total, n);
    DivMono(total, n * hi, n);
    MulDiv(lo, n);
    MulDiv(hi, n);
  }

  lemma CastBounds(n: int, total: int, lo: int, hi: int)
    requires n * lo <= total <= n * hi
    ensures n as real * lo as real <= total as real <= n as real * hi as real
  {
    var a, b := n * lo, n * hi;
    MulAsReal(n, lo);
    MulAsReal(n, hi);
    assert a as real <= total as real <= b as real;
  }

  /** A total of `n > 0` values in `[lo, hi]`, divided by `n`, is in `[lo, hi]`. */
  lemma AverageBounds(total: int, n: nat, lo: int, hi: int)
    requires n > 0 && Scale(n, lo) <= total <= Scale(n, hi)
    ensures lo as real <= total as real / n as real <= hi as real
  {
    ScaleIsMul(n, lo);
    ScaleIsMul(n, hi);
    ProductBounds(total, n, lo, hi);
  }

  lemma ProductBounds(total: int, n: nat, lo: int, hi: int)
    requires n > 0 && n * lo <= total <= n * hi
    ensures lo as real <= total as real / n as real <= hi as real
  {
    CastBounds(n, total, lo, hi);
    RatioBounds(total as real, n as real, lo as real, hi as real);
  }

  /** A mean lies between the smallest and the largest possible rating. */
  lemma MeanBounds(rows: seq<Rating>, c: Column, lo: int, hi: int)
    requires |rows| > 0 && InRange(rows, lo, hi)
    ensures lo as real <= Mean(rows, c) <= hi as real
  {
    SumBounds(rows, c, lo, hi);
    AverageBounds(Sum(rows, c), |rows|, lo, hi);
  }

  lemma GroupInRange(rows: seq<Rating>, v: string, lo: int, hi: int)
    requires InRange(rows, lo, hi)
    ensures InRange(RowsOf(rows, v), lo, hi)
  {
    if rows != [] {
      InRangeInit(rows, lo, hi);
      GroupInRange(rows[..|rows| - 1], v, lo, hi);
    }
  }

  /** With every rating in `[lo, hi]`, every mean and every overall score is in
      `[lo, hi]` too. */
  lemma ScoresInRange(rows: seq<Rating>, lo: int, hi: int)
    requires InRange(rows, lo, hi)
    ensures forall k :: 0 <= k < |AnalyzeVendorData(rows)| ==>
      var s := AnalyzeVendorData(rows)[k];
      && lo as real <= s.delivery <= hi as real && lo as real <= s.quality <= hi as real
      && lo as real <= s.compliance <= hi as real && lo as real <= s.overall <= hi as real
  {
    var r := AnalyzeVendorData(rows);
    ResultRows(rows);
    assert forall k :: 0 <= k < |r| ==> GroupScore(rows, r[k]);
    forall k | 0 <= k < |r|
      ensures lo as real <= r[k].delivery <= hi as real && lo as real <= r[k].quality <= hi as real
      ensures lo as real <= r[k].compliance <= hi as real && lo as real <= r[k].overall <= hi as real
    {
      var g := RowsOf(rows, r[k].vendor);
      GroupInRange(rows, r[k].vendor, lo, hi);
      MeanBounds(g, Delivery, lo, hi);
      MeanBounds(g, Quality, lo, hi);
      MeanBounds(g, Compliance, lo, hi);
    }
  }
}

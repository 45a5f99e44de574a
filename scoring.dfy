/** `compare` and `return_f1`: precision, recall and F1 of a discovered edge
    list against the ground truth, in exact rational arithmetic. */
module Scoring {
  import opened Base

  datatype Scores = Scores(precision: real, recall: real)

  /** `set(s)` of a Python list. */
  function Elements(s: seq<string>): set<string> {
    set x | x in s
  }

  predicate Distinct(s: seq<string>) {
    forall p, q :: 0 <= p < q < |s| ==> s[p] != s[q]
  }

  /** `set(gt) & set(out)`: the correctly discovered edges. */
  function Correct(gt: seq<string>, out: seq<string>): set<string> {
    Elements(gt) * Elements(out)
  }

  /** A list has at most as many distinct elements as entries, and exactly
      as many when no entry repeats. */
  lemma {:induction false} ElementsSize(s: seq<string>)
    ensures |Elements(s)| <= |s|
    ensures Distinct(s) ==> |Elements(s)| == |s|
  {
    if s != [] {
      var front := s[..|s| - 1];
      var x := s[|s| - 1];
      ElementsSize(front);
      assert Elements(s) == Elements(front) + {x};
      if Distinct(s) {
        assert Distinct(front);
        assert x !in Elements(front);
      }
    }
  }

  lemma SubsetSize(a: set<string>, b: set<string>)
    requires a <= b
    ensures |a| <= |b|
    ensures |a| == |b| ==> a == b
  {
    assert a * b == a;
    assert |b - a| == |b| - |a|;
    if |a| == |b| {
      assert b - a == {};
    }
  }

  /** A count over a positive total is a ratio in [0, 1], and it is 1
      exactly when the count is the total. */
  function Fraction(count: nat, total: nat): (q: real)
    requires count <= total && total > 0
    ensures 0.0 <= q <= 1.0
    ensures q * total as real == count as real
    ensures q == 1.0 <==> count == total
  {
    count as real / total as real
  }

  /** There are no more correct edges than entries in either list. */
  lemma CorrectSize(gt: seq<string>, out: seq<string>)
    ensures |Correct(gt, out)| <= |gt| && |Correct(gt, out)| <= |out|
  {
    ElementsSize(gt);
    ElementsSize(out);
    SubsetSize(Correct(gt, out), Elements(gt));
    SubsetSize(Correct(gt, out), Elements(out));
  }

  /** `compare(gt, out)`: precision is 0 for an empty `out`; recall divides
      by `len(gt)`, so an empty ground truth raises ZeroDivisionError. Both
      divide by list lengths, repeated entries included. */
  function Compare(gt: seq<string>, out: seq<string>): (r: Result<Scores>)
    ensures r.Failure? <==> |gt| == 0
    ensures r.Failure? ==> r.error == DivisionByZero
    ensures r.Success? ==> 0.0 <= r.value.precision <= 1.0 && 0.0 <= r.value.recall <= 1.0
    ensures r.Success? && |out| == 0 ==> r.value.precision == 0.0
    ensures r.Success? && |out| > 0 ==> r.value.precision * |out| as real == |Correct(gt, out)| as real
    ensures r.Success? ==> r.value.recall * |gt| as real == |Correct(gt, out)| as real
  {
    var correct := |Correct(gt, out)|;
    CorrectSize(gt, out);
    var precision := if |out| == 0 then 0.0 else Fraction(correct, |out|);
    if |gt| == 0 then Failure(DivisionByZero)
    else Success(Scores(precision, Fraction(correct, |gt|)))
  }

  /** Recall is 1 exactly when every ground-truth edge was discovered
      (ground-truth labels are distinct). */
  lemma PerfectRecall(gt: seq<string>, out: seq<string>)
    requires |gt| > 0 && Distinct(gt)
    ensures Compare(gt, out).value.recall == 1.0 <==> forall x :: x in gt ==> x in out
  {
    var correct := Correct(gt, out);
    ElementsSize(gt);
    SubsetSize(correct, Elements(gt));
    CorrectSize(gt, out);
    assert Compare(gt, out).value.recall == Fraction(|correct|, |gt|);
    if forall x :: x in gt ==> x in out {
      assert correct == Elements(gt);
    }
    if |correct| == |gt| {
      assert correct == Elements(gt);
      forall x | x in gt ensures x in out {
        assert x in Elements(gt);
      }
    }
  }

  /** Precision is 1 exactly when every discovered edge is a ground-truth
      edge (for a discovered list without repeats). */
  lemma PerfectPrecision(gt: seq<string>, out: seq<string>)
    requires |gt| > 0 && |out| > 0 && Distinct(out)
    ensures Compare(gt, out).value.precision == 1.0 <==> forall x :: x in out ==> x in gt
  {
    var correct := Correct(gt, out);
    ElementsSize(out);
    SubsetSize(correct, Elements(out));
    CorrectSize(gt, out);
    assert Compare(gt, out).value.precision == Fraction(|correct|, |out|);
    if forall x :: x in out ==> x in gt {
      assert correct == Elements(out);
    }
    if |correct| == |out| {
      assert correct == Elements(out);
      forall x | x in out ensures x in gt {
        assert x in Elements(out);
      }
    }
  }

  /** Comparing `["0->1", "1->2"]` with `["0->1", "2->3"]` gives 0.5 and 0.5. */
  lemma CompareExample()
    ensures Compare(["0->1", "1->2"], ["0->1", "2->3"]) == Success(Scores(0.5, 0.5))
  {
    var gt, out := ["0->1", "1->2"], ["0->1", "2->3"];
    assert "1->2" != "2->3" && "1->2" != "0->1";
    assert Elements(gt) == {"0->1", "1->2"};
    assert Elements(out) == {"0->1", "2->3"};
    assert Correct(gt, out) == {"0->1"};
  }

  /** `return_f1(precision, recall)`: 0 when either is 0, otherwise
      2pr / (p + r), which Python cannot divide when p + r is 0. */
  function F1(p: real, r: real): (f: Result<real>)
    ensures f.Failure? <==> p != 0.0 && r != 0.0 && p + r == 0.0
    ensures f.Failure? ==> f.error == DivisionByZero
    ensures p == 0.0 || r == 0.0 ==> f == Success(0.0)
  {
    if p != 0.0 && r != 0.0 then
      if p + r == 0.0 then Failure(DivisionByZero) else Success((2.0 * p * r) / (p + r))
    else Success(0.0)
  }

  /** F1 does not care which argument is precision and which is recall. */
  lemma F1Symmetric(p: real, r: real)
    ensures F1(p, r) == F1(r, p)
  {
    if p != 0.0 && r != 0.0 && p + r != 0.0 {
      assert 2.0 * p * r == 2.0 * r * p;
    }
  }

  /** For positive scores F1 is their harmonic mean: 2 / F1 = 1/p + 1/r. */
  lemma F1IsHarmonicMean(p: real, r: real)
    requires p > 0.0 && r > 0.0
    ensures F1(p, r).Success? && F1(p, r).value > 0.0
    ensures 2.0 / F1(p, r).value == 1.0 / p + 1.0 / r
  {
    var f := (2.0 * p * r) / (p + r);
    assert f * (p + r) == 2.0 * p * r;
    assert 1.0 / p + 1.0 / r == (p + r) / (p * r);
  }

  /** With 0 < lo <= hi, 2 lo hi / (lo + hi) lies between lo and hi. */
  lemma HarmonicBetween(lo: real, hi: real)
    requires 0.0 < lo <= hi
    ensures lo <= (2.0 * lo * hi) / (lo + hi) <= hi
  {
    var s := lo + hi;
    var f := (2.0 * lo * hi) / s;
    var ll, lh, hh := lo * lo, lo * hi, hi * hi;
    assert f * s == 2.0 * lh;
    assert lo * lo <= hi * lo;
    assert hi * lo == lh;
    assert ll <= lh;
    assert lh <= hh;
    assert lo * s == ll + lh;
    assert hi * s == lh + hh;
    assert lo * s <= f * s && f * s <= hi * s;
  }

  /** On scores in [0, 1], F1 is defined, lies between the smaller and the
      larger score, and hence in [0, 1]. */
  lemma F1Bounds(p: real, r: real)
    requires 0.0 <= p <= 1.0 && 0.0 <= r <= 1.0
    ensures F1(p, r).Success?
    ensures p != 0.0 && r != 0.0 ==> (if p <= r then p else r) <= F1(p, r).value <= (if p <= r then r else p)
    ensures 0.0 <= F1(p, r).value <= 1.0
  {
    if p != 0.0 && r != 0.0 {
      if p <= r {
        HarmonicBetween(p, r);
      } else {
        HarmonicBetween(r, p);
        assert 2.0 * r * p == 2.0 * p * r;
        assert r + p == p + r;
      }
    }
  }

  /** Equal scores have that score as F1; in particular F1(0.5, 0.5) = 0.5
      and F1(0, 0.7) = 0. */
  lemma F1OfEqualScores(p: real)
    requires p != 0.0
    ensures F1(p, p) == Success(p)
    ensures F1(0.5, 0.5) == Success(0.5) && F1(0.0, 0.7) == Success(0.0)
  {
    assert (2.0 * p * p) / (p + p) == p;
  }
}

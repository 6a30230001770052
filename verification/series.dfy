/**
 * Metric mappings (pandas Series indexed by metric name) and the two
 * arithmetic operations the validator applies to them: the fill-value add
 * that accumulates quarters, and the aligned subtraction followed by
 * `fillna(0)` that reconciles a bank's quarterly total with its annual
 * figures.
 */
module Series {
  import opened Frames

  /** Metric name to value. */
  type Metrics = map<string, real>

  /**
   * Annual figures as the annual extractor leaves them: a figure summed over
   * a row that has a blank cell is NaN, written `None`.
   */
  type Readings = map<string, Option<real>>

  /** A value read with `fill_value=0`: a missing metric counts as 0. */
  function Get(m: Metrics, k: string): real
  {
    if k in m then m[k] else 0.0
  }

  function Abs(x: real): real { if x < 0.0 then -x else x }

  /** The absolute difference above which a metric is an issue. */
  const Threshold: real := 1.0

  /** `a.add(b, fill_value=0)`: union of the keys, a missing side counts as 0. */
  function AddFill(a: Metrics, b: Metrics): Metrics
  {
    map k | k in a.Keys + b.Keys :: Get(a, k) + Get(b, k)
  }

  /** Figures with no NaN among them, as readings. */
  function Lift(m: Metrics): Readings
  {
    map k | k in m :: Some(m[k])
  }

  /** The annual side reports metric k and it is not NaN. */
  predicate Known(cd: Readings, k: string)
  {
    k in cd && cd[k].Some?
  }

  /**
   * `(b - cd).fillna(0)`: pandas aligns the two series on the union of
   * their keys; a metric present on one side only, or NaN on the annual
   * side, subtracts to NaN, and `fillna(0)` then turns that NaN into 0.
   */
  function Diff(b: Metrics, cd: Readings): Metrics
  {
    map k | k in b.Keys + cd.Keys :: if k in b && Known(cd, k) then b[k] - cd[k].value else 0.0
  }

  /** `(diff.abs() > 1).any()` over the difference above. */
  predicate HasIssues(b: Metrics, cd: Readings)
  {
    var d := Diff(b, cd);
    exists k :: k in d && Abs(d[k]) > Threshold
  }

  /** An annual figure with an absent or NaN figure read as 0. */
  function Figure(cd: Readings, k: string): real
  {
    if Known(cd, k) then cd[k].value else 0.0
  }

  /**
   * The difference if a metric absent from one side, or NaN on the annual
   * side, counted as 0 there. The code does not compute this; it is kept to
   * state where the two part.
   */
  function DiffZeroFilled(b: Metrics, cd: Readings): Metrics
  {
    map k | k in b.Keys + cd.Keys :: Get(b, k) - Figure(cd, k)
  }

  predicate HasIssuesZeroFilled(b: Metrics, cd: Readings)
  {
    var d := DiffZeroFilled(b, cd);
    exists k :: k in d && Abs(d[k]) > Threshold
  }

  // ---------------------------------------------------------------------
  // Accumulation

  /** The fill-value add keeps every metric of both sides and adds them, a missing one as 0. */
  lemma AddFillMeaning(a: Metrics, b: Metrics, k: string)
    ensures k in AddFill(a, b) <==> k in a || k in b
    ensures k in a && k in b ==> AddFill(a, b)[k] == a[k] + b[k]
    ensures k in a && k !in b ==> AddFill(a, b)[k] == a[k]
    ensures k !in a && k in b ==> AddFill(a, b)[k] == b[k]
  {
  }

  /** Quarter order does not matter: the add is commutative. */
  lemma AddFillCommutes(a: Metrics, b: Metrics)
    ensures AddFill(a, b) == AddFill(b, a)
  {
    assert AddFill(a, b).Keys == AddFill(b, a).Keys;
  }

  /** Accumulating three quarters does not depend on how they are grouped. */
  lemma AddFillAssociates(a: Metrics, b: Metrics, c: Metrics)
    ensures AddFill(AddFill(a, b), c) == AddFill(a, AddFill(b, c))
  {
    var l := AddFill(AddFill(a, b), c);
    var r := AddFill(a, AddFill(b, c));
    assert l.Keys == r.Keys;
    forall k | k in l ensures l[k] == r[k] {
      assert Get(AddFill(a, b), k) == Get(a, k) + Get(b, k);
      assert Get(AddFill(b, c), k) == Get(b, k) + Get(c, k);
    }
  }

  /** The empty series a bank starts from adds nothing. */
  lemma AddFillEmpty(a: Metrics)
    ensures AddFill(map[], a) == a
  {
    assert AddFill(map[], a).Keys == a.Keys;
  }

  // ---------------------------------------------------------------------
  // Reconciliation

  /**
   * The difference covers both sides' metrics and is b - cd where both
   * report a number, 0 where one side lacks the metric or the annual one is NaN.
   */
  lemma DiffMeaning(b: Metrics, cd: Readings, k: string)
    ensures k in Diff(b, cd) <==> k in b || k in cd
    ensures k in b && Known(cd, k) ==> Diff(b, cd)[k] == b[k] - cd[k].value
    ensures k in b && k in cd && cd[k].None? ==> Diff(b, cd)[k] == 0.0
    ensures k in b && k !in cd ==> Diff(b, cd)[k] == 0.0
    ensures k !in b && k in cd ==> Diff(b, cd)[k] == 0.0
  {
  }

  /**
   * A bank has issues exactly when some metric that both sides report as a
   * number differs by more than 1 (strictly); metrics on one side only, and
   * NaN annual figures, never count.
   */
  lemma HasIssuesIff(b: Metrics, cd: Readings)
    ensures HasIssues(b, cd) <==> exists k :: k in b && Known(cd, k) && Abs(b[k] - cd[k].value) > Threshold
  {
    var d := Diff(b, cd);
    if HasIssues(b, cd) {
      var k :| k in d && Abs(d[k]) > Threshold;
      assert k in b && Known(cd, k);
    }
    if exists k :: k in b && Known(cd, k) && Abs(b[k] - cd[k].value) > Threshold {
      var k :| k in b && Known(cd, k) && Abs(b[k] - cd[k].value) > Threshold;
      assert k in d && Abs(d[k]) > Threshold;
    }
  }

  /** Between two NaN-free mappings, the verdict does not depend on which side is subtracted from which. */
  lemma HasIssuesSymmetric(b: Metrics, c: Metrics)
    ensures HasIssues(b, Lift(c)) == HasIssues(c, Lift(b))
  {
    HasIssuesIff(b, Lift(c));
    HasIssuesIff(c, Lift(b));
    if HasIssues(b, Lift(c)) {
      var k :| k in b && Known(Lift(c), k) && Abs(b[k] - Lift(c)[k].value) > Threshold;
      assert Known(Lift(b), k) && Abs(c[k] - Lift(b)[k].value) > Threshold;
    }
    if HasIssues(c, Lift(b)) {
      var k :| k in c && Known(Lift(b), k) && Abs(c[k] - Lift(b)[k].value) > Threshold;
      assert Known(Lift(c), k) && Abs(b[k] - Lift(c)[k].value) > Threshold;
    }
  }

  /** Two mappings with no metric in common are never flagged. */
  lemma DisjointNeverFlagged(b: Metrics, cd: Readings)
    requires b.Keys !! cd.Keys
    ensures !HasIssues(b, cd)
  {
    HasIssuesIff(b, cd);
  }

  /**
   * A NaN annual figure subtracts to 0 and has no say in the verdict: the
   * bank is flagged exactly as if the metric were not reported at all.
   */
  lemma NaNNeverFlagged(b: Metrics, cd: Readings, k: string)
    requires k in cd && cd[k].None?
    ensures Diff(b, cd)[k] == 0.0
    ensures HasIssues(b, cd) <==> HasIssues(b, cd - {k})
  {
    HasIssuesIff(b, cd);
    HasIssuesIff(b, cd - {k});
    if HasIssues(b, cd) {
      var j :| j in b && Known(cd, j) && Abs(b[j] - cd[j].value) > Threshold;
      assert Known(cd - {k}, j);
    }
    if HasIssues(b, cd - {k}) {
      var j :| j in b && Known(cd - {k}, j) && Abs(b[j] - (cd - {k})[j].value) > Threshold;
      assert Known(cd, j);
    }
  }

  /** A quarterly 40 against an annual 0 is an issue; against an annual NaN it is not. */
  lemma NaNHidesDiscrepancy()
    ensures HasIssues(map["m" := 40.0], map["m" := Some(0.0)])
    ensures !HasIssues(map["m" := 40.0], map["m" := None])
  {
    var d := Diff(map["m" := 40.0], map["m" := Some(0.0)]);
    assert "m" in d && Abs(d["m"]) > Threshold;
    var blank: Readings := map["m" := None];
    NaNNeverFlagged(map["m" := 40.0], blank, "m");
    assert blank - {"m"} == map[];
    DisjointNeverFlagged(map["m" := 40.0], map[]);
  }

  /** On a metric both sides report as a number, the code's difference is the zero-filled one. */
  lemma DiffAgreesWhereShared(b: Metrics, cd: Readings, k: string)
    requires k in b && Known(cd, k)
    ensures Diff(b, cd)[k] == DiffZeroFilled(b, cd)[k] == b[k] - cd[k].value
  {
  }

  /**
   * On a metric one side lacks, the code's difference is 0 while the
   * zero-filled one is the other side's value (or its negation).
   */
  lemma DiffPartsWhereOneSided(b: Metrics, cd: Readings, k: string)
    requires (k in b) != (k in cd)
    ensures Diff(b, cd)[k] == 0.0
    ensures DiffZeroFilled(b, cd)[k] == if k in b then b[k] else -Figure(cd, k)
  {
  }

  /** Every issue the code reports, the zero-filled difference reports too. */
  lemma IssuesAreZeroFilledIssues(b: Metrics, cd: Readings)
    ensures HasIssues(b, cd) ==> HasIssuesZeroFilled(b, cd)
  {
    if HasIssues(b, cd) {
      HasIssuesIff(b, cd);
      var k :| k in b && Known(cd, k) && Abs(b[k] - cd[k].value) > Threshold;
      var z := DiffZeroFilled(b, cd);
      assert k in z && Abs(z[k]) > Threshold;
    }
  }

  /**
   * The converse fails: a metric of 40 that the annual side does not report
   * is an issue if an absent figure counted as 0, and not for the code.
   */
  lemma MissingMetricNotFlagged()
    ensures !HasIssues(map["m" := 40.0], map["n" := Some(5.0)])
    ensures HasIssuesZeroFilled(map["m" := 40.0], map["n" := Some(5.0)])
    ensures Diff(map["m" := 40.0], map["n" := Some(5.0)])["m"] == 0.0
    ensures DiffZeroFilled(map["m" := 40.0], map["n" := Some(5.0)])["m"] == 40.0
  {
    var b, cd := map["m" := 40.0], map["n" := Some(5.0)];
    assert "m" != "n" by { assert "m"[0] != "n"[0]; }
    DisjointNeverFlagged(b, cd);
    var z := DiffZeroFilled(b, cd);
    assert "m" in z && Abs(z["m"]) > Threshold;
  }
}

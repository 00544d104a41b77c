/**
 * What the classifier promises across calls: the ladders are monotone and
 * inclusive at their bounds, the boundary tables the charts draw classify as
 * their own labels, the name tests of `classify_metric`, `classify_value`,
 * `metric_boundaries` and `recognized_metric_id` agree, and the overall
 * category ignores the order of its input.
 */
module ClassifierFacts {
  import opened Wrappers
  import opened Text
  import opened Classifiers

  // ---------------------------------------------------------------- ladders

  /** `u` is strictly better than `v` on a ladder of the given direction. */
  predicate Ahead(u: real, v: real, rising: bool) {
    if rising then u < v else u > v
  }

  /** The bounds get strictly worse along the ladder. */
  predicate StrictlyOrdered(b: seq<(string, real)>, rising: bool) {
    forall i, j :: 0 <= i < j < |b| ==> Ahead(b[i].1, b[j].1, rising)
  }

  /** The shape of all five tables: labels I类 … V类 in order, bounds strictly worse along the ladder. */
  predicate WellFormedLadder(b: seq<(string, real)>, rising: bool) {
    && |b| == 5
    && (forall i :: 0 <= i < 5 ==> b[i].0 == CategoryOfOrder(i + 1))
    && StrictlyOrdered(b, rising)
  }

  lemma {:induction false} TailOrdered(b: seq<(string, real)>, rising: bool)
    requires b != [] && StrictlyOrdered(b, rising)
    ensures StrictlyOrdered(b[1..], rising)
  {
    var t := b[1..];
    forall i, j | 0 <= i < j < |t| ensures Ahead(t[i].1, t[j].1, rising) {
      assert t[i] == b[i + 1] && t[j] == b[j + 1];
    }
  }

  /** The position of the first bound a reading meets (`|b|` when it meets none). */
  function FirstMet(b: seq<(string, real)>, x: real, rising: bool): (n: nat)
    ensures n <= |b|
    ensures forall i :: 0 <= i < n ==> !Meets(x, b[i].1, rising)
    ensures n < |b| ==> Meets(x, b[n].1, rising)
  {
    if b == [] then 0
    else if Meets(x, b[0].1, rising) then 0
    else 1 + FirstMet(b[1..], x, rising)
  }

  /** A ladder gives the label of the first bound met, 劣V类 past the last one. */
  lemma {:induction false} LadderIsFirstMet(b: seq<(string, real)>, x: real, rising: bool)
    ensures LadderCategory(b, x, rising) == if FirstMet(b, x, rising) < |b| then b[FirstMet(b, x, rising)].0 else "劣V类"
    decreases |b|
  {
    if b != [] && !Meets(x, b[0].1, rising) {
      LadderIsFirstMet(b[1..], x, rising);
    }
  }

  /** On an ordered ladder a better reading meets a bound no later than a worse one. */
  lemma {:induction false} FirstMetMonotone(b: seq<(string, real)>, x: real, y: real, rising: bool)
    requires StrictlyOrdered(b, rising) && Meets(x, y, rising)
    ensures FirstMet(b, x, rising) <= FirstMet(b, y, rising)
  {
    var n := FirstMet(b, y, rising);
    if n < |b| {
      assert Meets(x, b[n].1, rising);
    }
  }

  /** Bounds are inclusive: a reading exactly on the i-th bound meets it and no earlier one. */
  lemma {:induction false} FirstMetAtBound(b: seq<(string, real)>, i: nat, rising: bool)
    requires StrictlyOrdered(b, rising) && i < |b|
    ensures FirstMet(b, b[i].1, rising) == i
  {
    forall j | 0 <= j < i ensures !Meets(b[i].1, b[j].1, rising) {
      assert Ahead(b[j].1, b[i].1, rising);
    }
  }

  /** On a well-formed ladder the severity of the result is one more than the first bound met. */
  lemma {:induction false} LadderSeverity(b: seq<(string, real)>, x: real, rising: bool)
    requires WellFormedLadder(b, rising)
    ensures Order(LadderCategory(b, x, rising)) == FirstMet(b, x, rising) + 1
  {
    LadderIsFirstMet(b, x, rising);
    var n := FirstMet(b, x, rising);
    if n == 5 {
      assert Order("劣V类") == 6;
    } else {
      assert b[n].0 == CategoryOfOrder(n + 1);
    }
  }

  /**
   * Monotonicity: a reading at least as good as another (smaller on a
   * rising ladder, larger for dissolved oxygen) never gets a worse category.
   */
  lemma {:induction false} LadderMonotone(b: seq<(string, real)>, x: real, y: real, rising: bool)
    requires WellFormedLadder(b, rising) && Meets(x, y, rising)
    ensures Order(LadderCategory(b, x, rising)) <= Order(LadderCategory(b, y, rising))
  {
    LadderSeverity(b, x, rising);
    LadderSeverity(b, y, rising);
    FirstMetMonotone(b, x, y, rising);
  }

  /** A reading exactly on the i-th bound gets the i-th label. */
  lemma {:induction false} LadderAtBound(b: seq<(string, real)>, i: nat, rising: bool)
    requires StrictlyOrdered(b, rising) && i < |b|
    ensures LadderCategory(b, b[i].1, rising) == b[i].0
  {
    LadderIsFirstMet(b, b[i].1, rising);
    FirstMetAtBound(b, i, rising);
  }

  /** The label of each step is the category of that severity: the same five labels in every table. */
  lemma CategoryLabels()
    ensures CategoryOfOrder(1) == "I类" && CategoryOfOrder(2) == "II类" && CategoryOfOrder(3) == "III类"
    ensures CategoryOfOrder(4) == "IV类" && CategoryOfOrder(5) == "V类"
  {
  }

  lemma BoundaryTablesWellFormed()
    ensures WellFormedLadder(DissolvedOxygenBounds, false)
    ensures WellFormedLadder(PermanganateBounds, true)
    ensures WellFormedLadder(AmmoniaBounds, true)
    ensures WellFormedLadder(RiverPhosphorusBounds, true)
    ensures WellFormedLadder(LakePhosphorusBounds, true)
  {
    DissolvedOxygenTableWellFormed();
    PermanganateTableWellFormed();
    AmmoniaTableWellFormed();
    RiverPhosphorusTableWellFormed();
    LakePhosphorusTableWellFormed();
  }

  lemma DissolvedOxygenTableWellFormed()
    ensures WellFormedLadder(DissolvedOxygenBounds, false)
  {
    CategoryLabels();
  }

  lemma PermanganateTableWellFormed()
    ensures WellFormedLadder(PermanganateBounds, true)
  {
    CategoryLabels();
  }

  lemma AmmoniaTableWellFormed()
    ensures WellFormedLadder(AmmoniaBounds, true)
  {
    CategoryLabels();
  }

  lemma RiverPhosphorusTableWellFormed()
    ensures WellFormedLadder(RiverPhosphorusBounds, true)
  {
    CategoryLabels();
  }

  lemma LakePhosphorusTableWellFormed()
    ensures WellFormedLadder(LakePhosphorusBounds, true)
  {
    CategoryLabels();
  }

  /** Away from pH, the table drawn for a name is empty or a well-formed ladder (falling for dissolved oxygen). */
  lemma {:induction false} BoundariesWellFormed(m: string, waterType: string)
    requires !Contains(Lower(m), "ph")
    ensures var b := MetricBoundaries(m, waterType);
      b == [] || WellFormedLadder(b, !Contains(m, "溶解氧"))
  {
    var b := MetricBoundaries(m, waterType);
    if Contains(m, "溶解氧") {
      assert b == DissolvedOxygenBounds;
      DissolvedOxygenTableWellFormed();
    } else if Contains(Lower(m), "cod") || Contains(m, "高锰酸") {
      assert b == PermanganateBounds;
      PermanganateTableWellFormed();
    } else if Contains(m, "氨氮") {
      assert b == AmmoniaBounds;
      AmmoniaTableWellFormed();
    } else if Contains(m, "总磷") && waterType == Lake {
      assert b == LakePhosphorusBounds;
      LakePhosphorusTableWellFormed();
    } else if Contains(m, "总磷") {
      assert b == RiverPhosphorusBounds;
      RiverPhosphorusTableWellFormed();
    } else {
      assert b == [];
    }
  }

  /** The five numeric classifiers are monotone in their reading. */
  lemma ClassifiersMonotone(x: real, y: real)
    ensures x >= y ==> Order(ClassifyDissolvedOxygen(Some(x))) <= Order(ClassifyDissolvedOxygen(Some(y)))
    ensures x <= y ==> Order(ClassifyPermanganateIndex(Some(x))) <= Order(ClassifyPermanganateIndex(Some(y)))
    ensures x <= y ==> Order(ClassifyAmmoniaNitrogen(Some(x))) <= Order(ClassifyAmmoniaNitrogen(Some(y)))
    ensures x <= y ==> Order(ClassifyTotalPhosphorus(Some(x))) <= Order(ClassifyTotalPhosphorus(Some(y)))
    ensures x <= y ==> Order(ClassifyTotalPhosphorusLake(Some(x))) <= Order(ClassifyTotalPhosphorusLake(Some(y)))
  {
    LaddersMatchBoundaryTables(x);
    LaddersMatchBoundaryTables(y);
    BoundaryTablesWellFormed();
    if x >= y {
      LadderMonotone(DissolvedOxygenBounds, x, y, false);
    }
    if x <= y {
      LadderMonotone(PermanganateBounds, x, y, true);
      LadderMonotone(AmmoniaBounds, x, y, true);
      LadderMonotone(RiverPhosphorusBounds, x, y, true);
      LadderMonotone(LakePhosphorusBounds, x, y, true);
    }
  }

  /** A reading on a bound gets the better of the two neighbouring categories. */
  lemma InclusiveBoundExamples()
    ensures ClassifyAmmoniaNitrogen(Some(0.15)) == "I类"
    ensures ClassifyPermanganateIndex(Some(15.0)) == "V类"
    ensures ClassifyTotalPhosphorus(Some(0.4)) == "V类"
    ensures ClassifyTotalPhosphorusLake(Some(0.015)) == "I类"
    ensures ClassifyDissolvedOxygen(Some(7.5)) == "I类"
    ensures ClassifyDissolvedOxygen(Some(2.0)) == "V类"
    ensures forall x :: x < 2.0 ==> ClassifyDissolvedOxygen(Some(x)) == "劣V类"
  {
  }

  // ---------------------------------------------------------------- name tests

  /** The words the dispatchers look for contain no whitespace, and the Chinese ones no ASCII letters. */
  lemma WordFacts()
    ensures HasNoSpace("ph") && HasNoSpace("cod") && HasNoSpace("tp")
    ensures HasNoSpace("溶解氧") && NoAsciiLetter("溶解氧")
    ensures HasNoSpace("高锰酸") && NoAsciiLetter("高锰酸")
    ensures HasNoSpace("氨氮") && NoAsciiLetter("氨氮")
    ensures HasNoSpace("总磷") && NoAsciiLetter("总磷")
  {
  }

  /** A Chinese word occurs in the stripped, lower-cased name iff it occurs in the name as given. */
  lemma {:induction false} ChineseWordInName(m: string, w: string)
    requires HasNoSpace(w) && NoAsciiLetter(w)
    ensures Contains(Lower(Strip(m)), w) <==> Contains(m, w)
  {
    ContainsLowerStrip(m, w);
    ContainsLowerNoLetters(m, w);
  }

  /**
   * `classify_metric` strips and lower-cases the name, `metric_boundaries`
   * lower-cases only for the Latin words: each test gives the same answer.
   */
  lemma {:induction false} NameTestsAgree(m: string)
    ensures Contains(Lower(Strip(m)), "ph") <==> Contains(Lower(m), "ph")
    ensures Contains(Lower(Strip(m)), "cod") <==> Contains(Lower(m), "cod")
    ensures Contains(Lower(Strip(m)), "溶解氧") <==> Contains(m, "溶解氧")
    ensures Contains(Lower(Strip(m)), "高锰酸") <==> Contains(m, "高锰酸")
    ensures Contains(Lower(Strip(m)), "氨氮") <==> Contains(m, "氨氮")
    ensures Contains(Lower(Strip(m)), "总磷") <==> Contains(m, "总磷")
  {
    WordFacts();
    ContainsLowerStrip(m, "ph");
    ContainsLowerStrip(m, "cod");
    ChineseWordInName(m, "溶解氧");
    ChineseWordInName(m, "高锰酸");
    ChineseWordInName(m, "氨氮");
    ChineseWordInName(m, "总磷");
  }

  /**
   * Wherever `metric_boundaries` draws a table, `classify_metric` (with the
   * same water type) classifies by that very table: pH by its two-sided
   * range, dissolved oxygen as a falling ladder, the others as rising ones.
   */
  lemma {:induction false} ClassifyMetricFollowsBoundaries(c: WaterQualityClassifier, m: string, x: real)
    requires MetricBoundaries(m, c.waterType) != []
    ensures Contains(Lower(m), "ph") ==> c.ClassifyMetric(m, Some(x)) == ClassifyPH(Some(x))
    ensures !Contains(Lower(m), "ph") ==>
      c.ClassifyMetric(m, Some(x)) == LadderCategory(MetricBoundaries(m, c.waterType), x, !Contains(m, "溶解氧"))
  {
    NameTestsAgree(m);
    LaddersMatchBoundaryTables(x);
  }

  /**
   * Each bound drawn for a metric classifies as its own label (both pH
   * limits classify as I类), so the chart lines sit exactly on the category
   * edges the classifier uses.
   */
  lemma {:induction false} BoundsClassifyAsLabels(c: WaterQualityClassifier, m: string, i: nat)
    requires i < |MetricBoundaries(m, c.waterType)|
    ensures var b := MetricBoundaries(m, c.waterType)[i];
      c.ClassifyMetric(m, Some(b.1)) == if Contains(Lower(m), "ph") then "I类" else b.0
  {
    var bs := MetricBoundaries(m, c.waterType);
    ClassifyMetricFollowsBoundaries(c, m, bs[i].1);
    if !Contains(Lower(m), "ph") {
      BoundariesWellFormed(m, c.waterType);
      LadderAtBound(bs, i, !Contains(m, "溶解氧"));
    }
  }

  /** Names no table is drawn for: no pH, DO, permanganate, ammonia or phosphorus word. */
  lemma {:induction false} NoBoundariesIff(m: string, waterType: string)
    ensures MetricBoundaries(m, waterType) == [] <==>
      !Contains(Lower(m), "ph") && !Contains(m, "溶解氧") && !Contains(Lower(m), "cod")
      && !Contains(m, "高锰酸") && !Contains(m, "氨氮") && !Contains(m, "总磷")
  {
  }

  // ---------------------------------------------------------------- dispatch examples

  /** A name test fails when the normalised name lacks one of the word's characters. */
  lemma {:induction false} NameLacks(m: string, low: string, w: string, k: nat)
    requires Lower(Strip(m)) == low && k < |w| && w[k] !in low
    ensures !Contains(Lower(Strip(m)), w)
  {
    MissingCharNotContained(low, w, k);
  }

  /** A name test succeeds when the word sits at index `i` of the normalised name. */
  lemma {:induction false} NameHolds(m: string, low: string, w: string, i: nat)
    requires Lower(Strip(m)) == low && MatchAt(low, w, i)
    ensures Contains(Lower(Strip(m)), w)
  {
  }

  /** First match wins: "phosphorus" holds "ph", so it is read as pH. */
  lemma {:induction false} PhosphorusReadsAsPH(c: WaterQualityClassifier, v: Option<real>)
    ensures c.ClassifyMetric("phosphorus", v) == ClassifyPH(v)
  {
    PhosphorusNormalised();
    NameHolds("phosphorus", "phosphorus", "ph", 0);
  }

  lemma {:induction false} PhosphorusNormalised()
    ensures Lower(Strip("phosphorus")) == "phosphorus"
  {
    StripNoop("phosphorus");
    LowerNoop("phosphorus");
  }

  /** "CODCr" holds "cod", so the chemical oxygen demand by dichromate is read on the permanganate ladder. */
  lemma {:induction false} CODCrReadsAsPermanganate(c: WaterQualityClassifier, v: Option<real>)
    ensures c.ClassifyMetric("CODCr", v) == ClassifyPermanganateIndex(v)
  {
    var m, low := "CODCr", "codcr";
    CODCrNormalised();
    assert !Contains(Lower(Strip(m)), "ph") by { NameLacks(m, low, "ph", 0); }
    assert !Contains(Lower(Strip(m)), "溶解氧") by { NameLacks(m, low, "溶解氧", 0); }
    assert Contains(Lower(Strip(m)), "cod") by { NameHolds(m, low, "cod", 0); }
  }

  /** A bare "DO" holds none of the words, so it is not recognised. */
  lemma {:induction false} BareDOUnrecognised(c: WaterQualityClassifier, v: Option<real>)
    ensures c.ClassifyMetric("DO", v) == ""
  {
    var m, low := "DO", "do";
    DONormalised();
    assert !Contains(Lower(Strip(m)), "ph") by { NameLacks(m, low, "ph", 0); }
    assert !Contains(Lower(Strip(m)), "溶解氧") by { NameLacks(m, low, "溶解氧", 0); }
    assert !Contains(Lower(Strip(m)), "高锰酸") by { NameLacks(m, low, "高锰酸", 0); }
    assert !Contains(Lower(Strip(m)), "cod") by { NameLacks(m, low, "cod", 0); }
    assert !Contains(Lower(Strip(m)), "氨氮") by { NameLacks(m, low, "氨氮", 0); }
    assert !Contains(Lower(Strip(m)), "总磷") by { NameLacks(m, low, "总磷", 0); }
    assert !Contains(Lower(Strip(m)), "tp") by { NameLacks(m, low, "tp", 0); }
  }

  /** Surrounding whitespace is stripped before the tests. */
  lemma {:induction false} PaddedPhosphorusName(c: WaterQualityClassifier, v: Option<real>)
    ensures c.ClassifyMetric(" 总磷 ", v) == c.ClassifyTotalPhosphorusByType(v)
  {
    var m, low := " 总磷 ", "总磷";
    PaddedPhosphorusNormalised();
    assert !Contains(Lower(Strip(m)), "ph") by { NameLacks(m, low, "ph", 0); }
    assert !Contains(Lower(Strip(m)), "溶解氧") by { NameLacks(m, low, "溶解氧", 0); }
    assert !Contains(Lower(Strip(m)), "高锰酸") by { NameLacks(m, low, "高锰酸", 0); }
    assert !Contains(Lower(Strip(m)), "cod") by { NameLacks(m, low, "cod", 0); }
    assert !Contains(Lower(Strip(m)), "氨氮") by { NameLacks(m, low, "氨氮", 0); }
    assert Contains(Lower(Strip(m)), "总磷") by { NameHolds(m, low, "总磷", 0); }
  }

  lemma {:induction false} CODCrNormalised()
    ensures Lower(Strip("CODCr")) == "codcr"
  {
    StripNoop("CODCr");
    assert Lower("CODCr") == "codcr";
  }

  lemma {:induction false} DONormalised()
    ensures Lower(Strip("DO")) == "do"
  {
    StripNoop("DO");
    assert Lower("DO") == "do";
  }

  lemma {:induction false} PaddedPhosphorusNormalised()
    ensures Lower(Strip(" 总磷 ")) == "总磷"
  {
    assert LeadingSpaces(" 总磷 ") == 1;
    assert TrailingStart(" 总磷 ") == 3;
    LowerNoop("总磷");
  }

  /** `recognized_metric_id` needs 高锰酸盐: the permanganate index spelt 高锰酸指数 is not recognised. */
  lemma {:induction false} PermanganateIndexNotRecognised()
    ensures RecognizedMetricId("高锰酸指数") == None
  {
    assert Lower("高锰酸指数") == "高锰酸指数" by { LowerNoop("高锰酸指数"); }
    assert !Contains("高锰酸指数", "ph") by { MissingCharNotContained("高锰酸指数", "ph", 0); }
    assert !Contains("高锰酸指数", "溶解氧") by { MissingCharNotContained("高锰酸指数", "溶解氧", 0); }
    assert !Contains("高锰酸指数", "高锰酸盐") by { MissingCharNotContained("高锰酸指数", "高锰酸盐", 3); }
    assert !Contains("高锰酸指数", "cod") by { MissingCharNotContained("高锰酸指数", "cod", 0); }
    assert !Contains("高锰酸指数", "氨氮") by { MissingCharNotContained("高锰酸指数", "氨氮", 0); }
    assert !Contains("高锰酸指数", "总磷") by { MissingCharNotContained("高锰酸指数", "总磷", 0); }
  }

  /** `recognized_metric_id` has no "tp" test, unlike `classify_metric`. */
  lemma {:induction false} TPNotRecognised()
    ensures RecognizedMetricId("TP") == None
  {
    assert Lower("TP") == "tp";
    assert !Contains("tp", "ph") by { MissingCharNotContained("tp", "ph", 1); }
    assert !Contains("TP", "溶解氧") by { MissingCharNotContained("TP", "溶解氧", 0); }
    assert !Contains("TP", "高锰酸盐") by { MissingCharNotContained("TP", "高锰酸盐", 0); }
    assert !Contains("tp", "cod") by { MissingCharNotContained("tp", "cod", 0); }
    assert !Contains("TP", "氨氮") by { MissingCharNotContained("TP", "氨氮", 0); }
    assert !Contains("TP", "总磷") by { MissingCharNotContained("TP", "总磷", 0); }
  }

  /** "TP" draws no table and is not recognised, yet `classify_metric` reads it as total phosphorus. */
  lemma {:induction false} TPReadsAsPhosphorus(c: WaterQualityClassifier, v: Option<real>)
    ensures c.ClassifyMetric("TP", v) == c.ClassifyTotalPhosphorusByType(v)
  {
    var m, low := "TP", "tp";
    TPNormalised();
    assert !Contains(Lower(Strip(m)), "ph") by { NameLacks(m, low, "ph", 1); }
    assert !Contains(Lower(Strip(m)), "溶解氧") by { NameLacks(m, low, "溶解氧", 0); }
    assert !Contains(Lower(Strip(m)), "高锰酸") by { NameLacks(m, low, "高锰酸", 0); }
    assert !Contains(Lower(Strip(m)), "cod") by { NameLacks(m, low, "cod", 0); }
    assert !Contains(Lower(Strip(m)), "氨氮") by { NameLacks(m, low, "氨氮", 0); }
    assert !Contains(Lower(Strip(m)), "总磷") by { NameLacks(m, low, "总磷", 0); }
    assert Contains(Lower(Strip(m)), "tp") by { NameHolds(m, low, "tp", 0); }
  }

  lemma {:induction false} TPNormalised()
    ensures Lower(Strip("TP")) == "tp"
  {
    StripNoop("TP");
    assert Lower("TP") == "tp";
  }

  /**
   * Where `metric_boundaries` draws no table, the only ladder left to
   * `classify_metric` is total phosphorus by "tp"; every other name gives "".
   */
  lemma {:induction false} ClassifyMetricWithoutBoundaries(c: WaterQualityClassifier, m: string, v: Option<real>)
    requires MetricBoundaries(m, c.waterType) == []
    ensures c.ClassifyMetric(m, v) ==
      if Contains(Lower(Strip(m)), "tp") then c.ClassifyTotalPhosphorusByType(v) else ""
  {
    NoBoundariesIff(m, c.waterType);
    NameTestsAgree(m);
  }

  /**
   * A name `recognized_metric_id` maps to an id classifies as the id itself
   * does, unless it holds 高锰酸 (which `classify_metric` tests before 氨氮
   * and 总磷, and `recognized_metric_id` only as part of 高锰酸盐).
   */
  lemma {:induction false} RecognizedIdClassifiesAlike(c: WaterQualityClassifier, m: string, id: string, v: Option<real>)
    requires RecognizedMetricId(m) == Some(id) && !Contains(m, "高锰酸")
    ensures c.ClassifyMetric(m, v) == c.ClassifyMetric(id, v)
  {
    RecognizedNameLadder(c, m, v);
    IdLadderDispatch(c, id, v);
  }

  /** The ladder `classify_metric` uses for each canonical id. */
  function IdLadder(c: WaterQualityClassifier, id: string, v: Option<real>): string {
    if id == "pH" then ClassifyPH(v)
    else if id == "溶解氧" then ClassifyDissolvedOxygen(v)
    else if id == "CODMn" then ClassifyPermanganateIndex(v)
    else if id == "氨氮" then ClassifyAmmoniaNitrogen(v)
    else c.ClassifyTotalPhosphorusByType(v)
  }

  lemma {:induction false} RecognizedNameLadder(c: WaterQualityClassifier, m: string, v: Option<real>)
    requires RecognizedMetricId(m).Some? && !Contains(m, "高锰酸")
    ensures c.ClassifyMetric(m, v) == IdLadder(c, RecognizedMetricId(m).value, v)
  {
    NameTestsAgree(m);
    SaltNameHoldsPermanganate(m);
  }

  /** A name holding 高锰酸盐 holds 高锰酸. */
  lemma {:induction false} SaltNameHoldsPermanganate(m: string)
    ensures Contains(m, "高锰酸盐") ==> Contains(m, "高锰酸")
  {
    if Contains(m, "高锰酸盐") {
      ContainsPrefix(m, "高锰酸盐", 3);
      assert "高锰酸盐"[..3] == "高锰酸";
    }
  }

  lemma {:induction false} IdLadderDispatch(c: WaterQualityClassifier, id: string, v: Option<real>)
    requires id in {"pH", "溶解氧", "CODMn", "氨氮", "总磷"}
    ensures c.ClassifyMetric(id, v) == IdLadder(c, id, v)
  {
    if id == "pH" {
      PHIdDispatch(c, v);
    } else if id == "溶解氧" {
      DissolvedOxygenIdDispatch(c, v);
    } else if id == "CODMn" {
      PermanganateIdDispatch(c, v);
    } else if id == "氨氮" {
      AmmoniaIdDispatch(c, v);
    } else {
      PhosphorusIdDispatch(c, v);
    }
  }

  /** "高锰酸指数总磷" is recognised as 总磷 but classified on the permanganate ladder. */
  lemma {:induction false} PermanganatePhosphorusNameDiverges(c: WaterQualityClassifier, v: Option<real>)
    ensures RecognizedMetricId("高锰酸指数总磷") == Some("总磷")
    ensures c.ClassifyMetric("高锰酸指数总磷", v) == ClassifyPermanganateIndex(v)
  {
    PermanganatePhosphorusRecognised();
    var m := "高锰酸指数总磷";
    PermanganatePhosphorusNormalised();
    assert !Contains(Lower(Strip(m)), "ph") by { NameLacks(m, m, "ph", 0); }
    assert !Contains(Lower(Strip(m)), "溶解氧") by { NameLacks(m, m, "溶解氧", 0); }
    assert Contains(Lower(Strip(m)), "高锰酸") by { NameHolds(m, m, "高锰酸", 0); }
  }

  lemma {:induction false} PermanganatePhosphorusNormalised()
    ensures Lower(Strip("高锰酸指数总磷")) == "高锰酸指数总磷"
  {
    StripNoop("高锰酸指数总磷");
    LowerNoop("高锰酸指数总磷");
  }

  lemma {:induction false} PermanganatePhosphorusRecognised()
    ensures RecognizedMetricId("高锰酸指数总磷") == Some("总磷")
  {
    var m := "高锰酸指数总磷";
    assert Lower(m) == m by { LowerNoop(m); }
    assert !Contains(m, "ph") by { MissingCharNotContained(m, "ph", 0); }
    assert !Contains(m, "溶解氧") by { MissingCharNotContained(m, "溶解氧", 0); }
    assert !Contains(m, "高锰酸盐") by { MissingCharNotContained(m, "高锰酸盐", 3); }
    assert !Contains(m, "cod") by { MissingCharNotContained(m, "cod", 0); }
    assert !Contains(m, "氨氮") by { MissingCharNotContained(m, "氨氮", 0); }
    assert MatchAt(m, "总磷", 5);
  }

  lemma {:induction false} PHIdDispatch(c: WaterQualityClassifier, v: Option<real>)
    ensures c.ClassifyMetric("pH", v) == ClassifyPH(v)
  {
    var m, low := "pH", "ph";
    assert Lower(Strip(m)) == low by { StripNoop(m); assert Lower(m) == low; }
    assert Contains(Lower(Strip(m)), "ph") by { NameHolds(m, low, "ph", 0); }
  }

  lemma {:induction false} DissolvedOxygenIdDispatch(c: WaterQualityClassifier, v: Option<real>)
    ensures c.ClassifyMetric("溶解氧", v) == ClassifyDissolvedOxygen(v)
  {
    var m := "溶解氧";
    assert Lower(Strip(m)) == m by { StripNoop(m); LowerNoop(m); }
    assert !Contains(Lower(Strip(m)), "ph") by { NameLacks(m, m, "ph", 0); }
    assert Contains(Lower(Strip(m)), "溶解氧") by { NameHolds(m, m, "溶解氧", 0); }
  }

  lemma {:induction false} PermanganateIdDispatch(c: WaterQualityClassifier, v: Option<real>)
    ensures c.ClassifyMetric("CODMn", v) == ClassifyPermanganateIndex(v)
  {
    var m, low := "CODMn", "codmn";
    CODMnNormalised();
    assert !Contains(Lower(Strip(m)), "ph") by { NameLacks(m, low, "ph", 0); }
    assert !Contains(Lower(Strip(m)), "溶解氧") by { NameLacks(m, low, "溶解氧", 0); }
    assert Contains(Lower(Strip(m)), "cod") by { NameHolds(m, low, "cod", 0); }
  }

  lemma {:induction false} CODMnNormalised()
    ensures Lower(Strip("CODMn")) == "codmn"
  {
    StripNoop("CODMn");
    assert Lower("CODMn") == "codmn";
  }

  lemma {:induction false} AmmoniaIdDispatch(c: WaterQualityClassifier, v: Option<real>)
    ensures c.ClassifyMetric("氨氮", v) == ClassifyAmmoniaNitrogen(v)
  {
    var m := "氨氮";
    assert Lower(Strip(m)) == m by { StripNoop(m); LowerNoop(m); }
    assert !Contains(Lower(Strip(m)), "ph") by { NameLacks(m, m, "ph", 0); }
    assert !Contains(Lower(Strip(m)), "溶解氧") by { NameLacks(m, m, "溶解氧", 0); }
    assert !Contains(Lower(Strip(m)), "高锰酸") by { NameLacks(m, m, "高锰酸", 0); }
    assert !Contains(Lower(Strip(m)), "cod") by { NameLacks(m, m, "cod", 0); }
    assert Contains(Lower(Strip(m)), "氨氮") by { NameHolds(m, m, "氨氮", 0); }
  }

  lemma {:induction false} PhosphorusIdDispatch(c: WaterQualityClassifier, v: Option<real>)
    ensures c.ClassifyMetric("总磷", v) == c.ClassifyTotalPhosphorusByType(v)
  {
    var m := "总磷";
    assert Lower(Strip(m)) == m by { StripNoop(m); LowerNoop(m); }
    assert !Contains(Lower(Strip(m)), "ph") by { NameLacks(m, m, "ph", 0); }
    assert !Contains(Lower(Strip(m)), "溶解氧") by { NameLacks(m, m, "溶解氧", 0); }
    assert !Contains(Lower(Strip(m)), "高锰酸") by { NameLacks(m, m, "高锰酸", 0); }
    assert !Contains(Lower(Strip(m)), "cod") by { NameLacks(m, m, "cod", 0); }
    assert !Contains(Lower(Strip(m)), "氨氮") by { NameLacks(m, m, "氨氮", 0); }
    assert Contains(Lower(Strip(m)), "总磷") by { NameHolds(m, m, "总磷", 0); }
  }

  /** The permanganate index spelt with 高锰酸盐 is recognised as CODMn. */
  lemma {:induction false} PermanganateSaltRecognised()
    ensures RecognizedMetricId("高锰酸盐指数") == Some("CODMn")
  {
    assert Lower("高锰酸盐指数") == "高锰酸盐指数" by { LowerNoop("高锰酸盐指数"); }
    assert !Contains("高锰酸盐指数", "ph") by { MissingCharNotContained("高锰酸盐指数", "ph", 0); }
    assert !Contains("高锰酸盐指数", "溶解氧") by { MissingCharNotContained("高锰酸盐指数", "溶解氧", 0); }
    assert MatchAt("高锰酸盐指数", "高锰酸盐", 0);
  }

  // ---------------------------------------------------------------- overall category

  /** The worst severity depends only on which texts occur, not on their order or repetition. */
  lemma {:induction false} WorstOrderBySet(a: seq<string>, b: seq<string>)
    requires forall c :: c in a ==> c in b
    ensures WorstOrder(a) <= WorstOrder(b)
  {
    var w := WorstOrder(a);
    if w != 0 {
      var i :| 0 <= i < |a| && Order(a[i]) == w;
      assert a[i] in b;
      var j :| 0 <= j < |b| && b[j] == a[i];
    }
  }

  /** `overall_category` does not depend on the order of its input. */
  lemma {:induction false} WorstOrderPermutation(a: seq<string>, b: seq<string>)
    requires multiset(a) == multiset(b)
    ensures WorstOrder(a) == WorstOrder(b)
  {
    forall c | c in a ensures c in b {
      assert c in multiset(a);
    }
    forall c | c in b ensures c in a {
      assert c in multiset(b);
    }
    WorstOrderBySet(a, b);
    WorstOrderBySet(b, a);
  }

  /**
   * On a non-empty list the overall category is "" exactly when no entry is
   * a known category text; otherwise it is a category at least as bad as each entry.
   */
  lemma {:induction false} OverallCategoryMeaning(categories: seq<string>)
    ensures CategoryOfOrder(WorstOrder(categories)) == "" <==>
      forall i :: 0 <= i < |categories| ==> categories[i] !in CategoryOrder
    ensures CategoryOfOrder(WorstOrder(categories)) != "" ==>
      var r := CategoryOfOrder(WorstOrder(categories));
      IsCategory(r) && forall i :: 0 <= i < |categories| ==> Order(categories[i]) <= Order(r)
  {
    var w := WorstOrder(categories);
    if w == 0 {
      forall i | 0 <= i < |categories| ensures categories[i] !in CategoryOrder {
        assert Order(categories[i]) <= w;
      }
    } else {
      var i :| 0 <= i < |categories| && Order(categories[i]) == w;
      assert categories[i] in CategoryOrder;
    }
  }

  /** The worst entry wins wherever it stands. */
  lemma WorstEntryWins()
    ensures CategoryOfOrder(WorstOrder(["I类", "劣V类", "III类"])) == "劣V类"
  {
    assert Order(["I类", "劣V类", "III类"][1]) == 6;
  }

  /** 合格 counts as I类, so any other category outranks it. */
  lemma QualifiedCountsAsFirstCategory()
    ensures CategoryOfOrder(WorstOrder(["合格", "II类"])) == "II类"
    ensures CategoryOfOrder(WorstOrder(["合格"])) == "I类"
  {
    assert Order(["合格", "II类"][1]) == 2;
    assert Order(["合格", "II类"][0]) == 1;
    assert Order(["合格"][0]) == 1;
  }

  /** Texts outside the order table count 0, and a list of only those has no category. */
  lemma UnknownTextsGiveNoCategory()
    ensures CategoryOfOrder(WorstOrder(["", "无效"])) == ""
  {
    assert Order(["", "无效"][0]) == 0;
    assert Order(["", "无效"][1]) == 0;
  }

  // ---------------------------------------------------------------- visual boundaries

  /**
   * Category boundary lines take their category's colour; the two pH lines
   * take the colour of the metric id "pH", or grey for any other pH-like id
   * that is not itself a colour key.
   */
  lemma {:induction false} BoundaryColors(m: string, waterType: string, i: nat)
    requires i < |MetricBoundaries(m, waterType)|
    ensures var name := MetricBoundaries(m, waterType)[i].0;
      && (!Contains(Lower(m), "ph") ==> BoundaryColor(name, m) == CategoryColors[name])
      && (Contains(Lower(m), "ph") && m !in CategoryColors ==> BoundaryColor(name, m) == "#999999")
      && (Contains(Lower(m), "ph") && m == "pH" ==> BoundaryColor(name, m) == "#FF0000")
  {
    var b := MetricBoundaries(m, waterType);
    if !Contains(Lower(m), "ph") {
      BoundariesWellFormed(m, waterType);
      assert b[i].0 == CategoryOfOrder(i + 1);
    }
  }
}

/**
 * `WaterQualityClassifier`: the per-metric threshold ladders that turn a
 * reading into one of the six categories I类 … 劣V类, the dispatch from a
 * metric name to its ladder, the boundary tables the charts draw, and the
 * "worst category wins" overall rating.
 *
 * A reading is the result of Python's `float(value)`: `None` when the
 * conversion fails, otherwise the number.
 */
module Classifiers {
  import opened Wrappers
  import opened Text

  // ---------------------------------------------------------------- tables

  const NoData := "无有效数据"
  const River := "河流"
  const Lake := "湖库"

  /** The six categories, best first. */
  predicate IsCategory(s: string) {
    s == "I类" || s == "II类" || s == "III类" || s == "IV类" || s == "V类" || s == "劣V类"
  }

  /** `CATEGORY_ORDER`: the severity of a category text ("合格", qualified, counts as I类). */
  const CategoryOrder: map<string, nat> :=
    map["合格" := 1, "I类" := 1, "II类" := 2, "III类" := 3, "IV类" := 4, "V类" := 5, "劣V类" := 6]

  /** `ORDER_TO_CATEGORY`: the category of each severity. */
  const OrderToCategory: map<nat, string> :=
    map[1 := "I类", 2 := "II类", 3 := "III类", 4 := "IV类", 5 := "V类", 6 := "劣V类"]

  /** `CATEGORY_COLORS`: display colours per category, plus one for pH. */
  const CategoryColors: map<string, string> :=
    map["合格" := "#CFFFFF", "I类" := "#CFFFFF", "II类" := "#8FFFFF", "III类" := "#7FFF7F",
        "IV类" := "#FFFF6F", "V类" := "#FFC000", "劣V类" := "#FF0000", "pH" := "#FF0000"]

  /** `NORMALIZE_CATEGORY`: category spellings the class itself knows. */
  const NormalizeCategoryTable: map<string, string> :=
    map["合格" := "I类", "合格类" := "I类", "I类" := "I类", "II类" := "II类", "III类" := "III类",
        "IV类" := "IV类", "V类" := "V类", "劣V类" := "劣V类"]

  /** `CATEGORY_ORDER.get(c, 0)`: unknown texts have severity 0. */
  function Order(c: string): (o: nat)
    ensures o <= 6
    ensures o == 0 <==> c !in CategoryOrder
    ensures IsCategory(c) ==> o >= 1
  {
    if c in CategoryOrder then CategoryOrder[c] else 0
  }

  /** `ORDER_TO_CATEGORY.get(o, "")`. */
  function CategoryOfOrder(o: nat): (c: string)
    ensures 1 <= o <= 6 ==> IsCategory(c) && Order(c) == o
    ensures !(1 <= o <= 6) ==> c == ""
  {
    if o in OrderToCategory then OrderToCategory[o] else ""
  }

  // ---------------------------------------------------------------- ladders

  /** pH is two-sided: 6.0 to 9.0 inclusive is I类, anything else 劣V类. */
  function ClassifyPH(value: Option<real>): (r: string)
    ensures value.None? <==> r == ""
    ensures value.Some? ==> IsCategory(r)
    ensures value.Some? ==> (r == "I类" <==> 6.0 <= value.value <= 9.0)
    ensures value.Some? ==> (r == "I类" || r == "劣V类")
  {
    match value
    case None => ""
    case Some(n) => if 6.0 <= n <= 9.0 then "I类" else "劣V类"
  }

  /** Dissolved oxygen: more is better, each bound reached from above (`>=`). */
  function ClassifyDissolvedOxygen(value: Option<real>): (r: string)
    ensures value.None? <==> r == ""
    ensures value.Some? ==> IsCategory(r)
  {
    match value
    case None => ""
    case Some(n) =>
      if n >= 7.5 then "I类"
      else if n >= 6.0 then "II类"
      else if n >= 5.0 then "III类"
      else if n >= 3.0 then "IV类"
      else if n >= 2.0 then "V类"
      else "劣V类"
  }

  /** Permanganate index: inclusive upper bounds 2, 4, 6, 10, 15. */
  function ClassifyPermanganateIndex(value: Option<real>): (r: string)
    ensures value.None? <==> r == ""
    ensures value.Some? ==> IsCategory(r)
  {
    match value
    case None => ""
    case Some(n) =>
      if n <= 2.0 then "I类"
      else if n <= 4.0 then "II类"
      else if n <= 6.0 then "III类"
      else if n <= 10.0 then "IV类"
      else if n <= 15.0 then "V类"
      else "劣V类"
  }

  /** Ammonia nitrogen: inclusive upper bounds 0.15, 0.5, 1.0, 1.5, 2.0. */
  function ClassifyAmmoniaNitrogen(value: Option<real>): (r: string)
    ensures value.None? <==> r == ""
    ensures value.Some? ==> IsCategory(r)
  {
    match value
    case None => ""
    case Some(n) =>
      if n <= 0.15 then "I类"
      else if n <= 0.5 then "II类"
      else if n <= 1.0 then "III类"
      else if n <= 1.5 then "IV类"
      else if n <= 2.0 then "V类"
      else "劣V类"
  }

  /** Total phosphorus in rivers: inclusive upper bounds 0.02, 0.1, 0.2, 0.3, 0.4. */
  function ClassifyTotalPhosphorus(value: Option<real>): (r: string)
    ensures value.None? <==> r == ""
    ensures value.Some? ==> IsCategory(r)
  {
    match value
    case None => ""
    case Some(n) =>
      if n <= 0.02 then "I类"
      else if n <= 0.1 then "II类"
      else if n <= 0.2 then "III类"
      else if n <= 0.3 then "IV类"
      else if n <= 0.4 then "V类"
      else "劣V类"
  }

  /** Total phosphorus in lakes and reservoirs: inclusive upper bounds 0.015, 0.025, 0.05, 0.1, 0.2. */
  function ClassifyTotalPhosphorusLake(value: Option<real>): (r: string)
    ensures value.None? <==> r == ""
    ensures value.Some? ==> IsCategory(r)
  {
    match value
    case None => ""
    case Some(n) =>
      if n <= 0.015 then "I类"
      else if n <= 0.025 then "II类"
      else if n <= 0.05 then "III类"
      else if n <= 0.1 then "IV类"
      else if n <= 0.2 then "V类"
      else "劣V类"
  }

  // ---------------------------------------------------------------- boundary tables

  const PHBounds: seq<(string, real)> := [("pH下限", 6.0), ("pH上限", 9.0)]
  const DissolvedOxygenBounds: seq<(string, real)> :=
    [("I类", 7.5), ("II类", 6.0), ("III类", 5.0), ("IV类", 3.0), ("V类", 2.0)]
  const PermanganateBounds: seq<(string, real)> :=
    [("I类", 2.0), ("II类", 4.0), ("III类", 6.0), ("IV类", 10.0), ("V类", 15.0)]
  const AmmoniaBounds: seq<(string, real)> :=
    [("I类", 0.15), ("II类", 0.5), ("III类", 1.0), ("IV类", 1.5), ("V类", 2.0)]
  const LakePhosphorusBounds: seq<(string, real)> :=
    [("I类", 0.015), ("II类", 0.025), ("III类", 0.05), ("IV类", 0.1), ("V类", 0.2)]
  const RiverPhosphorusBounds: seq<(string, real)> :=
    [("I类", 0.02), ("II类", 0.1), ("III类", 0.2), ("IV类", 0.3), ("V类", 0.4)]

  /**
   * `metric_boundaries`: the ordered (label, bound) pairs drawn for a metric;
   * the metric is found by substring tests on its id, pH first.
   */
  function MetricBoundaries(metricId: string, waterType: string): (r: seq<(string, real)>)
    ensures r == [] || r == PHBounds || |r| == 5
  {
    if Contains(Lower(metricId), "ph") then PHBounds
    else if Contains(metricId, "溶解氧") then DissolvedOxygenBounds
    else if Contains(Lower(metricId), "cod") || Contains(metricId, "高锰酸") then PermanganateBounds
    else if Contains(metricId, "氨氮") then AmmoniaBounds
    else if Contains(metricId, "总磷") then
      (if waterType == Lake then LakePhosphorusBounds else RiverPhosphorusBounds)
    else []
  }

  /**
   * What a boundary table says about a reading: the label of the first bound
   * the reading meets, or 劣V类 when it meets none. In a rising ladder a
   * reading meets a bound at or above it; in a falling one (dissolved
   * oxygen) a bound at or below it.
   */
  function LadderCategory(bounds: seq<(string, real)>, x: real, rising: bool): string {
    if bounds == [] then "劣V类"
    else if Meets(x, bounds[0].1, rising) then bounds[0].0
    else LadderCategory(bounds[1..], x, rising)
  }

  predicate Meets(x: real, bound: real, rising: bool) {
    if rising then x <= bound else x >= bound
  }

  /** The ladders coded in the classifiers are exactly the ladders of the boundary tables. */
  lemma {:induction false} LaddersMatchBoundaryTables(x: real)
    ensures ClassifyPH(Some(x)) == (if PHBounds[0].1 <= x <= PHBounds[1].1 then "I类" else "劣V类")
    ensures ClassifyDissolvedOxygen(Some(x)) == LadderCategory(DissolvedOxygenBounds, x, false)
    ensures ClassifyPermanganateIndex(Some(x)) == LadderCategory(PermanganateBounds, x, true)
    ensures ClassifyAmmoniaNitrogen(Some(x)) == LadderCategory(AmmoniaBounds, x, true)
    ensures ClassifyTotalPhosphorus(Some(x)) == LadderCategory(RiverPhosphorusBounds, x, true)
    ensures ClassifyTotalPhosphorusLake(Some(x)) == LadderCategory(LakePhosphorusBounds, x, true)
  {
    LadderUnfold(DissolvedOxygenBounds, x, false);
    LadderUnfold(PermanganateBounds, x, true);
    LadderUnfold(AmmoniaBounds, x, true);
    LadderUnfold(RiverPhosphorusBounds, x, true);
    LadderUnfold(LakePhosphorusBounds, x, true);
  }

  /** A five-step ladder written out. */
  lemma {:induction false} LadderUnfold(b: seq<(string, real)>, x: real, rising: bool)
    requires |b| == 5
    ensures LadderCategory(b, x, rising) ==
      if Meets(x, b[0].1, rising) then b[0].0
      else if Meets(x, b[1].1, rising) then b[1].0
      else if Meets(x, b[2].1, rising) then b[2].0
      else if Meets(x, b[3].1, rising) then b[3].0
      else if Meets(x, b[4].1, rising) then b[4].0
      else "劣V类"
  {
    var b1 := b[1..];
    var b2 := b1[1..];
    var b3 := b2[1..];
    var b4 := b3[1..];
    assert b1[0] == b[1] && b2[0] == b[2] && b3[0] == b[3] && b4[0] == b[4];
    assert LadderCategory(b4, x, rising) == if Meets(x, b[4].1, rising) then b[4].0 else "劣V类" by {
      assert b4[1..] == [];
    }
    assert LadderCategory(b3, x, rising) == if Meets(x, b[3].1, rising) then b[3].0 else LadderCategory(b4, x, rising);
    assert LadderCategory(b2, x, rising) == if Meets(x, b[2].1, rising) then b[2].0 else LadderCategory(b3, x, rising);
    assert LadderCategory(b1, x, rising) == if Meets(x, b[1].1, rising) then b[1].0 else LadderCategory(b2, x, rising);
  }

  // ---------------------------------------------------------------- the classifier object

  /** A classifier configured with a water type; only total phosphorus depends on it. */
  datatype WaterQualityClassifier = WaterQualityClassifier(waterType: string) {

    /** `classify_total_phosphorus_by_type`: the lake ladder for "湖库", the river ladder otherwise. */
    function ClassifyTotalPhosphorusByType(value: Option<real>): (r: string)
      ensures value.None? <==> r == ""
      ensures value.Some? ==> IsCategory(r)
      ensures waterType == Lake ==> r == ClassifyTotalPhosphorusLake(value)
      ensures waterType != Lake ==> r == ClassifyTotalPhosphorus(value)
    {
      if waterType == Lake then ClassifyTotalPhosphorusLake(value) else ClassifyTotalPhosphorus(value)
    }

    /**
     * `classify_metric`: the first of five substring tests on the stripped,
     * lower-cased name picks the ladder; a name matching none gives "".
     */
    function ClassifyMetric(metricName: string, value: Option<real>): (r: string)
      ensures r == "" || IsCategory(r)
      ensures value.None? ==> r == ""
    {
      var name := Lower(Strip(metricName));
      if Contains(name, "ph") then ClassifyPH(value)
      else if Contains(name, "溶解氧") then ClassifyDissolvedOxygen(value)
      else if Contains(name, "高锰酸") || Contains(name, "cod") then ClassifyPermanganateIndex(value)
      else if Contains(name, "氨氮") then ClassifyAmmoniaNitrogen(value)
      else if Contains(name, "总磷") || Contains(name, "tp") then ClassifyTotalPhosphorusByType(value)
      else ""
    }

    /**
     * `classify_value`: tests for "ph" on the lower-cased id without
     * stripping, then defers to `classify_metric`; the two always agree.
     */
    function ClassifyValue(metricId: string, value: Option<real>): (r: string)
      ensures r == ClassifyMetric(metricId, value)
    {
      assert HasNoSpace("ph");
      ContainsLowerStrip(metricId, "ph");
      if Contains(Lower(metricId), "ph") then ClassifyPH(value)
      else ClassifyMetric(metricId, value)
    }
  }

  /**
   * `recognized_metric_id`: the canonical id of a column name. Unlike
   * `classify_metric` it tests the unstripped name, asks for 高锰酸盐 rather
   * than 高锰酸, and does not know "tp".
   */
  function RecognizedMetricId(colname: string): (r: Option<string>)
    ensures r.None? || r.value in {"pH", "溶解氧", "CODMn", "氨氮", "总磷"}
    ensures r.None? <==>
      !Contains(Lower(colname), "ph") && !Contains(colname, "溶解氧") && !Contains(colname, "高锰酸盐")
      && !Contains(Lower(colname), "cod") && !Contains(colname, "氨氮") && !Contains(colname, "总磷")
  {
    var low := Lower(colname);
    if Contains(low, "ph") then Some("pH")
    else if Contains(colname, "溶解氧") then Some("溶解氧")
    else if Contains(colname, "高锰酸盐") || Contains(low, "cod") then Some("CODMn")
    else if Contains(colname, "氨氮") then Some("氨氮")
    else if Contains(colname, "总磷") then Some("总磷")
    else None
  }

  // ---------------------------------------------------------------- visual boundaries

  /** The colour of one boundary line: the label's colour, else the metric's, else grey. */
  function BoundaryColor(name: string, metricId: string): (r: string)
    ensures IsCategory(name) ==> r == CategoryColors[name]
    ensures r == "#999999" <==> name !in CategoryColors && metricId !in CategoryColors
    ensures r != "#999999" ==> r in CategoryColors.Values
  {
    if name in CategoryColors then CategoryColors[name]
    else if metricId in CategoryColors then CategoryColors[metricId]
    else "#999999"
  }

  /** `get_visual_boundaries`: each boundary of the metric with its line colour, in order. */
  method GetVisualBoundaries(metricId: string, waterType: string) returns (out: seq<(string, real, string)>)
    ensures |out| == |MetricBoundaries(metricId, waterType)|
    ensures forall i :: 0 <= i < |out| ==>
      var b := MetricBoundaries(metricId, waterType)[i];
      out[i] == (b.0, b.1, BoundaryColor(b.0, metricId))
  {
    var bounds := MetricBoundaries(metricId, waterType);
    out := [];
    for k := 0 to |bounds|
      invariant |out| == k
      invariant forall i :: 0 <= i < k ==> out[i] == (bounds[i].0, bounds[i].1, BoundaryColor(bounds[i].0, metricId))
    {
      var (name, v) := bounds[k];
      var color := BoundaryColor(name, metricId);
      out := out + [(name, v, color)];
    }
  }

  // ---------------------------------------------------------------- overall category

  /** The largest severity among `categories` (0 for none): the worst one wins. */
  function WorstOrder(categories: seq<string>): (w: nat)
    ensures forall i :: 0 <= i < |categories| ==> Order(categories[i]) <= w
    ensures w == 0 || exists i :: 0 <= i < |categories| && Order(categories[i]) == w
    ensures w <= 6
  {
    if categories == [] then 0
    else
      var front := WorstOrder(categories[..|categories| - 1]);
      var last := Order(categories[|categories| - 1]);
      if front < last then last else front
  }

  /** `overall_category`: "无有效数据" for no categories, else the category of the worst severity ("" when none is known). */
  method OverallCategory(categories: seq<string>) returns (r: string)
    ensures categories == [] ==> r == NoData
    ensures categories != [] ==> r == CategoryOfOrder(WorstOrder(categories))
  {
    if |categories| == 0 {
      return NoData;
    }
    var worst := 0;
    for i := 0 to |categories|
      invariant worst == WorstOrder(categories[..i])
    {
      assert categories[..i + 1][..i] == categories[..i];
      var o := Order(categories[i]);
      worst := if worst < o then o else worst;
    }
    assert categories[..|categories|] == categories;
    r := CategoryOfOrder(worst);
  }
}

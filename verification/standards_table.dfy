/**
 * The text of the standards table in water_quality_standards_gui.py: one
 * row per metric, one column per category, each cell saying which readings
 * reach that category. The Qt widgets are not modelled; the table is the
 * grid of cell texts. `show` stands for Python's `str` of a float.
 */
module StandardsTable {
  import opened Wrappers
  import opened Text
  import opened Classifiers
  import opened ClassifierFacts
  import Utils

  /** `CATEGORIES`: the six column categories, best first. */
  const Categories: seq<string> := ["I类", "II类", "III类", "IV类", "V类", "劣V类"]

  /** One entry of `METRICS`: display name, logical id, water type. */
  datatype MetricRow = MetricRow(displayName: string, metricId: string, waterType: string)

  /** `METRICS`: the rows of the table, in order. */
  const Metrics: seq<MetricRow> := [
    MetricRow("pH值", "pH", River),
    MetricRow("溶解氧", "溶解氧", River),
    MetricRow("高锰酸盐指数", "CODMn", River),
    MetricRow("化学需氧量", "CODCr", River),
    MetricRow("氨氮", "氨氮", River),
    MetricRow("总磷（河流）", "总磷", River),
    MetricRow("总磷（湖库）", "总磷", Lake),
    MetricRow("总氮", "总氮", River),
    MetricRow("生化需氧量", "生化需氧量", River)
  ]

  // ---------------------------------------------------------------- the label dictionary

  /** Labels that stand for I类 and II类 together. */
  predicate IsPairLabel(lab: string) {
    lab == "I/II" || lab == "IⅡ" || lab == "I II"
  }

  /** One step of the `bdict` loop: a pair label sets I类 and II类, a 类 label is kept, a bare numeral gets 类, anything else is dropped. */
  function AddLabel(bdict: map<string, real>, lab: string, v: real): map<string, real> {
    if IsPairLabel(lab) then bdict["I类" := v]["II类" := v]
    else if EndsWith(lab, "类") then bdict[lab := v]
    else if Utils.IsRomanNumeral(lab) then bdict[lab + "类" := v]
    else bdict
  }

  /** The `bdict` that `populate_table` builds from a boundary list. */
  function LabelDict(bounds: seq<(string, real)>): map<string, real> {
    if bounds == [] then map[]
    else
      var n := |bounds| - 1;
      AddLabel(LabelDict(bounds[..n]), bounds[n].0, bounds[n].1)
  }

  /** The `bdict` loop of `populate_table`. */
  method BuildLabelDict(bounds: seq<(string, real)>) returns (bdict: map<string, real>)
    ensures bdict == LabelDict(bounds)
  {
    bdict := map[];
    for i := 0 to |bounds|
      invariant bdict == LabelDict(bounds[..i])
    {
      assert bounds[..i + 1][..i] == bounds[..i];
      var (lab, v) := bounds[i];
      if lab == "I/II" || lab == "IⅡ" || lab == "I II" {
        bdict := bdict["I类" := v];
        bdict := bdict["II类" := v];
      } else if EndsWith(lab, "类") {
        bdict := bdict[lab := v];
      } else if lab == "I" || lab == "II" || lab == "III" || lab == "IV" || lab == "V" {
        bdict := bdict[lab + "类" := v];
      }
    }
    assert bounds[..|bounds|] == bounds;
  }

  /** The three label rules at work, and a label that is dropped. */
  lemma LabelRulesExample()
    ensures LabelDict([("I/II", 1.0), ("III", 2.0), ("IV类", 3.0), ("pH下限", 6.0)])
         == map["I类" := 1.0, "II类" := 1.0, "III类" := 2.0, "IV类" := 3.0]
  {
    var b: seq<(string, real)> := [("I/II", 1.0), ("III", 2.0), ("IV类", 3.0), ("pH下限", 6.0)];
    var d1 := map["I类" := 1.0, "II类" := 1.0];
    assert LabelDict(b[..1]) == d1 by {
      assert b[..1][..0] == [];
      assert IsPairLabel(b[0].0);
    }
    var d2 := d1["III类" := 2.0];
    assert LabelDict(b[..2]) == d2 by {
      assert b[..2][..1] == b[..1];
      assert !IsPairLabel("III") && !EndsWith("III", "类") && Utils.IsRomanNumeral("III");
      assert "III" + "类" == "III类";
    }
    var d3 := d2["IV类" := 3.0];
    assert LabelDict(b[..3]) == d3 by {
      assert b[..3][..2] == b[..2];
      assert !IsPairLabel("IV类") && EndsWith("IV类", "类");
    }
    assert LabelDict(b) == d3 by {
      assert b[..3] == b[..|b| - 1];
      assert !IsPairLabel("pH下限") && !EndsWith("pH下限", "类") && !Utils.IsRomanNumeral("pH下限");
    }
  }

  /** Each of the three spellings of the I–II pair sets both I类 and II类. */
  lemma PairLabelSpellings(v: real)
    ensures LabelDict([("I/II", v)]) == map["I类" := v, "II类" := v]
    ensures LabelDict([("IⅡ", v)]) == map["I类" := v, "II类" := v]
    ensures LabelDict([("I II", v)]) == map["I类" := v, "II类" := v]
  {
    assert [("I/II", v)][..0] == [] && [("IⅡ", v)][..0] == [] && [("I II", v)][..0] == [];
    assert IsPairLabel("I/II") && IsPairLabel("IⅡ") && IsPairLabel("I II");
  }

  /** The pH limits are neither categories nor numerals: the pH row gets an empty dictionary. */
  lemma PHLabelsDropped()
    ensures LabelDict(PHBounds) == map[]
  {
    assert PHBounds[..1][..0] == [];
    assert !EndsWith("pH下限", "类") && !EndsWith("pH上限", "类");
    assert !IsPairLabel("pH下限") && !IsPairLabel("pH上限");
    assert !Utils.IsRomanNumeral("pH下限") && !Utils.IsRomanNumeral("pH上限");
  }

  /** The k-th column is the category of severity k + 1. */
  lemma CategoryLabelFacts()
    ensures Categories[0] == "I类" == CategoryOfOrder(1)
    ensures Categories[1] == "II类" == CategoryOfOrder(2)
    ensures Categories[2] == "III类" == CategoryOfOrder(3)
    ensures Categories[3] == "IV类" == CategoryOfOrder(4)
    ensures Categories[4] == "V类" == CategoryOfOrder(5)
    ensures Categories[5] == "劣V类" == CategoryOfOrder(6)
  {
    CategoryLabels();
  }

  /** A category label is copied as it is. */
  lemma {:induction false} AddCategoryLabel(bdict: map<string, real>, k: nat, v: real)
    requires k < 5
    ensures AddLabel(bdict, Categories[k], v) == bdict[Categories[k] := v]
  {
    var lab := Categories[k];
    assert lab[|lab| - 1] == '类' && !IsPairLabel(lab) by {
      CategoryLabelFacts();
      if k == 0 {
      } else if k == 1 {
      } else if k == 2 {
      } else if k == 3 {
      } else {
      }
    }
    assert EndsWith(lab, "类");
  }

  /** A well-formed ladder (labels I类 … V类) gives each of the five categories its own bound. */
  lemma {:induction false} LabelDictOfLadder(b: seq<(string, real)>, rising: bool)
    requires WellFormedLadder(b, rising)
    ensures LabelDict(b).Keys == {"I类", "II类", "III类", "IV类", "V类"}
    ensures forall k :: 0 <= k < 5 ==> LabelDict(b)[Categories[k]] == b[k].1
  {
    LadderLabelSteps(b, rising);
    FiveCategoryMap(b[0].1, b[1].1, b[2].1, b[3].1, b[4].1);
  }

  /** The `bdict` loop over a well-formed ladder sets the five categories in turn. */
  lemma {:induction false} LadderLabelSteps(b: seq<(string, real)>, rising: bool)
    requires WellFormedLadder(b, rising)
    ensures LabelDict(b) == map[Categories[0] := b[0].1][Categories[1] := b[1].1][Categories[2] := b[2].1]
                               [Categories[3] := b[3].1][Categories[4] := b[4].1]
  {
    assert forall k :: 0 <= k < 5 ==> b[k].0 == Categories[k] by { CategoryLabelFacts(); }
    var d1 := map[Categories[0] := b[0].1];
    assert LabelDict(b[..1]) == d1 by { assert b[..1][..0] == []; AddCategoryLabel(map[], 0, b[0].1); }
    var d2 := d1[Categories[1] := b[1].1];
    assert LabelDict(b[..2]) == d2 by { assert b[..2][..1] == b[..1]; AddCategoryLabel(d1, 1, b[1].1); }
    var d3 := d2[Categories[2] := b[2].1];
    assert LabelDict(b[..3]) == d3 by { assert b[..3][..2] == b[..2]; AddCategoryLabel(d2, 2, b[2].1); }
    var d4 := d3[Categories[3] := b[3].1];
    assert LabelDict(b[..4]) == d4 by { assert b[..4][..3] == b[..3]; AddCategoryLabel(d3, 3, b[3].1); }
    assert b[..4] == b[..|b| - 1];
    AddCategoryLabel(d4, 4, b[4].1);
  }

  /** The map of five distinct categories to their values. */
  lemma {:induction false} FiveCategoryMap(v0: real, v1: real, v2: real, v3: real, v4: real)
    ensures var d := map[Categories[0] := v0][Categories[1] := v1][Categories[2] := v2][Categories[3] := v3][Categories[4] := v4];
      && d.Keys == {"I类", "II类", "III类", "IV类", "V类"}
      && d[Categories[0]] == v0 && d[Categories[1]] == v1 && d[Categories[2]] == v2
      && d[Categories[3]] == v3 && d[Categories[4]] == v4
  {
    CategoryLabelFacts();
  }

  // ---------------------------------------------------------------- cell texts

  /** What a cell says about the readings of its category. */
  datatype Limit =
    | AtMost(v: real)      // "≤v"
    | AtLeast(v: real)     // "≥v"
    | Above(v: real)       // ">v"
    | Below(v: real)       // "<v"
    | NotListed            // "-": no bound for the category
    | NoWorstBound         // ">V类标准": no V类 bound to complement

  /** The f-string of a limit. */
  function Render(l: Limit, show: real -> string): string {
    match l
    case AtMost(v) => "≤" + show(v)
    case AtLeast(v) => "≥" + show(v)
    case Above(v) => ">" + show(v)
    case Below(v) => "<" + show(v)
    case NotListed => "-"
    case NoWorstBound => ">V类标准"
  }

  /** The readings a limit admits; a cell without a bound admits all. */
  predicate Admits(l: Limit, x: real) {
    match l
    case AtMost(v) => x <= v
    case AtLeast(v) => x >= v
    case Above(v) => x > v
    case Below(v) => x < v
    case NotListed => true
    case NoWorstBound => true
  }

  /** The general rule of `_cell_text_for`: "≤ bound" for I–V, "> V bound" for 劣V. */
  function GenericLimit(category: string, bdict: map<string, real>): Limit {
    if category == "劣V类" then (if "V类" in bdict then Above(bdict["V类"]) else NoWorstBound)
    else if category in bdict then AtMost(bdict[category])
    else NotListed
  }

  /** The same rule for a falling ladder (dissolved oxygen): "≥ bound" for I–V, "< V bound" for 劣V. */
  function FallingLimit(category: string, bdict: map<string, real>): Limit {
    if category == "劣V类" then (if "V类" in bdict then Below(bdict["V类"]) else NoWorstBound)
    else if category in bdict then AtLeast(bdict[category])
    else NotListed
  }

  /** The limit of a general cell, the comparison turned round where `metric_boundaries` draws a falling ladder. */
  function CellLimit(metricId: string, category: string, bdict: map<string, real>): Limit {
    if Contains(metricId, "溶解氧") then FallingLimit(category, bdict) else GenericLimit(category, bdict)
  }

  /** CODCr's fixed limits, as the f-strings print the integers. */
  const CodCrLimits: map<string, string> := map["I类" := "15", "II类" := "15", "III类" := "20", "IV类" := "30", "V类" := "40"]

  /** The pH and CODCr cells, which ignore the boundary dictionary. */
  function FixedCellText(metricId: string, category: string): string
    requires metricId == "pH" || metricId == "CODCr"
  {
    if metricId == "pH" then
      (if category in {"I类", "II类", "III类", "IV类", "V类"} then "6.0–9.0" else "<6.0 或 >9.0")
    else if category in CodCrLimits then "≤" + CodCrLimits[category]
    else ">" + CodCrLimits["V类"]
  }

  /** `_cell_text_for` as written: the general rule reads "≤" for every metric, dissolved oxygen included. */
  function CellTextAsWritten(metricId: string, waterType: string, category: string, bdict: map<string, real>,
                             show: real -> string): (t: string)
    ensures metricId != "pH" && metricId != "CODCr" && category != "劣V类" ==>
      (t == "-" <==> category !in bdict)
    ensures metricId != "pH" && metricId != "CODCr" && category != "劣V类" && category in bdict ==>
      t == "≤" + show(bdict[category])
    ensures metricId != "pH" && metricId != "CODCr" && category == "劣V类" ==>
      t == if "V类" in bdict then ">" + show(bdict["V类"]) else ">V类标准"
  {
    if metricId == "pH" || metricId == "CODCr" then FixedCellText(metricId, category)
    else
      var t := Render(GenericLimit(category, bdict), show);
      assert category != "劣V类" && category in bdict ==> t[0] == '≤';
      t
  }

  /** `_cell_text_for` with the dissolved-oxygen comparisons turned round. */
  function CellText(metricId: string, waterType: string, category: string, bdict: map<string, real>,
                    show: real -> string): (t: string)
    ensures !Contains(metricId, "溶解氧") ==> t == CellTextAsWritten(metricId, waterType, category, bdict, show)
  {
    if metricId == "pH" || metricId == "CODCr" then FixedCellText(metricId, category)
    else Render(CellLimit(metricId, category, bdict), show)
  }

  /** pH: every category I–V reads 6.0–9.0 and any other reads "<6.0 或 >9.0", whatever the dictionary holds. */
  lemma PHCellTexts(waterType: string, category: string, bdict: map<string, real>, show: real -> string)
    ensures CellText("pH", waterType, category, bdict, show)
         == if IsCategory(category) && category != "劣V类" then "6.0–9.0" else "<6.0 或 >9.0"
  {
  }

  /** CODCr: I and II read ≤15, III ≤20, IV ≤30, V ≤40, anything else >40. */
  lemma CODCrCellTexts(waterType: string, bdict: map<string, real>, show: real -> string)
    ensures CellText("CODCr", waterType, "I类", bdict, show) == "≤15"
    ensures CellText("CODCr", waterType, "II类", bdict, show) == "≤15"
    ensures CellText("CODCr", waterType, "III类", bdict, show) == "≤20"
    ensures CellText("CODCr", waterType, "IV类", bdict, show) == "≤30"
    ensures CellText("CODCr", waterType, "V类", bdict, show) == "≤40"
    ensures forall c :: !IsCategory(c) || c == "劣V类" ==> CellText("CODCr", waterType, c, bdict, show) == ">40"
  {
  }

  /** With no bounds, I–V cells read "-" and the 劣V cell ">V类标准". */
  lemma EmptyBoundsCells(metricId: string, waterType: string, category: string, show: real -> string)
    requires metricId != "pH" && metricId != "CODCr"
    ensures CellText(metricId, waterType, category, map[], show) == if category == "劣V类" then ">V类标准" else "-"
  {
  }

  // ---------------------------------------------------------------- cells against the classifier

  /** On an ordered ladder a reading meets the k-th bound exactly when the first bound it meets is no later. */
  lemma {:induction false} MeetsIffFirstMet(b: seq<(string, real)>, rising: bool, k: nat, x: real)
    requires StrictlyOrdered(b, rising) && k < |b|
    ensures Meets(x, b[k].1, rising) <==> FirstMet(b, x, rising) <= k
  {
    var n := FirstMet(b, x, rising);
    if n < k {
      assert Ahead(b[n].1, b[k].1, rising);
    }
  }

  /**
   * On a well-formed ladder, the cell of the k-th category (rule turned
   * round for a falling ladder) admits exactly the readings the ladder puts
   * in that category or a better one; the 劣V cell admits exactly the
   * readings it puts in 劣V类.
   */
  lemma {:induction false} LadderLimitMatches(b: seq<(string, real)>, rising: bool, k: nat, x: real)
    requires WellFormedLadder(b, rising) && k < 6
    ensures var bdict := LabelDict(b);
      var l := if rising then GenericLimit(Categories[k], bdict) else FallingLimit(Categories[k], bdict);
      var cat := LadderCategory(b, x, rising);
      && (k < 5 ==> (Admits(l, x) <==> Order(cat) <= k + 1))
      && (k == 5 ==> (Admits(l, x) <==> cat == "劣V类"))
  {
    var bdict := LabelDict(b);
    LabelDictOfLadder(b, rising);
    CategoryLabelFacts();
    LadderSeverity(b, x, rising);
    LadderIsFirstMet(b, x, rising);
    if k < 5 {
      MeetsIffFirstMet(b, rising, k, x);
      assert Categories[k] != "劣V类" && Categories[k] in bdict;
    } else {
      MeetsIffFirstMet(b, rising, 4, x);
      assert "V类" in bdict && bdict["V类"] == b[4].1;
      assert FirstMet(b, x, rising) < 5 ==> b[FirstMet(b, x, rising)].0 != "劣V类";
    }
  }

  /**
   * For every metric with a ladder (not pH), the cell limit of each category
   * agrees with `classify_metric` under the same water type: the I–V cells
   * admit exactly the readings of that category or better, the 劣V cell
   * exactly the readings classified 劣V类.
   */
  lemma {:induction false} CellLimitsMatchClassifier(m: string, waterType: string, k: nat, x: real)
    requires !Contains(Lower(m), "ph") && MetricBoundaries(m, waterType) != [] && k < 6
    ensures var l := CellLimit(m, Categories[k], LabelDict(MetricBoundaries(m, waterType)));
      var cat := WaterQualityClassifier(waterType).ClassifyMetric(m, Some(x));
      && (k < 5 ==> (Admits(l, x) <==> Order(cat) <= k + 1))
      && (k == 5 ==> (Admits(l, x) <==> cat == "劣V类"))
  {
    var b := MetricBoundaries(m, waterType);
    BoundariesWellFormed(m, waterType);
    ClassifyMetricFollowsBoundaries(WaterQualityClassifier(waterType), m, x);
    LadderLimitMatches(b, !Contains(m, "溶解氧"), k, x);
  }

  /** As written, the dissolved-oxygen I类 cell reads "≤7.5", yet 8.0 is classified I类 and is not ≤ 7.5. */
  lemma {:induction false} DissolvedOxygenCellAsWritten(show: real -> string)
    ensures var bdict := LabelDict(DissolvedOxygenBounds);
      && CellTextAsWritten("溶解氧", River, "I类", bdict, show) == Render(AtMost(7.5), show)
      && WaterQualityClassifier(River).ClassifyMetric("溶解氧", Some(8.0)) == "I类"
      && !Admits(AtMost(7.5), 8.0)
  {
    DissolvedOxygenLabels();
    DissolvedOxygenReadings();
  }

  /** As written, the dissolved-oxygen 劣V cell reads ">2.0", yet 1.0 is classified 劣V类 and is not above 2.0. */
  lemma {:induction false} DissolvedOxygenWorstCellAsWritten(show: real -> string)
    ensures var bdict := LabelDict(DissolvedOxygenBounds);
      && CellTextAsWritten("溶解氧", River, "劣V类", bdict, show) == Render(Above(2.0), show)
      && WaterQualityClassifier(River).ClassifyMetric("溶解氧", Some(1.0)) == "劣V类"
      && !Admits(Above(2.0), 1.0)
  {
    DissolvedOxygenLabels();
    DissolvedOxygenReadings();
  }

  lemma {:induction false} DissolvedOxygenLabels()
    ensures var bdict := LabelDict(DissolvedOxygenBounds);
      "I类" in bdict && bdict["I类"] == 7.5 && "V类" in bdict && bdict["V类"] == 2.0
  {
    DissolvedOxygenTableWellFormed();
    LabelDictOfLadder(DissolvedOxygenBounds, false);
    assert Categories[0] == "I类" && Categories[4] == "V类";
  }

  lemma {:induction false} DissolvedOxygenReadings()
    ensures WaterQualityClassifier(River).ClassifyMetric("溶解氧", Some(8.0)) == "I类"
    ensures WaterQualityClassifier(River).ClassifyMetric("溶解氧", Some(1.0)) == "劣V类"
  {
    DissolvedOxygenIdFacts();
    ClassifyMetricFollowsBoundaries(WaterQualityClassifier(River), "溶解氧", 8.0);
    ClassifyMetricFollowsBoundaries(WaterQualityClassifier(River), "溶解氧", 1.0);
    LadderUnfold(DissolvedOxygenBounds, 8.0, false);
    LadderUnfold(DissolvedOxygenBounds, 1.0, false);
  }

  lemma DissolvedOxygenIdFacts()
    ensures !Contains(Lower("溶解氧"), "ph") && Contains("溶解氧", "溶解氧")
    ensures forall wt :: MetricBoundaries("溶解氧", wt) == DissolvedOxygenBounds
  {
    LowerNoop("溶解氧");
    MissingCharNotContained("溶解氧", "ph", 0);
    assert MatchAt("溶解氧", "溶解氧", 0);
  }

  // ---------------------------------------------------------------- the table

  /**
   * The text of cell (r, c) as the program shows it: the display name in
   * column 0, then one `_cell_text_for` cell per category. It can differ
   * from the corrected table only on a row whose id holds 溶解氧.
   */
  function TableText(r: nat, c: nat, show: real -> string): (t: string)
    requires r < |Metrics| && c <= |Categories|
    ensures c == 0 ==> t == Metrics[r].displayName
    ensures !Contains(Metrics[r].metricId, "溶解氧") ==> t == CorrectedTableText(r, c, show)
  {
    var row := Metrics[r];
    if c == 0 then row.displayName
    else CellTextAsWritten(row.metricId, row.waterType, Categories[c - 1],
                           LabelDict(MetricBoundaries(row.metricId, row.waterType)), show)
  }

  /** The table with the dissolved-oxygen comparisons turned round. */
  function CorrectedTableText(r: nat, c: nat, show: real -> string): string
    requires r < |Metrics| && c <= |Categories|
  {
    var row := Metrics[r];
    if c == 0 then row.displayName
    else CellText(row.metricId, row.waterType, Categories[c - 1],
                  LabelDict(MetricBoundaries(row.metricId, row.waterType)), show)
  }

  /** The texts of row r. */
  function RowTexts(r: nat, show: real -> string): (cells: seq<string>)
    requires r < |Metrics|
    ensures |cells| == |Categories| + 1
    ensures forall c :: 0 <= c < |cells| ==> cells[c] == TableText(r, c, show)
  {
    seq(|Categories| + 1, c requires 0 <= c <= |Categories| => TableText(r, c, show))
  }

  /** The body of the row loop of `populate_table`: the name cell, then one cell per category. */
  method PopulateRow(r: nat, show: real -> string) returns (cells: seq<string>)
    requires r < |Metrics|
    ensures cells == RowTexts(r, show)
  {
    var MetricRow(name, mid, wtype) := Metrics[r];
    var bounds := MetricBoundaries(mid, wtype);
    var bdict := BuildLabelDict(bounds);
    cells := [name];
    for c := 1 to |Categories| + 1
      invariant |cells| == c
      invariant forall j :: 0 <= j < c ==> cells[j] == TableText(r, j, show)
    {
      cells := cells + [CellTextAsWritten(mid, wtype, Categories[c - 1], bdict, show)];
    }
  }

  /** `populate_table`: one row of |CATEGORIES| + 1 texts per entry of `METRICS`. */
  method PopulateTable(show: real -> string) returns (table: seq<seq<string>>)
    ensures |table| == |Metrics|
    ensures forall r :: 0 <= r < |table| ==> table[r] == RowTexts(r, show)
  {
    table := [];
    for r := 0 to |Metrics|
      invariant |table| == r
      invariant forall i :: 0 <= i < r ==> table[i] == RowTexts(i, show)
    {
      var cells := PopulateRow(r, show);
      table := table + [cells];
    }
  }

  /** Only row 1 (溶解氧) has an id holding 溶解氧, so every other row reads as in the corrected table. */
  lemma {:induction false} OnlyOxygenRowDiffers(r: nat, c: nat, show: real -> string)
    requires r < |Metrics| && r != 1 && c <= |Categories|
    ensures TableText(r, c, show) == CorrectedTableText(r, c, show)
  {
    var id := Metrics[r].metricId;
    if r == 0 {
      assert id == "pH";
    } else if r == 2 {
      assert id == "CODMn";
    } else if r == 3 {
      assert id == "CODCr";
    } else if r == 4 {
      assert id == "氨氮";
    } else if r == 5 || r == 6 {
      assert id == "总磷";
    } else if r == 7 {
      assert id == "总氮";
    } else {
      assert id == "生化需氧量";
    }
    MissingCharNotContained(id, "溶解氧", 0);
  }

  /** The rows whose metric has a five-bound ladder: 溶解氧, CODMn, 氨氮 and both 总磷 rows. */
  predicate LadderRow(r: nat) {
    r == 1 || r == 2 || r == 4 || r == 5 || r == 6
  }

  /**
   * The cells of the CODMn, 氨氮 and both 总磷 rows, as shown: each is the
   * rendering of its cell limit, and that limit agrees with `classify_metric`
   * for the row's metric and water type: column c < 6 admits exactly the
   * readings classified in category c or better, column 6 exactly the
   * readings classified 劣V类. Row 1 (溶解氧) is left out: as shown, its
   * cells contradict the classifier.
   */
  lemma {:induction false} TableCellsMatchClassifier(r: nat, c: nat, x: real, show: real -> string)
    requires LadderRow(r) && r != 1 && 1 <= c <= 6
    ensures var row := Metrics[r];
      var l := CellLimit(row.metricId, Categories[c - 1], LabelDict(MetricBoundaries(row.metricId, row.waterType)));
      var cat := WaterQualityClassifier(row.waterType).ClassifyMetric(row.metricId, Some(x));
      && TableText(r, c, show) == Render(l, show)
      && (c < 6 ==> (Admits(l, x) <==> Order(cat) <= c))
      && (c == 6 ==> (Admits(l, x) <==> cat == "劣V类"))
  {
    CorrectedCellsMatchClassifier(r, c, x, show);
    OnlyOxygenRowDiffers(r, c, show);
  }

  /** Row 1 as shown: "≤7.5" under I类 and ">2.0" under 劣V类, read against the classifier's 8.0 ↦ I类 and 1.0 ↦ 劣V类. */
  lemma {:induction false} DissolvedOxygenRowAsWritten(show: real -> string)
    ensures TableText(1, 1, show) == "≤" + show(7.5)
    ensures TableText(1, 6, show) == ">" + show(2.0)
    ensures WaterQualityClassifier(River).ClassifyMetric("溶解氧", Some(8.0)) == "I类"
    ensures WaterQualityClassifier(River).ClassifyMetric("溶解氧", Some(1.0)) == "劣V类"
  {
    assert Metrics[1] == MetricRow("溶解氧", "溶解氧", River);
    DissolvedOxygenIdFacts();
    CategoryLabelFacts();
    DissolvedOxygenCellAsWritten(show);
    DissolvedOxygenWorstCellAsWritten(show);
  }

  /**
   * The corrected table on every ladder row, 溶解氧 included: each cell is
   * the rendering of a limit that admits exactly the readings the classifier
   * puts in that column's category or better (劣V类 for column 6).
   */
  lemma {:induction false} CorrectedCellsMatchClassifier(r: nat, c: nat, x: real, show: real -> string)
    requires LadderRow(r) && 1 <= c <= 6
    ensures var row := Metrics[r];
      var l := CellLimit(row.metricId, Categories[c - 1], LabelDict(MetricBoundaries(row.metricId, row.waterType)));
      var cat := WaterQualityClassifier(row.waterType).ClassifyMetric(row.metricId, Some(x));
      && CorrectedTableText(r, c, show) == Render(l, show)
      && (c < 6 ==> (Admits(l, x) <==> Order(cat) <= c))
      && (c == 6 ==> (Admits(l, x) <==> cat == "劣V类"))
  {
    var row := Metrics[r];
    if r == 1 {
      assert row == MetricRow("溶解氧", "溶解氧", River);
      DissolvedOxygenIdFacts();
    } else if r == 2 {
      assert row == MetricRow("高锰酸盐指数", "CODMn", River);
      PermanganateIdFacts();
    } else if r == 4 {
      assert row == MetricRow("氨氮", "氨氮", River);
      AmmoniaIdFacts();
    } else {
      assert row.metricId == "总磷";
      PhosphorusIdFacts(row.waterType);
    }
    CellMatchesClassifier(row.metricId, row.waterType, c, x, show);
  }

  /** One general cell (c = 1 … 6) of a metric with a ladder, against the classifier. */
  lemma {:induction false} CellMatchesClassifier(m: string, waterType: string, c: nat, x: real, show: real -> string)
    requires m != "pH" && m != "CODCr" && 1 <= c <= 6
    requires !Contains(Lower(m), "ph") && MetricBoundaries(m, waterType) != []
    ensures var bdict := LabelDict(MetricBoundaries(m, waterType));
      var l := CellLimit(m, Categories[c - 1], bdict);
      var cat := WaterQualityClassifier(waterType).ClassifyMetric(m, Some(x));
      && CellText(m, waterType, Categories[c - 1], bdict, show) == Render(l, show)
      && (c < 6 ==> (Admits(l, x) <==> Order(cat) <= c))
      && (c == 6 ==> (Admits(l, x) <==> cat == "劣V类"))
  {
    CellLimitsMatchClassifier(m, waterType, c - 1, x);
  }

  lemma {:induction false} PermanganateIdFacts()
    ensures !Contains(Lower("CODMn"), "ph") && MetricBoundaries("CODMn", River) == PermanganateBounds
  {
    assert Lower("CODMn") == "codmn";
    MissingCharNotContained("codmn", "ph", 0);
    MissingCharNotContained("CODMn", "溶解氧", 0);
    assert MatchAt("codmn", "cod", 0);
  }

  lemma {:induction false} AmmoniaIdFacts()
    ensures !Contains(Lower("氨氮"), "ph") && MetricBoundaries("氨氮", River) == AmmoniaBounds
  {
    LowerNoop("氨氮");
    MissingCharNotContained("氨氮", "ph", 0);
    MissingCharNotContained("氨氮", "溶解氧", 0);
    MissingCharNotContained("氨氮", "cod", 0);
    MissingCharNotContained("氨氮", "高锰酸", 0);
    assert MatchAt("氨氮", "氨氮", 0);
  }

  lemma {:induction false} PhosphorusIdFacts(waterType: string)
    ensures !Contains(Lower("总磷"), "ph")
    ensures MetricBoundaries("总磷", waterType) == if waterType == Lake then LakePhosphorusBounds else RiverPhosphorusBounds
  {
    LowerNoop("总磷");
    MissingCharNotContained("总磷", "ph", 0);
    MissingCharNotContained("总磷", "溶解氧", 0);
    MissingCharNotContained("总磷", "cod", 0);
    MissingCharNotContained("总磷", "高锰酸", 0);
    MissingCharNotContained("总磷", "氨氮", 0);
    assert MatchAt("总磷", "总磷", 0);
  }

  /** The two 总磷 rows draw different ladders: row 5 the river bounds, row 6 the lake bounds. */
  lemma {:induction false} PhosphorusRowsByWaterType(show: real -> string)
    ensures TableText(5, 1, show) == "≤" + show(0.02)
    ensures TableText(5, 6, show) == ">" + show(0.4)
    ensures TableText(6, 1, show) == "≤" + show(0.015)
    ensures TableText(6, 6, show) == ">" + show(0.2)
  {
    RiverPhosphorusRow(show);
    LakePhosphorusRow(show);
  }

  lemma {:induction false} RiverPhosphorusRow(show: real -> string)
    ensures TableText(5, 1, show) == "≤" + show(0.02) && TableText(5, 6, show) == ">" + show(0.4)
  {
    assert Metrics[5] == MetricRow("总磷（河流）", "总磷", River);
    PhosphorusIdFacts(River);
    RiverPhosphorusTableWellFormed();
    LabelDictOfLadder(RiverPhosphorusBounds, true);
    CategoryLabelFacts();
  }

  lemma {:induction false} LakePhosphorusRow(show: real -> string)
    ensures TableText(6, 1, show) == "≤" + show(0.015) && TableText(6, 6, show) == ">" + show(0.2)
  {
    assert Metrics[6] == MetricRow("总磷（湖库）", "总磷", Lake);
    PhosphorusIdFacts(Lake);
    LakePhosphorusTableWellFormed();
    LabelDictOfLadder(LakePhosphorusBounds, true);
    CategoryLabelFacts();
  }

  /** Rows 7 and 8 (总氮, 生化需氧量) have no boundary list: I–V read "-", 劣V ">V类标准". */
  lemma UnboundedRows(show: real -> string)
    ensures forall r, c :: 7 <= r < 9 && 1 <= c <= 6 ==>
      TableText(r, c, show) == if c == 6 then ">V类标准" else "-"
  {
    UnboundedIds();
    PHLabelsDropped();
    assert LabelDict([]) == map[];
  }

  lemma UnboundedIds()
    ensures MetricBoundaries("总氮", River) == [] && MetricBoundaries("生化需氧量", River) == []
  {
    LowerNoop("总氮");
    LowerNoop("生化需氧量");
    NoBoundariesIff("总氮", River);
    NoBoundariesIff("生化需氧量", River);
    MissingCharNotContained("总氮", "ph", 0);
    MissingCharNotContained("总氮", "溶解氧", 0);
    MissingCharNotContained("总氮", "cod", 0);
    MissingCharNotContained("总氮", "高锰酸", 0);
    MissingCharNotContained("总氮", "氨氮", 0);
    MissingCharNotContained("总氮", "总磷", 1);
    MissingCharNotContained("生化需氧量", "ph", 0);
    MissingCharNotContained("生化需氧量", "溶解氧", 1);
    MissingCharNotContained("生化需氧量", "cod", 0);
    MissingCharNotContained("生化需氧量", "高锰酸", 0);
    MissingCharNotContained("生化需氧量", "氨氮", 0);
    MissingCharNotContained("生化需氧量", "总磷", 0);
  }
}

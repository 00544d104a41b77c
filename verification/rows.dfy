/**
 * `build_row_data` of utils.py: the sheet row (a dictionary from header to
 * cell text) for one station and date. Every key goes through
 * `sanitize_label`, and so do the name, date, category and coordinate
 * texts; a metric's value is only `str(val).strip()`, and the factor texts
 * are not sanitised at all. `nfkc` stands for Unicode NFKC normalisation and
 * `show` for Python's `str` of a number.
 */
module Rows {
  import opened Wrappers
  import opened Text
  import opened Utils

  /** The value of a metric definition: `None`, a string, or a number. */
  datatype Value = Null | Str(s: string) | Num(x: real)

  /** `str(val)`. */
  function ValueText(v: Value, show: real -> string): string {
    match v
    case Null => "None"
    case Str(s) => s
    case Num(x) => show(x)
  }

  /** Python truthiness of a value: `None`, `""` and zero are false. */
  predicate Truthy(v: Value) {
    match v
    case Null => false
    case Str(s) => s != ""
    case Num(x) => x != 0.0
  }

  /** One `(name, val, cat)` entry of `metric_definitions`. */
  datatype MetricDef = MetricDef(name: string, val: Value, cat: Option<string>)

  /** `val is None or str(val).strip() == ""`: the entry gets no column. */
  predicate IsBlank(v: Value, show: real -> string) {
    v.Null? || Strip(ValueText(v, show)) == ""
  }

  /** The column of a metric's value. */
  function NameKey(d: MetricDef, nfkc: string -> string): string {
    SanitizeLabel(Some(d.name), nfkc)
  }

  /** The column of a metric's category: `f"{name}类别"`, sanitised. */
  function CategoryKey(d: MetricDef, nfkc: string -> string): string {
    SanitizeLabel(Some(d.name + "类别"), nfkc)
  }

  /** One step of the first loop of `build_row_data`. */
  function AddMetric(row: map<string, string>, d: MetricDef, includeCategories: bool,
                     nfkc: string -> string, show: real -> string): map<string, string>
  {
    if IsBlank(d.val, show) then row
    else
      var row1 := row[NameKey(d, nfkc) := Strip(ValueText(d.val, show))];
      if includeCategories then row1[CategoryKey(d, nfkc) := SanitizeLabel(d.cat, nfkc)] else row1
  }

  /** The first loop of `build_row_data`, over all of `defs`. */
  function AddMetrics(row: map<string, string>, defs: seq<MetricDef>, includeCategories: bool,
                      nfkc: string -> string, show: real -> string): map<string, string>
  {
    if defs == [] then row
    else
      var n := |defs| - 1;
      AddMetric(AddMetrics(row, defs[..n], includeCategories, nfkc, show), defs[n], includeCategories, nfkc, show)
  }

  /** The columns one entry contributes: its value column unless blank, and its category column when asked for. */
  function DefKeys(d: MetricDef, includeCategories: bool, nfkc: string -> string, show: real -> string): set<string> {
    if IsBlank(d.val, show) then {}
    else {NameKey(d, nfkc)} + (if includeCategories then {CategoryKey(d, nfkc)} else {})
  }

  /** `DefKeys` under fixed options, as a function of the entry alone. */
  function DefKeysOf(includeCategories: bool, nfkc: string -> string, show: real -> string): (f: MetricDef -> set<string>)
    ensures forall d :: f(d) == DefKeys(d, includeCategories, nfkc, show)
  {
    d => DefKeys(d, includeCategories, nfkc, show)
  }

  /** The union of `f` over the entries. */
  function UnionOver(defs: seq<MetricDef>, f: MetricDef -> set<string>): set<string> {
    if defs == [] then {}
    else
      var n := |defs| - 1;
      UnionOver(defs[..n], f) + f(defs[n])
  }

  /** The columns all entries contribute. */
  function MetricKeys(defs: seq<MetricDef>, includeCategories: bool, nfkc: string -> string, show: real -> string): set<string> {
    UnionOver(defs, DefKeysOf(includeCategories, nfkc, show))
  }

  /** `f"{name}（{val}）"`. */
  function FactorText(d: MetricDef, show: real -> string): string {
    d.name + "（" + ValueText(d.val, show) + "）"
  }

  /** Whether the second loop of `build_row_data` lists the entry under category `cat`. */
  predicate ListedUnder(d: MetricDef, cat: string) {
    Truthy(d.val) && d.cat == Some(cat)
  }

  /** `groups[cat]` after the second loop of `build_row_data`. */
  function FactorList(defs: seq<MetricDef>, cat: string, show: real -> string): (r: seq<string>)
    ensures |r| <= |defs|
  {
    if defs == [] then []
    else
      var n := |defs| - 1;
      var front := FactorList(defs[..n], cat, show);
      if ListedUnder(defs[n], cat) then front + [FactorText(defs[n], show)] else front
  }

  const FixedKeys: set<string> := {"点位名称", "监测日期", "四类因子", "五类因子", "劣五类因子"}

  /** `include_lonlat and lon and lat`. */
  predicate LonLatWritten(includeLonLat: bool, lon: string, lat: string) {
    includeLonLat && lon != "" && lat != ""
  }

  /** The row before the metric loop: station name and sampling date. */
  function BaseRow(stationName: string, samplingDate: string, nfkc: string -> string): map<string, string> {
    map["点位名称" := SanitizeLabel(Some(stationName), nfkc), "监测日期" := SanitizeLabel(Some(samplingDate), nfkc)]
  }

  /** The longitude and latitude columns, written only when both are requested and given. */
  function WithLonLat(row: map<string, string>, includeLonLat: bool, lon: string, lat: string,
                      nfkc: string -> string): map<string, string>
  {
    if LonLatWritten(includeLonLat, lon, lat)
    then row["经度" := SanitizeLabel(Some(lon), nfkc)]["纬度" := SanitizeLabel(Some(lat), nfkc)]
    else row
  }

  /** The three factor columns, written last. */
  function WithFactors(row: map<string, string>, defs: seq<MetricDef>, show: real -> string): map<string, string> {
    row["四类因子" := Join("，", FactorList(defs, "IV类", show))]
       ["五类因子" := Join("，", FactorList(defs, "V类", show))]
       ["劣五类因子" := Join("，", FactorList(defs, "劣V类", show))]
  }

  /** The dictionary `build_row_data` returns. */
  function RowData(stationName: string, samplingDate: string, defs: seq<MetricDef>,
                   includeCategories: bool, includeLonLat: bool, lon: string, lat: string,
                   nfkc: string -> string, show: real -> string): map<string, string>
  {
    var row := AddMetrics(BaseRow(stationName, samplingDate, nfkc), defs, includeCategories, nfkc, show);
    WithFactors(WithLonLat(row, includeLonLat, lon, lat, nfkc), defs, show)
  }

  /** The first loop of `build_row_data`: a value column per non-blank entry, and its category column when asked for. */
  method AddMetricColumns(row: map<string, string>, defs: seq<MetricDef>, includeCategories: bool,
                          nfkc: string -> string, show: real -> string)
    returns (rowData: map<string, string>)
    ensures rowData == AddMetrics(row, defs, includeCategories, nfkc, show)
  {
    rowData := row;
    for i := 0 to |defs|
      invariant rowData == AddMetrics(row, defs[..i], includeCategories, nfkc, show)
    {
      assert defs[..i + 1][..i] == defs[..i];
      var d := defs[i];
      ghost var prev := rowData;
      if IsBlank(d.val, show) {
        continue;
      }
      rowData := rowData[NameKey(d, nfkc) := Strip(ValueText(d.val, show))];
      if includeCategories {
        rowData := rowData[CategoryKey(d, nfkc) := SanitizeLabel(d.cat, nfkc)];
      }
      assert rowData == AddMetric(prev, d, includeCategories, nfkc, show);
    }
    assert defs[..|defs|] == defs;
  }

  /** The second loop of `build_row_data`: the entries of each of IV类, V类 and 劣V类, in input order. */
  method GroupFactors(defs: seq<MetricDef>, show: real -> string) returns (groups: map<string, seq<string>>)
    ensures groups == map["IV类" := FactorList(defs, "IV类", show),
                          "V类" := FactorList(defs, "V类", show),
                          "劣V类" := FactorList(defs, "劣V类", show)]
  {
    groups := map["IV类" := [], "V类" := [], "劣V类" := []];
    for i := 0 to |defs|
      invariant groups == map["IV类" := FactorList(defs[..i], "IV类", show),
                              "V类" := FactorList(defs[..i], "V类", show),
                              "劣V类" := FactorList(defs[..i], "劣V类", show)]
    {
      assert defs[..i + 1][..i] == defs[..i];
      var d := defs[i];
      if Truthy(d.val) && d.cat.Some? && d.cat.value in groups {
        groups := groups[d.cat.value := groups[d.cat.value] + [FactorText(d, show)]];
      }
    }
    assert defs[..|defs|] == defs;
  }

  /** `build_row_data`. */
  method BuildRowData(stationName: string, samplingDate: string, defs: seq<MetricDef>,
                      includeCategories: bool, includeLonLat: bool, lon: string, lat: string,
                      nfkc: string -> string, show: real -> string)
    returns (rowData: map<string, string>)
    ensures rowData == RowData(stationName, samplingDate, defs, includeCategories, includeLonLat, lon, lat, nfkc, show)
  {
    rowData := map[];
    rowData := rowData["点位名称" := SanitizeLabel(Some(stationName), nfkc)];
    rowData := rowData["监测日期" := SanitizeLabel(Some(samplingDate), nfkc)];
    assert rowData == BaseRow(stationName, samplingDate, nfkc);
    rowData := AddMetricColumns(rowData, defs, includeCategories, nfkc, show);

    ghost var afterMetrics := rowData;
    if includeLonLat && lon != "" && lat != "" {
      rowData := rowData["经度" := SanitizeLabel(Some(lon), nfkc)];
      rowData := rowData["纬度" := SanitizeLabel(Some(lat), nfkc)];
    }
    assert rowData == WithLonLat(afterMetrics, includeLonLat, lon, lat, nfkc);
    ghost var afterLonLat := rowData;

    var groups := GroupFactors(defs, show);
    assert groups["IV类"] == FactorList(defs, "IV类", show);
    assert groups["V类"] == FactorList(defs, "V类", show);
    assert groups["劣V类"] == FactorList(defs, "劣V类", show);
    rowData := rowData["四类因子" := Join("，", groups["IV类"])];
    rowData := rowData["五类因子" := Join("，", groups["V类"])];
    rowData := rowData["劣五类因子" := Join("，", groups["劣V类"])];
    assert rowData == WithFactors(afterLonLat, defs, show);
  }

  /** The metric loop adds exactly the metric columns to the keys it starts from. */
  lemma {:induction false} AddMetricsKeys(row: map<string, string>, defs: seq<MetricDef>, includeCategories: bool,
                                          nfkc: string -> string, show: real -> string)
    ensures AddMetrics(row, defs, includeCategories, nfkc, show).Keys == row.Keys + MetricKeys(defs, includeCategories, nfkc, show)
  {
    if defs != [] {
      var n := |defs| - 1;
      AddMetricsKeys(row, defs[..n], includeCategories, nfkc, show);
    }
  }

  /** Column `k` belongs to entry `d`: its value column unless blank, or its category column when asked for. */
  predicate ColumnOf(d: MetricDef, k: string, includeCategories: bool, nfkc: string -> string, show: real -> string) {
    !IsBlank(d.val, show) && (k == NameKey(d, nfkc) || (includeCategories && k == CategoryKey(d, nfkc)))
  }

  /** A union over the entries holds exactly what one of them contributes. */
  lemma {:induction false} UnionOverMembers(defs: seq<MetricDef>, f: MetricDef -> set<string>)
    ensures forall k :: k in UnionOver(defs, f) <==> exists i :: 0 <= i < |defs| && k in f(defs[i])
  {
    if defs != [] {
      var n := |defs| - 1;
      UnionOverMembers(defs[..n], f);
      forall i | 0 <= i < n ensures defs[..n][i] == defs[i] { }
    }
  }

  /** The metric columns are exactly the columns of the entries. */
  lemma {:induction false} MetricKeysMembers(defs: seq<MetricDef>, includeCategories: bool, nfkc: string -> string, show: real -> string)
    ensures forall k :: k in MetricKeys(defs, includeCategories, nfkc, show) <==>
      exists i :: 0 <= i < |defs| && ColumnOf(defs[i], k, includeCategories, nfkc, show)
  {
    var f := DefKeysOf(includeCategories, nfkc, show);
    UnionOverMembers(defs, f);
    forall k, i | 0 <= i < |defs|
      ensures k in f(defs[i]) <==> ColumnOf(defs[i], k, includeCategories, nfkc, show)
    {
    }
  }

  /**
   * The columns of the row: the five fixed ones, the metric columns, and
   * 经度/纬度 exactly when longitude and latitude are both requested and given.
   */
  lemma {:induction false} RowDataKeys(stationName: string, samplingDate: string, defs: seq<MetricDef>,
                                       includeCategories: bool, includeLonLat: bool, lon: string, lat: string,
                                       nfkc: string -> string, show: real -> string)
    ensures var row := RowData(stationName, samplingDate, defs, includeCategories, includeLonLat, lon, lat, nfkc, show);
      row.Keys == FixedKeys + MetricKeys(defs, includeCategories, nfkc, show)
                  + (if LonLatWritten(includeLonLat, lon, lat) then {"经度", "纬度"} else {})
  {
    AddMetricsKeys(BaseRow(stationName, samplingDate, nfkc), defs, includeCategories, nfkc, show);
  }

  /** Every column of the row is a clean label: the fixed names are, and every other key comes out of `sanitize_label`. */
  lemma {:induction false} RowDataKeysClean(stationName: string, samplingDate: string, defs: seq<MetricDef>,
                                            includeCategories: bool, includeLonLat: bool, lon: string, lat: string,
                                            nfkc: string -> string, show: real -> string)
    ensures var row := RowData(stationName, samplingDate, defs, includeCategories, includeLonLat, lon, lat, nfkc, show);
      forall k :: k in row.Keys ==> IsCleanLabel(k)
  {
    RowDataKeys(stationName, samplingDate, defs, includeCategories, includeLonLat, lon, lat, nfkc, show);
    MetricKeysMembers(defs, includeCategories, nfkc, show);
    FixedKeysClean();
  }

  lemma FixedKeysClean()
    ensures forall k :: k in FixedKeys + {"经度", "纬度"} ==> IsCleanLabel(k)
  {
    HanLabelClean("点位名称");
    HanLabelClean("监测日期");
    HanLabelClean("四类因子");
    HanLabelClean("五类因子");
    HanLabelClean("劣五类因子");
    HanLabelClean("经度");
    HanLabelClean("纬度");
  }

  /** A label made only of CJK unified ideographs is clean. */
  lemma HanLabelClean(s: string)
    requires forall i :: 0 <= i < |s| ==> '\U{4E00}' <= s[i] <= '\U{9FFF}'
    ensures IsCleanLabel(s)
  {
  }

  /**
   * A metric's value is stored as `str(val).strip()` and not sanitised: a
   * zero-width space that `sanitize_label` would remove stays in the row.
   */
  lemma MetricValueNotSanitised(nfkc: string -> string, show: real -> string)
    requires nfkc("NH") == "NH"
    ensures var row := RowData("S", "D", [MetricDef("NH", Str("1\U{200B}"), None)], false, false, "", "", nfkc, show);
      "NH" in row && row["NH"] == "1\U{200B}" && !IsCleanLabel(row["NH"])
  {
    var d := MetricDef("NH", Str("1\U{200B}"), None);
    var row1 := AddMetrics(BaseRow("S", "D", nfkc), [d], false, nfkc, show);
    ZeroWidthValueColumn(BaseRow("S", "D", nfkc), nfkc, show);
    FactorsKeepColumn(row1, [d], show, "NH");
    ZeroWidthValueNotClean();
  }

  /** The factor columns leave every other column as it was. */
  lemma FactorsKeepColumn(row: map<string, string>, defs: seq<MetricDef>, show: real -> string, k: string)
    requires k != "四类因子" && k != "五类因子" && k != "劣五类因子"
    ensures k in WithFactors(row, defs, show) <==> k in row
    ensures k in row ==> WithFactors(row, defs, show)[k] == row[k]
  {
  }

  lemma {:induction false} ZeroWidthValueColumn(base: map<string, string>, nfkc: string -> string, show: real -> string)
    requires nfkc("NH") == "NH"
    ensures AddMetrics(base, [MetricDef("NH", Str("1\U{200B}"), None)], false, nfkc, show) == base["NH" := "1\U{200B}"]
  {
    var d := MetricDef("NH", Str("1\U{200B}"), None);
    ZeroWidthValueEntry(nfkc, show);
    assert [d][..0] == [];
    assert AddMetrics(base, [], false, nfkc, show) == base;
  }

  lemma {:induction false} ZeroWidthValueEntry(nfkc: string -> string, show: real -> string)
    requires nfkc("NH") == "NH"
    ensures var d := MetricDef("NH", Str("1\U{200B}"), None);
      NameKey(d, nfkc) == "NH" && Strip(ValueText(d.val, show)) == "1\U{200B}" && !IsBlank(d.val, show)
  {
    assert IsCleanLabel("NH") by { assert SingleSpaced("NH"); }
    SanitizeLabelFixedPoint("NH", nfkc);
    StripNoop("1\U{200B}");
  }

  lemma ZeroWidthValueNotClean()
    ensures !IsCleanLabel("1\U{200B}")
  {
    var t := "1\U{200B}";
    assert t[1] in t && IsZeroWidth(t[1]);
  }

  /** The factor lists keep input order: the list of a concatenation is the concatenation of the lists. */
  lemma {:induction false} FactorListAppend(a: seq<MetricDef>, b: seq<MetricDef>, cat: string, show: real -> string)
    ensures FactorList(a + b, cat, show) == FactorList(a, cat, show) + FactorList(b, cat, show)
    decreases |b|
  {
    if b == [] {
      assert a + b == a;
    } else {
      var n := |b| - 1;
      assert (a + b)[..|a + b| - 1] == a + b[..n];
      FactorListAppend(a, b[..n], cat, show);
    }
  }

  /** A single entry is listed under its category exactly when its value is truthy. */
  lemma {:induction false} FactorListSingle(d: MetricDef, cat: string, show: real -> string)
    ensures FactorList([d], cat, show) == if ListedUnder(d, cat) then [FactorText(d, show)] else []
  {
    assert [d][..0] == [];
  }

  /** Exactly the entries listed under a category make up its list. */
  lemma {:induction false} FactorListMembers(defs: seq<MetricDef>, cat: string, show: real -> string)
    ensures forall t :: t in FactorList(defs, cat, show) <==>
      exists i :: 0 <= i < |defs| && ListedUnder(defs[i], cat) && t == FactorText(defs[i], show)
  {
    if defs != [] {
      var n := |defs| - 1;
      FactorListMembers(defs[..n], cat, show);
      forall i | 0 <= i < n ensures defs[..n][i] == defs[i] { }
    }
  }
}

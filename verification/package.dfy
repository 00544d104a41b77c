/**
 * The package entry point of __init__.py: `classify_by_header`, the
 * classifier of a water type (河流 unless told otherwise) applied to a
 * column header.
 */
module Package {
  import opened Wrappers
  import opened Text
  import opened Classifiers
  import opened ClassifierFacts

  /** `classify_by_header`: a category label for a recognised header and a reading, else "". */
  function ClassifyByHeader(header: string, value: Option<real>, waterType: string := River): (r: string)
    ensures r == "" || IsCategory(r)
    ensures value.None? ==> r == ""
  {
    WaterQualityClassifier(waterType).ClassifyMetric(header, value)
  }

  /** The water type only matters for 总磷: 0.03 is II类 in a river (the default) and III类 in a lake. */
  lemma {:induction false} PhosphorusHeaderByWaterType()
    ensures ClassifyByHeader("总磷", Some(0.03)) == "II类"
    ensures ClassifyByHeader("总磷", Some(0.03), Lake) == "III类"
  {
    PhosphorusIdDispatch(WaterQualityClassifier(River), Some(0.03));
    PhosphorusIdDispatch(WaterQualityClassifier(Lake), Some(0.03));
  }

  /** A bare "DO" header is not recognised, whatever the reading. */
  lemma {:induction false} DOHeaderUnrecognised(v: Option<real>, waterType: string)
    ensures ClassifyByHeader("DO", v, waterType) == ""
  {
    BareDOUnrecognised(WaterQualityClassifier(waterType), v);
  }

  /**
   * Only the stripped, lower-cased header matters: a header classifies as
   * its normalised form does.
   */
  lemma {:induction false} HeaderNormalisationIdempotent(header: string, value: Option<real>, waterType: string)
    ensures ClassifyByHeader(Lower(Strip(header)), value, waterType) == ClassifyByHeader(header, value, waterType)
  {
    NormalFormFixed(header);
  }

  /** Stripping and lower-casing a second time changes nothing. */
  lemma {:induction false} NormalFormFixed(header: string)
    ensures Lower(Strip(Lower(Strip(header)))) == Lower(Strip(header))
  {
    var s := Strip(header);
    var n := Lower(s);
    if n != [] {
      assert !IsSpace(s[0]) && !IsSpace(s[|s| - 1]);
      assert !IsSpace(n[0]) && !IsSpace(n[|n| - 1]);
    }
    StripNoop(n);
    assert Lower(n) == n;
  }
}

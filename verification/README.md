# Water-quality classification core in Dafny

This project models the deterministic core of a surface-water quality
tool. The tool grades readings against the Chinese surface-water
standard's categories I类, II类, III类, IV类, V类 and 劣V类.

The model covers:

- **`WaterQualityClassifier`** (classifiers.py):
  - the per-metric threshold ladders: pH, dissolved oxygen, permanganate index, ammonia nitrogen, and total phosphorus for rivers and for lakes;
  - the choice of phosphorus ladder by water type;
  - the name-based dispatch of `classify_metric`, `classify_value` and `recognized_metric_id`;
  - the boundary tables drawn for charts and their colours;
  - the "worst category wins" aggregation `overall_category`.
- **Helpers in utils.py:**
  - the category-text normalisers `normalize_category` and `_normalize_cat`;
  - the aggregation `compute_overall_from_categories`;
  - `canonical_metric_id`, `sanitize_label` and `hex_to_openpyxl`;
  - the row dictionary of `build_row_data`;
  - the header-row merge of `ensure_headers` / `append_row_with_headers`.
- **The standards table** of water_quality_standards_gui.py: the `CATEGORIES` and `METRICS` tables, the label dictionary built in `populate_table`, and the cell texts of `_cell_text_for`.
- **`classify_by_header`** of the package `__init__.py`.

## Modelling choices

- **Readings.** A reading is `Option<real>`: `None` stands for a value that `float()` cannot parse. The threshold literals are exact decimals.
- **Classifier instance.** The classifier's only field, `water_type`, is set once by the constructor, so an instance is the datatype value `WaterQualityClassifier(waterType)`. The static and class methods are module-level functions.
- **Loops.** Loops that build a list or a dictionary are methods. Each is proved equal to a specification function, and the properties are lemmas about those functions.
  - classifiers.py: `overall_category`, `get_visual_boundaries`.
  - utils.py: `compute_overall_from_categories`, `build_row_data`, `ensure_headers`.
  - water_quality_standards_gui.py: the `bdict` loop and the table loops of `populate_table`.
- **Strings.** Strings are `seq<char>`.
  - `str.lower`/`str.upper` are ASCII case mapping.
  - `str.isspace` is Python's whitespace set, written out.
  - `in` on strings is substring search, and `strip`, `lstrip`, `replace`, `re.sub(r"\s+", …)` and `join` are spelled out.
- **Library calls as parameters.** Two library calls are function parameters:
  - Unicode NFKC normalisation (`nfkc`);
  - Python's `str()` of a float, which the f-strings print (`show`).
- **Header cells.** A worksheet header cell is `Option<string>`, with `None` for an empty cell. Only the header list that `ensure_headers` returns is modelled.
- **Row values.** In `build_row_data` a metric value is `Null`, a string or a number.
- **Aliases.** `classify_pH` and `classify_dissolved_oxygen` in `__init__.py` are bound to the class's own static classifiers. They are the functions `Classifiers.ClassifyPH` and `Classifiers.ClassifyDissolvedOxygen` here.

Facts about the code that shape the model:

- **Metric recognition.** Metric names are recognised by plain substring tests, and the first test that matches wins. "cod" always selects the permanganate-index ladder, so "CODCr" is graded as the permanganate index.
- **Ladders.** There are no CODCr, total-nitrogen or BOD ladders. CODCr appears only as fixed table texts, and 总氮 and 生化需氧量 only as table rows without bounds.
- **Stations.** The modelled files keep no station registry. The only station code is `load_station_mapping`, which reads a CSV file and is left out.

## Model

| member | source | states |
|---|---|---|
| Classifiers.Order | classifiers.py:8-16 | severity is at most 6; it is 0 exactly for texts missing from `CATEGORY_ORDER`; every category has severity at least 1 |
| Classifiers.CategoryOfOrder | classifiers.py:18-25 | for 1…6 gives the category whose severity is that number (inverse of `Order`); "" for any other number |
| Classifiers.ClassifyPH | classifiers.py:53-59 | "" exactly when the reading did not parse; I类 exactly when 6.0 ≤ n ≤ 9.0; otherwise 劣V类, never II–V |
| Classifiers.ClassifyDissolvedOxygen | classifiers.py:61-72 | "" exactly when the reading did not parse, otherwise one of the six categories |
| Classifiers.ClassifyPermanganateIndex | classifiers.py:74-85 | "" exactly when the reading did not parse, otherwise one of the six categories |
| Classifiers.ClassifyAmmoniaNitrogen | classifiers.py:87-98 | "" exactly when the reading did not parse, otherwise one of the six categories |
| Classifiers.ClassifyTotalPhosphorus | classifiers.py:100-112 | "" exactly when the reading did not parse, otherwise one of the six categories |
| Classifiers.ClassifyTotalPhosphorusLake | classifiers.py:114-125 | "" exactly when the reading did not parse, otherwise one of the six categories |
| Classifiers.WaterQualityClassifier.ClassifyTotalPhosphorusByType | classifiers.py:127-131 | the lake ladder exactly when the water type is 湖库, the river ladder for every other string |
| Classifiers.WaterQualityClassifier.ClassifyMetric | classifiers.py:133-150 | the result is "" or a category, and "" for an unparsed reading (the dispatch is stated by ClassifyMetricFollowsBoundaries and ClassifyMetricWithoutBoundaries) |
| Classifiers.WaterQualityClassifier.ClassifyValue | classifiers.py:196-202 | equals `classify_metric` for every id and reading: the pH shortcut changes nothing |
| Classifiers.RecognizedMetricId | classifiers.py:205-213 | None exactly when the name holds none of "ph" and "cod" (lower-cased), 溶解氧, 高锰酸盐, 氨氮 and 总磷; otherwise one of pH, 溶解氧, CODMn, 氨氮, 总磷 |
| Classifiers.MetricBoundaries | classifiers.py:154-170 | the list is empty, the pH pair, or five pairs |
| Classifiers.LaddersMatchBoundaryTables | classifiers.py:154-170 | each coded ladder classifies exactly as the first bound met in its boundary table (≤ for rising ladders, ≥ for dissolved oxygen); pH is I类 between its two bounds |
| Classifiers.BoundaryColor | classifiers.py:178 | a category label gets its own colour; #999999 exactly when neither the label nor the metric id has a colour; any other result is a listed colour |
| Classifiers.GetVisualBoundaries | classifiers.py:173-180 | one entry per boundary, in order, with the same label and value and the colour of the label, else of the metric id, else #999999 |
| Classifiers.WorstOrder | classifiers.py:190-192 | at least every entry's severity, equal to one of them (or 0), at most 6 |
| Classifiers.OverallCategory | classifiers.py:184-193 | 无有效数据 for an empty list, else the category of the worst severity |
| ClassifierFacts.LadderIsFirstMet | classifiers.py:61-125 | a ladder gives the label of the first bound the reading meets, or 劣V类 when it meets none |
| ClassifierFacts.LadderSeverity | classifiers.py:61-125 | on a well-formed ladder the severity of the result is one more than the index of the first bound met |
| ClassifierFacts.LadderMonotone | classifiers.py:61-125 | on a well-formed ladder a reading that meets another's bound never gets a worse category |
| ClassifierFacts.LadderAtBound | classifiers.py:61-125 | a reading equal to the i-th bound gets the i-th label (bounds are inclusive) |
| ClassifierFacts.BoundaryTablesWellFormed | classifiers.py:159-169 | the five tables list I类…V类 in order with strictly worsening bounds (falling for dissolved oxygen) |
| ClassifierFacts.BoundariesWellFormed | classifiers.py:154-170 | every non-pH boundary list is empty or such a ladder, falling exactly for dissolved-oxygen ids |
| ClassifierFacts.ClassifiersMonotone | classifiers.py:61-125 | a larger dissolved-oxygen reading, or a smaller reading for the other ladders, never gets a worse category |
| ClassifierFacts.InclusiveBoundExamples | classifiers.py:61-125 | ammonia 0.15→I类, permanganate 15.0→V类, river TP 0.4→V类, lake TP 0.015→I类, DO 7.5→I类, DO 2.0→V类, DO below 2.0→劣V类 |
| ClassifierFacts.NameTestsAgree | classifiers.py:139-148 | strip and lower-case do not change which of the dispatch words a name holds |
| ClassifierFacts.ClassifyMetricFollowsBoundaries | classifiers.py:133-170 | for a name with a boundary list, `classify_metric` is pH or the ladder of `metric_boundaries` for the same water type |
| ClassifierFacts.BoundsClassifyAsLabels | classifiers.py:154-170 | each listed bound classifies as its own label (I类 for both pH bounds) |
| ClassifierFacts.NoBoundariesIff | classifiers.py:154-170 | the list is empty exactly when the id holds none of the six words |
| ClassifierFacts.ClassifyMetricWithoutBoundaries | classifiers.py:139-150 | for a name without a boundary list, `classify_metric` is the phosphorus ladder of the water type when the stripped, lower-cased name holds "tp", and "" otherwise |
| ClassifierFacts.PhosphorusReadsAsPH | classifiers.py:139-141 | "phosphorus" holds "ph", so it is read as pH |
| ClassifierFacts.CODCrReadsAsPermanganate | classifiers.py:144-145 | "CODCr" is read with the permanganate ladder |
| ClassifierFacts.BareDOUnrecognised | classifiers.py:139-150 | "DO" matches no test and gives "" |
| ClassifierFacts.PaddedPhosphorusName | classifiers.py:139-149 | " 总磷 " is stripped and classified by water type |
| ClassifierFacts.PermanganateIndexNotRecognised | classifiers.py:205-213 | 高锰酸指数 lacks 高锰酸盐 and is not recognised |
| ClassifierFacts.TPNotRecognised | classifiers.py:205-213 | "TP" is not recognised: there is no "tp" test |
| ClassifierFacts.TPReadsAsPhosphorus | classifiers.py:139-149 | `classify_metric` reads "TP" with the phosphorus ladder of the water type |
| ClassifierFacts.RecognizedIdClassifiesAlike | classifiers.py:133-213 | a name with a recognised id and without 高锰酸 classifies exactly as the id itself does |
| ClassifierFacts.RecognizedNameLadder | classifiers.py:133-213 | such a name is classified by the ladder of its recognised id |
| ClassifierFacts.IdLadderDispatch | classifiers.py:139-149 | each of the five ids selects its own ladder in `classify_metric` |
| ClassifierFacts.PermanganatePhosphorusNameDiverges | classifiers.py:205-213 | "高锰酸指数总磷" is recognised as 总磷 but classified on the permanganate ladder |
| ClassifierFacts.PermanganateSaltRecognised | classifiers.py:210 | 高锰酸盐指数 is recognised as CODMn |
| ClassifierFacts.WorstOrderBySet | classifiers.py:190-192 | the worst severity depends only on which texts occur (a sub-collection never has a worse one) |
| ClassifierFacts.WorstOrderPermutation | classifiers.py:190-192 | the worst severity does not depend on the order of the list |
| ClassifierFacts.OverallCategoryMeaning | classifiers.py:184-193 | the result is "" exactly when every entry is unknown; otherwise it is a category no better than any entry |
| ClassifierFacts.WorstEntryWins | classifiers.py:184-193 | [I类, 劣V类, III类] gives 劣V类 |
| ClassifierFacts.QualifiedCountsAsFirstCategory | classifiers.py:8-16 | 合格 counts as I类: [合格, II类] gives II类, [合格] gives I类 |
| ClassifierFacts.UnknownTextsGiveNoCategory | classifiers.py:193 | a list of unknown texts gives "" |
| ClassifierFacts.BoundaryColors | classifiers.py:178 | ladder labels take their category colour; pH bounds fall back to the id's colour, else #999999 |
| Utils.Romanize | utils.py:95-97 | no full-width numeral is left and only I and V are added |
| Utils.RomanOfChar | utils.py:95 | a full-width numeral becomes a Roman numeral; any other character is kept |
| Utils.RomanizeCharwise | utils.py:95-97 | the five replacements act character by character: Ⅰ→I, Ⅱ→II, Ⅲ→III, Ⅳ→IV, Ⅴ→V, every other character kept in place |
| Utils.DropClassSuffix | utils.py:98-99 | exactly one trailing 类 is dropped, nothing else changes |
| Utils.RomanOfDigit | utils.py:102-103 | a digit 1–5 becomes its numeral; anything else is kept |
| Utils.NormalizeCategory | utils.py:87-104 | the result is "" or a category; None or blank input gives "" |
| Utils.NormalizeCleanSpelling | utils.py:94-104 | on a clean spelling the result is the category of the text without its 类 |
| Utils.NormalizeCategoryKeepsCategories | utils.py:87-104 | every category is its own normal form |
| Utils.NormalizeCategoryIdempotent | utils.py:87-104 | normalising twice equals normalising once |
| Utils.NormalizeCategoryWorse | utils.py:90-101 | a text that starts with 劣 once stripped and rid of whitespace gives 劣V类 |
| Utils.NormalizeCategorySpelling | utils.py:88-97 | a text normalises exactly as its stripped, whitespace-free, numeral-spelt form does |
| Utils.SpelledCategoryExamples | utils.py:87-104 | "Ⅲ类" and "III 类" both give III类 |
| Utils.NormalizeCategoryDigit | utils.py:102-104 | digits 1–5 give I类…V类 |
| Utils.QualifiedIsNoCategorySpelling | utils.py:87-104 | 合格 is not a spelling `normalize_category` knows: it gives "" |
| Utils.RemoveZeroWidth | utils.py:137 | only zero-width characters are removed |
| Utils.SanitizeLabel | utils.py:131-140 | None gives ""; the result has no zero-width character, single spaces only, no whitespace at either end, and every other character comes from the NFKC form |
| Utils.SanitizeLabelFixedPoint | utils.py:131-140 | an NFKC-stable text is unchanged exactly when it is already clean |
| Utils.SanitizeLabelIdempotent | utils.py:131-140 | sanitising a sanitised label changes nothing |
| Utils.Doubled | utils.py:113 | twice as long, each character written twice |
| Utils.HexToOpenpyxl | utils.py:107-117 | falsy input gives None; any result has exactly six characters and no lower-case letter |
| Utils.ExpandHex | utils.py:112-117 | a result exists exactly for 3- or 6-character texts |
| Utils.HexOfBare | utils.py:107-117 | a bare six-character colour is upper-cased |
| Utils.HexOfHashed | utils.py:107-117 | "#" plus six characters loses the hash and is upper-cased |
| Utils.HexToOpenpyxlRoundTrip | utils.py:107-117 | an upper-case hex colour comes back unchanged from itself, with "#", lower-cased, or both |
| Utils.HexToOpenpyxlShorthand | utils.py:112-114 | "#rgb" expands to each digit doubled, upper-cased |
| Utils.ShorthandDoubled | utils.py:112-114 | "#rgb" gives the upper case of the doubled text |
| Utils.CanonicalMetricId | utils.py:288-295 | the result is None or one of the five ids; None exactly when no tested word occurs; each id exactly when a word of its group occurs and no word of an earlier group does, in the order "ph", then 溶解氧/"do", then 高锰酸/"cod"/"codmn", then 氨氮/"nh", then 总磷/"tp" |
| Utils.CanonicalIsFirstGroup | utils.py:288-295 | the id is the one of the first group, in an ordered table of (words, id) pairs, that has a word in the lower-cased name |
| Utils.TwoWordNames | utils.py:290-294 | with words of two groups the earlier group wins: "cod/do" is 溶解氧 and "nh3/tp" is 氨氮 |
| Utils.MissingNameHasNoId | utils.py:289 | a missing name reads as "" and has no id |
| Utils.CodmnTestSubsumed | utils.py:292 | the "codmn" test can never decide: "cod" already holds |
| Utils.CanonicalCoversRecognized | utils.py:288-295 | every name `recognized_metric_id` knows also has a canonical id |
| Utils.ShortNamesHaveIds | utils.py:288-295 | DO, NH3-N and TP are identified as 溶解氧, 氨氮 and 总磷 |
| Utils.CanonicalIdsAreFixed | utils.py:288-295 | each of the five ids identifies as itself |
| Utils.NormalizeCat | utils.py:297-349 | an empty or missing text gives ""; otherwise the result is a category, a table value, or the stripped input unchanged |
| Utils.NormalizeCore | utils.py:320-349 | a category, a table value, or the stripped text |
| Utils.NormalizeCleanText | utils.py:311-349 | a clean text missing from the table goes through the suffix, numeral, digit and 劣 rules |
| Utils.NormalizeCategoryTableValued | classifiers.py:39-44 | `NORMALIZE_CATEGORY` maps to categories and maps each category to itself |
| Utils.NormalizeCatKeepsCategories | utils.py:297-349 | every category is its own normal form under such a table |
| Utils.NormalizeCatIdempotent | utils.py:297-349 | normalising twice equals normalising once under such a table |
| Utils.NormalizeCatDigit | utils.py:331-342 | digits 1–5 missing from the table give I类…V类 |
| Utils.PassNeedsTable | utils.py:345-349 | "pass" gives I类 with the classifier's table but comes back as "pass" with an empty one |
| Utils.EntryOrder | utils.py:362-368 | at most 6, and 0 exactly when neither the normalised nor the raw text has a severity |
| Utils.EntryOrders | utils.py:361-368 | one severity per entry, in order |
| Utils.MaxOrder | utils.py:369 | the largest severity, or 0 for none |
| Utils.ComputeOverallFromCategories | utils.py:352-370 | 无有效数据 for an empty list, else the category of the largest entry severity |
| Utils.KnownTextKeepsOrder | utils.py:362-368 | a text `CATEGORY_ORDER` knows keeps its severity after normalisation |
| Utils.EntryOrderAtLeastOrder | utils.py:362-368 | normalisation never lowers a text's severity |
| Utils.ComputeOverallAtLeastOverall | utils.py:352-370 | the aggregate is never better than `overall_category` of the raw texts |
| Utils.ComputeOverallAgreesOnKnownTexts | utils.py:352-370 | on known texts it agrees with `overall_category` |
| Rows.FactorList | utils.py:223-226 | at most one entry per metric |
| Rows.AddMetricColumns | utils.py:209-217 | the dictionary after the first loop of `build_row_data` |
| Rows.GroupFactors | utils.py:223-226 | the three factor lists, one per category IV类, V类, 劣V类 |
| Rows.BuildRowData | utils.py:198-231 | the row dictionary: name and date, the metric and category columns, the coordinates and the three factor joins |
| Rows.AddMetricsKeys | utils.py:209-217 | the loop adds exactly the columns the metrics contribute |
| Rows.MetricKeysMembers | utils.py:209-217 | a column is added exactly when some non-blank metric has that name, or its category key when categories are included |
| Rows.RowDataKeys | utils.py:205-229 | the keys are the five fixed columns, the metric columns and 经度/纬度 exactly when both coordinates are requested and present |
| Rows.RowDataKeysClean | utils.py:203-229 | every key of the row is a clean label (no zero-width characters, single spaces, no outer whitespace), as the docstring promises for the keys |
| Rows.MetricValueNotSanitised | utils.py:209-213 | a metric's value is stored as `str(val).strip()` only: the value "1" followed by a zero-width space stays in the row unsanitised |
| Rows.FactorsKeepColumn | utils.py:227-229 | writing the three factor columns leaves every other column unchanged |
| Rows.FactorListAppend | utils.py:224-226 | the factor list of a concatenation is the concatenation of the lists (input order is kept) |
| Rows.FactorListSingle | utils.py:225-226 | one metric is listed under a category exactly when its value is truthy and its category matches |
| Rows.FactorListMembers | utils.py:224-226 | a text is listed exactly when it is "name（val）" of a truthy metric of that category |
| Headers.InsertAt | utils.py:248 | one longer, the same elements plus the new one |
| Headers.AsCells | utils.py:237-240 | the desired headers, one cell each |
| Headers.MergeHeaders | utils.py:242-249 | at least as long as the current row, at most longer by the desired count |
| Headers.EnsureHeaders | utils.py:233-249 | the desired headers on an empty first row, else the merge; every desired header is present |
| Headers.MergeKeepsOrder | utils.py:242-249 | the existing headers keep their relative order |
| Headers.MergeHasDesired | utils.py:242-249 | every desired header is present afterwards |
| Headers.MergeOnlyAddsDesired | utils.py:242-249 | nothing but desired headers is added |
| Headers.MergeInsertsAtDesiredIndex | utils.py:242-249 | when no desired header is present yet and none repeats, the n-th desired header lands at index n: the desired headers lead, in order, and the old row follows |
| Headers.MergeNoDuplicates | utils.py:242-249 | an existing header keeps its count; an added one appears once |
| Headers.CellFor | utils.py:254 | the row value of a header, or "" |
| Headers.RowValues | utils.py:254 | one value per header, in header order |
| Headers.AppendRowWithHeaders | utils.py:251-256 | the merged headers and the row under them |
| Headers.AppendedRowCarriesData | utils.py:251-256 | each desired header with data has a column whose row value is that data |
| StandardsTable.BuildLabelDict | water_quality_standards_gui.py:175-185 | the dictionary of the label rules |
| StandardsTable.LabelRulesExample | water_quality_standards_gui.py:178-184 | a pair label sets I类 and II类, a 类 label is kept, a bare numeral gets 类, pH下限 is dropped |
| StandardsTable.PairLabelSpellings | water_quality_standards_gui.py:178-180 | each of "I/II", "IⅡ" and "I II" sets both I类 and II类 |
| StandardsTable.PHLabelsDropped | water_quality_standards_gui.py:185 | the pH boundaries give an empty dictionary |
| StandardsTable.AddCategoryLabel | water_quality_standards_gui.py:181-182 | a category label is copied as it is |
| StandardsTable.LabelDictOfLadder | water_quality_standards_gui.py:175-185 | a well-formed ladder gives the five categories, each with its own bound |
| StandardsTable.CellTextAsWritten | water_quality_standards_gui.py:122-153 | away from pH and CODCr, an I–V cell is "-" exactly when its category has no bound and "≤bound" otherwise, dissolved oxygen included; the 劣V cell is ">" and the V bound, or ">V类标准" without one |
| StandardsTable.CellText | water_quality_standards_gui.py:122-153 | the corrected cell text; it equals the code's text for every metric that is not dissolved oxygen |
| StandardsTable.PHCellTexts | water_quality_standards_gui.py:126-131 | pH reads 6.0–9.0 for I–V and "<6.0 或 >9.0" otherwise, whatever the dictionary holds |
| StandardsTable.CODCrCellTexts | water_quality_standards_gui.py:133-142 | CODCr reads ≤15, ≤15, ≤20, ≤30, ≤40 for I–V and >40 for anything else |
| StandardsTable.EmptyBoundsCells | water_quality_standards_gui.py:144-153 | without bounds, I–V read "-" and 劣V reads ">V类标准" |
| StandardsTable.LadderLimitMatches | water_quality_standards_gui.py:144-153 | on a well-formed ladder the cell for category k admits exactly the readings classified k or better; the 劣V cell admits exactly those classified 劣V类 |
| StandardsTable.CellLimitsMatchClassifier | water_quality_standards_gui.py:144-153 | the same for every metric id with a ladder, against `classify_metric` under the same water type |
| StandardsTable.DissolvedOxygenCellAsWritten | water_quality_standards_gui.py:151-153 | as written, the DO I类 cell reads "≤7.5", but 8.0 is classified I类 and is not ≤ 7.5 |
| StandardsTable.DissolvedOxygenWorstCellAsWritten | water_quality_standards_gui.py:145-148 | as written, the DO 劣V cell reads ">2.0", but 1.0 is classified 劣V类 and is not > 2.0 |
| StandardsTable.TableText | water_quality_standards_gui.py:163-189 | column 0 is the display name; on every row whose id lacks 溶解氧 each cell equals the corrected table's |
| StandardsTable.RowTexts | water_quality_standards_gui.py:163-189 | one text per column, as the program shows it: the display name, then one cell per category |
| StandardsTable.PopulateRow | water_quality_standards_gui.py:163-189 | the texts of one row of the table, as the program shows them |
| StandardsTable.PopulateTable | water_quality_standards_gui.py:155-189 | one row per metric, each with one text per column, as the program shows them |
| StandardsTable.OnlyOxygenRowDiffers | water_quality_standards_gui.py:25-35 | every row but 溶解氧 reads exactly as in the corrected table |
| StandardsTable.DissolvedOxygenRowAsWritten | water_quality_standards_gui.py:144-189 | the 溶解氧 row shows "≤7.5" under I类 and ">2.0" under 劣V类, while 8.0 is classified I类 and 1.0 劣V类 |
| StandardsTable.CorrectedCellsMatchClassifier | water_quality_standards_gui.py:144-153 | in the corrected table every cell of the five ladder rows, 溶解氧 included, admits exactly the readings of its category or better (劣V: exactly 劣V类) |
| StandardsTable.CellMatchesClassifier | water_quality_standards_gui.py:144-153 | a general cell of a metric with a ladder renders its limit, and the limit agrees with the classifier |
| StandardsTable.TableCellsMatchClassifier | water_quality_standards_gui.py:187-189 | every cell of the CODMn, 氨氮 and both 总磷 rows, as shown, renders a limit that admits exactly the readings of that category or better (劣V: exactly 劣V类) |
| StandardsTable.PhosphorusRowsByWaterType | water_quality_standards_gui.py:30-31 | the 总磷（河流） row reads ≤0.02 and >0.4 (river ladder), the 总磷（湖库） row ≤0.015 and >0.2 (lake ladder) |
| StandardsTable.UnboundedRows | water_quality_standards_gui.py:33-34 | the 总氮 and 生化需氧量 rows read "-" for I–V and ">V类标准" for 劣V |
| Package.ClassifyByHeader | __init__.py:15-16 | "" or a category, "" for an unparsed reading |
| Package.PhosphorusHeaderByWaterType | __init__.py:15-16 | 总磷 at 0.03 is II类 with the default 河流 and III类 with 湖库 |
| Package.DOHeaderUnrecognised | __init__.py:15-16 | a "DO" header gives "" whatever the reading |
| Package.HeaderNormalisationIdempotent | __init__.py:15-16 | a header classifies as its stripped, lower-cased form does |

## Left out

- Qt widgets, styling, colouring, scrolling and `main` of water_quality_standards_gui.py. The table is the grid of its cell texts.
- openpyxl and PIL effects: worksheet column insertion and cell writes, `ws.append` and `ws.max_row`, `auto_adjust_column_width`, `insert_image_to_cell`, `color_category_cells`. Only the returned header list and the appended row are modelled.
- `load_station_mapping` (CSV file I/O) and the pandas/numpy helpers in utils.py (`_coerce_series_to_numeric`, `normalize_numeric_columns`, `resample_df`, `infer_freq_from_index`, `choose_numeric_datefmt`).
- `float()` parsing, NaN and infinities, and double rounding near a bound. A reading is an already-parsed `Option<real>`.
- NFKC normalisation and Python's `str()` of a float are parameters. Full-Unicode case mapping is replaced by ASCII case mapping, which decides the same substring tests.
- `calculate_display_width`: it is only the Unicode east-asian-width table.
- `evaluate_and_display` in classifiers.py: a demo that is never called. constants.py holds static tables with no behaviour. The import fallback of `__init__.py` is module plumbing.
- `_normalize_cat`'s `try`/`except` around `sanitize_label` cannot fire on a string, so it is not modelled.
- The `water_type` argument of `_cell_text_for` is unused by the code. It is kept as a parameter.
- Rows.RowDataKeys: states the key set only. The values are given by `Rows.RowData`, and there is no separate lemma for a later metric whose sanitised name equals an earlier one overwriting that one's value.
- Classifiers.WaterQualityClassifier.ClassifyMetric: its own contract only bounds the result. The dispatch is stated by two lemmas. `ClassifierFacts.ClassifyMetricFollowsBoundaries` covers names that have a boundary list. `ClassifierFacts.ClassifyMetricWithoutBoundaries` covers the rest: the "tp" test and the "" fall-through.
- Utils.HexToOpenpyxl: `str.upper` is ASCII case mapping here. Python's full Unicode upper case can change a text's length: "ﬀ0000" becomes "FF0000" in the program, but the model returns None for it.
- Rows.BuildRowData: the docstring of `build_row_data` (utils.py:203) says every key and value is sanitised. The keys are, as `Rows.RowDataKeysClean` proves. The values are not all sanitised: a metric's value is `str(val).strip()` (utils.py:213), and the factor texts join the raw `f"{name}（{val}）"` (utils.py:226). The model follows the code, and `Rows.MetricValueNotSanitised` gives a value that stays unclean. No contract promises clean values.
- Rows.BuildRowData: the key order of the returned dictionary is not modelled. The row is a `map`, and the header order comes from the caller's desired list.

## Findings

| source | as written | input that shows it | evidently intended | confidence | as-written member | corrected member |
|---|---|---|---|---|---|---|
| water_quality_standards_gui.py:144-153 | The general rule prints "≤bound" for I–V and ">V bound" for 劣V for every metric, dissolved oxygen included. Yet dissolved oxygen is graded with ≥ (classifiers.py:61-72), so its row reads ≤7.5 … ≤2.0 and >2.0. | DO 8.0 is classified I类 but is not ≤7.5; DO 1.0 is classified 劣V类 but is not >2.0 | "≥bound" for I–V and "<V bound" for 劣V on the dissolved-oxygen row | high; not executed | StandardsTable.DissolvedOxygenCellAsWritten | StandardsTable.CellLimitsMatchClassifier |

The as-written rule is `StandardsTable.CellTextAsWritten`. The table the program shows is built from it: `StandardsTable.TableText`, `StandardsTable.PopulateRow` and `StandardsTable.PopulateTable`. `StandardsTable.DissolvedOxygenWorstCellAsWritten` shows the 劣V half of the finding, and `StandardsTable.DissolvedOxygenRowAsWritten` shows both halves on row 1 of the table. The corrected text `StandardsTable.CellText` turns the comparison round for dissolved-oxygen ids. `StandardsTable.CorrectedTableText` is the table built from it, and `StandardsTable.CorrectedCellsMatchClassifier` proves that every ladder row of it agrees with the classifier. `StandardsTable.OnlyOxygenRowDiffers` shows that the two tables differ only on the 溶解氧 row.

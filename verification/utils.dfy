/**
 * The helpers of `utils.py` that the workbook export and the overall rating
 * rely on: category spellings, label clean-up, colour codes, canonical
 * metric ids and the overall category of a row of category texts.
 *
 * Unicode NFKC normalisation is not modelled: it is the parameter `nfkc`.
 */
module Utils {
  import opened Wrappers
  import opened Text
  import opened Classifiers
  import opened ClassifierFacts

  // ---------------------------------------------------------------- category spellings

  predicate IsFullWidthRoman(c: char) {
    c == 'Ⅰ' || c == 'Ⅱ' || c == 'Ⅲ' || c == 'Ⅳ' || c == 'Ⅴ'
  }

  /** The five Roman numerals a category is named by. */
  predicate IsRomanNumeral(s: string) {
    s == "I" || s == "II" || s == "III" || s == "IV" || s == "V"
  }

  /** `roman_map`: each full-width numeral Ⅰ … Ⅴ replaced by its ASCII spelling, in the order the map lists them. */
  function Romanize(s: string): (r: string)
    ensures forall c :: c in r ==> c in s || c == 'I' || c == 'V'
    ensures forall c :: c in r ==> !IsFullWidthRoman(c)
    ensures s != [] && !IsFullWidthRoman(s[0]) ==> r != [] && r[0] == s[0]
  {
    var s1 := ReplaceChar(s, 'Ⅰ', "I");
    var s2 := ReplaceChar(s1, 'Ⅱ', "II");
    var s3 := ReplaceChar(s2, 'Ⅲ', "III");
    var s4 := ReplaceChar(s3, 'Ⅳ', "IV");
    ReplaceChar(s4, 'Ⅴ', "V")
  }

  /** A text without full-width numerals is left alone. */
  lemma {:induction false} RomanizeNoop(s: string)
    requires forall c :: c in s ==> !IsFullWidthRoman(c)
    ensures Romanize(s) == s
  {
    ReplaceCharNoop(s, 'Ⅰ', "I");
    ReplaceCharNoop(s, 'Ⅱ', "II");
    ReplaceCharNoop(s, 'Ⅲ', "III");
    ReplaceCharNoop(s, 'Ⅳ', "IV");
    ReplaceCharNoop(s, 'Ⅴ', "V");
  }

  /** `roman_map` on one character: a full-width numeral becomes its ASCII spelling, anything else stays. */
  function RomanOfChar(c: char): (r: string)
    ensures IsFullWidthRoman(c) ==> IsRomanNumeral(r)
    ensures !IsFullWidthRoman(c) ==> r == [c]
  {
    if c == 'Ⅰ' then "I"
    else if c == 'Ⅱ' then "II"
    else if c == 'Ⅲ' then "III"
    else if c == 'Ⅳ' then "IV"
    else if c == 'Ⅴ' then "V"
    else [c]
  }

  /** Each character spelt out by `RomanOfChar`, independently of its neighbours. */
  function RomanizeEach(s: string): string {
    if s == [] then [] else RomanOfChar(s[0]) + RomanizeEach(s[1..])
  }

  /**
   * The five replacements in turn act character by character: Ⅰ becomes I,
   * Ⅱ II, Ⅲ III, Ⅳ IV, Ⅴ V, and every other character is kept in place.
   */
  lemma {:induction false} RomanizeCharwise(s: string)
    ensures Romanize(s) == RomanizeEach(s)
    decreases |s|
  {
    if s == [] {
      ReplaceCharNoop(s, 'Ⅰ', "I");
      ReplaceCharNoop(s, 'Ⅱ', "II");
      ReplaceCharNoop(s, 'Ⅲ', "III");
      ReplaceCharNoop(s, 'Ⅳ', "IV");
      ReplaceCharNoop(s, 'Ⅴ', "V");
    } else {
      assert s == [s[0]] + s[1..];
      RomanizeAppend([s[0]], s[1..]);
      RomanizeSingle(s[0]);
      RomanizeCharwise(s[1..]);
    }
  }

  lemma {:induction false} RomanizeAppend(a: string, b: string)
    ensures Romanize(a + b) == Romanize(a) + Romanize(b)
  {
    ReplaceCharAppend(a, b, 'Ⅰ', "I");
    var a1, b1 := ReplaceChar(a, 'Ⅰ', "I"), ReplaceChar(b, 'Ⅰ', "I");
    ReplaceCharAppend(a1, b1, 'Ⅱ', "II");
    var a2, b2 := ReplaceChar(a1, 'Ⅱ', "II"), ReplaceChar(b1, 'Ⅱ', "II");
    ReplaceCharAppend(a2, b2, 'Ⅲ', "III");
    var a3, b3 := ReplaceChar(a2, 'Ⅲ', "III"), ReplaceChar(b2, 'Ⅲ', "III");
    ReplaceCharAppend(a3, b3, 'Ⅳ', "IV");
    var a4, b4 := ReplaceChar(a3, 'Ⅳ', "IV"), ReplaceChar(b3, 'Ⅳ', "IV");
    ReplaceCharAppend(a4, b4, 'Ⅴ', "V");
  }

  lemma {:induction false} RomanizeSingle(c: char)
    ensures Romanize([c]) == RomanOfChar(c)
  {
    var r := RomanOfChar(c);
    if !IsFullWidthRoman(c) {
      RomanizeNoop([c]);
    } else if c == 'Ⅰ' {
      ReplaceCharSingle(c, 'Ⅰ', "I");
      AsciiTailFixed(r);
    } else if c == 'Ⅱ' {
      ReplaceCharSingle(c, 'Ⅰ', "I");
      ReplaceCharSingle(c, 'Ⅱ', "II");
      AsciiTailFixed(r);
    } else if c == 'Ⅲ' {
      ReplaceCharSingle(c, 'Ⅰ', "I");
      ReplaceCharSingle(c, 'Ⅱ', "II");
      ReplaceCharSingle(c, 'Ⅲ', "III");
      AsciiTailFixed(r);
    } else if c == 'Ⅳ' {
      ReplaceCharSingle(c, 'Ⅰ', "I");
      ReplaceCharSingle(c, 'Ⅱ', "II");
      ReplaceCharSingle(c, 'Ⅲ', "III");
      ReplaceCharSingle(c, 'Ⅳ', "IV");
      AsciiTailFixed(r);
    } else {
      ReplaceCharSingle(c, 'Ⅰ', "I");
      ReplaceCharSingle(c, 'Ⅱ', "II");
      ReplaceCharSingle(c, 'Ⅲ', "III");
      ReplaceCharSingle(c, 'Ⅳ', "IV");
      ReplaceCharSingle(c, 'Ⅴ', "V");
    }
  }

  /** The later replacements leave a text of I and V alone. */
  lemma {:induction false} AsciiTailFixed(r: string)
    requires forall x :: x in r ==> x == 'I' || x == 'V'
    ensures ReplaceChar(r, 'Ⅱ', "II") == r && ReplaceChar(r, 'Ⅲ', "III") == r
    ensures ReplaceChar(r, 'Ⅳ', "IV") == r && ReplaceChar(r, 'Ⅴ', "V") == r
  {
    ReplaceCharNoop(r, 'Ⅱ', "II");
    ReplaceCharNoop(r, 'Ⅲ', "III");
    ReplaceCharNoop(r, 'Ⅳ', "IV");
    ReplaceCharNoop(r, 'Ⅴ', "V");
  }

  /** One trailing 类 dropped, if there is one. */
  function DropClassSuffix(s: string): (r: string)
    ensures |r| <= |s| && r == s[..|r|]
    ensures EndsWith(s, "类") ==> |r| == |s| - 1
    ensures !EndsWith(s, "类") ==> r == s
  {
    if EndsWith(s, "类") then s[..|s| - 1] else s
  }

  /** `digit2roman.get(s, s)`: the digits 1 … 5 become Roman numerals. */
  function RomanOfDigit(s: string): (r: string)
    ensures r == s || IsRomanNumeral(r)
    ensures IsRomanNumeral(s) ==> r == s
  {
    if s == "1" then "I"
    else if s == "2" then "II"
    else if s == "3" then "III"
    else if s == "4" then "IV"
    else if s == "5" then "V"
    else s
  }

  /** `f"{core}类"` for a Roman numeral: the category it names. */
  function ClassName(core: string): (r: string)
    requires IsRomanNumeral(core)
    ensures IsCategory(r) && r[..|r| - 1] == core
  {
    core + "类"
  }

  /** The tail of `normalize_category`, on the text once whitespace, full-width numerals and one 类 are gone. */
  function CategoryOfCore(t: string): (r: string)
    ensures r == "" || IsCategory(r)
    ensures IsRomanNumeral(t) ==> r == ClassName(t)
  {
    if StartsWith(t, "劣") then
      assert t[0] == '劣';
      "劣V类"
    else
      var u := RomanOfDigit(t);
      if IsRomanNumeral(u) then ClassName(u) else ""
  }

  /**
   * `normalize_category`: a category spelling ("Ⅲ类", " 3 ", "劣五类")
   * becomes one of the six categories; anything else becomes "".
   */
  function NormalizeCategory(raw: Option<string>): (r: string)
    ensures r == "" || IsCategory(r)
    ensures raw.None? || Strip(raw.value) == [] ==> r == ""
  {
    if raw.None? then ""
    else
      var s := Strip(raw.value);
      if s == [] then "" else CategoryOfCore(DropClassSuffix(Romanize(RemoveSpaces(s))))
  }

  /** A spelling with nothing to strip, remove or convert goes straight to the final step. */
  lemma {:induction false} NormalizeCleanSpelling(s: string)
    requires s != [] && HasNoSpace(s) && forall i :: 0 <= i < |s| ==> !IsFullWidthRoman(s[i])
    ensures NormalizeCategory(Some(s)) == CategoryOfCore(DropClassSuffix(s))
  {
    StripNoop(s);
    RemoveSpacesNoop(s);
    RomanizeNoop(s);
  }

  /** I类 … V类: a Roman numeral followed by 类 is normalised to itself. */
  lemma {:induction false} RomanCategoryNormalises(c: string)
    requires IsCategory(c) && c != "劣V类"
    ensures NormalizeCategory(Some(c)) == c
  {
    CategoryShape(c);
    NormalizeCleanSpelling(c);
  }

  /** The six categories are a Roman numeral (or 劣V) followed by 类, with no space or special character. */
  lemma {:induction false} CategoryShape(c: string)
    requires IsCategory(c)
    ensures c != [] && HasNoSpace(c)
    ensures forall i :: 0 <= i < |c| ==> !IsFullWidthRoman(c[i]) && !IsZeroWidth(c[i])
    ensures EndsWith(c, "类") && DropClassSuffix(c) == c[..|c| - 1] && c == c[..|c| - 1] + "类"
    ensures c != "劣V类" ==> IsRomanNumeral(c[..|c| - 1])
    ensures c == "劣V类" ==> c[..|c| - 1] == "劣V"
  {
  }

  /** Every category is its own normal form. */
  lemma {:induction false} NormalizeCategoryKeepsCategories(c: string)
    requires IsCategory(c)
    ensures NormalizeCategory(Some(c)) == c
  {
    if c == "劣V类" {
      WorstCategoryNormalises();
    } else {
      RomanCategoryNormalises(c);
    }
  }

  lemma {:induction false} WorstCategoryNormalises()
    ensures NormalizeCategory(Some("劣V类")) == "劣V类"
  {
    StripNoop("劣V类");
    RemoveSpacesNoop("劣V类");
    NormalizeCategoryWorse("劣V类");
  }

  /** Normalising twice is normalising once. */
  lemma {:induction false} NormalizeCategoryIdempotent(raw: Option<string>)
    ensures NormalizeCategory(Some(NormalizeCategory(raw))) == NormalizeCategory(raw)
  {
    var r := NormalizeCategory(raw);
    if r == "" {
      assert Strip(r) == [];
    } else {
      NormalizeCategoryKeepsCategories(r);
    }
  }

  /** Any spelling that starts with 劣 once stripped and rid of whitespace is 劣V类. */
  lemma {:induction false} NormalizeCategoryWorse(s: string)
    requires RemoveSpaces(Strip(s)) != [] && RemoveSpaces(Strip(s))[0] == '劣'
    ensures NormalizeCategory(Some(s)) == "劣V类"
  {
    var u := RemoveSpaces(Strip(s));
    assert Strip(s) != [];
    var t := DropClassSuffix(Romanize(u));
    assert Romanize(u)[0] == '劣';
    assert t != [] && t[0] == '劣';
    assert StartsWith(t, "劣");
  }

  /**
   * Only the text left once whitespace is stripped and removed and the
   * full-width numerals are spelt out matters: a raw spelling normalises as
   * that text does.
   */
  lemma {:induction false} NormalizeCategorySpelling(s: string)
    ensures NormalizeCategory(Some(s)) == NormalizeCategory(Some(Romanize(RemoveSpaces(Strip(s)))))
  {
    var u := Romanize(RemoveSpaces(Strip(s)));
    if Strip(s) == [] {
      assert RemoveSpaces(Strip(s)) == [];
      RomanizeNoop([]);
      assert Strip(u) == [];
    } else {
      RomanizedClean(RemoveSpaces(Strip(s)));
      NormalizeCleanSpelling(u);
    }
  }

  /** Spelling out the numerals of a text without whitespace leaves no whitespace and no full-width numeral. */
  lemma {:induction false} RomanizedClean(t: string)
    requires HasNoSpace(t)
    ensures HasNoSpace(Romanize(t))
    ensures forall i :: 0 <= i < |Romanize(t)| ==> !IsFullWidthRoman(Romanize(t)[i])
  {
    var u := Romanize(t);
    forall i | 0 <= i < |u|
      ensures !IsSpace(u[i]) && !IsFullWidthRoman(u[i])
    {
      assert u[i] in u;
      if u[i] in t {
        var j :| 0 <= j < |t| && t[j] == u[i];
      }
    }
  }

  /** "Ⅲ类" with a full-width numeral and "III 类" with inner whitespace are both III类. */
  lemma SpelledCategoryExamples()
    ensures NormalizeCategory(Some("Ⅲ类")) == "III类"
    ensures NormalizeCategory(Some("III 类")) == "III类"
  {
    FullWidthThreeNormalises();
    SpacedThreeNormalises();
  }

  lemma {:induction false} FullWidthThreeNormalises()
    ensures NormalizeCategory(Some("Ⅲ类")) == "III类"
  {
    FullWidthThreeSpelledOut();
    NormalizesAsSpelled("Ⅲ类", "III类");
    RomanCategoryNormalises("III类");
  }

  lemma {:induction false} SpacedThreeNormalises()
    ensures NormalizeCategory(Some("III 类")) == "III类"
  {
    SpacedThreeSpelledOut();
    NormalizesAsSpelled("III 类", "III类");
    RomanCategoryNormalises("III类");
  }

  lemma {:induction false} NormalizesAsSpelled(s: string, t: string)
    requires Romanize(RemoveSpaces(Strip(s))) == t
    ensures NormalizeCategory(Some(s)) == NormalizeCategory(Some(t))
  {
    NormalizeCategorySpelling(s);
  }

  lemma {:induction false} FullWidthThreeSpelledOut()
    ensures Romanize(RemoveSpaces(Strip("Ⅲ类"))) == "III类"
  {
    var s := "Ⅲ类";
    StripNoop(s);
    RemoveSpacesNoop(s);
    RomanizeCharwise(s);
    FullWidthThreeEach();
  }

  lemma {:induction false} FullWidthThreeEach()
    ensures RomanizeEach("Ⅲ类") == "III类"
  {
    var s, t := "Ⅲ类", "类";
    assert s[0] == 'Ⅲ' && s[1..] == t;
    assert RomanizeEach(s) == "III" + RomanizeEach(t);
    assert t[0] == '类' && t[1..] == [];
    assert RomanizeEach(t) == "类";
  }

  lemma {:induction false} SpacedThreeSpelledOut()
    ensures Romanize(RemoveSpaces(Strip("III 类"))) == "III类"
  {
    StripNoop("III 类");
    SpacedThreeUnspaced();
    RomanizeNoop("III类");
  }

  lemma {:induction false} SpacedThreeUnspaced()
    ensures RemoveSpaces("III 类") == "III类"
  {
    var s, a, b := "III 类", "III", " 类";
    assert s == a + b;
    RemoveSpacesAppend(a, b);
    RemoveSpacesNoop(a);
    assert RemoveSpaces(b) == "类" by {
      assert IsSpace(b[0]) && b[1..] == "类";
      RemoveSpacesNoop("类");
    }
    assert a + "类" == "III类";
  }

  /** The digits 1 … 5 name the categories I类 … V类. */
  lemma {:induction false} NormalizeCategoryDigit(d: char)
    requires '1' <= d <= '5'
    ensures NormalizeCategory(Some([d])) == CategoryOfOrder(d as int - '0' as int)
  {
    var s := [d];
    NormalizeCleanSpelling(s);
    assert DropClassSuffix(s) == s;
    DigitCore(d);
  }

  lemma {:induction false} DigitCore(d: char)
    requires '1' <= d <= '5'
    ensures CategoryOfCore([d]) == CategoryOfOrder(d as int - '0' as int)
  {
    RomanOfDigits();
    DigitCategories();
    var s := [d];
    assert !StartsWith(s, "劣");
    if d == '1' {
      assert s == "1";
    } else if d == '2' {
      assert s == "2";
    } else if d == '3' {
      assert s == "3";
    } else if d == '4' {
      assert s == "4";
    } else {
      assert s == "5";
    }
  }

  lemma RomanOfDigits()
    ensures RomanOfDigit("1") == "I" && RomanOfDigit("2") == "II" && RomanOfDigit("3") == "III"
    ensures RomanOfDigit("4") == "IV" && RomanOfDigit("5") == "V"
  {
  }

  lemma DigitCategories()
    ensures CategoryOfOrder(1) == "I" + "类" && CategoryOfOrder(2) == "II" + "类"
    ensures CategoryOfOrder(3) == "III" + "类" && CategoryOfOrder(4) == "IV" + "类"
    ensures CategoryOfOrder(5) == "V" + "类"
  {
  }

  /** "合格" is no category spelling for `normalize_category` (unlike `CATEGORY_ORDER`). */
  lemma {:induction false} QualifiedIsNoCategorySpelling()
    ensures NormalizeCategory(Some("合格")) == ""
  {
    var s := "合格";
    assert NormalizeCategory(Some(s)) == CategoryOfCore(DropClassSuffix(s)) by {
      NormalizeCleanSpelling(s);
    }
    assert DropClassSuffix(s) == s;
    QualifiedCore();
  }

  lemma QualifiedCore()
    ensures CategoryOfCore("合格") == ""
  {
    assert "合格"[..1][0] == '合';
  }

  // ---------------------------------------------------------------- labels

  /** The invisible characters `sanitize_label` removes: U+200B … U+200F, U+FEFF and U+2060. */
  predicate IsZeroWidth(c: char) {
    '\U{200B}' <= c <= '\U{200F}' || c == '\U{FEFF}' || c == '\U{2060}'
  }

  function RemoveZeroWidth(s: string): (r: string)
    ensures forall c :: c in r ==> c in s && !IsZeroWidth(c)
  {
    if s == [] then []
    else (if IsZeroWidth(s[0]) then [] else [s[0]]) + RemoveZeroWidth(s[1..])
  }

  lemma {:induction false} RemoveZeroWidthNoop(s: string)
    requires forall c :: c in s ==> !IsZeroWidth(c)
    ensures RemoveZeroWidth(s) == s
    decreases |s|
  {
    if s != [] {
      assert forall c :: c in s[1..] ==> c in s;
      RemoveZeroWidthNoop(s[1..]);
    }
  }

  /** A label fit for a dictionary key: no invisible characters, single spaces only, nothing at either end. */
  predicate IsCleanLabel(r: string) {
    && (forall c :: c in r ==> !IsZeroWidth(c))
    && SingleSpaced(r)
    && (r == [] || (!IsSpace(r[0]) && !IsSpace(r[|r| - 1])))
  }

  /**
   * `sanitize_label`: NFKC, invisible characters removed, whitespace runs
   * collapsed to one space, then stripped; `None` gives "".
   */
  function SanitizeLabel(s: Option<string>, nfkc: string -> string): (r: string)
    ensures s.None? ==> r == ""
    ensures IsCleanLabel(r)
    ensures s.Some? ==> forall c :: c in r ==> c == ' ' || c in nfkc(s.value)
  {
    if s.None? then ""
    else
      var t := CollapseSpaces(RemoveZeroWidth(nfkc(s.value)));
      StripCleans(t);
      Strip(t)
  }

  /** Stripping a single-spaced text free of invisible characters gives a clean label made of its characters. */
  lemma {:induction false} StripCleans(t: string)
    requires SingleSpaced(t) && forall c :: c in t ==> !IsZeroWidth(c)
    ensures IsCleanLabel(Strip(t))
    ensures forall c :: c in Strip(t) ==> c in t
  {
    var r := Strip(t);
    assert forall c :: c in r ==> c in t by { StripChars(t); }
    assert SingleSpaced(r) by { SingleSpacedSlice(t, StripStart(t), StripStart(t) + |r|); }
  }

  /** Given a text NFKC leaves alone, `sanitize_label` leaves it alone exactly when it is already clean. */
  lemma {:induction false} SanitizeLabelFixedPoint(r: string, nfkc: string -> string)
    requires nfkc(r) == r
    ensures SanitizeLabel(Some(r), nfkc) == r <==> IsCleanLabel(r)
  {
    if IsCleanLabel(r) {
      RemoveZeroWidthNoop(r);
      CollapseSpacesNoop(r);
      StripNoop(r);
    }
  }

  /** Sanitising a sanitised label again changes nothing (when NFKC leaves it alone). */
  lemma {:induction false} SanitizeLabelIdempotent(s: Option<string>, nfkc: string -> string)
    requires nfkc(SanitizeLabel(s, nfkc)) == SanitizeLabel(s, nfkc)
    ensures SanitizeLabel(Some(SanitizeLabel(s, nfkc)), nfkc) == SanitizeLabel(s, nfkc)
  {
    SanitizeLabelFixedPoint(SanitizeLabel(s, nfkc), nfkc);
  }

  // ---------------------------------------------------------------- colours

  predicate IsHexDigit(c: char) {
    '0' <= c <= '9' || 'a' <= c <= 'f' || 'A' <= c <= 'F'
  }

  predicate IsUpperHex(h: string) {
    forall i :: 0 <= i < |h| ==> '0' <= h[i] <= '9' || 'A' <= h[i] <= 'F'
  }

  /** `''.join(c * 2 for c in s)`: every character written twice. */
  function Doubled(s: string): (r: string)
    ensures |r| == 2 * |s|
    ensures forall k :: 0 <= k < |r| ==> r[k] == s[k / 2]
  {
    if s == [] then []
    else
      var rest := Doubled(s[1..]);
      assert forall k :: 2 <= k < 2 * |s| ==> ([s[0], s[0]] + rest)[k] == rest[k - 2] == s[1..][(k - 2) / 2];
      [s[0], s[0]] + rest
  }

  /**
   * `hex_to_openpyxl`: "#rrggbb", "rrggbb" or the shorthand "#rgb" become
   * "RRGGBB"; an empty or missing colour, or one of any other length, gives `None`.
   */
  function HexToOpenpyxl(hex: Option<string>): (r: Option<string>)
    ensures hex.None? || hex.value == [] ==> r.None?
    ensures r.Some? ==> |r.value| == 6 && forall i :: 0 <= i < 6 ==> !('a' <= r.value[i] <= 'z')
  {
    if hex.None? || hex.value == [] then None
    else ExpandHex(Strip(TrimLeadingChar(hex.value, '#')))
  }

  /** The digits once '#' and surrounding blanks are gone: three are doubled, then all upper-cased; six are required. */
  function ExpandHex(s: string): (r: Option<string>)
    ensures r.Some? ==> |r.value| == 6 && forall i :: 0 <= i < 6 ==> !('a' <= r.value[i] <= 'z')
    ensures |s| == 3 || |s| == 6 <==> r.Some?
  {
    var t := if |s| == 3 then Doubled(s) else s;
    var u := Upper(t);
    if |u| != 6 then None else Some(u)
  }

  /** A six-character colour without '#' or surrounding whitespace is only upper-cased. */
  lemma {:induction false} HexOfBare(s: string)
    requires |s| == 6 && s[0] != '#' && !IsSpace(s[0]) && !IsSpace(s[5])
    ensures HexToOpenpyxl(Some(s)) == Some(Upper(s))
  {
    assert TrimLeadingChar(s, '#') == s;
    StripNoop(s);
  }

  /** The same colour behind one '#'. */
  lemma {:induction false} HexOfHashed(h: string)
    requires |h| == 7 && h[0] == '#' && h[1] != '#' && !IsSpace(h[1]) && !IsSpace(h[6])
    ensures HexToOpenpyxl(Some(h)) == Some(Upper(h[1..]))
  {
    var s := h[1..];
    assert Strip(TrimLeadingChar(h, '#')) == s by { TrimHashed(h); }
    assert ExpandHex(s) == Some(Upper(s));
  }

  /** One leading '#' goes, and a code with no blank at either end is otherwise kept. */
  lemma {:induction false} TrimHashed(h: string)
    requires |h| >= 2 && h[0] == '#' && h[1] != '#' && !IsSpace(h[1]) && !IsSpace(h[|h| - 1])
    ensures Strip(TrimLeadingChar(h, '#')) == h[1..]
  {
    var s := h[1..];
    assert TrimLeadingChar(s, '#') == s;
    StripNoop(s);
  }

  lemma {:induction false} UpperOfUpperHex(h: string)
    requires IsUpperHex(h)
    ensures Upper(h) == h && Upper(Lower(h)) == h
  {
    assert forall i :: 0 <= i < |h| ==> UpperChar(LowerChar(h[i])) == h[i];
  }

  /** Six upper-case hex digits come back unchanged, with or without '#', in either case. */
  lemma {:induction false} HexToOpenpyxlRoundTrip(h: string)
    requires |h| == 6 && IsUpperHex(h)
    ensures HexToOpenpyxl(Some(h)) == Some(h)
    ensures HexToOpenpyxl(Some("#" + h)) == Some(h)
    ensures HexToOpenpyxl(Some(Lower(h))) == Some(h)
    ensures HexToOpenpyxl(Some("#" + Lower(h))) == Some(h)
  {
    var l := Lower(h);
    UpperOfUpperHex(h);
    assert !IsSpace(h[0]) && !IsSpace(h[5]) && h[0] != '#';
    assert !IsSpace(l[0]) && !IsSpace(l[5]) && l[0] != '#';
    assert HexToOpenpyxl(Some(h)) == Some(h) by { HexOfBare(h); }
    assert HexToOpenpyxl(Some("#" + h)) == Some(h) by {
      assert ("#" + h)[1..] == h;
      HexOfHashed("#" + h);
    }
    assert HexToOpenpyxl(Some(l)) == Some(h) by { HexOfBare(l); }
    assert HexToOpenpyxl(Some("#" + l)) == Some(h) by {
      assert ("#" + l)[1..] == l;
      HexOfHashed("#" + l);
    }
  }

  /** The shorthand "#rgb" doubles each digit: "#f0a" gives "FF00AA". */
  lemma {:induction false} HexToOpenpyxlShorthand(t: string)
    requires |t| == 3 && forall i :: 0 <= i < 3 ==> IsHexDigit(t[i])
    ensures HexToOpenpyxl(Some("#" + t)).Some?
    ensures var u := HexToOpenpyxl(Some("#" + t)).value;
      forall k :: 0 <= k < 6 ==> u[k] == UpperChar(t[k / 2])
  {
    ShorthandDoubled(t);
  }

  lemma {:induction false} ShorthandDoubled(t: string)
    requires |t| == 3 && forall i :: 0 <= i < 3 ==> IsHexDigit(t[i])
    ensures HexToOpenpyxl(Some("#" + t)) == Some(Upper(Doubled(t)))
  {
    assert ("#" + t)[1..] == t;
    TrimHashed("#" + t);
    assert ExpandHex(t) == Some(Upper(Doubled(t)));
  }

  // ---------------------------------------------------------------- metric ids

  /** None of the words `canonical_metric_id` looks for occurs in the lower-cased name `n`. */
  predicate NoMetricWord(n: string) {
    && !Contains(n, "ph") && !Contains(n, "溶解氧") && !Contains(n, "do")
    && !Contains(n, "高锰酸") && !Contains(n, "cod") && !Contains(n, "codmn")
    && !Contains(n, "氨氮") && !Contains(n, "nh") && !Contains(n, "总磷") && !Contains(n, "tp")
  }

  /** The words of each group `canonical_metric_id` tests, after "ph". */
  predicate OxygenWord(n: string) { Contains(n, "溶解氧") || Contains(n, "do") }
  predicate PermanganateWord(n: string) { Contains(n, "高锰酸") || Contains(n, "cod") || Contains(n, "codmn") }
  predicate AmmoniaWord(n: string) { Contains(n, "氨氮") || Contains(n, "nh") }
  predicate PhosphorusWord(n: string) { Contains(n, "总磷") || Contains(n, "tp") }

  /** The word groups of `canonical_metric_id` with their ids, in the order they are tried. */
  const MetricWordGroups: seq<(seq<string>, string)> := [
    (["ph"], "pH"),
    (["溶解氧", "do"], "溶解氧"),
    (["高锰酸", "cod", "codmn"], "CODMn"),
    (["氨氮", "nh"], "氨氮"),
    (["总磷", "tp"], "总磷")
  ]

  /** Whether some word of `words` occurs in `n`. */
  predicate AnyWord(n: string, words: seq<string>) {
    exists i :: 0 <= i < |words| && Contains(n, words[i])
  }

  /** The id of the first group with a word in `n`, if any: an independent reading of a first-match table. */
  function FirstGroupId(n: string, groups: seq<(seq<string>, string)>): Option<string> {
    if groups == [] then None
    else if AnyWord(n, groups[0].0) then Some(groups[0].1)
    else FirstGroupId(n, groups[1..])
  }

  /**
   * `canonical_metric_id`: the first of five substring tests on the
   * lower-cased name (a missing name reads as "") picks the id.
   */
  function CanonicalMetricId(name: Option<string>): (r: Option<string>)
    ensures r.None? || r.value in {"pH", "溶解氧", "CODMn", "氨氮", "总磷"}
    ensures r.None? <==> NoMetricWord(Lower(name.GetOr("")))
    ensures var n := Lower(name.GetOr(""));
      && (r == Some("pH") <==> Contains(n, "ph"))
      && (r == Some("溶解氧") <==> !Contains(n, "ph") && OxygenWord(n))
      && (r == Some("CODMn") <==> !Contains(n, "ph") && !OxygenWord(n) && PermanganateWord(n))
      && (r == Some("氨氮") <==> !Contains(n, "ph") && !OxygenWord(n) && !PermanganateWord(n) && AmmoniaWord(n))
      && (r == Some("总磷") <==>
            !Contains(n, "ph") && !OxygenWord(n) && !PermanganateWord(n) && !AmmoniaWord(n) && PhosphorusWord(n))
  {
    var n := Lower(name.GetOr(""));
    if Contains(n, "ph") then Some("pH")
    else if Contains(n, "溶解氧") || Contains(n, "do") then Some("溶解氧")
    else if Contains(n, "高锰酸") || Contains(n, "cod") || Contains(n, "codmn") then Some("CODMn")
    else if Contains(n, "氨氮") || Contains(n, "nh") then Some("氨氮")
    else if Contains(n, "总磷") || Contains(n, "tp") then Some("总磷")
    else None
  }

  /** The id is the one of the first word group, in table order, that occurs in the lower-cased name. */
  lemma {:induction false} CanonicalIsFirstGroup(name: Option<string>)
    ensures CanonicalMetricId(name) == FirstGroupId(Lower(name.GetOr("")), MetricWordGroups)
  {
    var n := Lower(name.GetOr(""));
    var g := MetricWordGroups;
    AnyWordOne(n, "ph");
    AnyWordTwo(n, "溶解氧", "do");
    AnyWordThree(n, "高锰酸", "cod", "codmn");
    AnyWordTwo(n, "氨氮", "nh");
    AnyWordTwo(n, "总磷", "tp");
    var g4 := [(["总磷", "tp"], "总磷")];
    var g3 := [(["氨氮", "nh"], "氨氮")] + g4;
    var g2 := [(["高锰酸", "cod", "codmn"], "CODMn")] + g3;
    var g1 := [(["溶解氧", "do"], "溶解氧")] + g2;
    assert g4[1..] == [];
    assert FirstGroupId(n, g4) == if PhosphorusWord(n) then Some("总磷") else None;
    assert g3[1..] == g4;
    assert FirstGroupId(n, g3) == if AmmoniaWord(n) then Some("氨氮") else FirstGroupId(n, g4);
    assert g2[1..] == g3;
    assert FirstGroupId(n, g2) == if PermanganateWord(n) then Some("CODMn") else FirstGroupId(n, g3);
    assert g1[1..] == g2;
    assert FirstGroupId(n, g1) == if OxygenWord(n) then Some("溶解氧") else FirstGroupId(n, g2);
    assert g == [(["ph"], "pH")] + g1 && g[1..] == g1;
  }

  lemma {:induction false} AnyWordOne(n: string, a: string)
    ensures AnyWord(n, [a]) <==> Contains(n, a)
  {
    if Contains(n, a) { assert [a][0] == a; }
  }

  lemma {:induction false} AnyWordTwo(n: string, a: string, b: string)
    ensures AnyWord(n, [a, b]) <==> Contains(n, a) || Contains(n, b)
  {
    if Contains(n, a) { assert [a, b][0] == a; }
    if Contains(n, b) { assert [a, b][1] == b; }
  }

  lemma {:induction false} AnyWordThree(n: string, a: string, b: string, c: string)
    ensures AnyWord(n, [a, b, c]) <==> Contains(n, a) || Contains(n, b) || Contains(n, c)
  {
    if Contains(n, a) { assert [a, b, c][0] == a; }
    if Contains(n, b) { assert [a, b, c][1] == b; }
    if Contains(n, c) { assert [a, b, c][2] == c; }
  }

  /** Names with words of two groups: the earlier group wins. */
  lemma {:induction false} TwoWordNames()
    ensures CanonicalMetricId(Some("cod/do")) == Some("溶解氧")
    ensures CanonicalMetricId(Some("nh3/tp")) == Some("氨氮")
  {
    assert CanonicalMetricId(Some("cod/do")) == Some("溶解氧") by { OxygenBeforePermanganate(); }
    assert CanonicalMetricId(Some("nh3/tp")) == Some("氨氮") by { AmmoniaBeforePhosphorus(); }
  }

  lemma {:induction false} OxygenBeforePermanganate()
    ensures CanonicalMetricId(Some("cod/do")) == Some("溶解氧")
  {
    var n := "cod/do";
    assert Lower(n) == n;
    MissingCharNotContained(n, "ph", 0);
    assert MatchAt(n, "do", 4);
  }

  lemma {:induction false} AmmoniaBeforePhosphorus()
    ensures CanonicalMetricId(Some("nh3/tp")) == Some("氨氮")
  {
    var n := "nh3/tp";
    assert Lower(n) == n;
    assert !Contains(n, "ph") by {
      forall i | 0 <= i <= |n| - 2 ensures !MatchAt(n, "ph", i) {
        assert n[i..i + 2][0] == n[i];
      }
    }
    MissingCharNotContained(n, "溶解氧", 0);
    MissingCharNotContained(n, "do", 0);
    MissingCharNotContained(n, "高锰酸", 0);
    MissingCharNotContained(n, "cod", 0);
    MissingCharNotContained(n, "codmn", 0);
    assert MatchAt(n, "nh", 0);
  }

  /** A missing name has no id. */
  lemma {:induction false} MissingNameHasNoId()
    ensures CanonicalMetricId(None) == None
  {
    assert Lower("") == "";
    MissingCharNotContained("", "ph", 0);
    MissingCharNotContained("", "溶解氧", 0);
    MissingCharNotContained("", "do", 0);
    MissingCharNotContained("", "高锰酸", 0);
    MissingCharNotContained("", "cod", 0);
    MissingCharNotContained("", "codmn", 0);
    MissingCharNotContained("", "氨氮", 0);
    MissingCharNotContained("", "nh", 0);
    MissingCharNotContained("", "总磷", 0);
    MissingCharNotContained("", "tp", 0);
  }

  /** The "codmn" test can never decide anything: a name holding "codmn" holds "cod". */
  lemma {:induction false} CodmnTestSubsumed(n: string)
    requires Contains(n, "codmn")
    ensures Contains(n, "cod")
  {
    ContainsPrefix(n, "codmn", 3);
    assert "codmn"[..3] == "cod";
  }

  /**
   * Every name `recognized_metric_id` recognises also has a canonical id:
   * the canonical tests include all of its words (高锰酸 is a prefix of 高锰酸盐).
   */
  lemma {:induction false} CanonicalCoversRecognized(n: string)
    requires RecognizedMetricId(n).Some?
    ensures CanonicalMetricId(Some(n)).Some?
  {
    var low := Lower(n);
    WordFacts();
    assert NoAsciiLetter("高锰酸盐");
    ContainsLowerNoLetters(n, "溶解氧");
    ContainsLowerNoLetters(n, "高锰酸");
    ContainsLowerNoLetters(n, "氨氮");
    ContainsLowerNoLetters(n, "总磷");
    if Contains(n, "高锰酸盐") {
      ContainsPrefix(n, "高锰酸盐", 3);
      assert "高锰酸盐"[..3] == "高锰酸";
    }
  }

  /** Short English names: "DO", "NH3-N" and "TP" have canonical ids (the classifier reads none of the first two). */
  lemma {:induction false} ShortNamesHaveIds()
    ensures CanonicalMetricId(Some("DO")) == Some("溶解氧")
    ensures CanonicalMetricId(Some("NH3-N")) == Some("氨氮")
    ensures CanonicalMetricId(Some("TP")) == Some("总磷")
  {
    assert CanonicalMetricId(Some("DO")) == Some("溶解氧") by {
      assert Lower("DO") == "do";
      MissingCharNotContained("do", "ph", 0);
      assert MatchAt("do", "do", 0);
    }
    assert CanonicalMetricId(Some("NH3-N")) == Some("氨氮") by { AmmoniaShortName(); }
    assert CanonicalMetricId(Some("TP")) == Some("总磷") by { PhosphorusShortName(); }
  }

  lemma {:induction false} AmmoniaShortName()
    ensures CanonicalMetricId(Some("NH3-N")) == Some("氨氮")
  {
    var n := "nh3-n";
    assert Lower("NH3-N") == n;
    MissingCharNotContained(n, "ph", 0);
    MissingCharNotContained(n, "溶解氧", 0);
    MissingCharNotContained(n, "do", 0);
    MissingCharNotContained(n, "高锰酸", 0);
    MissingCharNotContained(n, "cod", 0);
    MissingCharNotContained(n, "codmn", 0);
    MissingCharNotContained(n, "氨氮", 0);
    assert MatchAt(n, "nh", 0);
  }

  lemma {:induction false} PhosphorusShortName()
    ensures CanonicalMetricId(Some("TP")) == Some("总磷")
  {
    var n := "tp";
    assert Lower("TP") == n;
    MissingCharNotContained(n, "ph", 1);
    MissingCharNotContained(n, "溶解氧", 0);
    MissingCharNotContained(n, "do", 0);
    MissingCharNotContained(n, "高锰酸", 0);
    MissingCharNotContained(n, "cod", 0);
    MissingCharNotContained(n, "codmn", 0);
    MissingCharNotContained(n, "氨氮", 0);
    MissingCharNotContained(n, "nh", 0);
    MissingCharNotContained(n, "总磷", 0);
    assert MatchAt(n, "tp", 0);
  }

  /** Each canonical id is its own canonical id. */
  lemma {:induction false} CanonicalIdsAreFixed()
    ensures CanonicalMetricId(Some("pH")) == Some("pH")
    ensures CanonicalMetricId(Some("溶解氧")) == Some("溶解氧")
    ensures CanonicalMetricId(Some("CODMn")) == Some("CODMn")
    ensures CanonicalMetricId(Some("氨氮")) == Some("氨氮")
    ensures CanonicalMetricId(Some("总磷")) == Some("总磷")
  {
    assert CanonicalMetricId(Some("pH")) == Some("pH") by {
      assert Lower("pH") == "ph";
      assert MatchAt("ph", "ph", 0);
    }
    assert CanonicalMetricId(Some("溶解氧")) == Some("溶解氧") by {
      var n := "溶解氧";
      LowerNoop(n);
      MissingCharNotContained(n, "ph", 0);
      assert MatchAt(n, n, 0);
    }
    assert CanonicalMetricId(Some("CODMn")) == Some("CODMn") by { PermanganateIdFixed(); }
    assert CanonicalMetricId(Some("氨氮")) == Some("氨氮") by { ChineseIdFixed("氨氮"); }
    assert CanonicalMetricId(Some("总磷")) == Some("总磷") by { ChineseIdFixed("总磷"); }
  }

  lemma {:induction false} PermanganateIdFixed()
    ensures CanonicalMetricId(Some("CODMn")) == Some("CODMn")
  {
    var n := "codmn";
    assert Lower("CODMn") == n;
    MissingCharNotContained(n, "ph", 0);
    MissingCharNotContained(n, "溶解氧", 0);
    assert !Contains(n, "do") by {
      forall i | 0 <= i <= |n| - 2 ensures !MatchAt(n, "do", i) {
        assert n[i..i + 2][0] == n[i] && n[i..i + 2][1] == n[i + 1];
        assert !(n[i] == 'd' && n[i + 1] == 'o');
      }
    }
    assert MatchAt(n, "cod", 0);
  }

  /** 氨氮 and 总磷 hold no Latin letter and none of the earlier words. */
  lemma {:induction false} ChineseIdFixed(id: string)
    requires id == "氨氮" || id == "总磷"
    ensures CanonicalMetricId(Some(id)) == Some(id)
  {
    LowerNoop(id);
    MissingCharNotContained(id, "ph", 0);
    MissingCharNotContained(id, "溶解氧", 0);
    MissingCharNotContained(id, "do", 0);
    MissingCharNotContained(id, "高锰酸", 0);
    MissingCharNotContained(id, "cod", 0);
    MissingCharNotContained(id, "codmn", 0);
    assert MatchAt(id, id, 0);
    if id == "总磷" {
      MissingCharNotContained(id, "氨氮", 0);
      MissingCharNotContained(id, "nh", 0);
    }
  }

  // ---------------------------------------------------------------- overall category of a row

  /** `core.lower() in {"合格", "qualified", "pass"}`. */
  predicate IsQualifiedWord(w: string) {
    w == "合格" || w == "qualified" || w == "pass"
  }

  /**
   * `_normalize_cat`: the category a text names, looked up in the
   * classifier's `NORMALIZE_CATEGORY` table (`mapping`) first as given and
   * then sanitised, else read as a Roman numeral, a digit or a 劣 spelling,
   * else "qualified"; an unreadable text comes back stripped but unchanged,
   * and an empty or missing one as "".
   */
  function NormalizeCat(cat: Option<string>, mapping: map<string, string>, nfkc: string -> string): (r: string)
    ensures cat.None? || cat.value == [] ==> r == ""
    ensures cat.Some? && cat.value != [] ==> IsCategory(r) || r in mapping.Values || r == Strip(cat.value)
  {
    if cat.None? || cat.value == [] then ""
    else NormalizeStripped(Strip(cat.value), mapping, nfkc)
  }

  /** `_normalize_cat` once the text is stripped. */
  function NormalizeStripped(s: string, mapping: map<string, string>, nfkc: string -> string): (r: string)
    ensures IsCategory(r) || r in mapping.Values || r == s
  {
    if s in mapping then mapping[s]
    else
      var s2 := SanitizeLabel(Some(s), nfkc);
      if s2 in mapping then mapping[s2]
      else NormalizeCore(RomanOfDigit(Romanize(DropClassSuffix(s2))), s, mapping)
  }

  /**
   * The rest of `_normalize_cat` once the table lookups failed: 劣 spellings,
   * Roman numerals, then the words for "qualified" (only with a table),
   * else the stripped text `s` itself.
   */
  function NormalizeCore(core: string, s: string, mapping: map<string, string>): (r: string)
    ensures IsCategory(r) || r in mapping.Values || r == s
  {
    if StartsWith(core, "劣") then "劣V类"
    else if IsRomanNumeral(core) then ClassName(core)
    else if mapping != map[] && IsQualifiedWord(Lower(core)) then
      (if "合格" in mapping then mapping["合格"] else "I类")
    else s
  }

  /** A clean text the table does not list, with no full-width numeral, goes straight to the final step. */
  lemma {:induction false} NormalizeCleanText(s: string, mapping: map<string, string>, nfkc: string -> string)
    requires s != [] && IsCleanLabel(s) && nfkc(s) == s && s !in mapping
    requires forall i :: 0 <= i < |s| ==> !IsFullWidthRoman(s[i])
    ensures NormalizeCat(Some(s), mapping, nfkc) == NormalizeCore(RomanOfDigit(DropClassSuffix(s)), s, mapping)
  {
    var t := DropClassSuffix(s);
    assert Strip(s) == s by { StripNoop(s); }
    assert SanitizeLabel(Some(s), nfkc) == s by { SanitizeLabelFixedPoint(s, nfkc); }
    assert Romanize(t) == t by {
      assert forall c :: c in t ==> c in s;
      RomanizeNoop(t);
    }
  }

  /** A category table: every entry names a category, and a category that is a key names itself. */
  predicate CategoryValued(mapping: map<string, string>) {
    && (forall k :: k in mapping ==> IsCategory(mapping[k]))
    && (forall c :: c in mapping && IsCategory(c) ==> mapping[c] == c)
  }

  /** The classifier's own `NORMALIZE_CATEGORY` is such a table. */
  lemma {:induction false} NormalizeCategoryTableValued()
    ensures CategoryValued(NormalizeCategoryTable)
  {
    var t := NormalizeCategoryTable;
    forall k | k in t
      ensures IsCategory(t[k]) && (IsCategory(k) ==> t[k] == k)
    {
      if k == "合格" || k == "合格类" {
        assert t[k] == "I类";
        assert !IsCategory(k) by { assert k[0] == '合'; }
      }
    }
  }

  /** With a category table and an NFKC that leaves the categories alone, every category is its own normal form. */
  lemma {:induction false} NormalizeCatKeepsCategories(c: string, mapping: map<string, string>, nfkc: string -> string)
    requires IsCategory(c) && CategoryValued(mapping) && nfkc(c) == c
    ensures NormalizeCat(Some(c), mapping, nfkc) == c
  {
    CategoryShape(c);
    if c in mapping {
      assert Strip(c) == c by { StripNoop(c); }
    } else {
      assert IsCleanLabel(c) by { assert SingleSpaced(c); }
      NormalizeCleanText(c, mapping, nfkc);
      CategoryCoreFixed(c, mapping);
    }
  }

  /** The final step of `_normalize_cat` gives a category back when fed its core. */
  lemma {:induction false} CategoryCoreFixed(c: string, mapping: map<string, string>)
    requires IsCategory(c)
    ensures NormalizeCore(RomanOfDigit(c[..|c| - 1]), c, mapping) == c
  {
    CategoryShape(c);
    var core := c[..|c| - 1];
    assert RomanOfDigit(core) == core;
    if c == "劣V类" {
      assert StartsWith(core, "劣");
    } else {
      assert core[0] == 'I' || core[0] == 'V';
      assert !StartsWith(core, "劣");
    }
  }

  /**
   * `_normalize_cat` is idempotent for a category table and an NFKC that
   * leaves the categories alone: what it returns is a category, which stays
   * put, or the stripped text, which normalises the same way again.
   */
  lemma {:induction false} NormalizeCatIdempotent(cat: Option<string>, mapping: map<string, string>, nfkc: string -> string)
    requires CategoryValued(mapping)
    requires forall c :: IsCategory(c) ==> nfkc(c) == c
    ensures NormalizeCat(Some(NormalizeCat(cat, mapping, nfkc)), mapping, nfkc) == NormalizeCat(cat, mapping, nfkc)
  {
    var r := NormalizeCat(cat, mapping, nfkc);
    if r == "" {
    } else if IsCategory(r) {
      NormalizeCatKeepsCategories(r, mapping, nfkc);
    } else {
      assert r !in mapping.Values;
      assert r == Strip(cat.value);
      StripIdempotent(cat.value);
    }
  }

  /** A bare digit 1 … 5 that the table does not list names its category. */
  lemma {:induction false} NormalizeCatDigit(d: char, mapping: map<string, string>, nfkc: string -> string)
    requires '1' <= d <= '5' && [d] !in mapping && nfkc([d]) == [d]
    ensures NormalizeCat(Some([d]), mapping, nfkc) == CategoryOfOrder(d as int - '0' as int)
  {
    var s := [d];
    assert IsCleanLabel(s) && DropClassSuffix(s) == s;
    NormalizeCleanText(s, mapping, nfkc);
    DigitNormalizeCore(d, mapping);
    DigitCore(d);
  }

  lemma {:induction false} DigitNormalizeCore(d: char, mapping: map<string, string>)
    requires '1' <= d <= '5'
    ensures NormalizeCore(RomanOfDigit([d]), [d], mapping) == CategoryOfCore([d])
  {
    assert !StartsWith([d], "劣") by { assert [d][..1][0] == d; }
    RomanOfDigits();
    var u := RomanOfDigit([d]);
    assert IsRomanNumeral(u) by {
      if d == '1' { assert [d] == "1"; }
      else if d == '2' { assert [d] == "2"; }
      else if d == '3' { assert [d] == "3"; }
      else if d == '4' { assert [d] == "4"; }
      else { assert [d] == "5"; }
    }
    assert !StartsWith(u, "劣");
  }

  /** "pass" counts as qualified only when there is a table to say what qualified means. */
  lemma {:induction false} PassNeedsTable(nfkc: string -> string)
    requires nfkc("pass") == "pass"
    ensures NormalizeCat(Some("pass"), map[], nfkc) == "pass"
    ensures NormalizeCat(Some("pass"), NormalizeCategoryTable, nfkc) == "I类"
  {
    var s := "pass";
    PassFacts();
    PassCoreFacts();
    PassWordFacts();
    TableFacts();
    NormalizeCleanText(s, map[], nfkc);
    NormalizeCleanText(s, NormalizeCategoryTable, nfkc);
  }

  lemma PassFacts()
    ensures IsCleanLabel("pass") && DropClassSuffix("pass") == "pass"
    ensures forall i :: 0 <= i < |"pass"| ==> !IsFullWidthRoman("pass"[i])
  {
    assert SingleSpaced("pass");
  }

  lemma PassCoreFacts()
    ensures RomanOfDigit("pass") == "pass" && !StartsWith("pass", "劣") && !IsRomanNumeral("pass")
  {
    var s := "pass";
    assert |s| == 4 && s[0] == 'p' && s[..1][0] == 'p';
    assert s != "1" && s != "2" && s != "3" && s != "4" && s != "5";
  }

  lemma PassWordFacts()
    ensures IsQualifiedWord(Lower("pass"))
  {
    assert Lower("pass") == "pass";
  }

  lemma TableFacts()
    ensures "pass" !in NormalizeCategoryTable && NormalizeCategoryTable != map[]
    ensures "合格" in NormalizeCategoryTable && NormalizeCategoryTable["合格"] == "I类"
  {
    var k := "pass";
    assert forall t :: t in NormalizeCategoryTable ==> t[0] != k[0];
    assert "合格" in NormalizeCategoryTable;
  }

  /**
   * The severity `compute_overall_from_categories` gives one entry: that of
   * its normal form when `CATEGORY_ORDER` knows it, else that of the raw
   * text (0 when unknown too). Known severities are never 0, so "known" is
   * "`Order` is not 0".
   */
  function EntryOrder(c: string, mapping: map<string, string>, nfkc: string -> string): (o: nat)
    ensures o <= 6
    ensures o == 0 <==> Order(NormalizeCat(Some(c), mapping, nfkc)) == 0 && Order(c) == 0
  {
    var known := Order(NormalizeCat(Some(c), mapping, nfkc));
    if known != 0 then known else Order(c)
  }

  /** `EntryOrder` under a fixed table and NFKC, as a function of the entry alone. */
  function EntryOrderOf(mapping: map<string, string>, nfkc: string -> string): (entry: string -> nat)
    ensures forall c :: entry(c) == EntryOrder(c, mapping, nfkc)
  {
    c => EntryOrder(c, mapping, nfkc)
  }

  /** The severities of a row of entries, in order. */
  function Severities(categories: seq<string>, entry: string -> nat): (os: seq<nat>)
    ensures |os| == |categories|
    ensures forall i :: 0 <= i < |os| ==> os[i] == entry(categories[i])
  {
    if categories == [] then []
    else
      var n := |categories| - 1;
      var front := Severities(categories[..n], entry);
      var os := front + [entry(categories[n])];
      assert forall i :: 0 <= i < n ==> os[i] == front[i] && categories[..n][i] == categories[i];
      os
  }

  function EntryOrders(categories: seq<string>, mapping: map<string, string>, nfkc: string -> string): (os: seq<nat>)
    ensures |os| == |categories|
    ensures forall i :: 0 <= i < |os| ==> os[i] == EntryOrder(categories[i], mapping, nfkc)
  {
    Severities(categories, EntryOrderOf(mapping, nfkc))
  }

  /** Python's `max` over a list of severities (0 for none). */
  function MaxOrder(os: seq<nat>): (m: nat)
    ensures forall i :: 0 <= i < |os| ==> os[i] <= m
    ensures os == [] ==> m == 0
    ensures os != [] ==> exists i :: 0 <= i < |os| && os[i] == m
  {
    if os == [] then 0
    else
      var front := MaxOrder(os[..|os| - 1]);
      if front < os[|os| - 1] then os[|os| - 1] else front
  }

  /**
   * `compute_overall_from_categories`: "无有效数据" for no entries,
   * otherwise the category of the worst entry severity ("" when none is known).
   */
  method ComputeOverallFromCategories(categories: seq<string>, mapping: map<string, string>, nfkc: string -> string)
    returns (r: string)
    ensures categories == [] ==> r == NoData
    ensures categories != [] ==> r == CategoryOfOrder(MaxOrder(EntryOrders(categories, mapping, nfkc)))
  {
    if |categories| == 0 {
      return NoData;
    }
    var entry := EntryOrderOf(mapping, nfkc);
    var orders: seq<nat> := [];
    for i := 0 to |categories|
      invariant orders == Severities(categories[..i], entry)
    {
      assert categories[..i + 1][..i] == categories[..i];
      orders := orders + [EntryOrder(categories[i], mapping, nfkc)];
    }
    assert categories[..|categories|] == categories;
    var worst := MaxOrder(orders);
    r := CategoryOfOrder(worst);
  }

  /** The classifier's table maps each text `CATEGORY_ORDER` knows to a category of the same severity. */
  lemma {:induction false} KnownTextKeepsOrder(c: string, nfkc: string -> string)
    requires c in CategoryOrder
    ensures EntryOrder(c, NormalizeCategoryTable, nfkc) == Order(c)
  {
    assert c in NormalizeCategoryTable && Order(NormalizeCategoryTable[c]) == Order(c);
    assert c != [] && !IsSpace(c[0]) && !IsSpace(c[|c| - 1]);
    StripNoop(c);
  }

  /** With the classifier's table, an entry is never rated better than `CATEGORY_ORDER` rates it. */
  lemma {:induction false} EntryOrderAtLeastOrder(c: string, nfkc: string -> string)
    ensures EntryOrder(c, NormalizeCategoryTable, nfkc) >= Order(c)
  {
    if c in CategoryOrder {
      KnownTextKeepsOrder(c, nfkc);
    }
  }

  /** A row of severities each at least that of its text has a maximum at least the worst severity of the texts. */
  lemma {:induction false} MaxOrderDominates(os: seq<nat>, categories: seq<string>)
    requires |os| == |categories|
    requires forall i :: 0 <= i < |os| ==> os[i] >= Order(categories[i])
    ensures MaxOrder(os) >= WorstOrder(categories)
  {
    var w := WorstOrder(categories);
    if w != 0 {
      var i :| 0 <= i < |categories| && Order(categories[i]) == w;
      assert os[i] >= w;
    }
  }

  /** … and exactly the worst severity when each is that of its text. */
  lemma {:induction false} MaxOrderMatches(os: seq<nat>, categories: seq<string>)
    requires |os| == |categories|
    requires forall i :: 0 <= i < |os| ==> os[i] == Order(categories[i])
    ensures MaxOrder(os) == WorstOrder(categories)
  {
    MaxOrderDominates(os, categories);
    var m := MaxOrder(os);
    if m != 0 {
      var i :| 0 <= i < |os| && os[i] == m;
      assert Order(categories[i]) <= WorstOrder(categories);
    }
  }

  /** With the classifier's table, `compute_overall_from_categories` never rates a row better than `overall_category`. */
  lemma {:induction false} ComputeOverallAtLeastOverall(categories: seq<string>, nfkc: string -> string)
    ensures MaxOrder(EntryOrders(categories, NormalizeCategoryTable, nfkc)) >= WorstOrder(categories)
  {
    var os := EntryOrders(categories, NormalizeCategoryTable, nfkc);
    forall i | 0 <= i < |os| ensures os[i] >= Order(categories[i]) {
      EntryOrderAtLeastOrder(categories[i], nfkc);
    }
    MaxOrderDominates(os, categories);
  }

  /** When every entry is a text `CATEGORY_ORDER` knows, the two rate the row alike. */
  lemma {:induction false} ComputeOverallAgreesOnKnownTexts(categories: seq<string>, nfkc: string -> string)
    requires forall i :: 0 <= i < |categories| ==> categories[i] in CategoryOrder
    ensures MaxOrder(EntryOrders(categories, NormalizeCategoryTable, nfkc)) == WorstOrder(categories)
  {
    var os := EntryOrders(categories, NormalizeCategoryTable, nfkc);
    forall i | 0 <= i < |os| ensures os[i] == Order(categories[i]) {
      KnownTextKeepsOrder(categories[i], nfkc);
    }
    MaxOrderMatches(os, categories);
  }
}

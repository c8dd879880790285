/**
 * The older single-row extractor: one product page becomes one flat row of
 * twenty text columns, written as one CSV line. The page is given as the texts
 * and attributes its selectors pick out (the text of a selection, the value of
 * an input, the options of a selector, the document identifiers).
 */
module LegacyExtract {
  import opened Text
  import opened Numbers
  import Extractor
  import Csv
  import Schema

  // ===========================================================================
  // The page and the row

  /** An option of the finish selector: its text and its `style` and `data-code` attributes. */
  datatype FinishOption = FinishOption(text: string, style: Option<string>, dataCode: Option<string>)

  datatype LegacyPage = LegacyPage(
    material: string,                     // text of `#details .material`
    simplifiedName: string,               // value of the `Simplified_Product_Name` input, "" when absent
    featureItems: seq<string>,            // texts of the `#key_features li` items
    shortDescription: string,             // text of `#short-description`
    sku: string,                          // text of `#details .sku`
    finishOptions: seq<FinishOption>,     // options of `#attribute3172`
    widthOptions: seq<string>,            // option texts of `#attribute3166`
    heightOptions: seq<string>,           // option texts of `#attribute3167`
    documents: seq<Extractor.Identifier>) // the `#documents .identifier` entries

  /** The twenty columns of the row, in the order `CSV_HEADERS` lists them. */
  datatype Header =
    | Material | ItemTypeName | Style | ModelName
    | BulletPoint1 | BulletPoint2 | BulletPoint3 | BulletPoint4 | BulletPoint5
    | SearchKeywords | ProductDescription | ParentsSkus
    | AvailableFinishes | AvailableWidths | AvailableHeights
    | InstallationGuide | LineDrawing | MeasurementGuide | Warranty | SalesSheet

  const CSV_HEADERS: seq<Header> := [
    Material, ItemTypeName, Style, ModelName,
    BulletPoint1, BulletPoint2, BulletPoint3, BulletPoint4, BulletPoint5,
    SearchKeywords, ProductDescription, ParentsSkus,
    AvailableFinishes, AvailableWidths, AvailableHeights,
    InstallationGuide, LineDrawing, MeasurementGuide, Warranty, SalesSheet]

  /** The header text each column is keyed by. */
  function HeaderName(h: Header): string {
    match h
    case Material => "Material"
    case ItemTypeName => "Item Type Name"
    case Style => "Style"
    case ModelName => "Model Name"
    case BulletPoint1 => "Bullet Point 1"
    case BulletPoint2 => "Bullet Point 2"
    case BulletPoint3 => "Bullet Point 3"
    case BulletPoint4 => "Bullet Point 4"
    case BulletPoint5 => "Bullet Point 5"
    case SearchKeywords => "Search Keywords"
    case ProductDescription => "Product Description"
    case ParentsSkus => "Parents SKUs"
    case AvailableFinishes => "Available finishes"
    case AvailableWidths => "Available widths"
    case AvailableHeights => "Available heights"
    case InstallationGuide => "Installation Guide/Manual PDF"
    case LineDrawing => "Line Drawing PDF"
    case MeasurementGuide => "Measurement Guide PDF"
    case Warranty => "Warranty PDF"
    case SalesSheet => "Product Sales Sheet Link"
  }

  datatype ProductRow = ProductRow(
    material: string,
    itemTypeName: string,
    style: string,
    modelName: string,
    bullet1: string,
    bullet2: string,
    bullet3: string,
    bullet4: string,
    bullet5: string,
    searchKeywords: string,
    productDescription: string,
    parentsSkus: string,
    finishes: string,
    widths: string,
    heights: string,
    installationGuide: string,
    lineDrawing: string,
    measurementGuide: string,
    warranty: string,
    salesSheet: string)

  /** `row[header]` */
  function Value(row: ProductRow, h: Header): string {
    match h
    case Material => row.material
    case ItemTypeName => row.itemTypeName
    case Style => row.style
    case ModelName => row.modelName
    case BulletPoint1 => row.bullet1
    case BulletPoint2 => row.bullet2
    case BulletPoint3 => row.bullet3
    case BulletPoint4 => row.bullet4
    case BulletPoint5 => row.bullet5
    case SearchKeywords => row.searchKeywords
    case ProductDescription => row.productDescription
    case ParentsSkus => row.parentsSkus
    case AvailableFinishes => row.finishes
    case AvailableWidths => row.widths
    case AvailableHeights => row.heights
    case InstallationGuide => row.installationGuide
    case LineDrawing => row.lineDrawing
    case MeasurementGuide => row.measurementGuide
    case Warranty => row.warranty
    case SalesSheet => row.salesSheet
  }

  // ===========================================================================
  // Escaping text for a regular expression

  /** The characters `escapeRegExp` puts a backslash in front of. */
  predicate IsRegExpSpecial(c: char) {
    || c == '.' || c == '*' || c == '+' || c == '?' || c == '^' || c == '$' || c == '{'
    || c == '}' || c == '(' || c == ')' || c == '|' || c == '[' || c == ']' || c == '\\'
  }

  function EscapeRegExp(s: string): (r: string)
    ensures |r| >= |s|
    decreases |s|
  {
    if s == [] then []
    else (if IsRegExpSpecial(s[0]) then ['\\', s[0]] else [s[0]]) + EscapeRegExp(s[1..])
  }

  function Prepend(c: char, r: Option<string>): Option<string> {
    match r
    case Some(s) => Some([c] + s)
    case None => None
  }

  /**
   * The text a pattern made of plain characters and escaped special
   * characters matches; `None` for a pattern holding a bare special character
   * or any other escape.
   */
  function PatternLiteral(p: string): Option<string>
    decreases |p|
  {
    if p == [] then Some([])
    else if p[0] == '\\' then
      if |p| >= 2 && IsRegExpSpecial(p[1]) then Prepend(p[1], PatternLiteral(p[2..])) else None
    else if IsRegExpSpecial(p[0]) then None
    else Prepend(p[0], PatternLiteral(p[1..]))
  }

  /** An escaped text is a pattern that matches exactly that text, and it is the only such pattern. */
  lemma {:induction false} EscapeRegExpLiteral(p: string, s: string)
    ensures PatternLiteral(p) == Some(s) <==> p == EscapeRegExp(s)
    decreases |p|
  {
    if p == [] || s == [] {
      if s != [] {
        assert EscapeRegExp(s) != [];
      }
      if p != [] {
        assert PatternLiteral(p) == None || |PatternLiteral(p).value| >= 1;
      }
    } else {
      var special := IsRegExpSpecial(s[0]);
      var n := if special then 2 else 1;
      EscapeRegExpCons(s);
      if |p| >= n {
        EscapeRegExpLiteral(p[n..], s[1..]);
        if p[..n] == EscapeRegExp(s)[..n] {
          assert p == EscapeRegExp(s)[..n] + p[n..];
          assert PatternLiteral(p) == Prepend(s[0], PatternLiteral(p[n..]));
          assert [s[0]] + s[1..] == s;
        }
      }
      if PatternLiteral(p) == Some(s) {
        PatternLiteralHead(p);
        assert p == p[..n] + p[n..];
        assert EscapeRegExp(s) == EscapeRegExp(s)[..n] + EscapeRegExp(s)[n..];
      }
    }
  }

  /** A literal pattern starts with the escape of the first character it matches. */
  lemma PatternLiteralHead(p: string)
    requires PatternLiteral(p).Some? && PatternLiteral(p).value != []
    ensures var s := PatternLiteral(p).value; var n := if IsRegExpSpecial(s[0]) then 2 else 1;
      |p| >= n && p[..n] == (if IsRegExpSpecial(s[0]) then ['\\', s[0]] else [s[0]]) &&
      PatternLiteral(p[n..]) == Some(s[1..])
  {
    var v := PatternLiteral(p).value;
    if p[0] == '\\' {
      var t := PatternLiteral(p[2..]).value;
      assert v == [p[1]] + t;
      assert v[1..] == t;
      assert p[..2] == ['\\', p[1]];
    } else {
      var t := PatternLiteral(p[1..]).value;
      assert v == [p[0]] + t;
      assert v[1..] == t;
      assert p[..1] == [p[0]];
    }
  }

  lemma EscapeRegExpCons(s: string)
    requires s != []
    ensures var n := if IsRegExpSpecial(s[0]) then 2 else 1;
      |EscapeRegExp(s)| >= n && EscapeRegExp(s)[n..] == EscapeRegExp(s[1..]) &&
      EscapeRegExp(s)[..n] == (if IsRegExpSpecial(s[0]) then ['\\', s[0]] else [s[0]])
  {
  }

  // ===========================================================================
  // Model name, item type and style

  /**
   * `name.replace(new RegExp("^" + escapeRegExp(material) + "\\s+", "i"), "")`:
   * a leading copy of the material (ASCII case-insensitive) and the whitespace
   * run after it are removed; anything else is left as it is.
   */
  function StripMaterial(name: string, material: string): (r: string)
    ensures |r| <= |name| && r == name[|name| - |r|..]
  {
    var m := |material|;
    if Extractor.StartsWithCI(name, material) && m < |name| && IsSpace(name[m])
    then name[Extractor.SkipSpaces(name, m)..]
    else name
  }

  /** The material, spelt in any letter case and followed by whitespace, is removed from the front. */
  lemma StripMaterialSpec(prefix: string, gap: string, rest: string, material: string)
    requires Lower(prefix) == Lower(material)
    requires gap != [] && AllSpace(gap)
    requires rest == [] || !IsSpace(rest[0])
    ensures StripMaterial(prefix + gap + rest, material) == rest
  {
    var name := prefix + gap + rest;
    var m := |material|;
    assert name[..m] == prefix;
    assert name[m] == gap[0];
    var j := Extractor.SkipSpaces(name, m);
    assert forall k :: m <= k < m + |gap| ==> name[k] == gap[k - m];
    assert name[m + |gap|..] == rest;
  }

  /** The first position at or after `i` that holds whitespace, or the end. */
  function SpaceAt(s: string, i: nat): (j: nat)
    requires i <= |s|
    ensures i <= j <= |s|
    ensures forall k :: i <= k < j ==> !IsSpace(s[k])
    ensures j == |s| || IsSpace(s[j])
    decreases |s| - i
  {
    if i < |s| && !IsSpace(s[i]) then SpaceAt(s, i + 1) else i
  }

  /** `s.split(/\s+/)`: the pieces between maximal whitespace runs, "" at an end that is whitespace. */
  function SplitSpaces(s: string): (r: seq<string>)
    ensures |r| >= 1
    decreases |s|
  {
    var i := SpaceAt(s, 0);
    if i == |s| then [s]
    else [s[..i]] + SplitSpaces(s[Extractor.SkipSpaces(s, i)..])
  }

  /** A word: non-empty and free of whitespace. */
  predicate IsWord(w: string) {
    w != [] && forall k :: 0 <= k < |w| ==> !IsSpace(w[k])
  }

  predicate AllWords(ws: seq<string>) {
    forall i :: 0 <= i < |ws| ==> IsWord(ws[i])
  }

  /** `words.length >= 2 ? words[0] + " " + words[words.length - 1] : s` */
  function ItemType(s: string): string {
    var words := SplitSpaces(s);
    if |words| >= 2 then words[0] + " " + words[|words| - 1] else s
  }

  /** `words.length >= 2 ? words.slice(1).join(" ") : s` */
  function StyleOf(s: string): string {
    var words := SplitSpaces(s);
    if |words| >= 2 then Join(words[1..], " ") else s
  }

  /** The model name without its leading material, trimmed. */
  function WithoutMaterial(modelName: string, material: string): string {
    Trim(StripMaterial(modelName, material))
  }

  /** Splitting a trimmed, non-empty text yields words only. */
  lemma {:induction false} SplitTrimmedWords(s: string)
    requires s != [] && IsTrimmed(s)
    ensures AllWords(SplitSpaces(s))
    decreases |s|
  {
    var i := SpaceAt(s, 0);
    if i < |s| {
      var j := Extractor.SkipSpaces(s, i);
      var rest := s[j..];
      assert rest[|rest| - 1] == s[|s| - 1];
      SplitTrimmedWords(rest);
      assert s[..i][0] == s[0];
      assert forall k :: 0 <= k < i ==> s[..i][k] == s[k];
    }
  }

  /** Words joined with single spaces split back into those words. */
  lemma {:induction false} SplitJoinWords(ws: seq<string>)
    requires |ws| >= 1 && AllWords(ws)
    ensures SplitSpaces(Join(ws, " ")) == ws
    decreases |ws|
  {
    var w := ws[0];
    if |ws| == 1 {
      NoSpaceAt(w);
    } else {
      var tail := Join(ws[1..], " ");
      JoinCons(w, ws[1..], " ");
      assert [w] + ws[1..] == ws;
      var s := w + " " + tail;
      JoinStartsWithFirst(ws[1..], " ");
      assert tail[0] == ws[1][0];
      assert forall k :: 0 <= k < |w| ==> s[k] == w[k];
      var i := SpaceAt(s, 0);
      assert s[|w|] == ' ';
      var j := Extractor.SkipSpaces(s, |w|);
      assert s[|w| + 1] == tail[0];
      assert s[..|w|] == w && s[|w| + 1..] == tail;
      SplitJoinWords(ws[1..]);
    }
  }

  lemma NoSpaceAt(w: string)
    requires IsWord(w)
    ensures SpaceAt(w, 0) == |w| && SplitSpaces(w) == [w]
  {
  }

  lemma JoinStartsWithFirst(ws: seq<string>, sep: string)
    requires |ws| >= 1
    ensures |Join(ws, sep)| >= |ws[0]| && Join(ws, sep)[..|ws[0]|] == ws[0]
  {
    if |ws| > 1 {
      assert Join(ws, sep) == ws[0] + (sep + Join(ws[1..], sep));
    }
  }

  /**
   * With two words or more, the item type is the first and the last word and
   * the style is every word after the first; a single word is both.
   */
  lemma ItemTypeAndStyle(ws: seq<string>)
    requires |ws| >= 1 && AllWords(ws)
    ensures |ws| >= 2 ==> ItemType(Join(ws, " ")) == ws[0] + " " + ws[|ws| - 1]
    ensures |ws| >= 2 ==> StyleOf(Join(ws, " ")) == Join(ws[1..], " ")
    ensures |ws| == 1 ==> ItemType(Join(ws, " ")) == ws[0] && StyleOf(Join(ws, " ")) == ws[0]
  {
    SplitJoinWords(ws);
    if |ws| == 1 {
      JoinSingle(ws, " ");
    } else {
      ItemTypeOfSplit(Join(ws, " "), ws);
      StyleOfSplit(Join(ws, " "), ws);
    }
  }

  lemma ItemTypeOfSplit(s: string, ws: seq<string>)
    requires SplitSpaces(s) == ws && |ws| >= 2
    ensures ItemType(s) == ws[0] + " " + ws[|ws| - 1]
  {
  }

  lemma StyleOfSplit(s: string, ws: seq<string>)
    requires SplitSpaces(s) == ws && |ws| >= 2
    ensures StyleOf(s) == Join(ws[1..], " ")
  {
  }

  lemma JoinSingle(ws: seq<string>, sep: string)
    requires |ws| == 1
    ensures Join(ws, sep) == ws[0]
  {
  }

  // ===========================================================================
  // Bullet points

  /** The list the item loop fills: the trimmed texts of the first five items (it is not padded). */
  function FirstFive(items: seq<string>): (r: seq<string>)
    ensures |r| == if |items| < 5 then |items| else 5
    ensures forall i :: 0 <= i < |r| ==> r[i] == Trim(items[i])
  {
    seq(if |items| < 5 then |items| else 5, i requires 0 <= i < |items| && i < 5 => Trim(items[i]))
  }

  method CollectBullets(items: seq<string>) returns (bullets: seq<string>)
    ensures bullets == FirstFive(items)
  {
    bullets := [];
    var i := 0;
    while i < |items|
      invariant 0 <= i <= |items|
      invariant bullets == FirstFive(items[..i])
    {
      FirstFiveNext(items, i);
      if i < 5 {
        bullets := bullets + [Trim(items[i])];
      }
      i := i + 1;
    }
    assert items[..|items|] == items;
  }

  lemma FirstFiveNext(items: seq<string>, i: nat)
    requires i < |items|
    ensures FirstFive(items[..i + 1]) == FirstFive(items[..i]) + (if i < 5 then [Trim(items[i])] else [])
  {
    var a, b := FirstFive(items[..i + 1]), FirstFive(items[..i]);
    assert forall k :: 0 <= k < |b| ==> a[k] == b[k];
  }

  /** `bulletPoints[k] ?? ""` */
  function BulletSlot(bullets: seq<string>, k: nat): string {
    if k < |bullets| then bullets[k] else ""
  }

  /** The five bullet columns hold what the newer extractor's padded list holds. */
  lemma BulletSlotsPadded(items: seq<string>)
    ensures forall k :: 0 <= k < 5 ==> BulletSlot(FirstFive(items), k) == Extractor.BulletPoints(items)[k]
  {
  }

  // ===========================================================================
  // Finishes

  const HIDDEN: string := "display: none"

  /** `name + ":" + code` for a visible option with a non-empty trimmed text and a non-empty code. */
  function FinishToken(o: FinishOption): Option<string> {
    var name := Trim(o.text);
    if Contains(o.style.GetOr(""), HIDDEN) then None
    else if name != "" && o.dataCode.Some? && o.dataCode.value != "" then Some(name + ":" + o.dataCode.value)
    else None
  }

  /** The values present in a sequence of optional values, in order. */
  function Somes<T>(xs: seq<Option<T>>): seq<T>
    decreases |xs|
  {
    if xs == [] then [] else Somes(xs[..|xs| - 1]) + xs[|xs| - 1].ToSeq()
  }

  lemma SomesSnoc<T>(xs: seq<Option<T>>, x: Option<T>)
    ensures Somes(xs + [x]) == Somes(xs) + x.ToSeq()
  {
    assert (xs + [x])[..|xs|] == xs;
  }

  lemma {:induction false} SomesMembers<T>(xs: seq<Option<T>>)
    ensures forall t :: t in Somes(xs) <==> exists i :: 0 <= i < |xs| && xs[i] == Some(t)
    decreases |xs|
  {
    if xs != [] {
      var n := |xs| - 1;
      SomesMembers(xs[..n]);
      forall t ensures t in Somes(xs) <==> exists i :: 0 <= i < |xs| && xs[i] == Some(t) {
        if t in Somes(xs[..n]) {
          var i :| 0 <= i < n && xs[..n][i] == Some(t);
          assert xs[i] == Some(t);
        }
        if exists i :: 0 <= i < |xs| && xs[i] == Some(t) {
          var i :| 0 <= i < |xs| && xs[i] == Some(t);
          if i < n {
            assert xs[..n][i] == Some(t);
          }
        }
      }
    }
  }

  /** `xs.map(f)` */
  function MapSeq<T, U>(xs: seq<T>, f: T -> U): (r: seq<U>)
    ensures |r| == |xs| && forall i :: 0 <= i < |xs| ==> r[i] == f(xs[i])
  {
    seq(|xs|, i requires 0 <= i < |xs| => f(xs[i]))
  }

  lemma MapSeqNext<T, U>(xs: seq<T>, f: T -> U, i: nat)
    requires i < |xs|
    ensures MapSeq(xs[..i + 1], f) == MapSeq(xs[..i], f) + [f(xs[i])]
  {
    var a, b := MapSeq(xs[..i + 1], f), MapSeq(xs[..i], f);
    assert forall k :: 0 <= k < i ==> a[k] == b[k];
  }

  /** The finish texts the option loop collects, in document order. */
  function FinishTokens(options: seq<FinishOption>): seq<string> {
    Somes(MapSeq(options, FinishToken))
  }

  lemma FinishTokensNext(options: seq<FinishOption>, i: nat)
    requires i < |options|
    ensures FinishTokens(options[..i + 1]) == FinishTokens(options[..i]) + FinishToken(options[i]).ToSeq()
  {
    MapSeqNext(options, FinishToken, i);
    SomesSnoc(MapSeq(options[..i], FinishToken), FinishToken(options[i]));
  }

  method CollectFinishes(options: seq<FinishOption>) returns (finishes: seq<string>)
    ensures finishes == FinishTokens(options)
  {
    finishes := [];
    var i := 0;
    while i < |options|
      invariant 0 <= i <= |options|
      invariant finishes == FinishTokens(options[..i])
    {
      FinishTokensNext(options, i);
      var o := options[i];
      if !Contains(o.style.GetOr(""), HIDDEN) {
        var name := Trim(o.text);
        if name != "" && o.dataCode.Some? && o.dataCode.value != "" {
          finishes := finishes + [name + ":" + o.dataCode.value];
        }
      }
      i := i + 1;
    }
    assert options[..|options|] == options;
  }

  /** An option offers a finish when it is not hidden and has a name and a code. */
  predicate Offered(o: FinishOption) {
    !Contains(o.style.GetOr(""), HIDDEN) && Trim(o.text) != "" && o.dataCode.Some? && o.dataCode.value != ""
  }

  /** The finish text an option yields, if it offers one. */
  function Listing(o: FinishOption): string
    requires o.dataCode.Some?
  {
    Trim(o.text) + ":" + o.dataCode.value
  }

  lemma FinishTokenOffered(o: FinishOption)
    ensures Offered(o) <==> FinishToken(o).Some?
    ensures Offered(o) ==> FinishToken(o) == Some(Listing(o))
  {
  }

  /** Every offered option contributes `name:code`, and nothing else is listed. */
  lemma FinishTokensSpec(options: seq<FinishOption>)
    ensures forall t :: t in FinishTokens(options) ==>
      exists i :: 0 <= i < |options| && Offered(options[i]) && t == Listing(options[i])
    ensures forall i :: 0 <= i < |options| && Offered(options[i]) ==> Listing(options[i]) in FinishTokens(options)
  {
    var tokens := MapSeq(options, FinishToken);
    SomesMembers(tokens);
    forall i | 0 <= i < |options|
      ensures Offered(options[i]) <==> tokens[i].Some?
      ensures Offered(options[i]) ==> tokens[i] == Some(Listing(options[i]))
    {
      FinishTokenOffered(options[i]);
    }
  }

  // ===========================================================================
  // Whole-number options

  const INCHES: string := "inches"

  /** `/^(\d+)\s+inches$/` on the trimmed option text, and `parseInt` of the digits. */
  function ParseInches(text: string): Option<Dim> {
    MatchInches(Trim(text))
  }

  /** The pattern on a text already trimmed. */
  function MatchInches(t: string): Option<Dim> {
    var e := Extractor.DigitRunEnd(t, 0);
    if 0 < e < |t| && IsSpace(t[e]) && t[Extractor.SkipSpaces(t, e)..] == INCHES
    then
      assert AllDigits(t[..e]);
      Some(FromNat(DigitsValue(t[..e])))
    else None
  }

  /** The option text is digits, whitespace and the word `inches`, nothing else. */
  predicate InchesText(t: string, digits: string, gap: string) {
    digits != [] && AllDigits(digits) && gap != [] && AllSpace(gap) && t == digits + gap + INCHES
  }

  /** Every text of the accepted form is read as its digits' value. */
  lemma ParseInchesOf(text: string, digits: string, gap: string)
    requires InchesText(Trim(text), digits, gap)
    ensures ParseInches(text) == Some(FromNat(DigitsValue(digits)))
  {
    MatchInchesOf(Trim(text), digits, gap);
  }

  lemma MatchInchesOf(t: string, digits: string, gap: string)
    requires InchesText(t, digits, gap)
    ensures MatchInches(t) == Some(FromNat(DigitsValue(digits)))
  {
    var d := |digits|;
    assert forall k :: 0 <= k < d ==> t[k] == digits[k];
    assert t[d] == gap[0];
    var e := Extractor.DigitRunEnd(t, 0);
    assert e == d;
    assert forall k :: d <= k < d + |gap| ==> t[k] == gap[k - d];
    assert t[d + |gap|] == 'i';
    var j := Extractor.SkipSpaces(t, d);
    assert j == d + |gap|;
    assert t[..d] == digits && t[j..] == INCHES;
  }

  /** Only texts of the accepted form are read. */
  lemma ParseInchesMatched(text: string)
    requires ParseInches(text).Some?
    ensures exists digits, gap :: InchesText(Trim(text), digits, gap)
  {
    MatchInchesMatched(Trim(text));
  }

  lemma MatchInchesMatched(t: string)
    requires MatchInches(t).Some?
    ensures exists digits, gap :: InchesText(t, digits, gap)
  {
    var e := Extractor.DigitRunEnd(t, 0);
    var j := Extractor.SkipSpaces(t, e);
    assert t == t[..e] + t[e..j] + t[j..];
    assert AllDigits(t[..e]) && AllSpace(t[e..j]) && t[e..j][0] == t[e];
    assert InchesText(t, t[..e], t[e..j]);
  }

  /** The values of the option texts that match, in document order. */
  function InchValues(texts: seq<string>): seq<Dim> {
    Somes(MapSeq(texts, ParseInches))
  }

  lemma InchValuesNext(texts: seq<string>, i: nat)
    requires i < |texts|
    ensures InchValues(texts[..i + 1]) == InchValues(texts[..i]) + ParseInches(texts[i]).ToSeq()
  {
    MapSeqNext(texts, ParseInches, i);
    SomesSnoc(MapSeq(texts[..i], ParseInches), ParseInches(texts[i]));
  }

  /** `extractWholeNumbers`: the values of the matching options, ascending, each once. */
  method ExtractWholeNumbers(texts: seq<string>) returns (values: seq<Dim>)
    ensures StrictlyAscending(values)
    ensures forall v :: v in values <==> v in InchValues(texts)
    ensures values == Ascending(InchValues(texts))
  {
    values := [];
    var i := 0;
    while i < |texts|
      invariant 0 <= i <= |texts|
      invariant values == Ascending(InchValues(texts[..i]))
    {
      InchValuesNext(texts, i);
      match ParseInches(texts[i]) {
        case Some(v) =>
          AscendingSnoc(InchValues(texts[..i]), v);
          values := Insert(values, v);
        case None =>
          assert InchValues(texts[..i + 1]) == InchValues(texts[..i]);
      }
      i := i + 1;
    }
    assert texts[..|texts|] == texts;
  }

  /** `values.join("|")` */
  function NumberList(values: seq<Dim>): string {
    Join(seq(|values|, i requires 0 <= i < |values| => ToString(values[i])), "|")
  }

  // ===========================================================================
  // The row

  /** The row `extractProduct` returns for a page. */
  function ProductOf(page: LegacyPage): ProductRow {
    var material := Trim(page.material);
    var modelName := Extractor.NormalizeModelName(page.simplifiedName);
    var rest := WithoutMaterial(modelName, material);
    var bullets := FirstFive(page.featureItems);
    var docs := Extractor.DocumentsOf(page.documents);
    ProductRow(
      material, ItemType(rest), StyleOf(rest), modelName,
      BulletSlot(bullets, 0), BulletSlot(bullets, 1), BulletSlot(bullets, 2),
      BulletSlot(bullets, 3), BulletSlot(bullets, 4),
      "N/A", Trim(page.shortDescription), Trim(page.sku),
      Join(FinishTokens(page.finishOptions), "|"),
      NumberList(Ascending(InchValues(page.widthOptions))),
      NumberList(Ascending(InchValues(page.heightOptions))),
      docs.installationGuide, docs.lineDrawing, docs.measurementGuide, docs.warranty, docs.productSalesSheet)
  }

  method ExtractProduct(page: LegacyPage) returns (row: ProductRow)
    ensures row == ProductOf(page)
  {
    var material := Trim(page.material);
    var modelName := Extractor.NormalizeModelName(page.simplifiedName);
    var rest := WithoutMaterial(modelName, material);
    var bullets := CollectBullets(page.featureItems);
    var finishes := CollectFinishes(page.finishOptions);
    var widths := ExtractWholeNumbers(page.widthOptions);
    var heights := ExtractWholeNumbers(page.heightOptions);
    var docs := Extractor.ExtractDocuments(page.documents);
    row := ProductRow(
      material, ItemType(rest), StyleOf(rest), modelName,
      BulletSlot(bullets, 0), BulletSlot(bullets, 1), BulletSlot(bullets, 2),
      BulletSlot(bullets, 3), BulletSlot(bullets, 4),
      "N/A", Trim(page.shortDescription), Trim(page.sku),
      Join(finishes, "|"), NumberList(widths), NumberList(heights),
      docs.installationGuide, docs.lineDrawing, docs.measurementGuide, docs.warranty, docs.productSalesSheet);
  }

  /** The bullet columns hold the newer extractor's padded bullet list, and the search keywords are "N/A". */
  lemma ProductBullets(page: LegacyPage)
    ensures var row, b := ProductOf(page), Extractor.BulletPoints(page.featureItems);
      && row.bullet1 == b[0] && row.bullet2 == b[1] && row.bullet3 == b[2] && row.bullet4 == b[3] && row.bullet5 == b[4]
      && row.searchKeywords == "N/A"
  {
    BulletSlotsPadded(page.featureItems);
  }

  /** The material and model name are trimmed, and the model name holds no comma. */
  lemma ProductNames(page: LegacyPage)
    ensures var row := ProductOf(page);
      ',' !in row.modelName && IsTrimmed(row.modelName) && IsTrimmed(row.material)
  {
  }

  /** Item type and style are drawn from the words of the model name after the material. */
  lemma ProductNameColumns(page: LegacyPage, ws: seq<string>)
    requires |ws| >= 2 && AllWords(ws)
    requires WithoutMaterial(Extractor.NormalizeModelName(page.simplifiedName), Trim(page.material)) == Join(ws, " ")
    ensures ProductOf(page).itemTypeName == ws[0] + " " + ws[|ws| - 1]
    ensures ProductOf(page).style == Join(ws[1..], " ")
  {
    ItemTypeAndStyle(ws);
  }

  // ===========================================================================
  // CSV line

  /** Text `csvField` leaves unquoted: no comma, quote or line feed (a carriage return is allowed). */
  predicate Unquoted(s: string) {
    forall i :: 0 <= i < |s| ==> s[i] != ',' && s[i] != '"' && s[i] != '\n'
  }

  /** `csvField`: quoted, with inner quotes doubled, when the value holds a comma, quote or line feed. */
  function QuoteField(value: string): string {
    if Unquoted(value) then value else "\"" + Csv.DoubleQuotes(value) + "\""
  }

  /** Every value reads back from its field, whatever field or line follows. */
  lemma QuoteFieldReadsBack(v: string, rest: string)
    requires Csv.FieldEnd(rest)
    ensures Csv.ReadField(QuoteField(v) + rest) == (v, rest)
  {
    if Unquoted(v) {
      Csv.ReadPlainStops(v, rest);
      if v != [] {
        assert (v + rest)[0] == v[0];
      }
    } else {
      Csv.ReadQuotedField(v, rest);
    }
  }

  /**
   * The two writers' field quoting differs exactly on values whose only
   * character needing care is a carriage return: this one leaves them bare.
   */
  lemma QuoteFieldVersusCsv(v: string)
    ensures QuoteField(v) == Csv.CsvField(v) <==> !(Unquoted(v) && '\r' in v)
  {
    if Unquoted(v) && '\r' in v {
      assert !Schema.PlainText(v) by {
        var k :| 0 <= k < |v| && v[k] == '\r';
        assert !(v[k] != '\r');
      }
      assert |Csv.CsvField(v)| > |v|;
    }
  }

  function QuotedFields(values: seq<string>): (r: seq<string>)
    ensures |r| == |values| && forall i :: 0 <= i < |values| ==> r[i] == QuoteField(values[i])
  {
    seq(|values|, i requires 0 <= i < |values| => QuoteField(values[i]))
  }

  /** The values of the row in header order. */
  function RowValues(row: ProductRow): (r: seq<string>)
    ensures |r| == |CSV_HEADERS| && forall i :: 0 <= i < |r| ==> r[i] == Value(row, CSV_HEADERS[i])
  {
    seq(|CSV_HEADERS|, i requires 0 <= i < |CSV_HEADERS| => Value(row, CSV_HEADERS[i]))
  }

  /** `rowToCsv`: the quoted values in header order, comma-separated. */
  function RowToCsv(row: ProductRow): string {
    Join(QuotedFields(RowValues(row)), ",")
  }

  /** A written line, followed by a line feed, reads back as the values it was written from. */
  lemma {:induction false} LineReadsBack(values: seq<string>, rest: string)
    requires |values| >= 1
    ensures Csv.ReadRecord(Join(QuotedFields(values), ",") + "\n" + rest) == (values, rest)
    decreases |values|
  {
    var v := values[0];
    if |values| == 1 {
      assert QuotedFields(values) == [QuoteField(v)];
      var s := QuoteField(v) + "\n" + rest;
      assert s == QuoteField(v) + ("\n" + rest);
      QuoteFieldReadsBack(v, "\n" + rest);
      assert ("\n" + rest)[1..] == rest;
      assert [v] == values;
    } else {
      var tail := Join(QuotedFields(values[1..]), ",") + "\n" + rest;
      assert QuotedFields(values) == [QuoteField(v)] + QuotedFields(values[1..]);
      JoinCons(QuoteField(v), QuotedFields(values[1..]), ",");
      var s := QuoteField(v) + "," + tail;
      assert Join(QuotedFields(values), ",") + "\n" + rest == s;
      assert s == QuoteField(v) + ("," + tail);
      QuoteFieldReadsBack(v, "," + tail);
      assert ("," + tail)[1..] == tail;
      LineReadsBack(values[1..], rest);
      assert [v] + values[1..] == values;
    }
  }

  /** The line holds the twenty columns, in header order, each reading back as it was. */
  lemma RowToCsvReadsBack(row: ProductRow, rest: string)
    ensures |RowValues(row)| == 20
    ensures Csv.ReadRecord(RowToCsv(row) + "\n" + rest) == (RowValues(row), rest)
  {
    LineReadsBack(RowValues(row), rest);
  }
}

/**
 * The product-page extractor (`extractor.ts`). The parsed document is seen
 * through `ProductPage`: the text or attribute each selector yields, and the
 * ordered lists of matched elements the loops walk over. Regular-expression
 * scans of the raw markup are given as `MarkupScan`, the captures in the order
 * `exec` finds them.
 */
module Extractor {
  import opened Text
  import opened Numbers
  import opened Types

  // ===========================================================================
  // The page

  /** One `<option>` of a `<select>`: its text and its `data-code` and `value` attributes. */
  datatype SelectOption = SelectOption(text: string, dataCode: Option<string>, value: Option<string>)

  /** One `.product-options dl`: the text of its first `label` and its `select option` elements. */
  datatype OptionBlock = OptionBlock(labelText: string, options: seq<SelectOption>)

  /** One `#documents .identifier`: the text of its `.title` and the `href` of its first `.value a`. */
  datatype Identifier = Identifier(title: string, href: Option<string>)

  datatype ProductPage = ProductPage(
    detailsMaterial: string,            // text of the first "#details .material"
    detailsSku: string,                 // text of the first "#details .sku"
    skuText: string,                    // text of the first "#sku"
    productCode: Option<string>,        // value of the first input[name="Product_Code"]
    simplifiedName: Option<string>,     // value of the first input[name="Simplified_Product_Name"]
    productName: string,                // text of the first "#product_name"
    shortDescription: string,           // text of the first "#short-description"
    shortDescriptionAlt: string,        // text of the first "#short_description"
    longDescriptionHtml: string,        // inner markup of the first "#long_description", "" when absent
    keyFeatures: seq<string>,           // texts of "#key_features li"
    identifiers: seq<Identifier>,       // "#documents .identifier"
    keywords: Option<string>,           // content of the first meta[name="keywords"]
    optionBlocks: seq<OptionBlock>,     // ".product-options dl"
    imageSources: seq<Option<string>>,  // src of every img
    dimensionsWeight: string,           // text of the first "#dimensions .weight"
    dimensionsValue: string)            // text of the first "#dimensions .value"

  datatype MarkupScan = MarkupScan(
    widthLists: seq<string>,            // captures of the two "width": "…" patterns, first pattern first
    heightLists: seq<string>,           // the same for "height"
    finishTokens: seq<(string, string)>,// (name, code) captures of `Name:CC` tokens
    imageUrls: seq<string>)             // CUSTOM-….jpg URLs found in the text

  // ===========================================================================
  // Single fields

  /** `a || b || …`: the first non-empty candidate, or "" when all are empty. */
  function FirstNonEmpty(candidates: seq<string>): (r: string)
    ensures r == "" <==> forall i :: 0 <= i < |candidates| ==> candidates[i] == ""
    ensures r != "" ==> exists i :: 0 <= i < |candidates| && candidates[i] == r &&
                                    forall j :: 0 <= j < i ==> candidates[j] == ""
    decreases |candidates|
  {
    if candidates == [] then ""
    else if candidates[0] != "" then candidates[0]
    else
      var r := FirstNonEmpty(candidates[1..]);
      assert forall i :: 0 <= i < |candidates[1..]| ==> candidates[1..][i] == candidates[i + 1];
      r
  }

  function Material(page: ProductPage): string {
    Trim(page.detailsMaterial)
  }

  function ParentSku(page: ProductPage): string {
    FirstNonEmpty([Trim(page.detailsSku), Trim(page.skuText), Trim(page.productCode.GetOr(""))])
  }

  function ModelName(page: ProductPage): string {
    NormalizeModelName(FirstNonEmpty([page.simplifiedName.GetOr(""), Trim(page.productName)]))
  }

  function ShortDescription(page: ProductPage): string {
    FirstNonEmpty([Trim(page.shortDescription), Trim(page.shortDescriptionAlt)])
  }

  function LongDescription(page: ProductPage): string {
    FirstNonEmpty([Trim(page.longDescriptionHtml), ShortDescription(page)])
  }

  function SearchKeywords(page: ProductPage): string {
    Trim(page.keywords.GetOr(""))
  }

  function PackageWeight(page: ProductPage): string {
    FirstNonEmpty([Trim(page.dimensionsWeight), Trim(page.dimensionsValue), "12.23"])
  }

  // ===========================================================================
  // Model name: drop commas, then one trailing parenthesised suffix, then trim

  function RemoveCommas(s: string): (r: string)
    ensures ',' !in r
    ensures |r| <= |s|
    decreases |s|
  {
    if s == [] then [] else (if s[0] == ',' then [] else [s[0]]) + RemoveCommas(s[1..])
  }

  /** The first position at or after `i` that is not whitespace. */
  function SkipSpaces(s: string, i: nat): (j: nat)
    requires i <= |s|
    ensures i <= j <= |s|
    ensures forall k :: i <= k < j ==> IsSpace(s[k])
    ensures j == |s| || !IsSpace(s[j])
    decreases |s| - i
  {
    if i < |s| && IsSpace(s[i]) then SkipSpaces(s, i + 1) else i
  }

  predicate NoLineTerminator(s: string) {
    forall k :: 0 <= k < |s| ==> !IsLineTerminator(s[k])
  }

  /**
   * `/\s*\(.*?\)\s*$/` matches from position `i`: whitespace, an opening
   * parenthesis, characters other than line terminators, a closing parenthesis
   * that is the last non-whitespace character, whitespace to the end.
   */
  predicate ParenSuffixAt(s: string, i: nat)
    requires i <= |s|
  {
    var j := SkipSpaces(s, i);
    var e := |TrimEnd(s)|;
    j + 1 < e && s[j] == '(' && s[e - 1] == ')' && NoLineTerminator(s[j + 1..e - 1])
  }

  /** The leftmost position at or after `i` where the suffix pattern matches. */
  function ParenSuffixFrom(s: string, i: nat): (r: Option<nat>)
    requires i <= |s|
    ensures r.Some? ==> i <= r.value <= |s| && ParenSuffixAt(s, r.value)
    ensures r.Some? ==> forall k :: i <= k < r.value ==> !ParenSuffixAt(s, k)
    ensures r.None? ==> forall k :: i <= k <= |s| ==> !ParenSuffixAt(s, k)
    decreases |s| - i
  {
    if ParenSuffixAt(s, i) then Some(i)
    else if i == |s| then None
    else ParenSuffixFrom(s, i + 1)
  }

  /** `input.replace(/,/g, "").replace(/\s*\(.*?\)\s*$/, "").trim()` */
  function NormalizeModelName(input: string): (r: string)
    ensures ',' !in r
    ensures IsTrimmed(r)
  {
    var s := RemoveCommas(input);
    var cut := match ParenSuffixFrom(s, 0) case Some(i) => s[..i] case None => s;
    var r := Trim(cut);
    assert ',' !in cut;
    TrimIsInfix(cut);
    r
  }

  lemma TrimIsInfix(s: string)
    ensures forall c :: c in Trim(s) ==> c in s
  {
    var i := TrimParts(s);
    SliceMembers(s, i, i + |Trim(s)|);
  }

  lemma SliceMembers<T>(s: seq<T>, i: nat, j: nat)
    requires i <= j <= |s|
    ensures forall x :: x in s[i..j] ==> x in s
  {
    forall x | x in s[i..j] ensures x in s {
      var k :| 0 <= k < j - i && s[i..j][k] == x;
      assert s[i + k] == x;
    }
  }

  /**
   * A trailing parenthesised part is dropped together with the blanks around
   * it: `"Model X (Product Code 12)"` becomes `"Model X"`.
   */
  lemma {:induction false} NormalizeDropsParenSuffix(base: string, w1: string, inner: string, w2: string)
    requires IsTrimmed(base) && AllSpace(w1) && AllSpace(w2)
    requires ',' !in base && ',' !in w1 && ',' !in inner && ',' !in w2 && '(' !in base
    requires NoLineTerminator(inner)
    ensures NormalizeModelName(base + w1 + "(" + inner + ")" + w2) == base
  {
    var s := base + w1 + "(" + inner + ")" + w2;
    var p := |base|;
    RemoveCommasNoop(s);
    SuffixMatchesAfterBase(base, w1, inner, w2);
    SuffixMatchesNowhereInBase(base, w1, inner, w2);
    LeftmostSuffixMatch(s, 0, p);
    assert s[..p] == base;
    TrimOfTrimmed(base);
  }

  /** The search returns the first position where the pattern matches. */
  lemma {:induction false} LeftmostSuffixMatch(s: string, i: nat, p: nat)
    requires i <= p <= |s| && ParenSuffixAt(s, p)
    requires forall k :: i <= k < p ==> !ParenSuffixAt(s, k)
    ensures ParenSuffixFrom(s, i) == Some(p)
    decreases p - i
  {
    if i < p {
      LeftmostSuffixMatch(s, i + 1, p);
    }
  }

  lemma SuffixMatchesAfterBase(base: string, w1: string, inner: string, w2: string)
    requires AllSpace(w1) && AllSpace(w2) && NoLineTerminator(inner)
    ensures var s := base + w1 + "(" + inner + ")" + w2;
      ParenSuffixAt(s, |base|)
  {
    var s := base + w1 + "(" + inner + ")" + w2;
    var p := |base|;
    var e := |s| - |w2|;
    assert s[e..] == w2;
    assert s[e - 1] == ')';
    TrimEndExact(s, e);
    SkipSpacesOver(s, p, p + |w1|);
    assert s[p + |w1| + 1..e - 1] == inner by {
      assert s == (base + w1 + "(") + inner + (")" + w2);
      SliceOfConcat(base + w1 + "(", inner, ")" + w2);
    }
  }

  lemma SuffixMatchesNowhereInBase(base: string, w1: string, inner: string, w2: string)
    requires IsTrimmed(base) && '(' !in base
    ensures var s := base + w1 + "(" + inner + ")" + w2;
      forall k :: 0 <= k < |base| ==> !ParenSuffixAt(s, k)
  {
    var s := base + w1 + "(" + inner + ")" + w2;
    var p := |base|;
    forall k | 0 <= k < p ensures !ParenSuffixAt(s, k) {
      assert !IsSpace(s[p - 1]);
      var j := SkipSpaces(s, k);
      assert j < p;
      assert s[j] == base[j];
    }
  }

  lemma {:induction false} RemoveCommasNoop(s: string)
    requires ',' !in s
    ensures RemoveCommas(s) == s
    decreases |s|
  {
    if s != [] {
      RemoveCommasNoop(s[1..]);
    }
  }

  lemma {:induction false} SkipSpacesOver(s: string, i: nat, j: nat)
    requires i <= j < |s|
    requires forall k :: i <= k < j ==> IsSpace(s[k])
    requires !IsSpace(s[j])
    ensures SkipSpaces(s, i) == j
    decreases j - i
  {
    if i < j {
      SkipSpacesOver(s, i + 1, j);
    }
  }

  // ===========================================================================
  // Bullet points

  /** The trimmed texts of the first five key-feature items, padded with "" to five. */
  function BulletPoints(items: seq<string>): (r: seq<string>)
    ensures |r| == 5
    ensures forall i :: 0 <= i < 5 ==> r[i] == (if i < |items| then Trim(items[i]) else "")
  {
    seq(5, i requires 0 <= i < 5 => if i < |items| then Trim(items[i]) else "")
  }

  method TakeBulletPoints(items: seq<string>) returns (bullets: seq<string>)
    ensures bullets == BulletPoints(items)
  {
    bullets := [];
    var i := 0;
    while i < |items|
      invariant 0 <= i <= |items|
      invariant |bullets| == if i < 5 then i else 5
      invariant bullets == BulletPoints(items)[..|bullets|]
    {
      if i < 5 {
        BulletPointsNext(items, i);
        bullets := bullets + [Trim(items[i])];
      }
      i := i + 1;
    }
    while |bullets| < 5
      invariant |items| <= |bullets| <= 5 || |bullets| == 5
      invariant bullets == BulletPoints(items)[..|bullets|]
      decreases 5 - |bullets|
    {
      BulletPointsNext(items, |bullets|);
      bullets := bullets + [""];
    }
    assert BulletPoints(items)[..5] == BulletPoints(items);
  }

  lemma BulletPointsNext(items: seq<string>, n: nat)
    requires n < 5
    ensures BulletPoints(items)[..n + 1] == BulletPoints(items)[..n] + [if n < |items| then Trim(items[n]) else ""]
  {
    PrefixSnoc(BulletPoints(items), n);
  }

  // ===========================================================================
  // Documents

  /** The trimmed title and the link (`""` when absent) an identifier offers. */
  function DocEntry(id: Identifier): (string, string) {
    (Trim(id.title), id.href.GetOr(""))
  }

  function DocEntries(ids: seq<Identifier>): (r: seq<(string, string)>)
    ensures |r| == |ids|
    decreases |ids|
  {
    if ids == [] then [] else DocEntries(ids[..|ids| - 1]) + [DocEntry(ids[|ids| - 1])]
  }

  /** The `title -> href` record the identifier loop builds: a later entry overwrites an earlier one. */
  function DocsRecord(entries: seq<(string, string)>): (docs: map<string, string>)
    ensures forall title :: title in docs ==> title != "" && docs[title] != ""
    decreases |entries|
  {
    if entries == [] then map[] else AddDoc(DocsRecord(entries[..|entries| - 1]), entries[|entries| - 1])
  }

  /** One entry recorded: kept only when both its title and its link are non-empty. */
  function AddDoc(docs: map<string, string>, entry: (string, string)): map<string, string> {
    if entry.0 != "" && entry.1 != "" then docs[entry.0 := entry.1] else docs
  }

  method CollectDocuments(ids: seq<Identifier>) returns (docs: map<string, string>)
    ensures forall title :: title in docs ==> title != "" && docs[title] != ""
    ensures docs == DocsRecord(DocEntries(ids))
  {
    docs := map[];
    var i := 0;
    while i < |ids|
      invariant 0 <= i <= |ids|
      invariant docs == DocsRecord(DocEntries(ids[..i]))
    {
      DocsRecordNext(ids, i);
      var entry := DocEntry(ids[i]);
      if entry.0 != "" && entry.1 != "" {
        docs := docs[entry.0 := entry.1];
      }
      i := i + 1;
    }
    assert ids[..|ids|] == ids;
  }

  lemma DocsRecordNext(ids: seq<Identifier>, i: nat)
    requires i < |ids|
    ensures DocsRecord(DocEntries(ids[..i + 1])) == AddDoc(DocsRecord(DocEntries(ids[..i])), DocEntry(ids[i]))
  {
    var prefix := ids[..i + 1];
    assert prefix[..i] == ids[..i] && prefix[i] == ids[i];
    var entries := DocEntries(prefix);
    assert entries == DocEntries(ids[..i]) + [DocEntry(ids[i])];
    assert entries[..i] == DocEntries(ids[..i]) && entries[i] == DocEntry(ids[i]);
  }

  function DocumentsOf(ids: seq<Identifier>): ParsedDocuments {
    var docs := DocsRecord(DocEntries(ids));
    ParsedDocuments(
      Cell(docs, "PDF Installation"),
      Cell(docs, "PDF Line Drawing"),
      Cell(docs, "PDF Measuring"),
      Cell(docs, "PDF Warranty"),
      Cell(docs, "PDF Product Sales Sheets"))
  }

  method ExtractDocuments(ids: seq<Identifier>) returns (d: ParsedDocuments)
    ensures d == DocumentsOf(ids)
  {
    var docs := CollectDocuments(ids);
    d := ParsedDocuments(
      Cell(docs, "PDF Installation"),
      Cell(docs, "PDF Line Drawing"),
      Cell(docs, "PDF Measuring"),
      Cell(docs, "PDF Warranty"),
      Cell(docs, "PDF Product Sales Sheets"));
  }

  /**
   * The link recorded under a title is the one of the last entry with that
   * title and a non-empty link; no such entry, no link.
   */
  lemma {:induction false} DocsRecordLastWins(entries: seq<(string, string)>, title: string)
    ensures title in DocsRecord(entries) ==>
      exists i :: 0 <= i < |entries| && entries[i] == (title, DocsRecord(entries)[title]) &&
        forall j :: i < j < |entries| ==> entries[j].0 != title || entries[j].1 == ""
    ensures title !in DocsRecord(entries) ==>
      forall i :: 0 <= i < |entries| && entries[i].0 == title && title != "" ==> entries[i].1 == ""
    decreases |entries|
  {
    if entries != [] {
      var n := |entries| - 1;
      var init := entries[..n];
      DocsRecordLastWins(init, title);
      var (t, h) := entries[n];
      var before := DocsRecord(init);
      if t == title && t != "" && h != "" {
        assert entries[n] == (title, DocsRecord(entries)[title]);
      } else {
        if title in before {
          var i :| 0 <= i < |init| && init[i] == (title, before[title]) &&
            forall j :: i < j < |init| ==> init[j].0 != title || init[j].1 == "";
          assert entries[i] == init[i];
          forall j | i < j < |entries| ensures entries[j].0 != title || entries[j].1 == "" {
            if j < n { assert entries[j] == init[j]; }
          }
        } else {
          forall i | 0 <= i < |entries| && entries[i].0 == title && title != "" ensures entries[i].1 == "" {
            if i < n { assert entries[i] == init[i]; }
          }
        }
      }
    }
  }

  // ===========================================================================
  // Width and height values

  datatype DimensionKind = Width | Height

  function KindWord(kind: DimensionKind): string {
    match kind
    case Width => "width"
    case Height => "height"
  }

  /** The first position at or after `i` that is not a decimal digit. */
  function DigitRunEnd(s: string, i: nat): (j: nat)
    requires i <= |s|
    ensures i <= j <= |s|
    ensures forall k :: i <= k < j ==> IsDigit(s[k])
    ensures j == |s| || !IsDigit(s[j])
    decreases |s| - i
  {
    if i < |s| && IsDigit(s[i]) then DigitRunEnd(s, i + 1) else i
  }

  /** The unit spellings the option pattern accepts, lower-cased (it is case-insensitive). */
  const INCH_UNITS: set<string> := {"", "inches", "inch", "in", "in.", "\""}

  /**
   * `/^(\d+(?:\.\d+)?)\s*(?:inches|inch|in\.?|\")?$/i` on an option text, and
   * `Number` of its first group.
   */
  function ParseOptionDimension(text: string): Option<Dim> {
    var e := DigitRunEnd(text, 0);
    if e == 0 then None
    else
      var hasFrac := e < |text| && text[e] == '.' && DigitRunEnd(text, e + 1) > e + 1;
      var end := if hasFrac then DigitRunEnd(text, e + 1) else e;
      var frac := if hasFrac then text[e + 1..end] else "";
      assert AllDigits(text[..e]) && AllDigits(frac);
      if Lower(TrimStart(text[end..])) in INCH_UNITS then Some(ParseDecimal(text[..e], frac)) else None
  }

  /** The value an option offers, if its trimmed text is a dimension. */
  function OptionValue(o: SelectOption): Option<Dim> {
    ParseOptionDimension(Trim(o.text))
  }

  function OptionValues(options: seq<SelectOption>): seq<Dim>
    decreases |options|
  {
    if options == [] then []
    else OptionValues(options[..|options| - 1]) + OptionValue(options[|options| - 1]).ToSeq()
  }

  predicate LabelMentions(text: string, word: string) {
    Contains(Lower(text), word)
  }

  /** The values of the options under the labels that mention the dimension, in document order. */
  function SelectCandidates(blocks: seq<OptionBlock>, kind: DimensionKind): seq<Dim>
    decreases |blocks|
  {
    if blocks == [] then []
    else
      var b := blocks[|blocks| - 1];
      SelectCandidates(blocks[..|blocks| - 1], kind) +
        (if LabelMentions(b.labelText, KindWord(kind)) then OptionValues(b.options) else [])
  }

  lemma SelectCandidatesNext(blocks: seq<OptionBlock>, kind: DimensionKind, i: nat)
    requires i < |blocks|
    ensures var next := if LabelMentions(blocks[i].labelText, KindWord(kind)) then OptionValues(blocks[i].options) else [];
      SelectCandidates(blocks[..i + 1], kind) == SelectCandidates(blocks[..i], kind) + next
  {
    assert blocks[..i + 1][..i] == blocks[..i];
    assert blocks[..i + 1][i] == blocks[i];
  }

  lemma OptionValuesNext(options: seq<SelectOption>, j: nat)
    requires j < |options|
    ensures OptionValues(options[..j + 1]) == OptionValues(options[..j]) + OptionValue(options[j]).ToSeq()
  {
    assert options[..j + 1][..j] == options[..j];
    assert options[..j + 1][j] == options[j];
  }

  /** Adds the values of one block's options to an ascending sequence. */
  method AddOptionValues(values: seq<Dim>, options: seq<SelectOption>) returns (r: seq<Dim>)
    requires StrictlyAscending(values)
    ensures StrictlyAscending(r)
    ensures forall y :: y in r <==> y in values || y in OptionValues(options)
  {
    r := values;
    var j := 0;
    while j < |options|
      invariant 0 <= j <= |options|
      invariant StrictlyAscending(r)
      invariant forall y :: y in r <==> y in values || y in OptionValues(options[..j])
    {
      OptionValuesNext(options, j);
      match OptionValue(options[j]) {
        case Some(v) => r := Insert(r, v);
        case None =>
      }
      j := j + 1;
    }
    assert options[..|options|] == options;
  }

  method ExtractDimensionFromSelects(blocks: seq<OptionBlock>, kind: DimensionKind) returns (values: seq<Dim>)
    ensures StrictlyAscending(values)
    ensures forall v :: v in values <==> v in SelectCandidates(blocks, kind)
    ensures values == Ascending(SelectCandidates(blocks, kind))
  {
    values := [];
    var i := 0;
    while i < |blocks|
      invariant 0 <= i <= |blocks|
      invariant StrictlyAscending(values)
      invariant forall v :: v in values <==> v in SelectCandidates(blocks[..i], kind)
    {
      SelectCandidatesNext(blocks, kind, i);
      if LabelMentions(blocks[i].labelText, KindWord(kind)) {
        values := AddOptionValues(values, blocks[i].options);
      }
      i := i + 1;
    }
    assert blocks[..|blocks|] == blocks;
    AscendingUnique(values, Ascending(SelectCandidates(blocks, kind)));
  }

  /** `Number(piece.trim())` for a piece of a digit list; `None` stands for `NaN`, which is skipped. */
  function PieceNumber(piece: string): Option<Dim> {
    var t := Trim(piece);
    if t == "" then Some(FromNat(0))
    else if AllDigits(t) then Some(FromNat(DigitsValue(t)))
    else None
  }

  function PieceValues(pieces: seq<string>): seq<Dim>
    decreases |pieces|
  {
    if pieces == [] then []
    else PieceValues(pieces[..|pieces| - 1]) + PieceNumber(pieces[|pieces| - 1]).ToSeq()
  }

  /** The values of the comma-separated lists captured from the markup, in scan order. */
  function ScriptCandidates(lists: seq<string>): seq<Dim>
    decreases |lists|
  {
    if lists == [] then []
    else ScriptCandidates(lists[..|lists| - 1]) + PieceValues(Split(lists[|lists| - 1], ','))
  }

  /** Adds the values of one captured list to an ascending sequence. */
  method AddPieceValues(values: seq<Dim>, pieces: seq<string>) returns (r: seq<Dim>)
    requires StrictlyAscending(values)
    ensures StrictlyAscending(r)
    ensures forall y :: y in r <==> y in values || y in PieceValues(pieces)
  {
    r := values;
    var j := 0;
    while j < |pieces|
      invariant 0 <= j <= |pieces|
      invariant StrictlyAscending(r)
      invariant forall y :: y in r <==> y in values || y in PieceValues(pieces[..j])
    {
      assert pieces[..j + 1][..j] == pieces[..j];
      assert PieceValues(pieces[..j + 1]) == PieceValues(pieces[..j]) + PieceNumber(pieces[j]).ToSeq();
      match PieceNumber(pieces[j]) {
        case Some(v) => r := Insert(r, v);
        case None =>
      }
      j := j + 1;
    }
    assert pieces[..|pieces|] == pieces;
  }

  method ExtractDimensionFromScript(lists: seq<string>) returns (values: seq<Dim>)
    ensures StrictlyAscending(values)
    ensures forall v :: v in values <==> v in ScriptCandidates(lists)
    ensures values == Ascending(ScriptCandidates(lists))
  {
    values := [];
    var i := 0;
    while i < |lists|
      invariant 0 <= i <= |lists|
      invariant StrictlyAscending(values)
      invariant forall v :: v in values <==> v in ScriptCandidates(lists[..i])
    {
      assert lists[..i + 1][..i] == lists[..i];
      values := AddPieceValues(values, Split(lists[i], ','));
      i := i + 1;
    }
    assert lists[..|lists|] == lists;
    AscendingUnique(values, Ascending(ScriptCandidates(lists)));
  }

  /** The option scan decides when it finds anything; otherwise the markup lists do. */
  function DimensionValues(blocks: seq<OptionBlock>, lists: seq<string>, kind: DimensionKind): seq<Dim> {
    var fromSelect := Ascending(SelectCandidates(blocks, kind));
    if fromSelect != [] then fromSelect else Ascending(ScriptCandidates(lists))
  }

  method ExtractDimensionValues(blocks: seq<OptionBlock>, lists: seq<string>, kind: DimensionKind)
    returns (values: seq<Dim>)
    ensures StrictlyAscending(values)
    ensures SelectCandidates(blocks, kind) != [] ==>
      forall v :: v in values <==> v in SelectCandidates(blocks, kind)
    ensures SelectCandidates(blocks, kind) == [] ==>
      forall v :: v in values <==> v in ScriptCandidates(lists)
    ensures values == DimensionValues(blocks, lists, kind)
  {
    var fromSelect := ExtractDimensionFromSelects(blocks, kind);
    if |fromSelect| > 0 {
      return fromSelect;
    }
    HeadIsMember(SelectCandidates(blocks, kind));
    values := ExtractDimensionFromScript(lists);
  }

  // ===========================================================================
  // Finishes

  datatype Finish = Finish(name: string, code: string)

  /** The de-duplication key, `${name}|${code}`. */
  function FinishKey(f: Finish): string {
    f.name + "|" + f.code
  }

  /** `/^[A-Z]{2}$/` */
  predicate IsFinishCode(v: string) {
    |v| == 2 && IsUpper(v[0]) && IsUpper(v[1])
  }

  /** `data-code ?? value.match(/^[A-Z]{2}$/)?.[0] ?? ""` */
  function OptionCode(o: SelectOption): string {
    match o.dataCode
    case Some(c) => c
    case None => if o.value.Some? && IsFinishCode(o.value.value) then o.value.value else ""
  }

  predicate IsFinishLabel(text: string) {
    LabelMentions(text, "color") || LabelMentions(text, "finish")
  }

  /** The finish an option offers: a non-empty trimmed name that does not say "select", and a code. */
  function OptionFinish(o: SelectOption): Option<Finish> {
    var name := Trim(o.text);
    var code := OptionCode(o);
    if name == "" || code == "" || Contains(Lower(name), "select") then None else Some(Finish(name, code))
  }

  function BlockFinishes(options: seq<SelectOption>): seq<Finish>
    decreases |options|
  {
    if options == [] then []
    else BlockFinishes(options[..|options| - 1]) + OptionFinish(options[|options| - 1]).ToSeq()
  }

  /** The finishes offered under colour or finish labels, in document order, repeats included. */
  function OptionFinishes(blocks: seq<OptionBlock>): seq<Finish>
    decreases |blocks|
  {
    if blocks == [] then []
    else
      var b := blocks[|blocks| - 1];
      OptionFinishes(blocks[..|blocks| - 1]) + (if IsFinishLabel(b.labelText) then BlockFinishes(b.options) else [])
  }

  /** A `Name:CC` token of the markup, both parts trimmed. */
  function TokenFinish(token: (string, string)): Option<Finish> {
    var name := Trim(token.0);
    var code := Trim(token.1);
    if name == "" || code == "" then None else Some(Finish(name, code))
  }

  function TokenFinishes(tokens: seq<(string, string)>): seq<Finish>
    decreases |tokens|
  {
    if tokens == [] then []
    else TokenFinishes(tokens[..|tokens| - 1]) + TokenFinish(tokens[|tokens| - 1]).ToSeq()
  }

  /** Option finishes first, then markup tokens, each key kept once. */
  function Finishes(blocks: seq<OptionBlock>, tokens: seq<(string, string)>): seq<Finish> {
    DedupBy(OptionFinishes(blocks) + TokenFinishes(tokens), FinishKey, {})
  }

  /** One step of the `seen`-set loop: keep `f` unless its key was seen. */
  method KeepFinish(out: seq<Finish>, seen: set<string>, ghost done: seq<Finish>, f: Option<Finish>)
    returns (out': seq<Finish>, seen': set<string>)
    requires out == DedupBy(done, FinishKey, {}) && seen == KeysOf(done, FinishKey)
    ensures out' == DedupBy(done + f.ToSeq(), FinishKey, {}) && seen' == KeysOf(done + f.ToSeq(), FinishKey)
  {
    out', seen' := out, seen;
    match f {
      case Some(x) =>
        DedupBySnoc(done, x, FinishKey);
        KeysOfAppend(done, [x], FinishKey);
        assert KeysOf([x], FinishKey) == {FinishKey(x)};
        if FinishKey(x) !in seen {
          seen' := seen + {FinishKey(x)};
          out' := out + [x];
        }
      case None =>
        assert done + [] == done;
    }
  }

  /** The option loop of one colour or finish block. */
  method KeepBlockFinishes(out: seq<Finish>, seen: set<string>, ghost before: seq<Finish>, options: seq<SelectOption>)
    returns (out': seq<Finish>, seen': set<string>)
    requires out == DedupBy(before, FinishKey, {}) && seen == KeysOf(before, FinishKey)
    ensures out' == DedupBy(before + BlockFinishes(options), FinishKey, {})
    ensures seen' == KeysOf(before + BlockFinishes(options), FinishKey)
  {
    out', seen' := out, seen;
    var j := 0;
    assert before + BlockFinishes(options[..0]) == before;
    while j < |options|
      invariant 0 <= j <= |options|
      invariant out' == DedupBy(before + BlockFinishes(options[..j]), FinishKey, {})
      invariant seen' == KeysOf(before + BlockFinishes(options[..j]), FinishKey)
    {
      assert options[..j + 1][..j] == options[..j];
      ghost var done := before + BlockFinishes(options[..j]);
      assert BlockFinishes(options[..j + 1]) == BlockFinishes(options[..j]) + OptionFinish(options[j]).ToSeq();
      AppendAssoc(before, BlockFinishes(options[..j]), OptionFinish(options[j]).ToSeq());
      out', seen' := KeepFinish(out', seen', done, OptionFinish(options[j]));
      j := j + 1;
    }
    assert options[..|options|] == options;
  }

  /** The loop over the `Name:CC` tokens, sharing the `seen` set of the option loops. */
  method KeepTokenFinishes(out: seq<Finish>, seen: set<string>, ghost before: seq<Finish>, tokens: seq<(string, string)>)
    returns (out': seq<Finish>, seen': set<string>)
    requires out == DedupBy(before, FinishKey, {}) && seen == KeysOf(before, FinishKey)
    ensures out' == DedupBy(before + TokenFinishes(tokens), FinishKey, {})
    ensures seen' == KeysOf(before + TokenFinishes(tokens), FinishKey)
  {
    out', seen' := out, seen;
    var k := 0;
    assert before + TokenFinishes(tokens[..0]) == before;
    while k < |tokens|
      invariant 0 <= k <= |tokens|
      invariant out' == DedupBy(before + TokenFinishes(tokens[..k]), FinishKey, {})
      invariant seen' == KeysOf(before + TokenFinishes(tokens[..k]), FinishKey)
    {
      assert tokens[..k + 1][..k] == tokens[..k];
      ghost var done := before + TokenFinishes(tokens[..k]);
      assert TokenFinishes(tokens[..k + 1]) == TokenFinishes(tokens[..k]) + TokenFinish(tokens[k]).ToSeq();
      AppendAssoc(before, TokenFinishes(tokens[..k]), TokenFinish(tokens[k]).ToSeq());
      out', seen' := KeepFinish(out', seen', done, TokenFinish(tokens[k]));
      k := k + 1;
    }
    assert tokens[..|tokens|] == tokens;
  }

  method ExtractFinishes(blocks: seq<OptionBlock>, tokens: seq<(string, string)>) returns (out: seq<Finish>)
    ensures out == Finishes(blocks, tokens)
  {
    out := [];
    var seen: set<string> := {};
    var i := 0;
    while i < |blocks|
      invariant 0 <= i <= |blocks|
      invariant out == DedupBy(OptionFinishes(blocks[..i]), FinishKey, {})
      invariant seen == KeysOf(OptionFinishes(blocks[..i]), FinishKey)
    {
      ghost var before := OptionFinishes(blocks[..i]);
      OptionFinishesNext(blocks, i);
      if IsFinishLabel(blocks[i].labelText) {
        out, seen := KeepBlockFinishes(out, seen, before, blocks[i].options);
      }
      i := i + 1;
    }
    assert blocks[..|blocks|] == blocks;
    out, seen := KeepTokenFinishes(out, seen, OptionFinishes(blocks), tokens);
  }

  /** The finishes of one more block: its option finishes when its label names a colour or finish, else none. */
  lemma OptionFinishesNext(blocks: seq<OptionBlock>, i: nat)
    requires i < |blocks|
    ensures OptionFinishes(blocks[..i + 1]) ==
      if IsFinishLabel(blocks[i].labelText) then OptionFinishes(blocks[..i]) + BlockFinishes(blocks[i].options)
      else OptionFinishes(blocks[..i])
  {
    assert blocks[..i + 1][..i] == blocks[..i];
    assert OptionFinishes(blocks[..i]) + [] == OptionFinishes(blocks[..i]);
  }

  lemma {:induction false} BlockFinishesNonEmpty(options: seq<SelectOption>)
    ensures forall f :: f in BlockFinishes(options) ==> f.name != "" && f.code != "" && !Contains(Lower(f.name), "select")
    decreases |options|
  {
    if options != [] {
      BlockFinishesNonEmpty(options[..|options| - 1]);
    }
  }

  lemma {:induction false} OptionFinishesNonEmpty(blocks: seq<OptionBlock>)
    ensures forall f :: f in OptionFinishes(blocks) ==> f.name != "" && f.code != "" && !Contains(Lower(f.name), "select")
    decreases |blocks|
  {
    if blocks != [] {
      OptionFinishesNonEmpty(blocks[..|blocks| - 1]);
      BlockFinishesNonEmpty(blocks[|blocks| - 1].options);
    }
  }

  lemma {:induction false} TokenFinishesNonEmpty(tokens: seq<(string, string)>)
    ensures forall f :: f in TokenFinishes(tokens) ==> f.name != "" && f.code != ""
    decreases |tokens|
  {
    if tokens != [] {
      TokenFinishesNonEmpty(tokens[..|tokens| - 1]);
    }
  }

  /**
   * Every kept finish has a name and a code, no two share the key, options
   * come before markup tokens, and every candidate's key is represented.
   */
  lemma FinishesSpec(blocks: seq<OptionBlock>, tokens: seq<(string, string)>)
    ensures var r := Finishes(blocks, tokens);
      && DistinctKeys(r, FinishKey)
      && (forall f :: f in r ==> f.name != "" && f.code != "")
      && KeysOf(r, FinishKey) == KeysOf(OptionFinishes(blocks) + TokenFinishes(tokens), FinishKey)
      && r == DedupBy(OptionFinishes(blocks), FinishKey, {}) +
              DedupBy(TokenFinishes(tokens), FinishKey, KeysOf(OptionFinishes(blocks), FinishKey))
  {
    var c := OptionFinishes(blocks) + TokenFinishes(tokens);
    DedupByDistinct(c, FinishKey, {});
    DedupByKeys(c, FinishKey, {});
    DedupByAppend(OptionFinishes(blocks), TokenFinishes(tokens), FinishKey, {});
    OptionFinishesNonEmpty(blocks);
    TokenFinishesNonEmpty(tokens);
    assert {} + KeysOf(OptionFinishes(blocks), FinishKey) == KeysOf(OptionFinishes(blocks), FinishKey);
  }

  /**
   * The key joins name and code with "|", which either may itself contain:
   * two different finishes can share a key, and of a candidate list holding
   * both only the first survives.
   */
  lemma FinishKeyCollision()
    ensures var f1, f2 := Finish("A|B", "C"), Finish("A", "B|C");
      f1 != f2 && FinishKey(f1) == FinishKey(f2) && DedupBy([f1, f2], FinishKey, {}) == [f1]
  {
    var f1, f2 := Finish("A|B", "C"), Finish("A", "B|C");
    assert f1.name != f2.name by {
      assert |f1.name| == 3 && |f2.name| == 1;
    }
    var key := FinishKey(f1);
    assert FinishKey(f2) == key by {
      assert FinishKey(f1) == "A|B" + "|" + "C";
      assert FinishKey(f2) == "A" + "|" + "B|C";
    }
    assert [f1, f2][1..] == [f2] && [f2][1..] == [];
    assert DedupBy([f2], FinishKey, {key}) == [];
    assert DedupBy([f1, f2], FinishKey, {}) == [f1] + DedupBy([f2], FinishKey, {} + {key});
  }

  // ===========================================================================
  // Images by SKU

  datatype ImageSet = ImageSet(main: string, sub: seq<string>)

  /** A `Map` from SKU to images: `order` lists the keys in insertion order. */
  datatype ImageMap = ImageMap(order: seq<string>, entries: map<string, ImageSet>)

  predicate ValidImageMap(m: ImageMap) {
    && Distinct(m.order)
    && (forall k :: k in m.entries ==> k in m.order)
    && (forall k :: k in m.order ==> k in m.entries)
  }

  /**
   * `add(sku, url, index)`: an un-numbered image becomes the main image
   * unless there already is one; a numbered image is appended to the others
   * unless it is already there. A new SKU goes to the end of the key order.
   */
  function AddImage(m: ImageMap, sku: string, url: string, numbered: bool): (r: ImageMap)
    requires ValidImageMap(m)
    ensures ValidImageMap(r)
  {
    var existing := if sku in m.entries then m.entries[sku] else ImageSet("", []);
    var updated :=
      if !numbered then (if existing.main == "" then existing.(main := url) else existing)
      else if url in existing.sub then existing
      else existing.(sub := existing.sub + [url]);
    ImageMap(if sku in m.entries then m.order else m.order + [sku], m.entries[sku := updated])
  }

  datatype SkuMatch = SkuMatch(sku: string, index: Option<string>)

  /** ASCII case-insensitive prefix test. */
  predicate StartsWithCI(s: string, p: string) {
    |p| <= |s| && Lower(s[..|p|]) == Lower(p)
  }

  /** The first position at or after `i` that is not an ASCII letter or digit. */
  function AlnumRunEnd(s: string, i: nat): (j: nat)
    requires i <= |s|
    ensures i <= j <= |s|
    ensures forall k :: i <= k < j ==> IsAlnum(s[k])
    ensures j == |s| || !IsAlnum(s[j])
    decreases |s| - i
  {
    if i < |s| && IsAlnum(s[i]) then AlnumRunEnd(s, i + 1) else i
  }

  predicate AllAlnum(s: string) {
    forall k :: 0 <= k < |s| ==> IsAlnum(s[k])
  }

  /**
   * `/CUSTOM-([A-Z0-9]+)(?:-(\d{2}))?\.jpg/i` tried at position `i`. The SKU
   * run is greedy and cannot give back a character (what follows it must be
   * "-" or "."), and the numbered form is tried before the plain one.
   */
  function SkuMatchAt(s: string, i: nat): (r: Option<SkuMatch>)
    requires i <= |s|
    ensures r.Some? ==> r.value.sku != [] && AllAlnum(r.value.sku)
    ensures r.Some? && r.value.index.Some? ==> |r.value.index.value| == 2 && AllDigits(r.value.index.value)
  {
    if !StartsWithCI(s[i..], "CUSTOM-") then None
    else
      var j := i + 7;
      var k := AlnumRunEnd(s, j);
      if k == j then None
      else if k + 7 <= |s| && s[k] == '-' && IsDigit(s[k + 1]) && IsDigit(s[k + 2]) && StartsWithCI(s[k + 3..], ".jpg")
      then Some(SkuMatch(s[j..k], Some(s[k + 1..k + 3])))
      else if StartsWithCI(s[k..], ".jpg") then Some(SkuMatch(s[j..k], None))
      else None
  }

  /** No match starts at any position from `i` up to, but not including, `k`. */
  predicate NoMatchBefore(s: string, i: nat, k: nat)
    requires i <= k <= |s|
  {
    forall j :: i <= j < k ==> SkuMatchAt(s, j).None?
  }

  /** The leftmost match at or after position `i`. */
  function SkuMatchFrom(s: string, i: nat): (r: Option<SkuMatch>)
    requires i <= |s|
    ensures r.Some? ==> exists k :: i <= k <= |s| && SkuMatchAt(s, k) == r
    ensures r.None? ==> forall k :: i <= k <= |s| ==> SkuMatchAt(s, k).None?
    decreases |s| - i
  {
    match SkuMatchAt(s, i)
    case Some(m) => Some(m)
    case None => if i == |s| then None else SkuMatchFrom(s, i + 1)
  }

  /** `url.match` reports the leftmost match: no earlier position matches. */
  lemma {:induction false} SkuMatchFromLeftmost(s: string, i: nat)
    requires i <= |s|
    ensures SkuMatchFrom(s, i).Some? ==>
      exists k :: i <= k <= |s| && SkuMatchAt(s, k) == SkuMatchFrom(s, i) && NoMatchBefore(s, i, k)
    decreases |s| - i
  {
    if SkuMatchAt(s, i).Some? {
      assert NoMatchBefore(s, i, i);
    } else if i < |s| {
      SkuMatchFromLeftmost(s, i + 1);
      if SkuMatchFrom(s, i + 1).Some? {
        var k :| i + 1 <= k <= |s| && SkuMatchAt(s, k) == SkuMatchFrom(s, i + 1) && NoMatchBefore(s, i + 1, k);
        assert NoMatchBefore(s, i, k);
      }
    }
  }


  /** What `url.match(...)` yields: the upper-cased SKU and whether the image is numbered. */
  function UrlImage(url: string): Option<(string, bool)> {
    match SkuMatchFrom(url, 0)
    case None => None
    case Some(m) => Some((Upper(m.sku), m.index.Some?))
  }

  function BuildMainImageUrl(childSku: string): string {
    "https://images.architecturalinfo.com/images/id/zoom/CUSTOM-" + childSku + ".jpg"
  }

  /** The non-empty `src` attributes of the images, in document order. */
  function SourceUrls(srcs: seq<Option<string>>): seq<string>
    decreases |srcs|
  {
    if srcs == [] then []
    else
      var src := srcs[|srcs| - 1].GetOr("");
      SourceUrls(srcs[..|srcs| - 1]) + (if src != "" then [src] else [])
  }

  /** The `allUrls` set: sources first, then the URLs found in the text, each once. */
  function AllImageUrls(srcs: seq<Option<string>>, scanned: seq<string>): seq<string> {
    Dedup(SourceUrls(srcs) + scanned)
  }

  /** A URL that names a SKU image: the URL, the upper-cased SKU, and whether it is numbered. */
  datatype ImageRef = ImageRef(url: string, sku: string, numbered: bool)

  /** The URLs that match the SKU pattern, in order. */
  function ImageRefs(urls: seq<string>): seq<ImageRef>
    decreases |urls|
  {
    if urls == [] then []
    else
      var url := urls[|urls| - 1];
      ImageRefs(urls[..|urls| - 1]) + ImageRefOf(url)
  }

  /** The reference a URL makes, if it matches the SKU pattern. */
  function ImageRefOf(url: string): seq<ImageRef> {
    var found := UrlImage(url);
    if found.Some? then [ImageRef(url, found.value.0, found.value.1)] else []
  }

  lemma SourceUrlsNext(srcs: seq<Option<string>>, i: nat)
    requires i < |srcs|
    ensures var src := srcs[i].GetOr("");
      SourceUrls(srcs[..i + 1]) == if src != "" then SourceUrls(srcs[..i]) + [src] else SourceUrls(srcs[..i])
  {
    assert srcs[..i + 1][..i] == srcs[..i];
    assert srcs[..i + 1][i] == srcs[i];
    assert SourceUrls(srcs[..i]) + [] == SourceUrls(srcs[..i]);
  }

  lemma ImageRefsNext(urls: seq<string>, n: nat)
    requires n < |urls|
    ensures ImageRefs(urls[..n + 1]) == ImageRefs(urls[..n]) + ImageRefOf(urls[n])
  {
    assert urls[..n + 1][..n] == urls[..n];
    assert urls[..n + 1][n] == urls[n];
  }

  lemma ImageMapOfSnoc(refs: seq<ImageRef>, ref: ImageRef)
    ensures ImageMapOf(refs + [ref]) == AddImage(ImageMapOf(refs), ref.sku, ref.url, ref.numbered)
  {
    assert (refs + [ref])[..|refs|] == refs;
  }

  /** The map after `add` has seen every matching URL in turn. */
  function ImageMapOf(refs: seq<ImageRef>): (m: ImageMap)
    ensures ValidImageMap(m)
    decreases |refs|
  {
    if refs == [] then ImageMap([], map[])
    else
      var ref := refs[|refs| - 1];
      AddImage(ImageMapOf(refs[..|refs| - 1]), ref.sku, ref.url, ref.numbered)
  }

  method ExtractSkuImages(srcs: seq<Option<string>>, scanned: seq<string>) returns (m: ImageMap)
    ensures ValidImageMap(m)
    ensures m == ImageMapOf(ImageRefs(AllImageUrls(srcs, scanned)))
  {
    var urls := CollectImageUrls(srcs, scanned);
    m := BuildImageMap(urls);
  }

  /** The `allUrls` loops: image sources, then the URLs found in the text, each kept once. */
  method CollectImageUrls(srcs: seq<Option<string>>, scanned: seq<string>) returns (urls: seq<string>)
    ensures urls == AllImageUrls(srcs, scanned)
  {
    urls := [];
    var i := 0;
    while i < |srcs|
      invariant 0 <= i <= |srcs|
      invariant urls == Dedup(SourceUrls(srcs[..i]))
    {
      SourceUrlsNext(srcs, i);
      var src := srcs[i].GetOr("");
      if src != "" {
        DedupSnoc(SourceUrls(srcs[..i]), src);
        if src !in urls {
          urls := urls + [src];
        }
      }
      i := i + 1;
    }
    assert srcs[..|srcs|] == srcs;
    ghost var sources := SourceUrls(srcs);
    var k := 0;
    assert sources + scanned[..0] == sources;
    while k < |scanned|
      invariant 0 <= k <= |scanned|
      invariant urls == Dedup(sources + scanned[..k])
    {
      DedupExtend(sources, scanned, k);
      if scanned[k] !in urls {
        urls := urls + [scanned[k]];
      }
      k := k + 1;
    }
    assert scanned[..|scanned|] == scanned;
  }

  /** The loop that hands every matching URL to `add`. */
  method BuildImageMap(urls: seq<string>) returns (m: ImageMap)
    ensures m == ImageMapOf(ImageRefs(urls))
  {
    m := ImageMap([], map[]);
    var n := 0;
    while n < |urls|
      invariant 0 <= n <= |urls|
      invariant m == ImageMapOf(ImageRefs(urls[..n]))
    {
      ImageRefsNext(urls, n);
      var found := UrlImage(urls[n]);
      if found.Some? {
        ImageMapOfSnoc(ImageRefs(urls[..n]), ImageRef(urls[n], found.value.0, found.value.1));
        m := AddImage(m, found.value.0, urls[n], found.value.1);
      } else {
        assert ImageRefs(urls[..n]) + [] == ImageRefs(urls[..n]);
      }
      n := n + 1;
    }
    assert urls[..|urls|] == urls;
  }

  /** The SKUs the URLs name, in order, repeats included. */
  function MatchedSkus(refs: seq<ImageRef>): seq<string>
    decreases |refs|
  {
    if refs == [] then [] else MatchedSkus(refs[..|refs| - 1]) + [refs[|refs| - 1].sku]
  }

  /** The URLs of one SKU's un-numbered (`numbered == false`) or numbered images, in order. */
  function ImagesOf(refs: seq<ImageRef>, sku: string, numbered: bool): seq<string>
    decreases |refs|
  {
    if refs == [] then []
    else
      var ref := refs[|refs| - 1];
      ImagesOf(refs[..|refs| - 1], sku, numbered) + (if ref.sku == sku && ref.numbered == numbered then [ref.url] else [])
  }

  lemma {:induction false} FirstNonEmptySnoc(xs: seq<string>, x: string)
    ensures FirstNonEmpty(xs + [x]) == if FirstNonEmpty(xs) != "" then FirstNonEmpty(xs) else x
    decreases |xs|
  {
    if xs != [] {
      assert (xs + [x])[1..] == xs[1..] + [x];
      FirstNonEmptySnoc(xs[1..], x);
    } else {
      assert [x][1..] == [];
    }
  }

  /** The map holds the SKUs in the order they are first named. */
  lemma {:induction false} ImageOrderSpec(refs: seq<ImageRef>)
    ensures ImageMapOf(refs).order == Dedup(MatchedSkus(refs))
    decreases |refs|
  {
    if refs != [] {
      var init := refs[..|refs| - 1];
      var ref := refs[|refs| - 1];
      ImageOrderSpec(init);
      DedupSnoc(MatchedSkus(init), ref.sku);
    }
  }

  /**
   * Each SKU's main image is the first of its un-numbered images, and its
   * other images are its numbered ones, each once, in order.
   */
  lemma {:induction false} ImageMapSpec(refs: seq<ImageRef>, sku: string)
    ensures sku in ImageMapOf(refs).entries ==>
      ImageMapOf(refs).entries[sku] == ImageSet(FirstNonEmpty(ImagesOf(refs, sku, false)), Dedup(ImagesOf(refs, sku, true)))
    ensures sku !in ImageMapOf(refs).entries ==> ImagesOf(refs, sku, false) == [] && ImagesOf(refs, sku, true) == []
    decreases |refs|
  {
    if refs != [] {
      var init := refs[..|refs| - 1];
      var ref := refs[|refs| - 1];
      ImageMapSpec(init, sku);
      if ref.sku == sku {
        AddImageSpec(init, ref);
      } else {
        var m := ImageMapOf(init);
        assert ImageMapOf(refs) == AddImage(m, ref.sku, ref.url, ref.numbered);
        assert sku in ImageMapOf(refs).entries <==> sku in m.entries;
        assert sku in m.entries ==> ImageMapOf(refs).entries[sku] == m.entries[sku];
        assert ImagesOf(refs, sku, false) == ImagesOf(init, sku, false) + [];
        assert ImagesOf(refs, sku, true) == ImagesOf(init, sku, true) + [];
        AppendEmpty(ImagesOf(init, sku, false));
        AppendEmpty(ImagesOf(init, sku, true));
      }
    }
  }

  /** The step of `ImageMapSpec` for a URL of the SKU in question. */
  lemma AddImageSpec(init: seq<ImageRef>, ref: ImageRef)
    requires var m := ImageMapOf(init);
      && (ref.sku in m.entries ==>
           m.entries[ref.sku] == ImageSet(FirstNonEmpty(ImagesOf(init, ref.sku, false)), Dedup(ImagesOf(init, ref.sku, true))))
      && (ref.sku !in m.entries ==> ImagesOf(init, ref.sku, false) == [] && ImagesOf(init, ref.sku, true) == [])
    ensures var refs := init + [ref];
      ImageMapOf(refs).entries[ref.sku] ==
        ImageSet(FirstNonEmpty(ImagesOf(refs, ref.sku, false)), Dedup(ImagesOf(refs, ref.sku, true)))
  {
    var refs := init + [ref];
    assert refs[..|init|] == init;
    var mains, subs := ImagesOf(init, ref.sku, false), ImagesOf(init, ref.sku, true);
    assert FirstNonEmpty([]) == "";
    assert Dedup<string>([]) == [];
    assert mains + [] == mains && subs + [] == subs;
    FirstNonEmptySnoc(mains, ref.url);
    DedupSnoc(subs, ref.url);
    if ref.numbered {
      assert ImagesOf(refs, ref.sku, false) == mains + [];
      assert ImagesOf(refs, ref.sku, true) == subs + [ref.url];
    } else {
      assert ImagesOf(refs, ref.sku, false) == mains + [ref.url];
      assert ImagesOf(refs, ref.sku, true) == subs + [];
    }
  }

  // ===========================================================================
  // Variations

  /** `finishCode ? parentSku + finishCode : ""` */
  function ChildSku(parentSku: string, finishCode: string): string {
    if finishCode != "" then parentSku + finishCode else ""
  }

  /**
   * The variation a detected finish yields: its images come from the map
   * when the child SKU is there; otherwise the main image is the
   * conventional zoom URL of the child SKU.
   */
  function FinishVariation(f: Finish, parentSku: string, m: ImageMap, weight: string): ParsedVariation {
    var childSku := ChildSku(parentSku, f.code);
    var known := childSku != "" && childSku in m.entries;
    ParsedVariation(
      f.name, f.code, childSku,
      if childSku == "" then "" else if known then m.entries[childSku].main else BuildMainImageUrl(childSku),
      if known then m.entries[childSku].sub else [],
      weight, "Pounds", "1", "1")
  }

  function FinishVariations(finishes: seq<Finish>, parentSku: string, m: ImageMap, weight: string): (r: seq<ParsedVariation>)
    ensures |r| == |finishes|
    decreases |finishes|
  {
    if finishes == [] then []
    else
      FinishVariations(finishes[..|finishes| - 1], parentSku, m, weight) +
        [FinishVariation(finishes[|finishes| - 1], parentSku, m, weight)]
  }

  /** `sku.startsWith(parentSku) && sku.length > parentSku.length` */
  predicate ExtendsParent(sku: string, parentSku: string) {
    StartsWith(sku, parentSku) && |sku| > |parentSku|
  }

  /** `s.slice(-2)` */
  function LastTwo(s: string): (r: string)
    ensures |r| == (if |s| >= 2 then 2 else |s|)
    ensures EndsWith(s, r)
  {
    s[if |s| >= 2 then |s| - 2 else 0..]
  }

  /** The nameless variation inferred from an image SKU. */
  function ImageVariation(sku: string, images: ImageSet, weight: string): ParsedVariation {
    ParsedVariation("", LastTwo(sku), sku, images.main, images.sub, weight, "Pounds", "1", "1")
  }

  /** The fallback: one variation per image SKU that extends the parent SKU, in map order. */
  function FallbackVariations(order: seq<string>, m: ImageMap, parentSku: string, weight: string): seq<ParsedVariation>
    requires forall k :: k in order ==> k in m.entries
    decreases |order|
  {
    if order == [] then []
    else
      var sku := order[|order| - 1];
      FallbackVariations(order[..|order| - 1], m, parentSku, weight) +
        (if ExtendsParent(sku, parentSku) then [ImageVariation(sku, m.entries[sku], weight)] else [])
  }

  function VariationsFrom(finishes: seq<Finish>, m: ImageMap, parentSku: string, weight: string): seq<ParsedVariation>
    requires ValidImageMap(m)
  {
    if finishes != [] then FinishVariations(finishes, parentSku, m, weight)
    else FallbackVariations(m.order, m, parentSku, weight)
  }

  function VariationsOf(page: ProductPage, scan: MarkupScan, parentSku: string): seq<ParsedVariation> {
    VariationsFrom(
      Finishes(page.optionBlocks, scan.finishTokens),
      ImageMapOf(ImageRefs(AllImageUrls(page.imageSources, scan.imageUrls))),
      parentSku,
      PackageWeight(page))
  }

  /** The finish loop: one variation per finish. */
  method BuildFinishVariations(finishes: seq<Finish>, parentSku: string, images: ImageMap, weight: string)
    returns (variations: seq<ParsedVariation>)
    ensures variations == FinishVariations(finishes, parentSku, images, weight)
  {
    variations := [];
    var i := 0;
    while i < |finishes|
      invariant 0 <= i <= |finishes|
      invariant variations == FinishVariations(finishes[..i], parentSku, images, weight)
    {
      assert finishes[..i + 1][..i] == finishes[..i];
      var f := finishes[i];
      var childSku := if f.code != "" then parentSku + f.code else "";
      var mainImage, subImages := "", [];
      if childSku != "" {
        if childSku in images.entries {
          mainImage, subImages := images.entries[childSku].main, images.entries[childSku].sub;
        } else {
          mainImage := BuildMainImageUrl(childSku);
        }
      }
      variations := variations + [ParsedVariation(f.name, f.code, childSku, mainImage, subImages, weight, "Pounds", "1", "1")];
      i := i + 1;
    }
    assert finishes[..|finishes|] == finishes;
  }

  /** The fallback loop over the image SKUs, in the order they were first seen. */
  method BuildFallbackVariations(images: ImageMap, parentSku: string, weight: string)
    returns (variations: seq<ParsedVariation>)
    requires ValidImageMap(images)
    ensures variations == FallbackVariations(images.order, images, parentSku, weight)
  {
    variations := [];
    var k := 0;
    while k < |images.order|
      invariant 0 <= k <= |images.order|
      invariant variations == FallbackVariations(images.order[..k], images, parentSku, weight)
    {
      assert images.order[..k + 1][..k] == images.order[..k];
      var sku := images.order[k];
      if StartsWith(sku, parentSku) && |sku| > |parentSku| {
        var entry := images.entries[sku];
        variations := variations + [ParsedVariation("", LastTwo(sku), sku, entry.main, entry.sub, weight, "Pounds", "1", "1")];
      }
      k := k + 1;
    }
    assert images.order[..|images.order|] == images.order;
  }

  method ExtractVariations(page: ProductPage, scan: MarkupScan, parentSku: string) returns (variations: seq<ParsedVariation>)
    ensures variations == VariationsOf(page, scan, parentSku)
  {
    var finishes := ExtractFinishes(page.optionBlocks, scan.finishTokens);
    var images := ExtractSkuImages(page.imageSources, scan.imageUrls);
    var weight := PackageWeight(page);
    variations := BuildFinishVariations(finishes, parentSku, images, weight);
    if |variations| == 0 {
      variations := BuildFallbackVariations(images, parentSku, weight);
    }
  }

  /** Every variation carries the package constants. */
  predicate PackageFields(v: ParsedVariation, weight: string) {
    v.packageWeight == weight && v.packageWeightUnit == "Pounds" && v.itemsPerInnerPack == "1" && v.numberOfBoxes == "1"
  }

  /** What a finish variation keeps of its finish. */
  predicate FromFinish(v: ParsedVariation, f: Finish, parentSku: string, weight: string) {
    && v.finishName == f.name
    && v.finishCode == f.code
    && (f.code != "" ==> v.childSku == parentSku + f.code)
    && (f.code == "" ==> v.childSku == "" && v.mainImage == "" && v.subImages == [])
    && PackageFields(v, weight)
  }

  /** With finishes, one variation per finish, in order, whose child SKU is the parent SKU plus the code. */
  lemma FinishVariationsSpec(finishes: seq<Finish>, parentSku: string, m: ImageMap, weight: string)
    ensures var vs := FinishVariations(finishes, parentSku, m, weight);
      forall i :: 0 <= i < |finishes| ==> FromFinish(vs[i], finishes[i], parentSku, weight)
  {
    var vs := FinishVariations(finishes, parentSku, m, weight);
    forall i | 0 <= i < |finishes| ensures FromFinish(vs[i], finishes[i], parentSku, weight) {
      FinishVariationsAt(finishes, parentSku, m, weight, i);
      FinishVariationFrom(finishes[i], parentSku, m, weight);
    }
  }

  lemma {:induction false} FinishVariationsAt(finishes: seq<Finish>, parentSku: string, m: ImageMap, weight: string, i: nat)
    requires i < |finishes|
    ensures FinishVariations(finishes, parentSku, m, weight)[i] == FinishVariation(finishes[i], parentSku, m, weight)
    decreases |finishes|
  {
    var n := |finishes| - 1;
    if i < n {
      FinishVariationsAt(finishes[..n], parentSku, m, weight, i);
      assert finishes[..n][i] == finishes[i];
    }
  }

  lemma FinishVariationFrom(f: Finish, parentSku: string, m: ImageMap, weight: string)
    ensures FromFinish(FinishVariation(f, parentSku, m, weight), f, parentSku, weight)
  {
  }

  /** What a fallback variation keeps of its image SKU. */
  predicate FromImages(v: ParsedVariation, m: ImageMap, parentSku: string, weight: string) {
    && v.finishName == ""
    && ExtendsParent(v.childSku, parentSku)
    && v.childSku in m.entries
    && v.finishCode == LastTwo(v.childSku)
    && v.mainImage == m.entries[v.childSku].main && v.subImages == m.entries[v.childSku].sub
    && PackageFields(v, weight)
  }

  /**
   * Without finishes, the variations are the image SKUs that strictly extend
   * the parent SKU, in map order, with no name, the last two characters as
   * code, and the images the map holds.
   */
  lemma {:induction false} FallbackVariationsSpec(order: seq<string>, m: ImageMap, parentSku: string, weight: string)
    requires forall k :: k in order ==> k in m.entries
    ensures var vs := FallbackVariations(order, m, parentSku, weight);
      && (forall v :: v in vs ==> v.childSku in order && FromImages(v, m, parentSku, weight))
      && (forall sku :: sku in order && ExtendsParent(sku, parentSku) ==> exists v :: v in vs && v.childSku == sku)
    decreases |order|
  {
    if order != [] {
      var init := order[..|order| - 1];
      var sku := order[|order| - 1];
      FallbackVariationsSpec(init, m, parentSku, weight);
      var before := FallbackVariations(init, m, parentSku, weight);
      var vs := FallbackVariations(order, m, parentSku, weight);
      var added := if ExtendsParent(sku, parentSku) then [ImageVariation(sku, m.entries[sku], weight)] else [];
      assert vs == before + added;
      forall v | v in vs ensures v.childSku in order && FromImages(v, m, parentSku, weight) {
        if v in before {
          assert v.childSku in init;
        }
      }
      forall s | s in order && ExtendsParent(s, parentSku) ensures exists v :: v in vs && v.childSku == s {
        if s in init {
          var v :| v in before && v.childSku == s;
          assert v in vs;
        } else {
          assert s == sku;
          assert vs[|vs| - 1].childSku == s;
        }
      }
    }
  }

  // ===========================================================================
  // The product

  /** The outcome of extraction: the product, or the required fields found missing. */
  datatype ExtractResult = ExtractResult(product: Option<ParsedProduct>, missingFields: seq<Field>)

  function Flag(missing: bool, field: Field): seq<Field> {
    if missing then [field] else []
  }

  /** The product-level checks, in the order they are made. */
  function BaseMissing(parentSku: string, modelName: string, material: string, widths: seq<Dim>, heights: seq<Dim>): seq<Field> {
    Flag(parentSku == "", ParentSkuField) + Flag(modelName == "", ModelNameField) + Flag(material == "", MaterialField) +
    Flag(widths == [], WidthsField) + Flag(heights == [], HeightsField)
  }

  /** The per-variation checks, in the order they are made. */
  function VariationMissing(v: ParsedVariation): seq<Field> {
    Flag(v.finishName == "", FinishNameField) + Flag(v.childSku == "", ChildSkuField) +
    Flag(v.packageWeight == "", PackageWeightField) + Flag(v.packageWeightUnit == "", PackageWeightUnitField) +
    Flag(v.itemsPerInnerPack == "", ItemsPerInnerPackField) + Flag(v.numberOfBoxes == "", NumberOfBoxesField)
  }

  function VariationsMissing(vs: seq<ParsedVariation>): seq<Field>
    decreases |vs|
  {
    if vs == [] then [] else VariationsMissing(vs[..|vs| - 1]) + VariationMissing(vs[|vs| - 1])
  }

  /**
   * The missing-field list: with no variation, the product checks followed by
   * "variations" as they were made; otherwise every check once, in first-seen order.
   */
  function MissingOf(parentSku: string, modelName: string, material: string, widths: seq<Dim>, heights: seq<Dim>,
                     variations: seq<ParsedVariation>): seq<Field> {
    var base := BaseMissing(parentSku, modelName, material, widths, heights);
    if variations == [] then base + [VariationsField] else Dedup(base + VariationsMissing(variations))
  }

  /** The missing-field checks of `extractParsedProduct`. */
  method CollectMissing(parentSku: string, modelName: string, material: string, widths: seq<Dim>, heights: seq<Dim>,
                        variations: seq<ParsedVariation>) returns (missing: seq<Field>)
    ensures missing == MissingOf(parentSku, modelName, material, widths, heights, variations)
  {
    missing := [];
    if parentSku == "" { missing := missing + [ParentSkuField]; }
    ghost var checks := Flag(parentSku == "", ParentSkuField);
    assert missing == checks;
    if modelName == "" { missing := missing + [ModelNameField]; }
    checks := checks + Flag(modelName == "", ModelNameField);
    assert missing == checks;
    if material == "" { missing := missing + [MaterialField]; }
    checks := checks + Flag(material == "", MaterialField);
    assert missing == checks;
    if |widths| == 0 { missing := missing + [WidthsField]; }
    checks := checks + Flag(widths == [], WidthsField);
    assert missing == checks;
    if |heights| == 0 { missing := missing + [HeightsField]; }
    checks := checks + Flag(heights == [], HeightsField);
    assert missing == checks == BaseMissing(parentSku, modelName, material, widths, heights);
    if |variations| == 0 {
      missing := missing + [VariationsField];
      return;
    }
    missing := AppendVariationChecks(missing, variations);
    missing := Dedup(missing);
  }

  /** The loop that runs the per-variation checks. */
  method AppendVariationChecks(before: seq<Field>, variations: seq<ParsedVariation>) returns (missing: seq<Field>)
    ensures missing == before + VariationsMissing(variations)
  {
    missing := before;
    var i := 0;
    while i < |variations|
      invariant 0 <= i <= |variations|
      invariant missing == before + VariationsMissing(variations[..i])
    {
      assert variations[..i + 1][..i] == variations[..i];
      AppendAssoc(before, VariationsMissing(variations[..i]), VariationMissing(variations[i]));
      missing := missing + VariationMissing(variations[i]);
      i := i + 1;
    }
    assert variations[..|variations|] == variations;
  }

  /** A variation with every required field filled in. */
  predicate CompleteVariation(v: ParsedVariation) {
    v.finishName != "" && v.childSku != "" && v.packageWeight != "" &&
    v.packageWeightUnit != "" && v.itemsPerInnerPack != "" && v.numberOfBoxes != ""
  }

  /** A product with every required field filled in. */
  predicate CompleteProduct(p: ParsedProduct) {
    && p.parentSku != "" && p.modelName != "" && p.material != ""
    && p.widths != [] && p.heights != [] && p.variations != []
    && forall v :: v in p.variations ==> CompleteVariation(v)
  }

  /** The variation checks name exactly the variation fields some variation leaves empty. */
  lemma VariationsMissingSpec(vs: seq<ParsedVariation>)
    ensures forall field :: field in VariationsMissing(vs) <==> exists v :: v in vs && field in VariationMissing(v)
    ensures VariationsMissing(vs) == [] <==> forall v :: v in vs ==> CompleteVariation(v)
  {
    VariationsMissingMembers(vs);
    forall v | v in vs ensures VariationsMissing(vs) == [] ==> CompleteVariation(v) {
      VariationMissingEmpty(v);
      assert forall f :: f in VariationMissing(v) ==> f in VariationsMissing(vs);
      EmptyUnder(VariationMissing(v), VariationsMissing(vs));
    }
    if VariationsMissing(vs) != [] {
      var field := VariationsMissing(vs)[0];
      assert field in VariationsMissing(vs);
      var v :| v in vs && field in VariationMissing(v);
      VariationMissingEmpty(v);
    }
  }

  lemma EmptyUnder<T>(a: seq<T>, b: seq<T>)
    requires forall x :: x in a ==> x in b
    ensures b == [] ==> a == []
  {
    if a != [] {
      assert a[0] in b;
    }
  }

  /** A variation passes its checks exactly when it is complete. */
  lemma VariationMissingEmpty(v: ParsedVariation)
    ensures VariationMissing(v) == [] <==> CompleteVariation(v)
  {
  }

  lemma {:induction false} VariationsMissingMembers(vs: seq<ParsedVariation>)
    ensures forall field :: field in VariationsMissing(vs) <==> exists v :: v in vs && field in VariationMissing(v)
    decreases |vs|
  {
    if vs != [] {
      var init := vs[..|vs| - 1];
      var last := vs[|vs| - 1];
      VariationsMissingMembers(init);
      assert VariationsMissing(vs) == VariationsMissing(init) + VariationMissing(last);
      assert vs == init + [last];
      forall field ensures field in VariationsMissing(vs) <==> exists v :: v in vs && field in VariationMissing(v) {
        if field in VariationMissing(last) {
          assert last in vs;
        }
        if exists v :: v in vs && field in VariationMissing(v) {
          var v :| v in vs && field in VariationMissing(v);
          if v != last {
            assert v in init;
          }
        }
      }
    }
  }

  /** A field the product-level checks make. */
  predicate ProductField(f: Field) {
    f.ParentSkuField? || f.ModelNameField? || f.MaterialField? || f.WidthsField? || f.HeightsField?
  }

  /** The product-level checks name each empty product field once, and nothing else. */
  lemma BaseMissingSpec(parentSku: string, modelName: string, material: string, widths: seq<Dim>, heights: seq<Dim>)
    ensures var base := BaseMissing(parentSku, modelName, material, widths, heights);
      && Distinct(base)
      && (forall f :: f in base ==> ProductField(f))
      && (ParentSkuField in base <==> parentSku == "")
      && (ModelNameField in base <==> modelName == "")
      && (MaterialField in base <==> material == "")
      && (WidthsField in base <==> widths == [])
      && (HeightsField in base <==> heights == [])
  {
    BaseMissingDistinct(parentSku, modelName, material, widths, heights);
    forall f {
      BaseMissingMember(parentSku, modelName, material, widths, heights, f);
    }
  }

  lemma BaseMissingMember(parentSku: string, modelName: string, material: string, widths: seq<Dim>, heights: seq<Dim>,
                          f: Field)
    ensures f in BaseMissing(parentSku, modelName, material, widths, heights) <==>
      || (f == ParentSkuField && parentSku == "")
      || (f == ModelNameField && modelName == "")
      || (f == MaterialField && material == "")
      || (f == WidthsField && widths == [])
      || (f == HeightsField && heights == [])
  {
    var a1 := Flag(parentSku == "", ParentSkuField);
    var a2 := a1 + Flag(modelName == "", ModelNameField);
    var a3 := a2 + Flag(material == "", MaterialField);
    var a4 := a3 + Flag(widths == [], WidthsField);
    FlagMember(a1, modelName == "", ModelNameField, f);
    FlagMember(a2, material == "", MaterialField, f);
    FlagMember(a3, widths == [], WidthsField, f);
    FlagMember(a4, heights == [], HeightsField, f);
  }

  lemma BaseMissingDistinct(parentSku: string, modelName: string, material: string, widths: seq<Dim>, heights: seq<Dim>)
    ensures Distinct(BaseMissing(parentSku, modelName, material, widths, heights))
  {
    var a1 := Flag(parentSku == "", ParentSkuField);
    var a2 := a1 + Flag(modelName == "", ModelNameField);
    var a3 := a2 + Flag(material == "", MaterialField);
    var a4 := a3 + Flag(widths == [], WidthsField);
    FlagMember(a1, modelName == "", ModelNameField, MaterialField);
    FlagMember(a1, modelName == "", ModelNameField, WidthsField);
    FlagMember(a1, modelName == "", ModelNameField, HeightsField);
    FlagMember(a2, material == "", MaterialField, WidthsField);
    FlagMember(a2, material == "", MaterialField, HeightsField);
    FlagMember(a3, widths == [], WidthsField, HeightsField);
    FlagDistinct(a1, modelName == "", ModelNameField);
    FlagDistinct(a2, material == "", MaterialField);
    FlagDistinct(a3, widths == [], WidthsField);
    FlagDistinct(a4, heights == [], HeightsField);
  }

  lemma FlagMember(a: seq<Field>, missing: bool, field: Field, f: Field)
    ensures f in a + Flag(missing, field) <==> f in a || (missing && f == field)
  {
  }

  /** One more check keeps the list repetition-free when its field is not already there. */
  lemma FlagDistinct(a: seq<Field>, missing: bool, field: Field)
    requires Distinct(a) && field !in a
    ensures Distinct(a + Flag(missing, field))
  {
  }

  /**
   * The missing-field list is empty exactly when every required field is
   * filled in, and names each missing field once.
   */
  lemma MissingOfSpec(parentSku: string, modelName: string, material: string, widths: seq<Dim>, heights: seq<Dim>,
                      variations: seq<ParsedVariation>)
    ensures var missing := MissingOf(parentSku, modelName, material, widths, heights, variations);
      && (missing == [] <==>
            parentSku != "" && modelName != "" && material != "" && widths != [] && heights != [] &&
            variations != [] && forall v :: v in variations ==> CompleteVariation(v))
      && Distinct(missing)
  {
    var base := BaseMissing(parentSku, modelName, material, widths, heights);
    BaseMissingSpec(parentSku, modelName, material, widths, heights);
    if variations == [] {
      MissingWithoutVariations(base);
    } else {
      MissingWithVariations(base, variations);
    }
  }

  /**
   * Which fields the list names: each product field exactly when it is empty,
   * "variations" exactly when no variation was found (and then last), and
   * otherwise only fields some variation leaves empty.
   */
  lemma MissingOfNames(parentSku: string, modelName: string, material: string, widths: seq<Dim>, heights: seq<Dim>,
                       variations: seq<ParsedVariation>)
    ensures var missing := MissingOf(parentSku, modelName, material, widths, heights, variations);
      && (ParentSkuField in missing <==> parentSku == "")
      && (ModelNameField in missing <==> modelName == "")
      && (MaterialField in missing <==> material == "")
      && (WidthsField in missing <==> widths == [])
      && (HeightsField in missing <==> heights == [])
      && (VariationsField in missing <==> variations == [])
      && (variations == [] ==> missing[|missing| - 1] == VariationsField)
  {
    var base := BaseMissing(parentSku, modelName, material, widths, heights);
    BaseMissingSpec(parentSku, modelName, material, widths, heights);
    MissingFromBase(base, variations);
  }

  /** The product fields and "variations" in the list, from the product-level checks alone. */
  lemma MissingFromBase(base: seq<Field>, variations: seq<ParsedVariation>)
    requires Distinct(base) && forall f :: f in base ==> ProductField(f)
    ensures var missing := if variations == [] then base + [VariationsField] else Dedup(base + VariationsMissing(variations));
      && (forall f :: ProductField(f) ==> (f in missing <==> f in base))
      && (VariationsField in missing <==> variations == [])
      && (variations == [] ==> missing[|missing| - 1] == VariationsField)
  {
    if variations == [] {
      MissingWithoutVariations(base);
    } else {
      MissingWithVariations(base, variations);
    }
    assert VariationsField !in base;
  }

  /** Any other field the list names is one some variation leaves empty. */
  lemma MissingVariationFields(parentSku: string, modelName: string, material: string, widths: seq<Dim>, heights: seq<Dim>,
                               variations: seq<ParsedVariation>)
    ensures var missing := MissingOf(parentSku, modelName, material, widths, heights, variations);
      forall f :: f in missing && !ProductField(f) && f != VariationsField ==>
        exists v :: v in variations && f in VariationMissing(v)
  {
    var base := BaseMissing(parentSku, modelName, material, widths, heights);
    BaseMissingSpec(parentSku, modelName, material, widths, heights);
    if variations == [] {
      MissingWithoutVariations(base);
    } else {
      MissingWithVariations(base, variations);
    }
  }

  /** With variations, the checks are merged once each; the list is empty exactly when nothing is missing. */
  lemma MissingWithVariations(base: seq<Field>, variations: seq<ParsedVariation>)
    requires forall f :: f in base ==> ProductField(f)
    ensures var missing := Dedup(base + VariationsMissing(variations));
      && Distinct(missing)
      && (missing == [] <==> base == [] && forall v :: v in variations ==> CompleteVariation(v))
      && (forall f :: ProductField(f) || f == VariationsField ==> (f in missing <==> f in base))
      && (forall f :: f in missing && !ProductField(f) ==> exists v :: v in variations && f in VariationMissing(v))
  {
    var all := base + VariationsMissing(variations);
    VariationsMissingSpec(variations);
    DedupSpec(all);
    assert base == [] && VariationsMissing(variations) == [] <==> Dedup(all) == [] by {
      HeadIsMember(all);
      HeadIsMember(Dedup(all));
    }
    VariationFieldsOnly(variations);
    forall f | ProductField(f) || f == VariationsField ensures f in Dedup(all) <==> f in base {
      assert f !in VariationsMissing(variations);
    }
  }

  /** The variation checks only ever name variation fields. */
  lemma {:induction false} VariationFieldsOnly(vs: seq<ParsedVariation>)
    ensures forall f :: f in VariationsMissing(vs) ==> !ProductField(f) && f != VariationsField
    decreases |vs|
  {
    if vs != [] {
      VariationFieldsOnly(vs[..|vs| - 1]);
    }
  }

  lemma MissingWithoutVariations(base: seq<Field>)
    requires Distinct(base) && forall f :: f in base ==> ProductField(f)
    ensures var missing := base + [VariationsField];
      Distinct(missing) && missing != [] && missing[|missing| - 1] == VariationsField &&
      forall f :: f in missing && !ProductField(f) ==> f == VariationsField
  {
    assert VariationsField !in base;
  }

  const BRAND_PREFIX: string := "EnduraCore Composite"

  /** ASCII case-insensitive suffix test. */
  predicate EndsWithCI(s: string, p: string) {
    |p| <= |s| && Lower(s[|s| - |p|..]) == Lower(p)
  }

  /**
   * The model name without a leading "EnduraCore Composite" (and the spaces
   * after it) and without a trailing "shutters", both case-insensitive, trimmed.
   */
  function CategoryTail(modelName: string): (r: string)
    ensures IsTrimmed(r) && |r| <= |modelName|
  {
    var a := if StartsWithCI(modelName, BRAND_PREFIX) then TrimStart(modelName[|BRAND_PREFIX|..]) else modelName;
    var b := if EndsWithCI(a, "shutters") then a[..|a| - 8] else a;
    Trim(b)
  }

  /** A string that starts with `p` starts with it case-insensitively, and what follows is the rest. */
  lemma StartsWithCIConcat(p: string, rest: string)
    ensures StartsWithCI(p + rest, p) && (p + rest)[|p|..] == rest
  {
    assert (p + rest)[..|p|] == p;
  }

  /** One leading space before a string that starts with a non-space is all `TrimStart` removes. */
  lemma TrimStartOneSpace(x: string)
    requires x != [] && !IsSpace(x[0])
    ensures TrimStart([' '] + x) == x
  {
    assert ([' '] + x)[1..] == x;
  }

  /** "Shutters" at the end of a name matches `/shutters$/i`, and cutting it leaves what precedes it. */
  lemma EndsWithShutters(a: string)
    ensures EndsWithCI(a + "Shutters", "shutters") && (a + "Shutters")[..|a|] == a
  {
    var s := a + "Shutters";
    assert s[|s| - 8..] == "Shutters";
    var u, l := Lower("Shutters"), Lower("shutters");
    assert forall i :: 0 <= i < 8 ==> u[i] == l[i] by {
      assert LowerChar('S') == 's';
    }
    assert u == l;
  }

  /** A name made of the brand, a trimmed tail and "Shutters" yields exactly that tail. */
  lemma CategoryTailStrips(t: string)
    requires t != [] && IsTrimmed(t)
    ensures CategoryTail(BRAND_PREFIX + " " + t + " Shutters") == t
  {
    var a := t + [' '];
    var rest := [' '] + a + "Shutters";
    assert BRAND_PREFIX + " " + t + " Shutters" == BRAND_PREFIX + rest;
    StartsWithCIConcat(BRAND_PREFIX, rest);
    assert rest == [' '] + (a + "Shutters");
    TrimStartOneSpace(a + "Shutters");
    EndsWithShutters(a);
    TrimSnocSpace(t, ' ');
    TrimOfTrimmed(t);
  }

  /** A trimmed name with neither the brand prefix nor the "shutters" suffix is its own tail. */
  lemma CategoryTailPlain(n: string)
    requires IsTrimmed(n) && !StartsWithCI(n, BRAND_PREFIX) && !EndsWithCI(n, "shutters")
    ensures CategoryTail(n) == n
  {
    TrimOfTrimmed(n);
  }

  /** The product assembled from the extracted fields. */
  function AssembleProduct(url: string, page: ProductPage, parentSku: string, modelName: string,
                           widths: seq<Dim>, heights: seq<Dim>, variations: seq<ParsedVariation>): ParsedProduct {
    ParsedProduct(
      url, parentSku, modelName, Material(page), ShortDescription(page), LongDescription(page),
      BulletPoints(page.keyFeatures), SearchKeywords(page), DocumentsOf(page.identifiers),
      widths, heights, ProductDimensions(FirstOrZero(widths), FromNat(1), FirstOrZero(heights)),
      CategoryTail(modelName), variations)
  }

  /** What `extractParsedProduct` returns for a page. */
  function ExtractSpec(url: string, page: ProductPage, scan: MarkupScan): ExtractResult {
    var parentSku := ParentSku(page);
    var modelName := ModelName(page);
    var widths := DimensionValues(page.optionBlocks, scan.widthLists, Width);
    var heights := DimensionValues(page.optionBlocks, scan.heightLists, Height);
    var variations := VariationsOf(page, scan, parentSku);
    var missing := MissingOf(parentSku, modelName, Material(page), widths, heights, variations);
    if missing != [] then ExtractResult(None, missing)
    else ExtractResult(Some(AssembleProduct(url, page, parentSku, modelName, widths, heights, variations)), [])
  }

  method ExtractParsedProduct(url: string, page: ProductPage, scan: MarkupScan) returns (r: ExtractResult)
    ensures r == ExtractSpec(url, page, scan)
  {
    var material := Trim(page.detailsMaterial);
    var parentSku := FirstNonEmpty([Trim(page.detailsSku), Trim(page.skuText), Trim(page.productCode.GetOr(""))]);
    var simplifiedName := FirstNonEmpty([page.simplifiedName.GetOr(""), Trim(page.productName)]);
    var modelName := NormalizeModelName(simplifiedName);
    var shortDescription := FirstNonEmpty([Trim(page.shortDescription), Trim(page.shortDescriptionAlt)]);
    var longDescription := FirstNonEmpty([Trim(page.longDescriptionHtml), shortDescription]);
    var bulletPoints := TakeBulletPoints(page.keyFeatures);
    var docs := ExtractDocuments(page.identifiers);
    var searchKeywords := Trim(page.keywords.GetOr(""));
    var widths := ExtractDimensionValues(page.optionBlocks, scan.widthLists, Width);
    var heights := ExtractDimensionValues(page.optionBlocks, scan.heightLists, Height);
    var variations := ExtractVariations(page, scan, parentSku);
    var categoryTail := CategoryTail(modelName);
    var firstWidth := if |widths| > 0 then widths[0] else FromNat(0);
    var firstHeight := if |heights| > 0 then heights[0] else FromNat(0);

    var missing := CollectMissing(parentSku, modelName, material, widths, heights, variations);
    if |missing| > 0 {
      return ExtractResult(None, missing);
    }
    r := ExtractResult(Some(ParsedProduct(
      url, parentSku, modelName, material, shortDescription, longDescription, bulletPoints, searchKeywords,
      docs, widths, heights, ProductDimensions(firstWidth, FromNat(1), firstHeight), categoryTail, variations)), []);
  }

  /**
   * A product comes back exactly when every required field is filled in, and
   * then with no missing fields; otherwise the missing fields say what is missing.
   */
  lemma ExtractOutcome(url: string, page: ProductPage, scan: MarkupScan)
    ensures var r := ExtractSpec(url, page, scan);
      && (r.product.Some? <==> r.missingFields == [])
      && (r.product.Some? ==> CompleteProduct(r.product.value) && r.product.value.url == url)
      && (r.product.None? ==> r.missingFields != [] && Distinct(r.missingFields))
      && (ParentSkuField in r.missingFields <==> ParentSku(page) == "")
      && (ModelNameField in r.missingFields <==> ModelName(page) == "")
      && (MaterialField in r.missingFields <==> Material(page) == "")
      && (VariationsField in r.missingFields <==> VariationsOf(page, scan, ParentSku(page)) == [])
  {
    var parentSku := ParentSku(page);
    var widths := DimensionValues(page.optionBlocks, scan.widthLists, Width);
    var heights := DimensionValues(page.optionBlocks, scan.heightLists, Height);
    var variations := VariationsOf(page, scan, parentSku);
    MissingOfSpec(parentSku, ModelName(page), Material(page), widths, heights, variations);
    MissingOfNames(parentSku, ModelName(page), Material(page), widths, heights, variations);
  }
}

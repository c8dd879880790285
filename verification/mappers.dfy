/**
 * The mapping from a parsed product to its catalog rows: one parent row
 * (`mapParentRow`) and one child row per variation (`mapChildRows`), with the
 * generated image addresses and search keywords they carry.
 */
module Mappers {
  import opened Text
  import opened Numbers
  import opened Types
  import opened Schema
  import opened Specifications

  /** `JSON.stringify` of the two virtual attributes, width and height. */
  const VVA_ATTRIBUTES_JSON: string :=
    "[{\"name\":\"width\",\"label\":\"Side (Width) Inches\",\"type\":\"number\"}," +
    "{\"name\":\"height\",\"label\":\"Side (Height) Inches\",\"type\":\"number\"}]"
  const VVA_DEFAULT_FORMULA: string := "base+width*height*2*0.26"
  const VVA_DEFAULT_SKU_TEMPLATE: string := "{sku|substr:0:-2}{width}X{height}{sku|right:2}"
  const IMAGE_HOST: string := "https://images.architecturalinfo.com"
  const IMAGE_BASE: string := IMAGE_HOST + "/images/id/zoom/"

  // ---------------------------------------------------------------------------
  // Child image addresses

  /**
   * Where `sku.slice(0, -4)` ends and `sku.slice(-4)` begins: four characters
   * from the end, or the start of a shorter SKU.
   */
  function TailStart(sku: string): (n: nat)
    ensures n <= |sku|
  {
    if |sku| >= 4 then |sku| - 4 else 0
  }

  /** The image id: the SKU with "101" inserted before its last four characters. */
  function ImageId(sku: string): (r: string)
    ensures |r| == |sku| + 3
  {
    sku[..TailStart(sku)] + "101" + sku[TailStart(sku)..]
  }

  /** Removes the inserted "101" again. */
  function SkuOfImageId(id: string): string {
    if |id| >= 7 then id[..|id| - 7] + id[|id| - 4..]
    else if |id| >= 3 then id[3..]
    else id
  }

  /** The image id determines the SKU. */
  lemma ImageIdRoundTrip(sku: string)
    ensures SkuOfImageId(ImageId(sku)) == sku
  {
    var n := TailStart(sku);
    var id := ImageId(sku);
    if |sku| >= 4 {
      assert id[..|id| - 7] == sku[..n];
      assert id[|id| - 4..] == sku[n..];
    } else {
      assert id[3..] == sku;
    }
  }

  /** `index.toString().padStart(2, "0")` */
  function PadIndex(i: nat): (r: string)
    ensures |r| >= 2 && AllDigits(r)
  {
    var s := NatToString(i);
    if |s| < 2 then "0" + s else s
  }

  /** Padding keeps the value: reading the digits back gives the index. */
  lemma PadIndexValue(i: nat)
    ensures DigitsValue(PadIndex(i)) == i
  {
    var s := NatToString(i);
    DigitsOfNat(i);
    if |s| < 2 {
      var r := "0" + s;
      assert r[..|r| - 1] == "0";
      assert s[..|s| - 1] == [];
    }
  }

  /** `buildChildImageUrl` */
  function BuildChildImageUrl(sku: string, index: Option<nat>): string {
    match index
    case None => IMAGE_BASE + ImageId(sku) + ".jpg"
    case Some(i) => IMAGE_BASE + ImageId(sku) + "-" + PadIndex(i) + ".jpg"
  }

  /** Where the separator stands, and that it stands nowhere after. */
  lemma LastSeparator(x: string, p: string, sep: char)
    requires sep !in p
    ensures (x + [sep] + p)[|x|] == sep
    ensures forall k :: |x| < k < |x| + 1 + |p| ==> (x + [sep] + p)[k] != sep
  {
    var s := x + [sep] + p;
    forall k | |x| < k < |x| + 1 + |p| ensures s[k] != sep {
      assert s[k] == p[k - |x| - 1];
    }
  }

  /** Two strings ending in `sep + p` and `sep + q`, with no separator in `p` or `q`, split alike. */
  lemma SplitAtLast(x: string, p: string, y: string, q: string, sep: char)
    requires sep !in p && sep !in q
    requires x + [sep] + p == y + [sep] + q
    ensures x == y && p == q
  {
    var s := x + [sep] + p;
    LastSeparator(x, p, sep);
    LastSeparator(y, q, sep);
    assert |x| == |y|;
    assert x == s[..|x|] == y;
    assert p == s[|x| + 1..] == q;
  }

  /**
   * Distinct images never share an address: the address determines the SKU and
   * the position (among addresses of the same kind, with or without position).
   */
  lemma ChildImageUrlInjective(a: string, i: Option<nat>, b: string, j: Option<nat>)
    requires i.Some? == j.Some?
    requires BuildChildImageUrl(a, i) == BuildChildImageUrl(b, j)
    ensures a == b && i == j
  {
    var ua, ub := BuildChildImageUrl(a, i), BuildChildImageUrl(b, j);
    var n := |IMAGE_BASE|;
    match i
    case None =>
      assert ImageId(a) == ua[n..|ua| - 4] == ub[n..|ub| - 4] == ImageId(b);
      ImageIdRoundTrip(a);
      ImageIdRoundTrip(b);
    case Some(x) =>
      var y := j.value;
      var ta, tb := ImageId(a) + "-" + PadIndex(x), ImageId(b) + "-" + PadIndex(y);
      assert ta == ua[n..|ua| - 4] == ub[n..|ub| - 4] == tb;
      assert '-' !in PadIndex(x) && '-' !in PadIndex(y);
      SplitAtLast(ImageId(a), PadIndex(x), ImageId(b), PadIndex(y), '-');
      ImageIdRoundTrip(a);
      ImageIdRoundTrip(b);
      PadIndexValue(x);
      PadIndexValue(y);
  }

  // ---------------------------------------------------------------------------
  // Search keywords

  /** `s.split(/\s+/)[0]`: the text before the first white space. */
  function FirstWord(s: string): (r: string)
    ensures StartsWith(s, r)
    ensures forall i :: 0 <= i < |r| ==> !IsSpace(r[i])
    ensures |r| < |s| ==> IsSpace(s[|r|])
    decreases |s|
  {
    if s == [] || IsSpace(s[0]) then "" else [s[0]] + FirstWord(s[1..])
  }

  /** The material, or else the first word of the model name. */
  function Brand(p: ParsedProduct): string {
    if Trim(p.material) != "" then Trim(p.material) else FirstWord(p.modelName)
  }

  /** The phrases every product gets after its brand. */
  const FIXED_PHRASES: seq<string> := [
    "shutters", "exterior shutters", "functional shutters", "composite shutters",
    "window shutters", "exterior window shutters", "custom shutters", "decorative shutters",
    "painted shutters", "polymer shutters", "foam shutters"
  ]

  /** The descriptions and bullet points, space-joined and lower-cased. */
  function TextBlob(p: ParsedProduct): string {
    Lower(Join([p.shortDescription, p.longDescription] + p.bulletPoints, " "))
  }

  predicate MentionsWater(p: ParsedProduct) { Contains(TextBlob(p), "water") }
  predicate MentionsUrethane(p: ParsedProduct) { Contains(TextBlob(p), "urethane") }

  /** The candidate phrases, in order. */
  function Phrases(p: ParsedProduct): seq<string> {
    PhraseList(Brand(p), MentionsWater(p), MentionsUrethane(p))
  }

  /** The brand, the fixed phrases, then the phrases the text calls for. */
  function PhraseList(brand: string, water: bool, urethane: bool): seq<string> {
    [brand] + FIXED_PHRASES + (if water then [WATERPROOF] else []) + (if urethane then [URETHANE] else [])
  }

  function TrimAll(xs: seq<string>): (r: seq<string>)
    ensures |r| == |xs| && forall i :: 0 <= i < |xs| ==> r[i] == Trim(xs[i])
  {
    seq(|xs|, i requires 0 <= i < |xs| => Trim(xs[i]))
  }

  /** `[...new Set(phrases.map(trim))].filter(Boolean)` */
  function KeywordPhrases(p: ParsedProduct): seq<string> {
    NonEmpty(Dedup(TrimAll(Phrases(p))))
  }

  /** `buildSearchKeywords` */
  function BuildSearchKeywords(p: ParsedProduct, sampleSku: string): string {
    Join([sampleSku] + KeywordPhrases(p), "; ")
  }

  /** Every candidate phrase is trimmed before it is kept. */
  lemma TrimAllMember(xs: seq<string>, x: string)
    ensures x in TrimAll(xs) <==> exists y :: y in xs && Trim(y) == x
  {
    var r := TrimAll(xs);
    if x in r {
      var i :| 0 <= i < |r| && r[i] == x;
      assert xs[i] in xs;
    }
    if exists y :: y in xs && Trim(y) == x {
      var y :| y in xs && Trim(y) == x;
      var i :| 0 <= i < |xs| && xs[i] == y;
      assert r[i] == x;
    }
  }

  /**
   * The keywords after the SKU name each phrase once, trimmed and non-empty,
   * and are exactly the non-empty trimmed candidates.
   */
  lemma KeywordPhrasesShape(p: ParsedProduct)
    ensures var r := KeywordPhrases(p);
      && Distinct(r)
      && (forall i :: 0 <= i < |r| ==> r[i] != "" && IsTrimmed(r[i]))
      && (forall x :: x in r <==> x != "" && exists y :: y in Phrases(p) && Trim(y) == x)
  {
    TrimmedKept(Phrases(p));
  }

  lemma TrimmedKept(xs: seq<string>)
    ensures var r := NonEmpty(Dedup(TrimAll(xs)));
      && Distinct(r)
      && (forall i :: 0 <= i < |r| ==> r[i] != "" && IsTrimmed(r[i]))
      && (forall x :: x in r <==> x != "" && exists y :: y in xs && Trim(y) == x)
  {
    var t := TrimAll(xs);
    var r := NonEmpty(Dedup(t));
    DedupSpec(t);
    NonEmptyDistinct(Dedup(t));
    forall x ensures x in r <==> x != "" && exists y :: y in xs && Trim(y) == x {
      TrimAllMember(xs, x);
    }
    forall i | 0 <= i < |r| ensures r[i] != "" && IsTrimmed(r[i]) {
      assert r[i] in r;
      TrimAllMember(xs, r[i]);
    }
  }

  lemma FixedPhrasesTrimmed()
    ensures forall k :: 0 <= k < |FIXED_PHRASES| ==> FIXED_PHRASES[k] != "" && IsTrimmed(FIXED_PHRASES[k])
  {
  }

  /** Whatever the product, the eleven fixed phrases are among its keywords. */
  lemma FixedPhrasesKept(p: ParsedProduct)
    ensures forall k :: 0 <= k < |FIXED_PHRASES| ==> FIXED_PHRASES[k] in KeywordPhrases(p)
  {
    KeywordPhrasesShape(p);
    FixedPhrasesTrimmed();
    forall k | 0 <= k < |FIXED_PHRASES| ensures FIXED_PHRASES[k] in KeywordPhrases(p) {
      var f := FIXED_PHRASES[k];
      assert f in FIXED_PHRASES;
      PhrasesMember(p, f);
      TrimOfTrimmed(f);
    }
  }

  /**
   * The brand leads the keywords; without a brand (no material and a model
   * name that starts with white space) "shutters" does.
   */
  lemma BrandLeads(p: ParsedProduct)
    ensures var r := KeywordPhrases(p);
      |r| > 0 && r[0] == (if Trim(Brand(p)) != "" then Trim(Brand(p)) else "shutters")
  {
    var t := TrimAll(Phrases(p));
    PhrasesHead(p);
    TrimOfTrimmed("shutters");
    DedupNonEmptyHead(t);
  }

  lemma PhrasesHead(p: ParsedProduct)
    ensures |Phrases(p)| >= 2 && Phrases(p)[0] == Brand(p) && Phrases(p)[1] == "shutters"
  {
    PhraseListHead(Brand(p), MentionsWater(p), MentionsUrethane(p));
  }

  lemma PhraseListHead(brand: string, water: bool, urethane: bool)
    ensures var r := PhraseList(brand, water, urethane);
      |r| >= 2 && r[0] == brand && r[1] == "shutters"
  {
    var r := PhraseList(brand, water, urethane);
    var extra := (if water then [WATERPROOF] else []) + (if urethane then [URETHANE] else []);
    assert r == [brand] + (FIXED_PHRASES + extra);
  }

  const WATERPROOF: string := "waterproof shutters"
  const URETHANE: string := "urethane shutters"

  /** Where a candidate phrase comes from. */
  lemma PhrasesMember(p: ParsedProduct, y: string)
    ensures y in Phrases(p) <==>
      || y == Brand(p) || y in FIXED_PHRASES
      || (MentionsWater(p) && y == WATERPROOF) || (MentionsUrethane(p) && y == URETHANE)
  {
  }

  lemma ExtraPhrasesNotFixed()
    ensures WATERPROOF !in FIXED_PHRASES && URETHANE !in FIXED_PHRASES && WATERPROOF != URETHANE
    ensures IsTrimmed(WATERPROOF) && IsTrimmed(URETHANE)
  {
  }

  /** Only the brand can need trimming. */
  lemma NonBrandTrimmed(p: ParsedProduct, y: string)
    requires y in Phrases(p) && y != Brand(p)
    ensures Trim(y) == y
  {
    PhrasesMember(p, y);
    ExtraPhrasesNotFixed();
    if y in FIXED_PHRASES {
      FixedPhrasesTrimmed();
      var k :| 0 <= k < |FIXED_PHRASES| && FIXED_PHRASES[k] == y;
    }
    TrimOfTrimmed(y);
  }

  /** An optional phrase is among the keywords exactly when it is among the candidates or is the brand. */
  lemma OptionalPhraseKept(p: ParsedProduct, x: string)
    requires x == WATERPROOF || x == URETHANE
    ensures x in KeywordPhrases(p) <==> x in Phrases(p) || Trim(Brand(p)) == x
  {
    KeywordPhrasesShape(p);
    ExtraPhrasesNotFixed();
    if x in Phrases(p) {
      if x != Brand(p) {
        NonBrandTrimmed(p, x);
      } else {
        TrimOfTrimmed(x);
      }
    }
    if x in KeywordPhrases(p) {
      var y :| y in Phrases(p) && Trim(y) == x;
      if y != Brand(p) {
        NonBrandTrimmed(p, y);
      }
    }
  }

  /**
   * "waterproof shutters" is added exactly when the descriptions or bullet
   * points mention water (unless the brand itself reads so), and likewise
   * "urethane shutters" for urethane.
   */
  lemma ConditionalPhrases(p: ParsedProduct)
    ensures MentionsWater(p) ==> WATERPROOF in KeywordPhrases(p)
    ensures WATERPROOF in KeywordPhrases(p) ==> MentionsWater(p) || Trim(Brand(p)) == WATERPROOF
    ensures MentionsUrethane(p) ==> URETHANE in KeywordPhrases(p)
    ensures URETHANE in KeywordPhrases(p) ==> MentionsUrethane(p) || Trim(Brand(p)) == URETHANE
  {
    ExtraPhrasesNotFixed();
    OptionalPhraseKept(p, WATERPROOF);
    OptionalPhraseKept(p, URETHANE);
    PhrasesMember(p, WATERPROOF);
    PhrasesMember(p, URETHANE);
  }

  lemma PhrasesWithoutSemicolon()
    ensures forall k :: 0 <= k < |FIXED_PHRASES| ==> ';' !in FIXED_PHRASES[k]
    ensures ';' !in WATERPROOF && ';' !in URETHANE
  {
  }

  lemma BrandWithoutSemicolon(p: ParsedProduct)
    requires ';' !in p.material && ';' !in p.modelName
    ensures ';' !in Brand(p)
  {
    if Trim(p.material) != "" {
      TrimKeepsOut(p.material, ';');
    } else {
      PrefixKeepsOut(p.modelName, FirstWord(p.modelName), ';');
    }
  }

  lemma PrefixKeepsOut(s: string, w: string, c: char)
    requires StartsWith(s, w) && c !in s
    ensures c !in w
  {
    assert forall k :: 0 <= k < |w| ==> w[k] == s[k];
  }

  lemma FixedWithoutSemicolon(y: string)
    requires y in FIXED_PHRASES || y == WATERPROOF || y == URETHANE
    ensures ';' !in y
  {
    PhrasesWithoutSemicolon();
    if y in FIXED_PHRASES {
      var k :| 0 <= k < |FIXED_PHRASES| && FIXED_PHRASES[k] == y;
    }
  }

  /** Keywords hold no semicolon when the material and model name hold none. */
  lemma KeywordsWithoutSemicolon(p: ParsedProduct)
    requires ';' !in p.material && ';' !in p.modelName
    ensures forall i :: 0 <= i < |KeywordPhrases(p)| ==> ';' !in KeywordPhrases(p)[i]
  {
    var r := KeywordPhrases(p);
    KeywordPhrasesShape(p);
    forall i | 0 <= i < |r| ensures ';' !in r[i] {
      assert r[i] in r;
      var y :| y in Phrases(p) && Trim(y) == r[i];
      PhrasesMember(p, y);
      if y == Brand(p) {
        BrandWithoutSemicolon(p);
      } else {
        FixedWithoutSemicolon(y);
      }
      TrimKeepsOut(y, ';');
    }
  }

  /**
   * The keywords field reads back: split at semicolons it gives the sample
   * SKU and then each phrase, which trimming recovers (when no input holds a
   * semicolon).
   */
  lemma SearchKeywordsRoundTrip(p: ParsedProduct, sampleSku: string)
    requires ';' !in sampleSku && ';' !in p.material && ';' !in p.modelName
    ensures var parts := Split(BuildSearchKeywords(p, sampleSku), ';');
      |parts| >= 1 && parts[0] == sampleSku && TrimAll(parts[1..]) == KeywordPhrases(p)
  {
    var r := KeywordPhrases(p);
    KeywordPhrasesShape(p);
    KeywordsWithoutSemicolon(p);
    assert "; " == [';', ' '];
    SplitJoinSpaced(sampleSku, r, ';');
  }

  // ---------------------------------------------------------------------------
  // Parent row

  function FinishNames(vs: seq<ParsedVariation>): (r: seq<string>)
    ensures |r| == |vs| && forall i :: 0 <= i < |vs| ==> r[i] == vs[i].finishName
  {
    seq(|vs|, i requires 0 <= i < |vs| => vs[i].finishName)
  }

  /** `items[i] ?? ""` */
  function ItemOr(items: seq<string>, i: nat): string {
    if i < |items| then items[i] else ""
  }

  /** What the description template is given for a product. */
  function SpecificationsOf(p: ParsedProduct): SpecificationsInput
    requires p.variations != []
  {
    SpecificationsInput(
      p.longDescription, NonEmpty(p.bulletPoints), p.material, 1, |p.variations|,
      FirstOrZero(p.widths), LastOrZero(p.widths), FirstOrZero(p.heights), LastOrZero(p.heights),
      p.dimensions.productWidth, p.dimensions.productDepth, p.dimensions.productHeight,
      p.variations[0].childSku,
      p.docs.warranty, p.docs.installationGuide, p.docs.measurementGuide,
      p.docs.productSalesSheet, p.docs.lineDrawing)
  }

  /** The product description: the specifications template filled in for the product. */
  function DescriptionOf(p: ParsedProduct): string
    requires p.variations != []
  {
    GetSpecifications(SpecificationsOf(p))
  }

  /** The generated main image of a variation, then its sub-images, empty entries dropped. */
  function ParentImages(v: ParsedVariation): string {
    Join(NonEmpty([BuildChildImageUrl(v.childSku, None)] + v.subImages), ",")
  }

  function CategoriesOf(categoryTail: string): string {
    "EnduraCore Composite, EnduraCore Composite > " + categoryTail
  }

  /** The text `mapParentRow` puts in a parent column (the empty string in any other column). */
  function ParentCell(p: ParsedProduct, c: Column): string
    requires p.variations != []
  {
    var first := p.variations[0];
    match c
    case Type => "variable"
    case Sku => p.parentSku
    case Name => p.modelName
    case Description => DescriptionOf(p)
    case ShortDescription => p.shortDescription
    case Categories => CategoriesOf(p.categoryTail)
    case Images => ParentImages(first)
    case AttributeName => "Color"
    case AttributeValues => Join(FinishNames(p.variations), ",")
    case BulletPoint1 => ItemOr(p.bulletPoints, 0)
    case BulletPoint2 => ItemOr(p.bulletPoints, 1)
    case BulletPoint3 => ItemOr(p.bulletPoints, 2)
    case BulletPoint4 => ItemOr(p.bulletPoints, 3)
    case BulletPoint5 => ItemOr(p.bulletPoints, 4)
    case SearchKeywords => BuildSearchKeywords(p, first.childSku)
    case InstallationGuidePdf => p.docs.installationGuide
    case LineDrawingPdf => p.docs.lineDrawing
    case MeasurementGuidePdf => p.docs.measurementGuide
    case WarrantyPdf => p.docs.warranty
    case VvaAttributesJson => VVA_ATTRIBUTES_JSON
    case VvaDefaultFormula => VVA_DEFAULT_FORMULA
    case VvaDefaultSkuTemplate => VVA_DEFAULT_SKU_TEMPLATE
    case _ => ""
  }

  /**
   * `mapParentRow`: the parent row fills every parent column and no other.
   * The source dereferences the first variation, so there must be one.
   */
  function MapParentRow(p: ParsedProduct): (row: Row)
    requires p.variations != []
    ensures Fills(row, PARENT_COLUMNS)
    ensures forall c :: c in PARENT_COLUMNS ==> Cell(row, c) == ParentCell(p, c)
  {
    map c | c in PARENT_COLUMNS :: ParentCell(p, c)
  }

  /**
   * The description shows the product's material, the first child SKU and
   * the five document links, each escaped, the long description as its
   * overview, and width and height ranges from the least to the greatest
   * value offered.
   */
  lemma ParentDescription(p: ParsedProduct)
    requires p.variations != []
    ensures var html := DescriptionOf(p);
      && Contains(html, Td(Esc(p.material)))
      && Contains(html, Td(Esc(p.variations[0].childSku)))
      && Contains(html, "<div id=\"long_description\">" + p.longDescription + "</div>")
      && Contains(html, LinkCell(p.docs.warranty, "Warranty Information"))
      && Contains(html, LinkCell(p.docs.installationGuide, "Installation Instructions"))
      && Contains(html, LinkCell(p.docs.measurementGuide, "Measuring Guide"))
      && Contains(html, LinkCell(p.docs.productSalesSheet, "Product Sales Sheet"))
      && Contains(html, LinkCell(p.docs.lineDrawing, "Line Drawings"))
  {
    var input := SpecificationsOf(p);
    SpecificationsDetails(input);
    SpecificationsLinks(input);
    SpecificationsOverview(input);
  }

  /**
   * The description's width and height ranges run from the least to the
   * greatest value offered (the extracted values are ascending).
   */
  lemma ParentDescriptionRanges(p: ParsedProduct)
    requires p.variations != []
    requires StrictlyAscending(p.widths) && p.widths != []
    requires StrictlyAscending(p.heights) && p.heights != []
    ensures var html := DescriptionOf(p);
      var wMin, wMax := FirstOrZero(p.widths), LastOrZero(p.widths);
      var hMin, hMax := FirstOrZero(p.heights), LastOrZero(p.heights);
      && Contains(html, Td(ToString(wMin) + " to " + ToString(wMax)))
      && Contains(html, Td(ToString(hMin) + " to " + ToString(hMax)))
      && (forall w :: w in p.widths ==> (w == wMin || Less(wMin, w)) && (w == wMax || Less(w, wMax)))
      && (forall h :: h in p.heights ==> (h == hMin || Less(hMin, h)) && (h == hMax || Less(h, hMax)))
  {
    var input := SpecificationsOf(p);
    SpecificationsDetails(input);
    AscendingEnds(p.widths);
    AscendingEnds(p.heights);
  }

  lemma ImageBasePlain()
    ensures ',' !in IMAGE_BASE && ',' !in ".jpg" && ',' !in "101" && ',' !in "-"
  {
    assert ',' !in IMAGE_HOST;
  }

  /** An image address holds a comma only if the SKU does. */
  lemma ChildImageUrlNoComma(sku: string, index: Option<nat>)
    requires ',' !in sku
    ensures ',' !in BuildChildImageUrl(sku, index)
  {
    ImageBasePlain();
    var id := ImageId(sku);
    assert forall k :: 0 <= k < TailStart(sku) ==> id[k] == sku[k];
    assert forall k :: TailStart(sku) + 3 <= k < |id| ==> id[k] == sku[k - 3];
    assert ',' !in id;
    match index
    case None =>
    case Some(i) =>
      assert forall k :: 0 <= k < |PadIndex(i)| ==> IsDigit(PadIndex(i)[k]);
  }

  /**
   * The parent's images list the generated main image of the first
   * variation first, then its non-empty sub-images (when no address holds a
   * comma, splitting the cell gives exactly these).
   */
  lemma ParentImagesSpec(p: ParsedProduct)
    requires p.variations != []
    requires ',' !in p.variations[0].childSku
    requires forall s :: s in p.variations[0].subImages ==> ',' !in s
    ensures Split(ParentCell(p, Images), ',') ==
      [BuildChildImageUrl(p.variations[0].childSku, None)] + NonEmpty(p.variations[0].subImages)
  {
    assert ParentCell(p, Images) == ParentImages(p.variations[0]);
    ImagesOfVariation(p.variations[0]);
  }

  lemma ImagesOfVariation(v: ParsedVariation)
    requires ',' !in v.childSku
    requires forall s :: s in v.subImages ==> ',' !in s
    ensures Split(ParentImages(v), ',') == [BuildChildImageUrl(v.childSku, None)] + NonEmpty(v.subImages)
  {
    var main := BuildChildImageUrl(v.childSku, None);
    ChildImageUrlNoComma(v.childSku, None);
    assert main != "";
    NonEmptyCons(main, v.subImages);
    var parts := [main] + NonEmpty(v.subImages);
    forall i | 0 <= i < |parts| ensures ',' !in parts[i] {
      if i > 0 {
        assert parts[i] in NonEmpty(v.subImages);
      }
    }
    SplitJoin(parts, ',');
  }

  /** The colour attribute lists every finish in order (when no finish name holds a comma). */
  lemma AttributeValuesSpec(p: ParsedProduct)
    requires p.variations != []
    requires forall i :: 0 <= i < |p.variations| ==> ',' !in p.variations[i].finishName
    ensures Split(ParentCell(p, AttributeValues), ',') == FinishNames(p.variations)
  {
    SplitJoin(FinishNames(p.variations), ',');
  }

  // ---------------------------------------------------------------------------
  // Child rows

  /** `values.join(",")` for widths or heights. */
  function DimList(ds: seq<Dim>): string {
    Join(seq(|ds|, i requires 0 <= i < |ds| => ToString(ds[i])), ",")
  }

  /** `JSON.stringify({ width, height })` of the two value lists. */
  function VvaValuesJson(widths: seq<Dim>, heights: seq<Dim>): string {
    "{\"width\":\"" + DimList(widths) + "\",\"height\":\"" + DimList(heights) + "\"}"
  }

  /** The generated image addresses of a SKU at the given positions, comma-joined. */
  function ImageList(sku: string, indexes: seq<nat>): string {
    Join(ImageUrls(sku, indexes), ",")
  }

  /** The image address for each index, in order. */
  function ImageUrls(sku: string, indexes: seq<nat>): (urls: seq<string>)
    ensures |urls| == |indexes| && forall k :: 0 <= k < |indexes| ==> urls[k] == BuildChildImageUrl(sku, Some(indexes[k]))
  {
    seq(|indexes|, k requires 0 <= k < |indexes| => BuildChildImageUrl(sku, Some(indexes[k])))
  }

  /** The text `mapChildRows` puts in a child column for one variation. */
  function ChildCell(p: ParsedProduct, v: ParsedVariation, indexes: ImageIndexes, c: Column): string {
    match c
    case Type => "variation"
    case ParentSku => p.parentSku
    case Sku => v.childSku
    case Name => p.modelName
    case RegularPrice => "40"
    case Images => ImageList(v.childSku, indexes.childImages)
    case GalleryImages => ImageList(v.childSku, indexes.galleryImages)
    case AttributeName => "Color"
    case AttributeValues => v.finishName
    case PackageWeight => v.packageWeight
    case PackageWeightUnit => v.packageWeightUnit
    case ItemsPerInnerPack => v.itemsPerInnerPack
    case NumberOfBoxes => v.numberOfBoxes
    case VvaValuesJson => VvaValuesJson(p.widths, p.heights)
    case _ => ""
  }

  function MapChildRow(p: ParsedProduct, v: ParsedVariation, indexes: ImageIndexes): (row: Row)
    ensures Fills(row, CHILD_COLUMNS)
    ensures forall c :: c in CHILD_COLUMNS ==> Cell(row, c) == ChildCell(p, v, indexes, c)
  {
    map c | c in CHILD_COLUMNS :: ChildCell(p, v, indexes, c)
  }

  /** The cells that tie a child row to its product and its variation. */
  predicate ChildKeys(row: Row, p: ParsedProduct, v: ParsedVariation) {
    Cell(row, ParentSku) == p.parentSku && Cell(row, Sku) == v.childSku && Cell(row, AttributeValues) == v.finishName
  }

  lemma ChildRowKeys(p: ParsedProduct, v: ParsedVariation, indexes: ImageIndexes)
    ensures ChildKeys(MapChildRow(p, v, indexes), p, v)
  {
    var row := MapChildRow(p, v, indexes);
    ChildKeyColumns();
    assert Cell(row, ParentSku) == ChildCell(p, v, indexes, ParentSku) == p.parentSku;
    assert Cell(row, Sku) == ChildCell(p, v, indexes, Sku) == v.childSku;
    assert Cell(row, AttributeValues) == ChildCell(p, v, indexes, AttributeValues) == v.finishName;
  }

  lemma ChildKeyColumns()
    ensures ParentSku in CHILD_COLUMNS && Sku in CHILD_COLUMNS && AttributeValues in CHILD_COLUMNS
  {
  }

  /** `mapChildRows`: one row per variation, in order, each under the product's SKU. */
  function MapChildRows(p: ParsedProduct, indexes: ImageIndexes): (rows: seq<Row>)
    ensures |rows| == |p.variations|
    ensures forall i :: 0 <= i < |rows| ==>
      && Fills(rows[i], CHILD_COLUMNS)
      && Cell(rows[i], ParentSku) == p.parentSku
      && Cell(rows[i], Sku) == p.variations[i].childSku
      && Cell(rows[i], AttributeValues) == p.variations[i].finishName
  {
    var rows := seq(|p.variations|, i requires 0 <= i < |p.variations| => MapChildRow(p, p.variations[i], indexes));
    assert forall i :: 0 <= i < |rows| ==> ChildKeys(rows[i], p, p.variations[i]) by {
      forall i | 0 <= i < |rows| ensures ChildKeys(rows[i], p, p.variations[i]) {
        ChildRowKeys(p, p.variations[i], indexes);
      }
    }
    rows
  }

  /** Row `i` of `mapChildRows` is the child row of variation `i`. */
  lemma MapChildRowsEach(p: ParsedProduct, indexes: ImageIndexes)
    ensures forall i :: 0 <= i < |p.variations| ==>
      MapChildRows(p, indexes)[i] == MapChildRow(p, p.variations[i], indexes)
  {
  }

  /** A printed value holds digits and at most one point: no comma, quote or backslash. */
  lemma ToStringNoComma(d: Dim)
    ensures ',' !in ToString(d) && '"' !in ToString(d) && '\\' !in ToString(d)
  {
    var w := NatToString(d.whole);
    assert forall k :: 0 <= k < |w| ==> IsDigit(w[k]);
    assert forall k :: 0 <= k < |d.frac| ==> IsDigit(d.frac[k]);
  }

  /**
   * A value list needs no escaping inside a JSON string: writing it between
   * quotes is what `JSON.stringify` does with it.
   */
  lemma DimListJsonSafe(ds: seq<Dim>)
    ensures '"' !in DimList(ds) && '\\' !in DimList(ds)
  {
    var strs := seq(|ds|, i requires 0 <= i < |ds| => ToString(ds[i]));
    forall i | 0 <= i < |ds| ensures '"' !in strs[i] && '\\' !in strs[i] {
      ToStringNoComma(ds[i]);
    }
    JoinNoChar(strs, ",", '"');
    JoinNoChar(strs, ",", '\\');
  }

  /**
   * The width and height lists read back: split at commas, every piece
   * parses to the value at its place.
   */
  lemma DimListRoundTrip(ds: seq<Dim>)
    requires ds != []
    ensures var parts := Split(DimList(ds), ',');
      |parts| == |ds| && forall i :: 0 <= i < |ds| ==> ParseBack(parts[i]) == Some(ds[i])
  {
    var strs := seq(|ds|, i requires 0 <= i < |ds| => ToString(ds[i]));
    forall i | 0 <= i < |ds| ensures ',' !in strs[i] {
      ToStringNoComma(ds[i]);
    }
    SplitJoin(strs, ',');
    forall i | 0 <= i < |ds| ensures ParseBack(strs[i]) == Some(ds[i]) {
      ToStringRoundTrip(ds[i]);
    }
  }

  /**
   * A variation's image list splits back into the addresses at the listed
   * positions, and positions listed once give addresses listed once.
   */
  lemma ImageListSpec(sku: string, indexes: seq<nat>)
    requires ',' !in sku && indexes != []
    ensures var parts := Split(ImageList(sku, indexes), ',');
      && |parts| == |indexes|
      && (forall k :: 0 <= k < |indexes| ==> parts[k] == BuildChildImageUrl(sku, Some(indexes[k])))
      && (Distinct(indexes) ==> Distinct(parts))
  {
    var urls := ImageUrls(sku, indexes);
    forall k | 0 <= k < |indexes| ensures ',' !in urls[k] {
      ChildImageUrlNoComma(sku, Some(indexes[k]));
    }
    SplitJoin(urls, ',');
    if Distinct(indexes) {
      ImageUrlsDistinct(sku, indexes);
    }
  }

  lemma ImageUrlsDistinct(sku: string, indexes: seq<nat>)
    requires Distinct(indexes)
    ensures Distinct(ImageUrls(sku, indexes))
  {
    var urls := ImageUrls(sku, indexes);
    forall a, b | 0 <= a < b < |urls| ensures urls[a] != urls[b] {
      if urls[a] == urls[b] {
        ChildImageUrlInjective(sku, Some(indexes[a]), sku, Some(indexes[b]));
      }
    }
  }

  /** Images of different variations never collide (their SKUs differ). */
  lemma ChildImagesDisjoint(a: string, b: string, i: nat, j: nat)
    requires a != b
    ensures BuildChildImageUrl(a, Some(i)) != BuildChildImageUrl(b, Some(j))
  {
    if BuildChildImageUrl(a, Some(i)) == BuildChildImageUrl(b, Some(j)) {
      ChildImageUrlInjective(a, Some(i), b, Some(j));
    }
  }
}

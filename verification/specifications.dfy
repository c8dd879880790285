/**
 * The HTML description template of a parent row: the markup escape `esc`
 * and `getSpecifications`, a fixed sequence of markup pieces joined without
 * a separator. Every inserted text is escaped except the overview, which is
 * already HTML and goes in verbatim.
 */
module Specifications {
  import opened Text
  import opened Numbers

  // ===========================================================================
  // The escape

  /** `s.replaceAll(c, rep)` for a one-character pattern. */
  function ReplaceChar(s: string, c: char, rep: string): (r: string)
    ensures c !in s ==> r == s
    decreases |s|
  {
    if s == [] then []
    else (if s[0] == c then rep else [s[0]]) + ReplaceChar(s[1..], c, rep)
  }

  lemma {:induction false} ReplaceCharAppend(a: string, b: string, c: char, rep: string)
    ensures ReplaceChar(a + b, c, rep) == ReplaceChar(a, c, rep) + ReplaceChar(b, c, rep)
    decreases |a|
  {
    if a != [] {
      ReplaceCharAppend(a[1..], b, c, rep);
      assert (a + b)[1..] == a[1..] + b;
    } else {
      assert a + b == b;
    }
  }

  /** `esc`: five `replaceAll` calls, ampersand first. */
  function Esc(s: string): string {
    var s1 := ReplaceChar(s, '&', "&amp;");
    var s2 := ReplaceChar(s1, '<', "&lt;");
    var s3 := ReplaceChar(s2, '>', "&gt;");
    var s4 := ReplaceChar(s3, '"', "&quot;");
    ReplaceChar(s4, '\'', "&#x27;")
  }

  /** The entity one character becomes. */
  function EscChar(c: char): string {
    match c
    case '&' => "&amp;"
    case '<' => "&lt;"
    case '>' => "&gt;"
    case '"' => "&quot;"
    case '\'' => "&#x27;"
    case _ => [c]
  }

  /** The escape as one pass over the characters. */
  function EscChars(s: string): string
    decreases |s|
  {
    if s == [] then [] else EscChar(s[0]) + EscChars(s[1..])
  }

  predicate Markup(c: char) {
    c == '&' || c == '<' || c == '>' || c == '"' || c == '\''
  }

  /** `esc(a + b) == esc(a) + esc(b)` */
  lemma EscAppend(a: string, b: string)
    ensures Esc(a + b) == Esc(a) + Esc(b)
  {
    var a1, b1 := ReplaceChar(a, '&', "&amp;"), ReplaceChar(b, '&', "&amp;");
    var a2, b2 := ReplaceChar(a1, '<', "&lt;"), ReplaceChar(b1, '<', "&lt;");
    var a3, b3 := ReplaceChar(a2, '>', "&gt;"), ReplaceChar(b2, '>', "&gt;");
    var a4, b4 := ReplaceChar(a3, '"', "&quot;"), ReplaceChar(b3, '"', "&quot;");
    ReplaceCharAppend(a, b, '&', "&amp;");
    ReplaceCharAppend(a1, b1, '<', "&lt;");
    ReplaceCharAppend(a2, b2, '>', "&gt;");
    ReplaceCharAppend(a3, b3, '"', "&quot;");
    ReplaceCharAppend(a4, b4, '\'', "&#x27;");
  }

  /** The chain of replacements acts on each character independently: no replacement undoes an earlier one. */
  lemma {:induction false} EscIsPerChar(s: string)
    ensures Esc(s) == EscChars(s)
    decreases |s|
  {
    if s != [] {
      var c := s[0];
      assert s == [c] + s[1..];
      EscAppend([c], s[1..]);
      EscIsPerChar(s[1..]);
      EscOneChar(c);
    }
  }

  lemma EscOneChar(c: char)
    ensures Esc([c]) == EscChar(c)
  {
    var e := ReplaceChar([c], '&', "&amp;");
    assert e == (if c == '&' then "&amp;" else [c]) by {
      assert [c][1..] == [];
    }
    if c == '&' {
      assert '<' !in e && '>' !in e && '"' !in e && '\'' !in e;
    } else {
      var e2 := ReplaceChar(e, '<', "&lt;");
      assert e2 == (if c == '<' then "&lt;" else [c]) by {
        assert [c][1..] == [];
      }
      if c == '<' {
        assert '>' !in e2 && '"' !in e2 && '\'' !in e2;
      } else {
        var e3 := ReplaceChar(e2, '>', "&gt;");
        assert e3 == (if c == '>' then "&gt;" else [c]) by {
          assert [c][1..] == [];
        }
        if c == '>' {
          assert '"' !in e3 && '\'' !in e3;
        } else {
          var e4 := ReplaceChar(e3, '"', "&quot;");
          assert e4 == (if c == '"' then "&quot;" else [c]) by {
            assert [c][1..] == [];
          }
          if c == '"' {
            assert '\'' !in e4;
          } else {
            assert [c][1..] == [];
          }
        }
      }
    }
  }

  /** The escaped text holds no character that could open a tag or end an attribute value. */
  lemma {:induction false} EscNoMarkup(s: string)
    ensures '<' !in Esc(s) && '>' !in Esc(s) && '"' !in Esc(s) && '\'' !in Esc(s)
    decreases |s|
  {
    EscIsPerChar(s);
    EscCharsNoMarkup(s);
  }

  lemma {:induction false} EscCharsNoMarkup(s: string)
    ensures '<' !in EscChars(s) && '>' !in EscChars(s) && '"' !in EscChars(s) && '\'' !in EscChars(s)
    decreases |s|
  {
    if s != [] {
      EscCharsNoMarkup(s[1..]);
      EscCharNoMarkup(s[0]);
      assert EscChars(s) == EscChar(s[0]) + EscChars(s[1..]);
    }
  }

  lemma EscCharNoMarkup(c: char)
    ensures '<' !in EscChar(c) && '>' !in EscChar(c) && '"' !in EscChar(c) && '\'' !in EscChar(c)
  {
  }

  /** Text with none of the five characters is left as it is. */
  lemma EscIdentity(s: string)
    requires forall i :: 0 <= i < |s| ==> !Markup(s[i])
    ensures Esc(s) == s
  {
    assert '&' !in s && '<' !in s && '>' !in s && '"' !in s && '\'' !in s;
  }

  /** Reads the five entities back; any other character stands for itself. */
  function Unescape(s: string): string
    decreases |s|
  {
    if s == [] then []
    else if StartsWith(s, "&amp;") then "&" + Unescape(s[5..])
    else if StartsWith(s, "&lt;") then "<" + Unescape(s[4..])
    else if StartsWith(s, "&gt;") then ">" + Unescape(s[4..])
    else if StartsWith(s, "&quot;") then "\"" + Unescape(s[6..])
    else if StartsWith(s, "&#x27;") then "'" + Unescape(s[6..])
    else [s[0]] + Unescape(s[1..])
  }

  /** The escape loses nothing. */
  lemma UnescapeEsc(s: string)
    ensures Unescape(Esc(s)) == s
  {
    EscIsPerChar(s);
    UnescapeEscChars(s);
  }

  lemma {:induction false} UnescapeEscChars(s: string)
    ensures Unescape(EscChars(s)) == s
    decreases |s|
  {
    if s != [] {
      UnescapeEscChars(s[1..]);
      UnescapeEntity(s[0], EscChars(s[1..]));
      assert s == [s[0]] + s[1..];
    }
  }

  /** An entity is read back as the character it stands for, whatever follows it. */
  lemma UnescapeEntity(c: char, rest: string)
    ensures Unescape(EscChar(c) + rest) == [c] + Unescape(rest)
  {
    var s := EscChar(c) + rest;
    if c == '&' {
      assert s[..5] == "&amp;" && s[5..] == rest;
    } else if c == '<' {
      UnescapeLt(rest);
    } else if c == '>' {
      UnescapeGt(rest);
    } else if c == '"' {
      UnescapeQuot(rest);
    } else if c == '\'' {
      UnescapeApos(rest);
    } else {
      assert s[0] == c && s[1..] == rest;
      assert !StartsWith(s, "&amp;") && !StartsWith(s, "&lt;") && !StartsWith(s, "&gt;");
      assert !StartsWith(s, "&quot;") && !StartsWith(s, "&#x27;");
    }
  }

  lemma UnescapeLt(rest: string)
    ensures Unescape("&lt;" + rest) == "<" + Unescape(rest)
  {
    var s := "&lt;" + rest;
    assert s[1] == 'l' && s[..4] == "&lt;" && s[4..] == rest;
    assert !StartsWith(s, "&amp;");
  }

  lemma UnescapeGt(rest: string)
    ensures Unescape("&gt;" + rest) == ">" + Unescape(rest)
  {
    var s := "&gt;" + rest;
    assert s[1] == 'g' && s[..4] == "&gt;" && s[4..] == rest;
    assert !StartsWith(s, "&amp;") && !StartsWith(s, "&lt;");
  }

  lemma UnescapeQuot(rest: string)
    ensures Unescape("&quot;" + rest) == "\"" + Unescape(rest)
  {
    var s := "&quot;" + rest;
    assert s[1] == 'q' && s[..6] == "&quot;" && s[6..] == rest;
    assert !StartsWith(s, "&amp;") && !StartsWith(s, "&lt;") && !StartsWith(s, "&gt;");
  }

  lemma UnescapeApos(rest: string)
    ensures Unescape("&#x27;" + rest) == "'" + Unescape(rest)
  {
    var s := "&#x27;" + rest;
    assert s[1] == '#' && s[..6] == "&#x27;" && s[6..] == rest;
    assert !StartsWith(s, "&amp;") && !StartsWith(s, "&lt;") && !StartsWith(s, "&gt;");
    assert !StartsWith(s, "&quot;");
  }

  // ===========================================================================
  // Key features

  function Item(feature: string): string {
    "<li>" + Esc(feature) + "</li>"
  }

  /** `keyFeatures.map((f) => `<li>${esc(f)}</li>`).join("")` */
  function FeatureItems(features: seq<string>): string {
    Concat(seq(|features|, i requires 0 <= i < |features| => Item(features[i])))
  }

  /** Reads a run of `<li>…</li>` items back into the texts they hold. */
  function ParseItems(s: string): seq<string>
    decreases |s|
  {
    if StartsWith(s, "<li>") && '<' in s[4..] then
      var j := 4 + IndexOf(s[4..], '<');
      if StartsWith(s[j..], "</li>") then [Unescape(s[4..j])] + ParseItems(s[j + 5..]) else []
    else []
  }

  lemma IndexOfAfter(a: string, c: char, b: string)
    requires c !in a
    ensures c in a + [c] + b && IndexOf(a + [c] + b, c) == |a|
  {
    var s := a + [c] + b;
    assert s[|a|] == c;
    var i := IndexOf(s, c);
    PrefixHas(s, i, |a|);
    assert s[..|a|] == a;
    PrefixHas(s, |a|, i);
  }

  lemma PrefixHas(s: string, i: nat, k: nat)
    ensures k < i <= |s| ==> s[k] in s[..i]
  {
    if k < i <= |s| {
      assert s[..i][k] == s[k];
    }
  }

  lemma FeatureItemsCons(features: seq<string>)
    requires features != []
    ensures FeatureItems(features) == Item(features[0]) + FeatureItems(features[1..])
  {
    var rest := features[1..];
    var items := seq(|features|, i requires 0 <= i < |features| => Item(features[i]));
    var restItems := seq(|rest|, i requires 0 <= i < |rest| => Item(rest[i]));
    assert items == [Item(features[0])] + restItems;
    ConcatAppend([Item(features[0])], restItems);
    assert Concat([Item(features[0])]) == Item(features[0]);
  }

  /** One item is read back when its text holds no `<`. */
  lemma ParseItemsCons(e: string, tail: string)
    requires '<' !in e
    ensures ParseItems("<li>" + e + "</li>" + tail) == [Unescape(e)] + ParseItems(tail)
  {
    var s := "<li>" + e + "</li>" + tail;
    assert StartsWith(s, "<li>");
    assert s[4..] == e + ['<'] + ("/li>" + tail);
    IndexOfAfter(e, '<', "/li>" + tail);
    var j := 4 + |e|;
    assert s[4..j] == e;
    assert s[j..] == "</li>" + tail;
    assert StartsWith(s[j..], "</li>");
    assert s[j + 5..] == tail;
  }

  /** Each key feature comes back from the list, once, in order. */
  lemma {:induction false} ParseFeatureItems(features: seq<string>)
    ensures ParseItems(FeatureItems(features)) == features
    decreases |features|
  {
    if features == [] {
      assert !StartsWith(FeatureItems(features), "<li>");
    } else {
      FeatureItemsCons(features);
      EscNoMarkup(features[0]);
      ParseItemsCons(Esc(features[0]), FeatureItems(features[1..]));
      UnescapeEsc(features[0]);
      ParseFeatureItems(features[1..]);
      assert features == [features[0]] + features[1..];
    }
  }

  // ===========================================================================
  // The document

  /** `SpecificationsInput`: the measurements are exact decimals, the counts naturals. */
  datatype SpecificationsInput = SpecificationsInput(
    overviewHtml: string,
    keyFeatures: seq<string>,
    material: string,
    numberOfDesigns: nat,
    numberOfColors: nat,
    minWidth: Dim,
    maxWidth: Dim,
    minHeight: Dim,
    maxHeight: Dim,
    productWidth: Dim,
    productDepth: Dim,
    productHeight: Dim,
    sku: string,
    pdfWarrantyLink: string,
    pdfInstallationLink: string,
    pdfMeasuringLink: string,
    pdfProductSalesSheetLink: string,
    pdfLineDrawingLink: string)

  const TABLE_OPEN: string := "<table style=\"width:100%;border-collapse:collapse;border:1px solid #ddd\"><tbody>"
  const TABLE_CLOSE: string := "</tbody></table>"

  function Th(text: string): string {
    "<th style=\"background-color:#f4f4f4;padding:10px;border:1px solid #ddd\">" + text + "</th>"
  }

  const TD_OPEN: string := "<td style=\"padding:10px;border:1px solid #ddd\">"

  function Td(html: string): string {
    TD_OPEN + html + "</td>"
  }

  const HREF_OPEN: string := "<a href=\""
  const LINK_ATTRIBUTES: string := " target=\"_blank\" rel=\"noopener noreferrer\">"

  /** A document link: the escaped address as `href`, with fixed anchor text. */
  function LinkCell(link: string, text: string): string {
    Td(HREF_OPEN + Esc(link) + "\"" + LINK_ATTRIBUTES + text + "</a>")
  }

  function Range(low: Dim, high: Dim): string {
    ToString(low) + " to " + ToString(high)
  }

  const OVERVIEW_HEADING: string := "<h2 class=\"c-heading-echo\">Product Overview</h2>"
  const FEATURES_HEADING: string := "<h3>Key Features</h3>"
  const SPECIFICATIONS_HEADING: string := "<h3>Product Specifications</h3>"
  const DETAILS_HEADING: string := "<h3>Details</h3>"
  const DOCUMENTS_HEADING: string := "<h3>Warranty / Installation / Other Helpful Documents</h3>"

  function OverviewPieces(input: SpecificationsInput): seq<string> {
    [OVERVIEW_HEADING, "<div id=\"long_description\">" + input.overviewHtml + "</div>"]
  }

  function FeaturePieces(input: SpecificationsInput): seq<string> {
    [FEATURES_HEADING, "<ul>" + FeatureItems(input.keyFeatures) + "</ul>"]
  }

  function SpecificationPieces(input: SpecificationsInput): seq<string> {
    [SPECIFICATIONS_HEADING, TABLE_OPEN,
     "<tr>",
     Th("Product Width (in.)"), Td(ToString(input.productWidth)),
     Th("Product Depth (in.)"), Td(ToString(input.productDepth)),
     Th("Product Height (in.)"), Td(ToString(input.productHeight)),
     "</tr>",
     TABLE_CLOSE]
  }

  function DetailPieces(input: SpecificationsInput): seq<string> {
    [DETAILS_HEADING, TABLE_OPEN,
     "<tr>",
     Th("Material"), Td(Esc(input.material)),
     Th("Sku"), Td(Esc(input.sku)),
     "</tr>",
     "<tr>",
     Th("Designs"), Td(NatToString(input.numberOfDesigns)),
     Th("Colors"), Td(NatToString(input.numberOfColors)),
     "</tr>",
     "<tr>",
     Th("Widths"), Td(Range(input.minWidth, input.maxWidth)),
     Th("Heights"), Td(Range(input.minHeight, input.maxHeight)),
     "</tr>",
     TABLE_CLOSE]
  }

  function DocumentPieces(input: SpecificationsInput): seq<string> {
    [DOCUMENTS_HEADING, TABLE_OPEN,
     "<tr>",
     Th("PDF Warranty"), LinkCell(input.pdfWarrantyLink, "Warranty Information"),
     Th("PDF Installation"), LinkCell(input.pdfInstallationLink, "Installation Instructions"),
     "</tr>",
     "<tr>",
     Th("PDF Measuring"), LinkCell(input.pdfMeasuringLink, "Measuring Guide"),
     Th("PDF Product Sales Sheet"), LinkCell(input.pdfProductSalesSheetLink, "Product Sales Sheet"),
     "</tr>",
     "<tr>",
     Th("PDF Line Drawing"), LinkCell(input.pdfLineDrawingLink, "Line Drawings"),
     "</tr>",
     TABLE_CLOSE]
  }

  /** The fixed array of pieces, section by section. */
  function Pieces(input: SpecificationsInput): (r: seq<string>)
    ensures |r| == 55
  {
    OverviewPieces(input) + FeaturePieces(input) + SpecificationPieces(input) + DetailPieces(input) + DocumentPieces(input)
  }

  /** `getSpecifications` */
  function GetSpecifications(input: SpecificationsInput): string {
    Concat(Pieces(input))
  }

  /** The five sections follow one another in a fixed order, each opening with its heading. */
  lemma SpecificationsLayout(input: SpecificationsInput)
    ensures GetSpecifications(input) ==
      Concat(OverviewPieces(input)) + Concat(FeaturePieces(input)) + Concat(SpecificationPieces(input)) +
      Concat(DetailPieces(input)) + Concat(DocumentPieces(input))
    ensures StartsWith(Concat(OverviewPieces(input)), OVERVIEW_HEADING)
    ensures StartsWith(Concat(FeaturePieces(input)), FEATURES_HEADING)
    ensures StartsWith(Concat(SpecificationPieces(input)), SPECIFICATIONS_HEADING)
    ensures StartsWith(Concat(DetailPieces(input)), DETAILS_HEADING)
    ensures StartsWith(Concat(DocumentPieces(input)), DOCUMENTS_HEADING)
  {
    var a, b, c, d, e := OverviewPieces(input), FeaturePieces(input), SpecificationPieces(input),
      DetailPieces(input), DocumentPieces(input);
    ConcatAppend(a + b + c + d, e);
    ConcatAppend(a + b + c, d);
    ConcatAppend(a + b, c);
    ConcatAppend(a, b);
    HeadingFirst(a);
    HeadingFirst(b);
    HeadingFirst(c);
    HeadingFirst(d);
    HeadingFirst(e);
  }

  lemma HeadingFirst(parts: seq<string>)
    requires |parts| > 0
    ensures StartsWith(Concat(parts), parts[0])
  {
    ConcatAppend([parts[0]], parts[1..]);
    assert [parts[0]] + parts[1..] == parts;
    assert Concat([parts[0]]) == parts[0];
  }

  /** A piece of the overview occurs in the document. */
  lemma OverviewOccurs(input: SpecificationsInput, p: string)
    requires p in OverviewPieces(input)
    ensures Contains(GetSpecifications(input), p)
  {
    SpecificationsLayout(input);
    var o := Concat(OverviewPieces(input));
    ConcatHasMember(OverviewPieces(input), p);
    ContainsLiftStart(o, Concat(FeaturePieces(input)), p);
    ContainsLiftStart(o + Concat(FeaturePieces(input)), Concat(SpecificationPieces(input)), p);
    ContainsLiftStart(o + Concat(FeaturePieces(input)) + Concat(SpecificationPieces(input)),
      Concat(DetailPieces(input)), p);
    ContainsLiftStart(o + Concat(FeaturePieces(input)) + Concat(SpecificationPieces(input)) + Concat(DetailPieces(input)),
      Concat(DocumentPieces(input)), p);
  }

  /** A piece of the features section occurs in the document. */
  lemma FeaturesOccur(input: SpecificationsInput, p: string)
    requires p in FeaturePieces(input)
    ensures Contains(GetSpecifications(input), p)
  {
    SpecificationsLayout(input);
    var o := Concat(OverviewPieces(input));
    ConcatHasMember(FeaturePieces(input), p);
    ContainsLift(o, Concat(FeaturePieces(input)), Concat(SpecificationPieces(input)), p);
    ContainsLiftStart(o + Concat(FeaturePieces(input)) + Concat(SpecificationPieces(input)),
      Concat(DetailPieces(input)), p);
    ContainsLiftStart(o + Concat(FeaturePieces(input)) + Concat(SpecificationPieces(input)) + Concat(DetailPieces(input)),
      Concat(DocumentPieces(input)), p);
  }

  /** A piece of the details table occurs in the document. */
  lemma DetailOccurs(input: SpecificationsInput, p: string)
    requires p in DetailPieces(input)
    ensures Contains(GetSpecifications(input), p)
  {
    SpecificationsLayout(input);
    ConcatHasMember(DetailPieces(input), p);
    ContainsLift(Concat(OverviewPieces(input)) + Concat(FeaturePieces(input)) + Concat(SpecificationPieces(input)),
      Concat(DetailPieces(input)), Concat(DocumentPieces(input)), p);
  }

  /** A piece of the documents table occurs in the document. */
  lemma DocumentOccurs(input: SpecificationsInput, p: string)
    requires p in DocumentPieces(input)
    ensures Contains(GetSpecifications(input), p)
  {
    SpecificationsLayout(input);
    ConcatHasMember(DocumentPieces(input), p);
    ContainsLiftEnd(Concat(OverviewPieces(input)) + Concat(FeaturePieces(input)) + Concat(SpecificationPieces(input)) +
      Concat(DetailPieces(input)), Concat(DocumentPieces(input)), p);
  }

  /** The overview goes in verbatim and the features as one list, each escaped. */
  lemma SpecificationsOverview(input: SpecificationsInput)
    ensures Contains(GetSpecifications(input), "<div id=\"long_description\">" + input.overviewHtml + "</div>")
    ensures Contains(GetSpecifications(input), "<ul>" + FeatureItems(input.keyFeatures) + "</ul>")
  {
    OverviewOccurs(input, "<div id=\"long_description\">" + input.overviewHtml + "</div>");
    FeaturesOccur(input, "<ul>" + FeatureItems(input.keyFeatures) + "</ul>");
  }

  /** The material and SKU go in escaped; the width and height ranges read "<min> to <max>". */
  lemma SpecificationsDetails(input: SpecificationsInput)
    ensures var html := GetSpecifications(input);
      && Contains(html, Td(Esc(input.material)))
      && Contains(html, Td(Esc(input.sku)))
      && Contains(html, Td(ToString(input.minWidth) + " to " + ToString(input.maxWidth)))
      && Contains(html, Td(ToString(input.minHeight) + " to " + ToString(input.maxHeight)))
  {
    DetailOccurs(input, Td(Esc(input.material)));
    DetailOccurs(input, Td(Esc(input.sku)));
    DetailOccurs(input, Td(ToString(input.minWidth) + " to " + ToString(input.maxWidth)));
    DetailOccurs(input, Td(ToString(input.minHeight) + " to " + ToString(input.maxHeight)));
  }

  /** All five document links are rendered, escaped, even when empty. */
  lemma SpecificationsLinks(input: SpecificationsInput)
    ensures var html := GetSpecifications(input);
      && Contains(html, LinkCell(input.pdfWarrantyLink, "Warranty Information"))
      && Contains(html, LinkCell(input.pdfInstallationLink, "Installation Instructions"))
      && Contains(html, LinkCell(input.pdfMeasuringLink, "Measuring Guide"))
      && Contains(html, LinkCell(input.pdfProductSalesSheetLink, "Product Sales Sheet"))
      && Contains(html, LinkCell(input.pdfLineDrawingLink, "Line Drawings"))
  {
    DocumentOccurs(input, LinkCell(input.pdfWarrantyLink, "Warranty Information"));
    DocumentOccurs(input, LinkCell(input.pdfInstallationLink, "Installation Instructions"));
    DocumentOccurs(input, LinkCell(input.pdfMeasuringLink, "Measuring Guide"));
    DocumentOccurs(input, LinkCell(input.pdfProductSalesSheetLink, "Product Sales Sheet"));
    DocumentOccurs(input, LinkCell(input.pdfLineDrawingLink, "Line Drawings"));
  }

  /** Reads an attribute value up to its closing quote and unescapes it. */
  function AttributeValue(s: string): string {
    if '"' in s then Unescape(s[..IndexOf(s, '"')]) else Unescape(s)
  }

  /** The escaped address is read back up to the first quote. */
  lemma AttributeValueOfEsc(link: string, after: string)
    ensures AttributeValue(Esc(link) + ['"'] + after) == link
  {
    var e := Esc(link);
    EscNoMarkup(link);
    IndexOfAfter(e, '"', after);
    assert (e + ['"'] + after)[..|e|] == e;
    UnescapeEsc(link);
  }

  /** A link cannot end its `href` early: reading the attribute gives the link back. */
  lemma LinkAttributeRoundTrip(link: string, text: string)
    ensures var cell := LinkCell(link, text);
      StartsWith(cell, TD_OPEN + HREF_OPEN) && AttributeValue(cell[|TD_OPEN + HREF_OPEN|..]) == link
  {
    var open := TD_OPEN + HREF_OPEN;
    var after := LINK_ATTRIBUTES + text + "</a>" + "</td>";
    var rest := Esc(link) + ['"'] + after;
    LinkCellParts(TD_OPEN, HREF_OPEN, Esc(link), ['"'], LINK_ATTRIBUTES, text, "</a>", "</td>");
    SplitAt(open, rest);
    AttributeValueOfEsc(link, after);
  }

  lemma LinkCellParts(a: string, b: string, c: string, d: string, e: string, f: string, g: string, h: string)
    ensures a + (b + c + d + e + f + g) + h == (a + b) + (c + d + (e + f + g + h))
  {
  }

  lemma SplitAt(a: string, b: string)
    ensures StartsWith(a + b, a) && (a + b)[|a|..] == b
  {
    assert (a + b)[..|a|] == a;
  }
}

/**
 * The batch run: read the URL list, visit each URL in turn, sort every outcome
 * into parent rows, child rows or a failure record, and write the three CSV
 * files. Fetching, the clock-free file system and the URL parser are outside
 * the model: what they return for each URL is an input (`Visit`).
 */
module Pipeline {
  import opened Text
  import opened Types
  import opened Schema
  import Extractor
  import Mappers
  import Csv

  // ---------------------------------------------------------------------------
  // File names for saved pages

  /** `replace(/[^a-z0-9]+/gi, "-")`: each maximal run of other characters becomes one dash. */
  function CollapseRuns(s: string): (r: string)
    ensures |r| <= |s|
    ensures s != [] && IsAlnum(s[0]) ==> r != [] && r[0] == s[0]
    ensures s != [] && !IsAlnum(s[0]) ==> r != [] && r[0] == '-'
    decreases |s|
  {
    if s == [] then []
    else if IsAlnum(s[0]) then [s[0]] + CollapseRuns(s[1..])
    else "-" + CollapseRuns(SkipOthers(s[1..]))
  }

  /** The rest of a run of characters other than letters and digits. */
  function SkipOthers(s: string): (r: string)
    ensures |r| <= |s| && r == s[|s| - |r|..]
    ensures r == [] || IsAlnum(r[0])
    ensures forall i :: 0 <= i < |s| - |r| ==> !IsAlnum(s[i])
    decreases |s|
  {
    if s != [] && !IsAlnum(s[0]) then
      var r := SkipOthers(s[1..]);
      assert forall i :: 1 <= i < |s| - |r| ==> s[i] == s[1..][i - 1];
      r
    else s
  }

  /** `replace(/^-+|-+$/g, "")` */
  function StripDashes(s: string): (r: string)
    ensures r == [] || (r[0] != '-' && r[|r| - 1] != '-')
  {
    DropTrailingDashes(DropLeadingDashes(s))
  }

  function DropLeadingDashes(s: string): (r: string)
    ensures |r| <= |s| && r == s[|s| - |r|..]
    ensures r == [] || r[0] != '-'
    ensures forall i :: 0 <= i < |s| - |r| ==> s[i] == '-'
    decreases |s|
  {
    if s != [] && s[0] == '-' then DropLeadingDashes(s[1..]) else s
  }

  function DropTrailingDashes(s: string): (r: string)
    ensures |r| <= |s| && r == s[..|r|]
    ensures r == [] || r[|r| - 1] != '-'
    ensures forall i :: |r| <= i < |s| ==> s[i] == '-'
    decreases |s|
  {
    if s != [] && s[|s| - 1] == '-' then DropTrailingDashes(s[..|s| - 1]) else s
  }

  /** `sanitizeForFilename` */
  function SanitizeForFilename(input: string): string {
    Lower(StripDashes(CollapseRuns(input)))
  }

  /** The characters a sanitized name is made of. */
  predicate SafeChar(c: char) {
    IsLower(c) || IsDigit(c) || c == '-'
  }

  /** Only letters, digits and dashes. */
  predicate AlnumOrDash(s: string) {
    forall i :: 0 <= i < |s| ==> IsAlnum(s[i]) || s[i] == '-'
  }

  predicate NoDoubleDash(s: string) {
    forall i :: 0 <= i < |s| - 1 ==> !(s[i] == '-' && s[i + 1] == '-')
  }

  /** A name made of lower-case letters, digits and single inner dashes. */
  predicate SafeName(s: string) {
    && (forall i :: 0 <= i < |s| ==> SafeChar(s[i]))
    && NoDoubleDash(s)
    && (s == [] || (s[0] != '-' && s[|s| - 1] != '-'))
  }

  /** The letters and digits of a string, in order. */
  function Alnums(s: string): (r: string)
    decreases |s|
  {
    if s == [] then [] else (if IsAlnum(s[0]) then [s[0]] else []) + Alnums(s[1..])
  }

  lemma {:induction false} AlnumsAppend(a: string, b: string)
    ensures Alnums(a + b) == Alnums(a) + Alnums(b)
    decreases |a|
  {
    if a == [] {
      assert a + b == b;
    } else {
      var head: string := if IsAlnum(a[0]) then [a[0]] else [];
      calc {
        Alnums(a + b);
        { assert (a + b)[0] == a[0] && (a + b)[1..] == a[1..] + b; }
        head + Alnums(a[1..] + b);
        { AlnumsAppend(a[1..], b); }
        head + (Alnums(a[1..]) + Alnums(b));
        (head + Alnums(a[1..])) + Alnums(b);
      }
    }
  }

  lemma {:induction false} AlnumsNone(s: string)
    requires forall i :: 0 <= i < |s| ==> !IsAlnum(s[i])
    ensures Alnums(s) == []
    decreases |s|
  {
    if s != [] {
      AlnumsNone(s[1..]);
    }
  }

  lemma {:induction false} CollapseRunsChars(s: string)
    ensures AlnumOrDash(CollapseRuns(s))
    decreases |s|
  {
    if s != [] {
      var t := if IsAlnum(s[0]) then s[1..] else SkipOthers(s[1..]);
      CollapseRunsChars(t);
      var r, rest := CollapseRuns(s), CollapseRuns(t);
      assert r == [r[0]] + rest;
      forall i | 0 <= i < |r| ensures IsAlnum(r[i]) || r[i] == '-' {
        if i > 0 {
          assert r[i] == rest[i - 1];
        } else if IsAlnum(s[0]) {
          assert r[0] == s[0];
        } else {
          assert r[0] == '-';
        }
      }
    }
  }

  lemma {:induction false} CollapseRunsSingleDashes(s: string)
    ensures NoDoubleDash(CollapseRuns(s))
    decreases |s|
  {
    if s != [] {
      var t := if IsAlnum(s[0]) then s[1..] else SkipOthers(s[1..]);
      var rest := CollapseRuns(t);
      CollapseRunsSingleDashes(t);
      var r := CollapseRuns(s);
      assert r == [r[0]] + rest;
      assert rest != [] ==> rest[0] != '-' || IsAlnum(s[0]);
      forall i | 0 <= i < |r| - 1 ensures !(r[i] == '-' && r[i + 1] == '-') {
        if i > 0 {
          assert r[i] == rest[i - 1] && r[i + 1] == rest[i];
        }
      }
    }
  }

  lemma {:induction false} CollapseRunsAlnums(s: string)
    ensures Alnums(CollapseRuns(s)) == Alnums(s)
    decreases |s|
  {
    if s != [] {
      AlnumsCons(s[0], s[1..]);
      assert [s[0]] + s[1..] == s;
      if IsAlnum(s[0]) {
        CollapseRunsAlnums(s[1..]);
        AlnumsCons(s[0], CollapseRuns(s[1..]));
      } else {
        var t := SkipOthers(s[1..]);
        CollapseRunsAlnums(t);
        SkipOthersAlnums(s[1..]);
        AlnumsCons('-', CollapseRuns(t));
      }
    }
  }

  lemma AlnumsCons(c: char, s: string)
    ensures Alnums([c] + s) == (if IsAlnum(c) then [c] else []) + Alnums(s)
  {
    assert ([c] + s)[1..] == s;
  }

  /** Skipping a run of other characters loses no letter or digit. */
  lemma {:induction false} SkipOthersAlnums(s: string)
    ensures Alnums(SkipOthers(s)) == Alnums(s)
    decreases |s|
  {
    if s != [] && !IsAlnum(s[0]) {
      SkipOthersAlnums(s[1..]);
    }
  }

  lemma StripDashesShape(s: string)
    requires AlnumOrDash(s) && NoDoubleDash(s)
    ensures AlnumOrDash(StripDashes(s)) && NoDoubleDash(StripDashes(s))
  {
    var a := DropLeadingDashes(s);
    var r := DropTrailingDashes(a);
    var k := |s| - |a|;
    assert forall i :: 0 <= i < |r| ==> r[i] == s[k + i];
  }

  lemma StripDashesAlnums(s: string)
    ensures Alnums(StripDashes(s)) == Alnums(s)
  {
    LeadingDashesAlnums(s);
    TrailingDashesAlnums(DropLeadingDashes(s));
  }

  lemma LeadingDashesAlnums(s: string)
    ensures Alnums(DropLeadingDashes(s)) == Alnums(s)
  {
    var a := DropLeadingDashes(s);
    var front := s[..|s| - |a|];
    assert s == front + a;
    DashesOnly(front);
    AlnumsAppend(front, a);
  }

  lemma TrailingDashesAlnums(a: string)
    ensures Alnums(DropTrailingDashes(a)) == Alnums(a)
  {
    var r := DropTrailingDashes(a);
    var back := a[|r|..];
    assert a == r + back;
    assert forall i :: 0 <= i < |back| ==> back[i] == a[|r| + i];
    DashesOnly(back);
    AlnumsAppend(r, back);
  }

  lemma DashesOnly(d: string)
    requires forall i :: 0 <= i < |d| ==> d[i] == '-'
    ensures Alnums(d) == []
  {
    AlnumsNone(d);
  }

  /** Lower-casing a dash-separated name of letters and digits makes it safe. */
  lemma LowerSafe(t: string)
    requires AlnumOrDash(t) && NoDoubleDash(t) && (t == [] || (t[0] != '-' && t[|t| - 1] != '-'))
    ensures SafeName(Lower(t))
  {
    var r := Lower(t);
    forall i | 0 <= i < |r| ensures SafeChar(r[i]) && (r[i] == '-' <==> t[i] == '-') {
      assert r[i] == LowerChar(t[i]);
    }
  }

  lemma {:induction false} AlnumsLower(s: string)
    ensures Alnums(Lower(s)) == Lower(Alnums(s))
    decreases |s|
  {
    if s != [] {
      AlnumsLower(s[1..]);
      assert Lower(s) == [LowerChar(s[0])] + Lower(s[1..]);
      if IsAlnum(s[0]) {
        assert Lower([s[0]] + Alnums(s[1..])) == [LowerChar(s[0])] + Lower(Alnums(s[1..]));
      }
    }
  }

  /**
   * A sanitized name is made of lower-case letters, digits and single inner
   * dashes, and keeps every letter and digit of the input, lower-cased, in order.
   */
  lemma SanitizeSpec(input: string)
    ensures SafeName(SanitizeForFilename(input))
    ensures Alnums(SanitizeForFilename(input)) == Lower(Alnums(input))
  {
    var c := CollapseRuns(input);
    CollapseRunsChars(input);
    CollapseRunsSingleDashes(input);
    CollapseRunsAlnums(input);
    StripDashesShape(c);
    StripDashesAlnums(c);
    var t := StripDashes(c);
    AlnumsLower(t);
    LowerSafe(t);
  }

  /** Collapsing, stripping and lower-casing change nothing in a name that is already safe. */
  lemma {:induction false} CollapseSafe(s: string)
    requires forall i :: 0 <= i < |s| ==> SafeChar(s[i])
    requires NoDoubleDash(s) && (s == [] || s[|s| - 1] != '-')
    ensures CollapseRuns(s) == s
    decreases |s|
  {
    if s != [] {
      SafeTail(s);
      CollapseSafe(s[1..]);
      if s[0] == '-' {
        assert SkipOthers(s[1..]) == s[1..];
      }
      assert [s[0]] + s[1..] == s;
    }
  }

  /** The tail of a safe-shaped name is safe-shaped, and a dash in front is followed by a letter or digit. */
  lemma SafeTail(s: string)
    requires s != [] && (forall i :: 0 <= i < |s| ==> SafeChar(s[i]))
    requires NoDoubleDash(s) && s[|s| - 1] != '-'
    ensures var t := s[1..];
      && (forall i :: 0 <= i < |t| ==> SafeChar(t[i]))
      && NoDoubleDash(t) && (t == [] || t[|t| - 1] != '-')
    ensures s[0] == '-' ==> |s| > 1 && IsAlnum(s[1])
  {
    var t := s[1..];
    forall i | 0 <= i < |t| - 1 ensures !(t[i] == '-' && t[i + 1] == '-') {
      assert t[i] == s[i + 1] && t[i + 1] == s[i + 2];
    }
    if s[0] == '-' {
      assert SafeChar(s[1]);
    }
  }

  lemma SanitizeSafe(s: string)
    requires SafeName(s)
    ensures SanitizeForFilename(s) == s
  {
    CollapseSafe(s);
    assert DropLeadingDashes(s) == s;
    assert DropTrailingDashes(s) == s;
    forall i | 0 <= i < |s| ensures LowerChar(s[i]) == s[i] {
      assert SafeChar(s[i]);
    }
    assert Lower(s) == s;
  }

  /** Sanitizing twice is sanitizing once. */
  lemma SanitizeIdempotent(input: string)
    ensures SanitizeForFilename(SanitizeForFilename(input)) == SanitizeForFilename(input)
  {
    SanitizeSpec(input);
    SanitizeSafe(SanitizeForFilename(input));
  }

  /** `saveArtifact`'s file name: the sanitized path (or the whole URL when the path is empty), or a fixed name. */
  function ArtifactFileName(pathname: string, url: string): (name: string)
    ensures EndsWith(name, ".html") && |name| > |".html"|
  {
    var safeName := SanitizeForFilename(if pathname != "" then pathname else url);
    var stem := if safeName != "" then safeName else "product";
    assert (stem + ".html")[|stem|..] == ".html";
    stem + ".html"
  }

  /** Every saved page gets a name whose stem is safe and non-empty. */
  lemma ArtifactFileNameSafe(pathname: string, url: string)
    ensures var name := ArtifactFileName(pathname, url);
      name[..|name| - 5] != [] && SafeName(name[..|name| - 5])
  {
    var safeName := SanitizeForFilename(if pathname != "" then pathname else url);
    SanitizeSpec(if pathname != "" then pathname else url);
    var stem := if safeName != "" then safeName else "product";
    var name := ArtifactFileName(pathname, url);
    assert name == stem + ".html";
    assert name[..|name| - 5] == stem;
    if safeName == "" {
      ProductSafe();
    }
  }

  lemma ProductSafe()
    ensures SafeName("product")
  {
    var p := "product";
    assert forall i :: 0 <= i < |p| ==> p[i] in "product";
  }

  // ---------------------------------------------------------------------------
  // The URL list

  /** What `split(/\r?\n/)` leaves of a line that `split("\n")` would end with a carriage return. */
  function DropCR(line: string): string {
    if line != [] && line[|line| - 1] == '\r' then line[..|line| - 1] else line
  }

  /** A line the pipeline visits: not blank and not a `#` comment. */
  predicate IsUrlLine(line: string) {
    line != [] && line[0] != '#'
  }

  /** One raw line, with its line ending and surrounding whitespace removed. */
  function CleanLine(raw: string): (line: string)
    ensures IsTrimmed(line)
  {
    Trim(DropCR(raw))
  }

  /** Dropping the carriage return first makes no difference once the line is trimmed. */
  lemma CleanLineIsTrim(raw: string)
    ensures CleanLine(raw) == Trim(raw)
  {
    if raw != [] && raw[|raw| - 1] == '\r' {
      assert raw == raw[..|raw| - 1] + ['\r'];
      TrimSnocSpace(raw[..|raw| - 1], '\r');
    }
  }

  /** The trimmed URL lines among raw lines, in order. */
  function UrlLines(lines: seq<string>): (r: seq<string>)
    decreases |lines|
  {
    if lines == [] then []
    else
      var line := CleanLine(lines[0]);
      (if IsUrlLine(line) then [line] else []) + UrlLines(lines[1..])
  }

  lemma {:induction false} UrlLinesShape(lines: seq<string>)
    ensures forall line :: line in UrlLines(lines) ==> IsUrlLine(line) && IsTrimmed(line)
    decreases |lines|
  {
    if lines != [] {
      UrlLinesShape(lines[1..]);
      var line := CleanLine(lines[0]);
      var head := if IsUrlLine(line) then [line] else [];
      assert UrlLines(lines) == head + UrlLines(lines[1..]);
    }
  }

  /** `parseInputLines` */
  function ParseInputLines(contents: string): seq<string> {
    UrlLines(Split(contents, '\n'))
  }

  lemma {:induction false} UrlLinesNoChar(lines: seq<string>, c: char)
    requires forall i :: 0 <= i < |lines| ==> c !in lines[i]
    ensures forall i :: 0 <= i < |UrlLines(lines)| ==> c !in UrlLines(lines)[i]
    decreases |lines|
  {
    if lines != [] {
      UrlLinesNoChar(lines[1..], c);
      var d := DropCR(lines[0]);
      assert forall k :: 0 <= k < |d| ==> d[k] == lines[0][k];
      TrimKeepsOut(d, c);
    }
  }

  /** Every URL the pipeline visits is non-empty, trimmed, not a comment, and on one line. */
  lemma ParseInputLinesShape(contents: string)
    ensures forall i :: 0 <= i < |ParseInputLines(contents)| ==>
      var url := ParseInputLines(contents)[i];
      IsUrlLine(url) && IsTrimmed(url) && '\n' !in url
  {
    var lines := Split(contents, '\n');
    var urls := UrlLines(lines);
    UrlLinesShape(lines);
    UrlLinesNoChar(lines, '\n');
    forall i | 0 <= i < |urls| ensures IsUrlLine(urls[i]) && IsTrimmed(urls[i]) && '\n' !in urls[i] {
      assert urls[i] in urls;
    }
  }

  lemma {:induction false} UrlLinesOfUrls(lines: seq<string>)
    requires forall i :: 0 <= i < |lines| ==> IsUrlLine(lines[i]) && IsTrimmed(lines[i])
    ensures UrlLines(lines) == lines
    decreases |lines|
  {
    if lines != [] {
      UrlLinesOfUrls(lines[1..]);
      assert DropCR(lines[0]) == lines[0];
      TrimOfTrimmed(lines[0]);
      assert CleanLine(lines[0]) == lines[0];
      assert [lines[0]] + lines[1..] == lines;
    }
  }

  /** A list of URLs written one per line reads back as itself. */
  lemma ParseInputLinesRoundTrip(urls: seq<string>)
    requires forall i :: 0 <= i < |urls| ==> IsUrlLine(urls[i]) && IsTrimmed(urls[i]) && '\n' !in urls[i]
    ensures ParseInputLines(Join(urls, "\n")) == urls
  {
    if urls == [] {
      assert Split("", '\n') == [""];
      assert CleanLine("") == "";
    } else {
      SplitJoin(urls, '\n');
      UrlLinesOfUrls(urls);
    }
  }

  lemma {:induction false} UrlLinesCRLF(lines: seq<string>)
    ensures UrlLines(Suffixed(lines, "\r")) == UrlLines(lines)
    decreases |lines|
  {
    if lines != [] {
      var crlf := Suffixed(lines, "\r");
      var line := CleanLine(lines[0]);
      var head := if IsUrlLine(line) then [line] else [];
      assert crlf[0] == lines[0] + "\r";
      assert CleanLine(crlf[0]) == line by {
        CleanLineIsTrim(crlf[0]);
        CleanLineIsTrim(lines[0]);
        assert crlf[0] == lines[0] + ['\r'];
        TrimSnocSpace(lines[0], '\r');
      }
      assert crlf[1..] == Suffixed(lines[1..], "\r");
      UrlLinesCRLF(lines[1..]);
      assert UrlLines(crlf) == head + UrlLines(crlf[1..]);
      assert UrlLines(lines) == head + UrlLines(lines[1..]);
    }
  }

  /** Windows line endings give the same URLs as Unix ones. */
  lemma ParseInputLinesCRLF(lines: seq<string>)
    requires lines != []
    requires forall i :: 0 <= i < |lines| ==> '\n' !in lines[i]
    ensures ParseInputLines(Join(Suffixed(lines, "\r"), "\n")) == ParseInputLines(Join(lines, "\n"))
  {
    var crlf := Suffixed(lines, "\r");
    forall i | 0 <= i < |crlf| ensures '\n' !in crlf[i] {
      assert crlf[i] == lines[i] + "\r";
    }
    SplitJoin(crlf, '\n');
    SplitJoin(lines, '\n');
    UrlLinesCRLF(lines);
  }

  // ---------------------------------------------------------------------------
  // Failure records

  /** The separator of the missing-field list in a failure row. */
  const FIELD_SEPARATOR: char := '|'

  /** `failureToRow` */
  function FailureToRow(failure: PipelineFailure): (row: Row)
    ensures Fills(row, FAILURE_COLUMNS)
  {
    map[Url := failure.url, Reason := ReasonText(failure.reason), MissingFields := Join(failure.missingFields, [FIELD_SEPARATOR])]
  }

  /** Reasons are written under distinct texts, so a failure row says which reason it was. */
  lemma ReasonTextInjective(a: FailureReason, b: FailureReason)
    ensures ReasonText(a) == ReasonText(b) ==> a == b
  {
    if ReasonText(a) == ReasonText(b) {
      assert |ReasonText(a)| == |ReasonText(b)| && ReasonText(a)[0] == ReasonText(b)[0];
    }
  }

  /** The URL, the reason and (when there is one) the list of missing fields read back from a failure row. */
  lemma FailureRowRoundTrip(failure: PipelineFailure)
    requires failure.missingFields != []
    requires forall i :: 0 <= i < |failure.missingFields| ==> FIELD_SEPARATOR !in failure.missingFields[i]
    ensures var row := FailureToRow(failure);
      && Cell(row, Url) == failure.url
      && (forall r :: ReasonText(r) == Cell(row, Reason) ==> r == failure.reason)
      && Split(Cell(row, MissingFields), FIELD_SEPARATOR) == failure.missingFields
  {
    SplitJoin(failure.missingFields, FIELD_SEPARATOR);
    forall r | ReasonText(r) == ReasonText(failure.reason) ensures r == failure.reason {
      ReasonTextInjective(r, failure.reason);
    }
  }

  /** No reported field name, and not `invalid_url`, holds the separator. */
  lemma FieldNamesSeparable(fields: seq<Field>)
    ensures forall i :: 0 <= i < |FieldNames(fields)| ==> FIELD_SEPARATOR !in FieldNames(fields)[i]
    ensures FIELD_SEPARATOR !in INVALID_URL
  {
    forall i | 0 <= i < |fields| ensures FIELD_SEPARATOR !in FieldName(fields[i]) {
      FieldNameSeparable(fields[i]);
    }
  }

  lemma FieldNameSeparable(f: Field)
    ensures FIELD_SEPARATOR !in FieldName(f)
  {
  }

  const INVALID_URL := "invalid_url"

  // ---------------------------------------------------------------------------
  // The run

  /**
   * Where a visit throws inside the pipeline's last `try` block: while
   * extracting, while mapping the parent row, or while mapping the child rows
   * (after the parent row was kept).
   */
  datatype Fault = NoFault | ExtractionFault | ParentMappingFault | ChildMappingFault

  /**
   * What `scrape` returns: the final URL and its path, and the page as the
   * extractor reads it; and whether `saveArtifact` succeeds for it (neither
   * `new URL` on the final URL nor the file write throws).
   */
  datatype Scraped = Scraped(finalUrl: string, pathname: string, page: Extractor.ProductPage, scan: Extractor.MarkupScan, saveOk: bool)

  /**
   * What the world answers for one URL: whether `new URL` accepts it, what
   * fetching it gave (nothing when `scrape` threw), and any fault.
   */
  datatype Visit = Visit(urlParses: bool, scraped: Option<Scraped>, fault: Fault)

  /** The arrays the loop appends to, and the pages it saved. */
  datatype Collected = Collected(parents: seq<Row>, children: seq<Row>, failures: seq<PipelineFailure>, artifacts: seq<string>)

  datatype PipelineSummary = PipelineSummary(totalUrls: nat, successCount: nat, failedCount: nat, parentRows: nat, childRows: nat)

  /**
   * What one pass of the loop body does with its URL: the page it saves, the
   * parent row and child rows it pushes, and the failure it records.
   */
  datatype Outcome = Outcome(artifact: Option<string>, parent: Option<Row>, children: seq<Row>, failure: Option<PipelineFailure>)

  /** The failure reason for a page the extractor could not complete. */
  function IncompleteReason(missing: seq<Field>): FailureReason {
    if FieldName(VariationsField) in FieldNames(missing) then NoVariationsDetected else MissingRequiredFields
  }

  /** The extractor hands back a product only with at least one variation. */
  predicate Usable(extracted: Extractor.ExtractResult) {
    extracted.product.Some? ==> extracted.product.value.variations != []
  }

  /** The loop body for one URL. */
  function Handle(url: string, visit: Visit, indexes: ImageIndexes): Outcome {
    if !visit.urlParses then Outcome(None, None, [], Some(PipelineFailure(url, ParseError, [INVALID_URL])))
    else if visit.scraped.None? then Outcome(None, None, [], Some(PipelineFailure(url, NetworkOrFetchError, [])))
    else HandleFetched(url, visit.scraped.value, visit.fault, indexes)
  }

  /**
   * The loop body once the page is fetched: save it, extract it, map it. When
   * the save throws, the pass appends nothing: the exception leaves the loop
   * (see `FirstSaveFailure`).
   */
  function HandleFetched(url: string, s: Scraped, fault: Fault, indexes: ImageIndexes): (o: Outcome)
    ensures o.artifact == if s.saveOk then Some(ArtifactFileName(s.pathname, s.finalUrl)) else None
    ensures !s.saveOk ==> o.parent.None? && o.children == [] && o.failure.None?
  {
    if !s.saveOk then Outcome(None, None, [], None)
    else
      Extractor.ExtractOutcome(url, s.page, s.scan);
      var o := Classify(url, Extractor.ExtractSpec(url, s.page, s.scan), fault, indexes);
      o.(artifact := Some(ArtifactFileName(s.pathname, s.finalUrl)))
  }

  /** Visiting `url` fetches the page and then saving it throws, which rejects the whole run. */
  predicate SaveFails(visit: Visit) {
    visit.urlParses && visit.scraped.Some? && !visit.scraped.value.saveOk
  }

  predicate NoSaveFailure(visits: seq<Visit>) {
    forall i :: 0 <= i < |visits| ==> !SaveFails(visits[i])
  }

  /** How many URLs the loop completes: up to the first whose save throws, or all of them. */
  function FirstSaveFailure(visits: seq<Visit>): (k: nat)
    ensures k <= |visits|
    ensures forall j :: 0 <= j < k ==> !SaveFails(visits[j])
    ensures k < |visits| ==> SaveFails(visits[k])
    decreases |visits|
  {
    if visits == [] then 0
    else if SaveFails(visits[0]) then 0
    else
      var k := FirstSaveFailure(visits[1..]);
      assert forall j :: 1 <= j < 1 + k ==> visits[j] == visits[1..][j - 1];
      1 + k
  }

  /** The loop body once the page is fetched and saved, given what the extractor made of it. */
  function Classify(url: string, extracted: Extractor.ExtractResult, fault: Fault, indexes: ImageIndexes): Outcome
    requires Usable(extracted)
  {
    if fault == ExtractionFault then Outcome(None, None, [], Some(PipelineFailure(url, ParseError, [])))
    else if extracted.product.None? then
      var missing := extracted.missingFields;
      Outcome(None, None, [], Some(PipelineFailure(url, IncompleteReason(missing), FieldNames(missing))))
    else if fault == ParentMappingFault then Outcome(None, None, [], Some(PipelineFailure(url, ParseError, [])))
    else
      var parent := Some(Mappers.MapParentRow(extracted.product.value));
      if fault == ChildMappingFault then Outcome(None, parent, [], Some(PipelineFailure(url, ParseError, [])))
      else Outcome(None, parent, Mappers.MapChildRows(extracted.product.value, indexes), None)
  }

  function Items<T>(o: Option<T>): seq<T> {
    if o.Some? then [o.value] else []
  }

  /** Appending what one pass produced to each array. */
  function Apply(c: Collected, o: Outcome): Collected {
    Collected(c.parents + Items(o.parent), c.children + o.children, c.failures + Items(o.failure), c.artifacts + Items(o.artifact))
  }

  /** The arrays after a sequence of passes, starting empty. */
  function Gather(os: seq<Outcome>): Collected {
    if os == [] then Collected([], [], [], [])
    else Apply(Gather(os[..|os| - 1]), os[|os| - 1])
  }

  /** The outcome of each input URL, in input order. */
  function Outcomes(urls: seq<string>, visits: seq<Visit>, indexes: ImageIndexes): (os: seq<Outcome>)
    requires |visits| == |urls|
    ensures |os| == |urls|
    decreases |urls|
  {
    if urls == [] then []
    else
      var n := |urls| - 1;
      Outcomes(urls[..n], visits[..n], indexes) + [Handle(urls[n], visits[n], indexes)]
  }

  /** The outcome of URL `i` is that of its own pass. */
  lemma {:induction false} OutcomeAt(urls: seq<string>, visits: seq<Visit>, indexes: ImageIndexes, i: nat)
    requires |visits| == |urls| && i < |urls|
    ensures Outcomes(urls, visits, indexes)[i] == Handle(urls[i], visits[i], indexes)
    decreases |urls|
  {
    var n := |urls| - 1;
    if i < n {
      OutcomeAt(urls[..n], visits[..n], indexes, i);
    }
  }

  /** What the loop of `runPipeline` collects over `urls`. */
  function Collect(urls: seq<string>, visits: seq<Visit>, indexes: ImageIndexes): Collected
    requires |visits| == |urls|
  {
    Gather(Outcomes(urls, visits, indexes))
  }

  function Summary(urls: seq<string>, c: Collected): PipelineSummary {
    PipelineSummary(|urls|, |c.parents|, |c.failures|, |c.parents|, |c.children|)
  }

  lemma GatherNext(os: seq<Outcome>, i: nat)
    requires i < |os|
    ensures Gather(os[..i + 1]) == Apply(Gather(os[..i]), os[i])
  {
    assert os[..i + 1][..i] == os[..i];
  }

  /** Before the loop stops, the URL at hand fails to save exactly when it is the first to. */
  lemma StopsAtSaveFailure(visits: seq<Visit>, i: nat)
    requires i <= FirstSaveFailure(visits) && i < |visits|
    ensures SaveFails(visits[i]) <==> i == FirstSaveFailure(visits)
  {
  }

  /** One more pass of the loop: what the first `i + 1` URLs collect. */
  lemma CollectNext(urls: seq<string>, visits: seq<Visit>, indexes: ImageIndexes, i: nat)
    requires |visits| == |urls| && i < |urls|
    ensures var os := Outcomes(urls, visits, indexes);
      Gather(os[..i + 1]) == Apply(Gather(os[..i]), Handle(urls[i], visits[i], indexes))
  {
    GatherNext(Outcomes(urls, visits, indexes), i);
    OutcomeAt(urls, visits, indexes, i);
  }

  lemma SlicePrefix<T>(s: seq<T>, end: nat, k: nat)
    requires k <= end <= |s|
    ensures s[..end][..k] == s[..k]
  {
  }

  lemma WholeSlice<T>(s: seq<T>)
    ensures s[..|s|] == s
  {
  }

  /** What the loop of `runPipeline` has collected when it ends: the passes over the URLs before the first save that throws. */
  function LoopCollects(urls: seq<string>, visits: seq<Visit>, indexes: ImageIndexes): Collected
    requires |visits| == |urls|
  {
    Gather(Outcomes(urls, visits, indexes)[..FirstSaveFailure(visits)])
  }

  /** The three files `runPipeline` writes once the loop is done, and the summary it returns. */
  datatype Report = Report(summary: PipelineSummary, parentsCsv: string, childrenCsv: string, failuresCsv: string)

  function Reported(urls: seq<string>, c: Collected): Report {
    Report(Summary(urls, c), Csv.WriteParentsCsv(c.parents), Csv.WriteChildrenCsv(c.children),
           Csv.WriteFailuresCsv(FailureRows(c.failures)))
  }

  /**
   * `runPipeline`: the input text and, for each URL it lists, what visiting
   * that URL gives. Returns the report (no report when a save throws: the
   * promise rejects and no file is written) and the pages saved before it returned.
   */
  method RunPipeline(inputText: string, visits: seq<Visit>, indexes: ImageIndexes)
    returns (report: Option<Report>, artifacts: seq<string>)
    requires |visits| == |ParseInputLines(inputText)|
    ensures var urls := ParseInputLines(inputText);
      var k := FirstSaveFailure(visits);
      && report == (if k == |urls| then Some(Reported(urls, Collect(urls, visits, indexes))) else None)
      && artifacts == LoopCollects(urls, visits, indexes).artifacts
  {
    var urls := ParseInputLines(inputText);
    var parentRows, childRows, failures, completed;
    parentRows, childRows, failures, artifacts, completed := VisitAll(urls, visits, indexes);
    if !completed {
      return None, artifacts;
    }
    WholeSlice(Outcomes(urls, visits, indexes));
    var summary := PipelineSummary(|urls|, |parentRows|, |failures|, |parentRows|, |childRows|);
    var parentsCsv := Csv.WriteParentsCsv(parentRows);
    var childrenCsv := Csv.WriteChildrenCsv(childRows);
    var failuresCsv := Csv.WriteFailuresCsv(FailureRows(failures));
    report := Some(Report(summary, parentsCsv, childrenCsv, failuresCsv));
  }

  /**
   * The loop of `runPipeline` over the URLs, in input order, up to the first
   * URL whose save throws; `completed` says whether it went through them all.
   */
  method VisitAll(urls: seq<string>, visits: seq<Visit>, indexes: ImageIndexes)
    returns (parentRows: seq<Row>, childRows: seq<Row>, failures: seq<PipelineFailure>, artifacts: seq<string>, completed: bool)
    requires |visits| == |urls|
    ensures var k := FirstSaveFailure(visits);
      && (completed <==> k == |urls|)
      && Collected(parentRows, childRows, failures, artifacts) == LoopCollects(urls, visits, indexes)
  {
    var os := Outcomes(urls, visits, indexes);
    ghost var k := FirstSaveFailure(visits);
    parentRows, childRows, failures, artifacts := [], [], [], [];
    for i := 0 to |urls|
      invariant i <= k
      invariant Collected(parentRows, childRows, failures, artifacts) == Gather(os[..i])
    {
      CollectNext(urls, visits, indexes, i);
      StopsAtSaveFailure(visits, i);
      var parentRows', childRows', failures', artifacts', saved :=
        VisitUrl(parentRows, childRows, failures, artifacts, urls[i], visits[i], indexes);
      if !saved {
        assert i == k;
        return parentRows, childRows, failures, artifacts, false;
      }
      parentRows, childRows, failures, artifacts := parentRows', childRows', failures', artifacts';
    }
    return parentRows, childRows, failures, artifacts, true;
  }

  /**
   * The body of the loop of `runPipeline`, for one URL: what it appends to
   * each array; `saved` is false when saving the page throws.
   */
  method VisitUrl(parentRows: seq<Row>, childRows: seq<Row>, failures: seq<PipelineFailure>, artifacts: seq<string>,
                  url: string, visit: Visit, indexes: ImageIndexes)
    returns (parentRows': seq<Row>, childRows': seq<Row>, failures': seq<PipelineFailure>, artifacts': seq<string>, saved: bool)
    ensures saved <==> !SaveFails(visit)
    ensures Collected(parentRows', childRows', failures', artifacts')
         == Apply(Collected(parentRows, childRows, failures, artifacts), Handle(url, visit, indexes))
  {
    parentRows', childRows', failures', artifacts', saved := parentRows, childRows, failures, artifacts, true;
    if !visit.urlParses {
      failures' := failures' + [PipelineFailure(url, ParseError, [INVALID_URL])];
      return;
    }
    if visit.scraped.None? {
      failures' := failures' + [PipelineFailure(url, NetworkOrFetchError, [])];
      return;
    }
    parentRows', childRows', failures', artifacts', saved :=
      VisitFetched(parentRows, childRows, failures, artifacts, url, visit.scraped.value, visit.fault, indexes);
  }

  /** The loop body from a fetched page on; `saved` is false when `saveArtifact` throws. */
  method VisitFetched(parentRows: seq<Row>, childRows: seq<Row>, failures: seq<PipelineFailure>, artifacts: seq<string>,
                      url: string, scraped: Scraped, fault: Fault, indexes: ImageIndexes)
    returns (parentRows': seq<Row>, childRows': seq<Row>, failures': seq<PipelineFailure>, artifacts': seq<string>, saved: bool)
    ensures saved <==> scraped.saveOk
    ensures !saved ==> parentRows' == parentRows && childRows' == childRows && failures' == failures && artifacts' == artifacts
    ensures Collected(parentRows', childRows', failures', artifacts')
         == Apply(Collected(parentRows, childRows, failures, artifacts), HandleFetched(url, scraped, fault, indexes))
  {
    saved := scraped.saveOk;
    if !saved {
      parentRows', childRows', failures', artifacts' := parentRows, childRows, failures, artifacts;
      assert parentRows + [] == parentRows && childRows + [] == childRows;
      assert failures + [] == failures && artifacts + [] == artifacts;
      return;
    }
    var art := ArtifactFileName(scraped.pathname, scraped.finalUrl);
    if fault == ExtractionFault {
      parentRows', childRows', failures', artifacts' := parentRows, childRows, failures + [PipelineFailure(url, ParseError, [])], artifacts + [art];
      assert parentRows + [] == parentRows && childRows + [] == childRows;
      ExtractionFaultOutcome(url, scraped, indexes);
      return;
    }
    parentRows', childRows', failures' := ExtractAndRecord(parentRows, childRows, failures, url, scraped, fault, indexes);
    artifacts' := artifacts + [art];
  }

  /** An extraction error records a parse failure and nothing else, once the page is saved. */
  lemma ExtractionFaultOutcome(url: string, scraped: Scraped, indexes: ImageIndexes)
    requires scraped.saveOk
    ensures HandleFetched(url, scraped, ExtractionFault, indexes)
         == Outcome(Some(ArtifactFileName(scraped.pathname, scraped.finalUrl)), None, [], Some(PipelineFailure(url, ParseError, [])))
  {
    Extractor.ExtractOutcome(url, scraped.page, scraped.scan);
  }

  /** Extraction and mapping of a saved page, when extraction does not throw. */
  method ExtractAndRecord(parentRows: seq<Row>, childRows: seq<Row>, failures: seq<PipelineFailure>,
                          url: string, scraped: Scraped, fault: Fault, indexes: ImageIndexes)
    returns (parentRows': seq<Row>, childRows': seq<Row>, failures': seq<PipelineFailure>)
    requires fault != ExtractionFault && scraped.saveOk
    ensures var o := HandleFetched(url, scraped, fault, indexes);
      && parentRows' == parentRows + Items(o.parent)
      && childRows' == childRows + o.children
      && failures' == failures + Items(o.failure)
  {
    var extracted := Extractor.ExtractParsedProduct(url, scraped.page, scraped.scan);
    Extractor.ExtractOutcome(url, scraped.page, scraped.scan);
    ghost var o := Classify(url, extracted, fault, indexes);
    assert HandleFetched(url, scraped, fault, indexes) == o.(artifact := Some(ArtifactFileName(scraped.pathname, scraped.finalUrl)));
    parentRows', childRows', failures' := Record(parentRows, childRows, failures, url, extracted, fault, indexes);
  }

  /**
   * The `try` block of the loop body after extraction: record the incomplete
   * page, or push the parent row and then the child rows.
   */
  method Record(parentRows: seq<Row>, childRows: seq<Row>, failures: seq<PipelineFailure>,
                url: string, extracted: Extractor.ExtractResult, fault: Fault, indexes: ImageIndexes)
    returns (parentRows': seq<Row>, childRows': seq<Row>, failures': seq<PipelineFailure>)
    requires fault != ExtractionFault && Usable(extracted)
    ensures var o := Classify(url, extracted, fault, indexes);
      && parentRows' == parentRows + Items(o.parent)
      && childRows' == childRows + o.children
      && failures' == failures + Items(o.failure)
  {
    parentRows', childRows', failures' := parentRows, childRows, failures;
    if extracted.product.None? {
      var reason := if FieldName(VariationsField) in FieldNames(extracted.missingFields)
        then NoVariationsDetected else MissingRequiredFields;
      failures' := failures' + [PipelineFailure(url, reason, FieldNames(extracted.missingFields))];
      return;
    }
    if fault == ParentMappingFault {
      failures' := failures' + [PipelineFailure(url, ParseError, [])];
      return;
    }
    parentRows' := parentRows' + [Mappers.MapParentRow(extracted.product.value)];
    if fault == ChildMappingFault {
      failures' := failures' + [PipelineFailure(url, ParseError, [])];
      return;
    }
    childRows' := childRows' + Mappers.MapChildRows(extracted.product.value, indexes);
  }

  /** `failures.map(failureToRow)` */
  function FailureRows(failures: seq<PipelineFailure>): (rows: seq<Row>)
    ensures |rows| == |failures| && forall i :: 0 <= i < |failures| ==> rows[i] == FailureToRow(failures[i])
  {
    seq(|failures|, i requires 0 <= i < |failures| => FailureToRow(failures[i]))
  }

  // ---------------------------------------------------------------------------
  // What a run collects

  /** Visiting `url` gets as far as pushing a parent row. */
  predicate Kept(url: string, visit: Visit) {
    && Saved(visit)
    && visit.fault != ExtractionFault && visit.fault != ParentMappingFault
    && Extractor.ExtractSpec(url, visit.scraped.value.page, visit.scraped.value.scan).product.Some?
  }

  /** Visiting `url` records a failure; a child-mapping fault records one after the parent row. */
  predicate Failed(url: string, visit: Visit) {
    !SaveFails(visit) && (!Kept(url, visit) || visit.fault == ChildMappingFault)
  }

  /** Visiting `url` fetches the page and saves it. */
  predicate Saved(visit: Visit) {
    visit.urlParses && visit.scraped.Some? && visit.scraped.value.saveOk
  }

  /** The child rows of one pass all name the SKU of the parent row of that pass. */
  predicate ChildrenOfParent(o: Outcome) {
    o.children != [] ==>
      o.parent.Some? && forall i :: 0 <= i < |o.children| ==> Cell(o.children[i], ParentSku) == Cell(o.parent.value, Sku)
  }

  /** What one pass over `url` contributes, in terms of the visit alone. */
  predicate Shaped(o: Outcome, url: string, visit: Visit) {
    && (o.parent.Some? <==> Kept(url, visit))
    && (o.failure.Some? <==> Failed(url, visit))
    && (o.artifact.Some? <==> Saved(visit))
    && (o.failure.Some? ==> o.failure.value.url == url)
    && ChildrenOfParent(o)
  }

  /** Every child row names, as its parent SKU, the SKU of some parent row. */
  predicate ChildrenHaveParents(c: Collected) {
    forall i :: 0 <= i < |c.children| ==>
      exists j :: 0 <= j < |c.parents| && Cell(c.children[i], ParentSku) == Cell(c.parents[j], Sku)
  }

  /** How many of the flags are set. */
  function CountTrue(flags: seq<bool>): nat
    decreases |flags|
  {
    if flags == [] then 0
    else
      var n := |flags| - 1;
      CountTrue(flags[..n]) + (if flags[n] then 1 else 0)
  }

  /** For each URL, whether its pass keeps a parent row. */
  function KeptFlags(urls: seq<string>, visits: seq<Visit>): (flags: seq<bool>)
    requires |visits| == |urls|
    ensures |flags| == |urls|
  {
    seq(|urls|, i requires 0 <= i < |urls| => Kept(urls[i], visits[i]))
  }

  /** For each URL, whether its pass records a failure. */
  function FailedFlags(urls: seq<string>, visits: seq<Visit>): (flags: seq<bool>)
    requires |visits| == |urls|
    ensures |flags| == |urls|
  {
    seq(|urls|, i requires 0 <= i < |urls| => Failed(urls[i], visits[i]))
  }

  /** For each URL, whether its page is fetched and saved. */
  function SavedFlags(visits: seq<Visit>): (flags: seq<bool>)
    ensures |flags| == |visits|
  {
    seq(|visits|, i requires 0 <= i < |visits| => Saved(visits[i]))
  }

  function CountKept(urls: seq<string>, visits: seq<Visit>): nat
    requires |visits| == |urls|
  {
    CountTrue(KeptFlags(urls, visits))
  }

  function CountFailed(urls: seq<string>, visits: seq<Visit>): nat
    requires |visits| == |urls|
  {
    CountTrue(FailedFlags(urls, visits))
  }

  function CountSaved(visits: seq<Visit>): nat {
    CountTrue(SavedFlags(visits))
  }

  /** After extraction, a pass pushes a parent row exactly when the page is complete and its mapping does not fault. */
  lemma ClassifyShape(url: string, e: Extractor.ExtractResult, fault: Fault, indexes: ImageIndexes)
    requires Usable(e)
    ensures var o := Classify(url, e, fault, indexes);
      var kept := fault != ExtractionFault && fault != ParentMappingFault && e.product.Some?;
      && o.artifact.None?
      && (o.parent.Some? <==> kept)
      && (o.failure.Some? <==> !kept || fault == ChildMappingFault)
      && (o.failure.Some? ==> o.failure.value.url == url)
      && ChildrenOfParent(o)
  {
    var o := Classify(url, e, fault, indexes);
    if fault != ExtractionFault && fault != ParentMappingFault && e.product.Some? && fault != ChildMappingFault {
      var p := e.product.value;
      assert Sku in PARENT_COLUMNS;
      assert o.parent.value == Mappers.MapParentRow(p) && o.children == Mappers.MapChildRows(p, indexes);
      assert Cell(o.parent.value, Sku) == p.parentSku;
    }
  }

  /** What one pass contributes, as a function of the visit: a parent row, a failure or both, and the saved page. */
  lemma HandleShape(url: string, visit: Visit, indexes: ImageIndexes)
    ensures Shaped(Handle(url, visit, indexes), url, visit)
  {
    if Saved(visit) {
      var s := visit.scraped.value;
      Extractor.ExtractOutcome(url, s.page, s.scan);
      ClassifyShape(url, Extractor.ExtractSpec(url, s.page, s.scan), visit.fault, indexes);
    }
  }

  /** The marker "invalid_url" is no field name, so it singles out the URLs that do not parse. */
  lemma InvalidUrlNotField(f: Field)
    ensures FieldName(f) != INVALID_URL
  {
    assert |INVALID_URL| == 11 && INVALID_URL[0] == 'i';
  }

  /**
   * After extraction, a failure never lists "invalid_url", and it says
   * `no_variations_detected` exactly when the page is incomplete and the
   * extractor reports the variations as missing.
   */
  lemma ClassifyReasons(url: string, e: Extractor.ExtractResult, fault: Fault, indexes: ImageIndexes)
    requires Usable(e)
    ensures var o := Classify(url, e, fault, indexes);
      && !(o.failure.Some? && INVALID_URL in o.failure.value.missingFields)
      && (o.failure.Some? && o.failure.value.reason == NoVariationsDetected
          <==> fault != ExtractionFault && e.product.None? && VariationsField in e.missingFields)
  {
    if fault != ExtractionFault && e.product.None? {
      FieldNameMember(e.missingFields, VariationsField);
      if INVALID_URL in FieldNames(e.missingFields) {
        var k :| 0 <= k < |FieldNames(e.missingFields)| && FieldNames(e.missingFields)[k] == INVALID_URL;
        InvalidUrlNotField(e.missingFields[k]);
      }
    }
  }

  /**
   * The failure of a pass lists "invalid_url" exactly when the URL does not
   * parse, and it says `no_variations_detected` exactly when the page was
   * fetched and extracted and no variation could be assembled from it.
   */
  lemma HandleReasons(url: string, visit: Visit, indexes: ImageIndexes)
    ensures var o := Handle(url, visit, indexes);
      && (o.failure.Some? && INVALID_URL in o.failure.value.missingFields <==> !visit.urlParses)
      && (o.failure.Some? && o.failure.value.reason == NoVariationsDetected
          <==> Saved(visit) && visit.fault != ExtractionFault
               && Extractor.VariationsOf(visit.scraped.value.page, visit.scraped.value.scan,
                                         Extractor.ParentSku(visit.scraped.value.page)) == [])
  {
    if Saved(visit) {
      var s := visit.scraped.value;
      Extractor.ExtractOutcome(url, s.page, s.scan);
      ClassifyReasons(url, Extractor.ExtractSpec(url, s.page, s.scan), visit.fault, indexes);
    }
  }

  lemma FieldNameMember(fs: seq<Field>, f: Field)
    ensures FieldName(f) in FieldNames(fs) <==> f in fs
  {
    if FieldName(f) in FieldNames(fs) {
      var i :| 0 <= i < |fs| && FieldNames(fs)[i] == FieldName(f);
      FieldNameInjective(fs[i], f);
    }
    if f in fs {
      var i :| 0 <= i < |fs| && fs[i] == f;
      assert FieldNames(fs)[i] == FieldName(f);
    }
  }

  /**
   * An incomplete page is reported as `no_variations_detected` exactly when no
   * variation could be assembled, and as `missing_required_fields` otherwise.
   */
  lemma IncompleteReasonSpec(url: string, page: Extractor.ProductPage, scan: Extractor.MarkupScan)
    requires Extractor.ExtractSpec(url, page, scan).product.None?
    ensures var missing := Extractor.ExtractSpec(url, page, scan).missingFields;
      && (IncompleteReason(missing) == NoVariationsDetected
          <==> Extractor.VariationsOf(page, scan, Extractor.ParentSku(page)) == [])
      && (IncompleteReason(missing) == MissingRequiredFields
          <==> Extractor.VariationsOf(page, scan, Extractor.ParentSku(page)) != [])
  {
    Extractor.ExtractOutcome(url, page, scan);
    FieldNameMember(Extractor.ExtractSpec(url, page, scan).missingFields, VariationsField);
  }

  /** Every outcome of a run is shaped by its own URL and visit. */
  lemma OutcomesShaped(urls: seq<string>, visits: seq<Visit>, indexes: ImageIndexes)
    requires |visits| == |urls|
    ensures var os := Outcomes(urls, visits, indexes);
      forall i :: 0 <= i < |urls| ==> Shaped(os[i], urls[i], visits[i])
  {
    var os := Outcomes(urls, visits, indexes);
    forall i | 0 <= i < |urls| ensures Shaped(os[i], urls[i], visits[i]) {
      OutcomeAt(urls, visits, indexes, i);
      HandleShape(urls[i], visits[i], indexes);
    }
  }

  /** Counting over a run: parent rows count the kept URLs, failures the failed ones, saved pages the saved ones. */
  lemma GatherCounts(os: seq<Outcome>, urls: seq<string>, visits: seq<Visit>)
    requires |os| == |urls| == |visits|
    requires forall i :: 0 <= i < |os| ==> Shaped(os[i], urls[i], visits[i])
    ensures var c := Gather(os);
      && |c.parents| == CountKept(urls, visits)
      && |c.failures| == CountFailed(urls, visits)
      && |c.artifacts| == CountSaved(visits)
  {
    var kept, failed, fetched := KeptFlags(urls, visits), FailedFlags(urls, visits), SavedFlags(visits);
    forall i | 0 <= i < |os|
      ensures (os[i].parent.Some? <==> kept[i]) && (os[i].failure.Some? <==> failed[i]) && (os[i].artifact.Some? <==> fetched[i])
    {
      assert Shaped(os[i], urls[i], visits[i]);
    }
    GatherTally(os, kept, failed, fetched);
  }

  /** The counting argument, for any flags that say which parts each pass produced. */
  lemma {:induction false} GatherTally(os: seq<Outcome>, kept: seq<bool>, failed: seq<bool>, fetched: seq<bool>)
    requires |os| == |kept| == |failed| == |fetched|
    requires forall i :: 0 <= i < |os| ==>
      (os[i].parent.Some? <==> kept[i]) && (os[i].failure.Some? <==> failed[i]) && (os[i].artifact.Some? <==> fetched[i])
    ensures var c := Gather(os);
      |c.parents| == CountTrue(kept) && |c.failures| == CountTrue(failed) && |c.artifacts| == CountTrue(fetched)
    decreases |os|
  {
    if os != [] {
      var n := |os| - 1;
      assert forall i :: 0 <= i < n ==>
        os[..n][i] == os[i] && kept[..n][i] == kept[i] && failed[..n][i] == failed[i] && fetched[..n][i] == fetched[i];
      GatherTally(os[..n], kept[..n], failed[..n], fetched[..n]);
    }
  }

  /** Every failure is reported under one of `urls`. */
  predicate FailuresUnder(c: Collected, urls: seq<string>) {
    forall i :: 0 <= i < |c.failures| ==> c.failures[i].url in urls
  }

  /** A failure is recorded only under the URL of its own pass. */
  lemma {:induction false} GatherFailureUrls(os: seq<Outcome>, urls: seq<string>)
    requires |os| == |urls|
    requires forall i :: 0 <= i < |os| ==> os[i].failure.Some? ==> os[i].failure.value.url == urls[i]
    ensures FailuresUnder(Gather(os), urls)
  {
    if os != [] {
      var n := |os| - 1;
      var prev := Gather(os[..n]);
      assert forall i :: 0 <= i < n ==> os[..n][i] == os[i] && urls[..n][i] == urls[i];
      GatherFailureUrls(os[..n], urls[..n]);
      var c := Gather(os);
      forall i | 0 <= i < |c.failures| ensures c.failures[i].url in urls {
        if i < |prev.failures| {
          assert c.failures[i] == prev.failures[i];
          assert prev.failures[i].url in urls[..n];
          var k :| 0 <= k < |urls[..n]| && urls[..n][k] == prev.failures[i].url;
          assert urls[k] == c.failures[i].url;
        } else {
          assert c.failures[i] == os[n].failure.value;
        }
      }
    }
  }

  /** If every pass attaches its child rows to its own parent row, the whole run keeps every child row attached. */
  lemma {:induction false} GatherChildren(os: seq<Outcome>)
    requires forall i :: 0 <= i < |os| ==> ChildrenOfParent(os[i])
    ensures ChildrenHaveParents(Gather(os))
  {
    if os != [] {
      var n := |os| - 1;
      var prev := Gather(os[..n]);
      var o := os[n];
      assert forall i :: 0 <= i < n ==> os[..n][i] == os[i];
      GatherChildren(os[..n]);
      var c := Gather(os);
      assert c.parents == prev.parents + Items(o.parent) && c.children == prev.children + o.children;
      forall i | 0 <= i < |c.children|
        ensures exists j :: 0 <= j < |c.parents| && Cell(c.children[i], ParentSku) == Cell(c.parents[j], Sku)
      {
        if i < |prev.children| {
          var j :| 0 <= j < |prev.parents| && Cell(prev.children[i], ParentSku) == Cell(prev.parents[j], Sku);
          assert c.children[i] == prev.children[i] && c.parents[j] == prev.parents[j];
        } else {
          var k := i - |prev.children|;
          assert ChildrenOfParent(o) && 0 <= k < |o.children|;
          assert c.children[i] == o.children[k];
          assert Cell(o.children[k], ParentSku) == Cell(o.parent.value, Sku);
          assert c.parents[|prev.parents|] == o.parent.value;
        }
      }
      assert forall i :: 0 <= i < |c.children| ==>
        exists j :: 0 <= j < |c.parents| && Cell(c.children[i], ParentSku) == Cell(c.parents[j], Sku);
      assert ChildrenHaveParents(c);
    }
  }

  /** The arrays only grow: what the first `k` passes collected heads what all of them collect. */
  lemma {:induction false} GatherGrows(os: seq<Outcome>, k: nat)
    requires k <= |os|
    ensures var before := Gather(os[..k]);
      var after := Gather(os);
      && before.parents <= after.parents && before.children <= after.children
      && before.failures <= after.failures && before.artifacts <= after.artifacts
    decreases |os|
  {
    if k < |os| {
      var n := |os| - 1;
      assert os[..n][..k] == os[..k];
      GatherGrows(os[..n], k);
    } else {
      assert os[..k] == os;
    }
  }

  /**
   * The run's accounting: parent rows count the kept URLs, failures the
   * failed ones and saved pages the saved ones; every failure is reported
   * under one of the input URLs, and every child row belongs to a parent row.
   */
  lemma CollectAccounts(urls: seq<string>, visits: seq<Visit>, indexes: ImageIndexes)
    requires |visits| == |urls|
    ensures var c := Collect(urls, visits, indexes);
      && |c.parents| == CountKept(urls, visits)
      && |c.failures| == CountFailed(urls, visits)
      && |c.artifacts| == CountSaved(visits)
      && FailuresUnder(c, urls)
      && ChildrenHaveParents(c)
  {
    var os := Outcomes(urls, visits, indexes);
    OutcomesShaped(urls, visits, indexes);
    GatherCounts(os, urls, visits);
    GatherFailureUrls(os, urls);
    GatherChildren(os);
  }

  /** Each URL is counted: as kept, as failed, or (after a child-mapping fault) as both. */
  lemma CountsCoverUrls(urls: seq<string>, visits: seq<Visit>)
    requires |visits| == |urls| && NoSaveFailure(visits)
    ensures |urls| <= CountKept(urls, visits) + CountFailed(urls, visits)
    ensures (forall i :: 0 <= i < |visits| ==> visits[i].fault != ChildMappingFault)
         ==> CountKept(urls, visits) + CountFailed(urls, visits) == |urls|
  {
    var kept, failed := KeptFlags(urls, visits), FailedFlags(urls, visits);
    forall i | 0 <= i < |urls|
      ensures kept[i] || failed[i]
      ensures visits[i].fault != ChildMappingFault ==> !(kept[i] && failed[i])
    {
      KeptOrFailed(urls[i], visits[i]);
    }
    CountEither(kept, failed);
  }

  /**
   * Each pass keeps a parent row or records a failure unless its save throws;
   * both only on a child-mapping fault.
   */
  lemma KeptOrFailed(url: string, visit: Visit)
    ensures Kept(url, visit) || Failed(url, visit) <==> !SaveFails(visit)
    ensures Kept(url, visit) && Failed(url, visit) ==> visit.fault == ChildMappingFault
  {
  }

  /** Two flag lists of which every place sets at least one count at least their length; exactly it when no place sets both. */
  lemma {:induction false} CountEither(a: seq<bool>, b: seq<bool>)
    requires |a| == |b|
    requires forall i :: 0 <= i < |a| ==> a[i] || b[i]
    ensures |a| <= CountTrue(a) + CountTrue(b)
    ensures (forall i :: 0 <= i < |a| ==> !(a[i] && b[i])) ==> CountTrue(a) + CountTrue(b) == |a|
    decreases |a|
  {
    if a != [] {
      var n := |a| - 1;
      assert forall i :: 0 <= i < n ==> a[..n][i] == a[i] && b[..n][i] == b[i];
      CountEither(a[..n], b[..n]);
    }
  }

  /**
   * The summary's counts, in a run that returns one (no save throws): as many
   * successes as parent rows, and when mapping never faults, every URL yields
   * exactly one parent row or one failure.
   */
  lemma SummaryAccounts(urls: seq<string>, visits: seq<Visit>, indexes: ImageIndexes)
    requires |visits| == |urls| && NoSaveFailure(visits)
    ensures var sum := Summary(urls, Collect(urls, visits, indexes));
      && sum.totalUrls == |urls| && sum.successCount == sum.parentRows
      && sum.totalUrls <= sum.successCount + sum.failedCount
      && ((forall i :: 0 <= i < |visits| ==> visits[i].fault != ChildMappingFault)
          ==> sum.successCount + sum.failedCount == sum.totalUrls)
  {
    CollectAccounts(urls, visits, indexes);
    CountsCoverUrls(urls, visits);
  }

  /**
   * A recorded failure never stops the loop, only a save that throws does:
   * what the first `k` URLs collect heads what the loop has collected when it ends.
   */
  lemma CollectGrows(urls: seq<string>, visits: seq<Visit>, indexes: ImageIndexes, k: nat)
    requires |visits| == |urls| && k <= FirstSaveFailure(visits)
    ensures var before := Gather(Outcomes(urls, visits, indexes)[..k]);
      var after := LoopCollects(urls, visits, indexes);
      && before.parents <= after.parents && before.children <= after.children
      && before.failures <= after.failures && before.artifacts <= after.artifacts
  {
    var os := Outcomes(urls, visits, indexes);
    var end := FirstSaveFailure(visits);
    assert end <= |os|;
    assert LoopCollects(urls, visits, indexes) == Gather(os[..end]);
    GatherGrowsWithin(os, end, k);
  }

  /** What the first `k` passes collect heads what the first `end` passes collect. */
  lemma GatherGrowsWithin(os: seq<Outcome>, end: nat, k: nat)
    requires k <= end <= |os|
    ensures var before := Gather(os[..k]);
      var after := Gather(os[..end]);
      && before.parents <= after.parents && before.children <= after.children
      && before.failures <= after.failures && before.artifacts <= after.artifacts
  {
    SlicePrefix(os, end, k);
    GatherGrows(os[..end], k);
  }
}

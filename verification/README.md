# Product-page scraper: a verified model

This project models the core of a product-page scraper written in TypeScript.
The scraper reads a list of product URLs and fetches each page. For each page it
extracts a parsed product: material, SKU, model name, descriptions, bullet
points, documents, widths, heights and one variation per finish. It maps each
product to one WooCommerce-style parent row, one child row per variation and an
HTML specifications block. The rows go into three CSV files: parents, children
and failures.

The model has one Dafny module per source file:

- `Text` holds the string primitives the code relies on: `trim`, `split`,
  `join`, ASCII case folding, de-duplication in first-seen order and
  `toString` of whole numbers.
- `Numbers` holds the dimension values. These are exact decimals with JavaScript's
  shortest decimal text and numeric order.
- `Types` and `Schema` hold the records and the three fixed column lists.
- `Extractor` (`extractor.ts`) models the page-to-product extraction. The page
  is given as the texts and attributes its selectors pick out (`ProductPage`)
  and the raw-markup matches its regular expressions find (`MarkupScan`).
- `Mappers` (`mappers.ts`) models the parent and child rows.
- `Specifications` (`templates/specifications.ts`) models the HTML template.
- `Csv` (`csv.ts`) models CSV writing and sorting. A CSV reader is defined next
  to it as its partner.
- `Pipeline` (`pipeline.ts`) models the batch run. What the outside world
  answers for each URL is a `Visit` input. A failure recorded for a URL never
  stops the run; a page whose save throws rejects it before any CSV is written.
- `LegacyExtract` (`src/extract.ts`) models the older one-row-per-page extractor.

Loops and in-place accumulation in the source are methods with loop invariants:
bullet collection, document records, dimension sets, finish de-duplication,
image maps, variations, the missing-field list and the pipeline loop. Each
method is proved equal to a specification function. The properties the code
promises are proved about those functions.

## Model

| member | source | states |
|---|---|---|
| Types.FieldNames | packages/scraper/src/extractor.ts:48-58 | the reported missing-field texts are the field names, one per field, in order |
| Types.FieldNameInjective | packages/scraper/src/extractor.ts:48-58 | two fields reported under the same text are the same field |
| Types.FieldNamesDistinct | packages/scraper/src/extractor.ts:69-72 | a list of distinct fields is reported as distinct texts |
| Schema.SchemaShape | packages/scraper/src/__tests__/schema.test.ts:6-16 | the parent schema has 22 columns, from `Type` to `vva_default_sku_template`; the child schema has 14, from `Type` to `vva_values_json` |
| Schema.SchemaDistinct | packages/scraper/src/csv.ts:16-23 | no schema names a column twice, so each header cell names one column |
| Schema.ColumnSet | packages/scraper/src/csv.ts:16-19 | the set of columns a schema writes holds exactly the columns listed |
| Schema.ColumnNamePlain | packages/scraper/src/csv.ts:17 | every header name is non-empty and needs no CSV quoting |
| Text.Trim | packages/scraper/src/extractor.ts:99-101 | `trim` returns a string with no surrounding whitespace, no longer than its input |
| Text.TrimParts | packages/scraper/src/extractor.ts:99-101 | the trimmed text is an infix of the input, with only whitespace cut on either side |
| Text.TrimOfTrimmed | packages/scraper/src/extractor.ts:99-101 | trimming a trimmed string changes nothing |
| Text.Lower | packages/scraper/src/mappers.ts:29-35 | lower-casing maps each character and keeps the length |
| Text.Split | packages/scraper/src/mappers.ts:58 | splitting on a character gives at least one piece and no piece contains that character |
| Text.SplitJoin | packages/scraper/src/mappers.ts:94 | splitting a join of separator-free pieces gives back the pieces |
| Text.SplitJoinSpaced | packages/scraper/src/mappers.ts:58 | splitting a `"; "`-joined list on `;` gives the head and then the trimmed items back |
| Text.NonEmpty | packages/scraper/src/mappers.ts:92-93 | `filter(Boolean)` keeps exactly the non-empty strings |
| Text.DedupSpec | packages/scraper/src/mappers.ts:55-57 | de-duplication through a `Set` yields distinct values, exactly those of the input |
| Text.DedupOfDistinct | packages/scraper/src/mappers.ts:55-57 | de-duplicating a list of distinct values changes nothing |
| Text.DedupByDistinct | packages/scraper/src/extractor.ts:303-307 | keeping only entries whose key is unseen yields pairwise distinct keys, none of them in the seen set |
| Text.DedupByKeys | packages/scraper/src/extractor.ts:318-322 | the kept entries come from the input, and their keys are the input's keys minus the seen ones |
| Text.NatToString | packages/scraper/src/mappers.ts:19-21 | `toString` of a whole number is a non-empty run of digits with no leading zero |
| Text.DigitsOfNat | packages/scraper/src/mappers.ts:19-21 | the decimal text of a whole number reads back as that number |
| Text.NatToStringInjective | packages/scraper/src/mappers.ts:19-21 | different numbers have different decimal texts |
| Numbers.ParseDecimalValue | packages/scraper/src/extractor.ts:178-179 | `Number` of a matched `digits[.digits]` text has the value the digits denote |
| Numbers.FracValueTrailingZeros | packages/scraper/src/extractor.ts:179 | trailing zeros after the point do not change the value |
| Numbers.LessIsNumeric | packages/scraper/src/extractor.ts:183 | the comparator `a - b` orders dimensions by numeric value |
| Numbers.LessTransitive | packages/scraper/src/extractor.ts:183 | the dimension order is transitive |
| Numbers.LessTotal | packages/scraper/src/extractor.ts:183 | any two different dimensions are ordered one way or the other |
| Numbers.Insert | packages/scraper/src/extractor.ts:179 | adding a value to a sorted set keeps it strictly ascending and adds exactly that value |
| Numbers.Ascending | packages/scraper/src/extractor.ts:183 | `[...set].sort((a, b) => a - b)` is strictly ascending and holds exactly the collected values |
| Numbers.AscendingUnique | packages/scraper/src/extractor.ts:183 | two strictly ascending lists with the same members are equal, so the result does not depend on insertion order |
| Numbers.AscendingEnds | packages/scraper/src/mappers.ts:65-68 | the first and last entries of a non-empty list are members of it |
| Numbers.ToString | packages/scraper/src/mappers.ts:123-124 | a dimension's text is never empty |
| Numbers.ToStringRoundTrip | packages/scraper/src/mappers.ts:123-124 | a dimension's text reads back as the same dimension |
| Extractor.FirstNonEmpty | packages/scraper/src/extractor.ts:15-22 | an `a \|\| b \|\| c` fallback chain is empty exactly when every candidate is empty |
| Extractor.NormalizeModelName | packages/scraper/src/extractor.ts:115-117 | the normalized model name holds no comma |
| Extractor.NormalizeDropsParenSuffix | packages/scraper/src/extractor.ts:115-117 | a name ending in a parenthesized suffix, with whitespace around it, normalizes to the name without the suffix |
| Extractor.RemoveCommasNoop | packages/scraper/src/extractor.ts:116 | a name without commas is unchanged by removing commas |
| Extractor.BulletPoints | packages/scraper/src/extractor.ts:119-129 | there are always exactly five bullet points |
| Extractor.TakeBulletPoints | packages/scraper/src/extractor.ts:119-129 | the loop yields the first five trimmed list items, padded with empty strings to five |
| Extractor.CollectDocuments | packages/scraper/src/extractor.ts:131-139 | every recorded title and link is non-empty |
| Extractor.DocsRecordLastWins | packages/scraper/src/extractor.ts:134-137 | a title's recorded link is from the last entry with that title and a non-empty link; a title is absent only when each of its entries has an empty link |
| Extractor.ExtractDocuments | packages/scraper/src/extractor.ts:131-147 | the five document links are the record's entries under their fixed titles, or empty |
| Extractor.ExtractDimensionFromSelects | packages/scraper/src/extractor.ts:163-184 | the values are strictly ascending and are exactly the numbers read from options of blocks whose label names the dimension |
| Extractor.ExtractDimensionFromScript | packages/scraper/src/extractor.ts:186-207 | the values are strictly ascending and are exactly the numbers in the captured comma-separated lists; an empty piece counts as 0, as `Number("")` does |
| Extractor.ExtractDimensionValues | packages/scraper/src/extractor.ts:149-161 | the select values when there are any, else the script values, strictly ascending |
| Extractor.KeepFinish | packages/scraper/src/extractor.ts:303-307 | one step of the `seen` loop keeps the output equal to the key-wise de-duplication of what was scanned |
| Extractor.ExtractFinishes | packages/scraper/src/extractor.ts:282-326 | the finish list equals the de-duplicated option finishes followed by the de-duplicated text-scan finishes |
| Extractor.BlockFinishesNonEmpty | packages/scraper/src/extractor.ts:296-301 | a kept option finish has a non-empty name and code and is not a "select" placeholder |
| Extractor.TokenFinishesNonEmpty | packages/scraper/src/extractor.ts:315-317 | a kept text-scan finish has a non-empty name and code |
| Extractor.FinishesSpec | packages/scraper/src/extractor.ts:282-326 | finishes have distinct keys and non-empty names and codes; they cover every key seen; option finishes come first and a scan finish is kept only if its key is new |
| Extractor.FinishKeyCollision | packages/scraper/src/extractor.ts:303 | two different finishes ("A\|B", "C") and ("A", "B\|C") share the key `name\|code`, so the second is dropped |
| Extractor.SkuMatchAt | packages/scraper/src/extractor.ts:356-360 | a matched SKU is a non-empty alphanumeric run, and a matched index is exactly two digits |
| Extractor.SkuMatchFrom | packages/scraper/src/extractor.ts:356 | a match found from a position starts at some position at or after it; when none is found, no position from there on matches |
| Extractor.SkuMatchFromLeftmost | packages/scraper/src/extractor.ts:356 | the match reported is the leftmost one: no position between the start and it matches |
| Extractor.AddImage | packages/scraper/src/extractor.ts:333-341 | adding an image keeps the map well formed: its key order lists each key once, and sub-image lists hold no duplicates |
| Extractor.CollectImageUrls | packages/scraper/src/extractor.ts:343-353 | the URL set holds the non-empty `src` values and then the scanned URLs, each once, in first-seen order |
| Extractor.BuildImageMap | packages/scraper/src/extractor.ts:355-362 | the loop over URLs builds the map defined by adding each matched URL in order |
| Extractor.ExtractSkuImages | packages/scraper/src/extractor.ts:328-365 | the SKU image map is well formed and is built from all page URLs in order |
| Extractor.ImageMapSpec | packages/scraper/src/extractor.ts:333-341 | a SKU's main image is its first unnumbered URL and its sub-images are its numbered URLs, de-duplicated in order; a SKU is absent only when no URL names it |
| Extractor.ImageOrderSpec | packages/scraper/src/extractor.ts:332 | the map's keys come in the order of their first matching URL |
| Extractor.FinishVariations | packages/scraper/src/extractor.ts:229-249 | there is one variation per finish |
| Extractor.FinishVariationsSpec | packages/scraper/src/extractor.ts:229-249 | variation i carries finish i's name and code; its child SKU is the parent SKU plus the code, or empty with no images when the code is empty; the package fields are the fixed ones |
| Extractor.BuildFinishVariations | packages/scraper/src/extractor.ts:229-249 | the loop builds exactly the per-finish variations |
| Extractor.FallbackVariationsSpec | packages/scraper/src/extractor.ts:256-273 | every fallback variation comes from an image-map SKU with its images; every SKU that strictly extends the parent SKU yields one |
| Extractor.BuildFallbackVariations | packages/scraper/src/extractor.ts:256-273 | the fallback loop builds exactly the variations of the image-map SKUs that extend the parent SKU, in map order |
| Extractor.ExtractVariations | packages/scraper/src/extractor.ts:209-276 | the variations are the per-finish ones when there are finishes, else the fallback ones |
| Extractor.LastTwo | packages/scraper/src/extractor.ts:261 | `slice(-2)` keeps the last two characters, or the whole of a shorter string |
| Extractor.CategoryTail | packages/scraper/src/extractor.ts:40-43 | the category tail is trimmed and no longer than the model name |
| Extractor.CategoryTailStrips | packages/scraper/src/extractor.ts:40-43 | for "EnduraCore Composite <tail> Shutters" with a trimmed, non-empty tail, the category tail is exactly that tail: the brand, the spaces after it and the "shutters" suffix are removed |
| Extractor.CategoryTailPlain | packages/scraper/src/extractor.ts:40-43 | a trimmed name without the brand prefix or the "shutters" suffix is its own category tail |
| Extractor.VariationMissingEmpty | packages/scraper/src/extractor.ts:60-67 | a variation adds no missing field exactly when it is complete |
| Extractor.VariationsMissingSpec | packages/scraper/src/extractor.ts:60-67 | a variation field is reported exactly when some variation lacks it |
| Extractor.BaseMissingSpec | packages/scraper/src/extractor.ts:48-53 | the product-level checks report distinct product fields, each exactly when its value is empty |
| Extractor.CollectMissing | packages/scraper/src/extractor.ts:48-72 | the checking code yields the specified missing-field list |
| Extractor.MissingOfSpec | packages/scraper/src/extractor.ts:48-72 | nothing is missing exactly when every product field is present and there are variations, all complete; no field is reported twice |
| Extractor.MissingOfNames | packages/scraper/src/extractor.ts:48-58 | each product field is reported exactly when it is empty; "variations" is reported exactly when there are none, and then it comes last |
| Extractor.MissingVariationFields | packages/scraper/src/extractor.ts:60-67 | every reported variation field is missing from some variation |
| Extractor.ExtractParsedProduct | packages/scraper/src/extractor.ts:9-97 | extraction returns the specified result for the page |
| Extractor.ExtractOutcome | packages/scraper/src/extractor.ts:9-97 | a product is returned exactly when nothing is missing, and then it is complete and carries the URL; otherwise the distinct missing fields are reported, each for the reason it names |
| Mappers.ImageId | packages/scraper/src/mappers.ts:14 | the image id is the SKU with "101" inserted before its last four characters |
| Mappers.ImageIdRoundTrip | packages/scraper/src/mappers.ts:14 | the SKU can be recovered from its image id |
| Mappers.PadIndex | packages/scraper/src/mappers.ts:19-21 | a padded index has at least two digits |
| Mappers.PadIndexValue | packages/scraper/src/mappers.ts:19-21 | zero-padding keeps the index's value |
| Mappers.ChildImageUrlInjective | packages/scraper/src/mappers.ts:13-22 | two image URLs of the same kind are equal only for the same SKU and index |
| Mappers.ChildImagesDisjoint | packages/scraper/src/mappers.ts:127-133 | numbered image URLs of different SKUs or indexes never coincide |
| Mappers.ChildImageUrlNoComma | packages/scraper/src/mappers.ts:13-22 | an image URL of a comma-free SKU holds no comma, so comma-joined lists split back |
| Mappers.KeywordPhrasesShape | packages/scraper/src/mappers.ts:37-57 | the keyword phrases are distinct, non-empty and trimmed; they are exactly the non-empty trimmed candidate phrases |
| Mappers.BrandLeads | packages/scraper/src/mappers.ts:28-39 | the first phrase is the trimmed brand, or "shutters" when the brand is blank |
| Mappers.FixedPhrasesKept | packages/scraper/src/mappers.ts:39-49 | all eleven fixed phrases always appear |
| Mappers.ConditionalPhrases | packages/scraper/src/mappers.ts:52-53 | "waterproof shutters" appears when the text mentions water, and otherwise only if it is the brand; likewise "urethane shutters" |
| Mappers.OptionalPhraseKept | packages/scraper/src/mappers.ts:52-57 | an optional phrase survives de-duplication exactly when it was pushed or is the brand |
| Mappers.KeywordsWithoutSemicolon | packages/scraper/src/mappers.ts:37-57 | no phrase contains `;` when neither material nor model name does |
| Mappers.SearchKeywordsRoundTrip | packages/scraper/src/mappers.ts:24-59 | splitting the keywords cell on `;` gives the sample SKU, then the phrases after trimming |
| Mappers.FinishNames | packages/scraper/src/mappers.ts:62 | the finish names are those of the variations, in order |
| Mappers.MapParentRow | packages/scraper/src/mappers.ts:61-120 | the parent row fills exactly the parent columns, each with its specified cell |
| Mappers.ParentDescription | packages/scraper/src/mappers.ts:70-89 | the description shows the escaped material and first child SKU, the overview, and the five document links |
| Mappers.ParentDescriptionRanges | packages/scraper/src/mappers.ts:65-89 | the width and height cells show the least and greatest value of each sorted list |
| Mappers.ParentImagesSpec | packages/scraper/src/mappers.ts:91-94 | the images cell splits into the generated main image, then the first variation's non-empty sub-images |
| Mappers.AttributeValuesSpec | packages/scraper/src/mappers.ts:62-105 | the attribute cell splits back into the finish names of the variations, given comma-free names |
| Mappers.ImageUrls | packages/scraper/src/mappers.ts:127-133 | there is one generated URL per image index, in order |
| Mappers.ImageListSpec | packages/scraper/src/mappers.ts:127-133 | a child image list splits into one URL per index, and distinct indexes give distinct URLs |
| Mappers.ImageUrlsDistinct | packages/scraper/src/mappers.ts:131-133 | distinct indexes give distinct image URLs |
| Mappers.MapChildRow | packages/scraper/src/mappers.ts:135-153 | a child row fills exactly the child columns |
| Mappers.ChildRowKeys | packages/scraper/src/mappers.ts:137-144 | a child row carries the parent SKU, its own SKU and its finish name |
| Mappers.MapChildRows | packages/scraper/src/mappers.ts:122-155 | there is one child row per variation, in order, each keyed by the parent SKU, its SKU and its finish |
| Mappers.MapChildRowsEach | packages/scraper/src/mappers.ts:122-155 | row `i` is the child row of variation `i`, with every cell as the child-row mapping gives it |
| Mappers.DimListJsonSafe | packages/scraper/src/mappers.ts:149-152 | the width and height lists need no JSON escaping |
| Mappers.DimListRoundTrip | packages/scraper/src/mappers.ts:123-124 | a comma-joined dimension list splits back into the same dimensions |
| Specifications.EscAppend | packages/scraper/src/templates/specifications.ts:22-29 | escaping distributes over concatenation |
| Specifications.EscIsPerChar | packages/scraper/src/templates/specifications.ts:22-29 | the chained replacements escape each character on its own, with `&` first so no entity is escaped twice |
| Specifications.EscNoMarkup | packages/scraper/src/templates/specifications.ts:22-29 | escaped text holds no `<`, `>`, `"` or `'` |
| Specifications.EscIdentity | packages/scraper/src/templates/specifications.ts:22-29 | text without markup characters is unchanged |
| Specifications.UnescapeEsc | packages/scraper/src/templates/specifications.ts:22-29 | decoding the five entities undoes escaping |
| Specifications.ParseFeatureItems | packages/scraper/src/templates/specifications.ts:32-40 | the feature list reads back, item by item, as the key features |
| Specifications.Pieces | packages/scraper/src/templates/specifications.ts:36-92 | the template is 55 pieces |
| Specifications.SpecificationsLayout | packages/scraper/src/templates/specifications.ts:36-92 | the block is the overview, features, specifications, details and documents sections in that order, each opening with its heading |
| Specifications.SpecificationsOverview | packages/scraper/src/templates/specifications.ts:38 | the overview HTML appears unescaped inside its `div` |
| Specifications.SpecificationsDetails | packages/scraper/src/templates/specifications.ts:52-72 | the details table shows the escaped material and SKU and the width and height ranges |
| Specifications.SpecificationsLinks | packages/scraper/src/templates/specifications.ts:73-91 | the documents table links each of the five documents under its label |
| Specifications.LinkAttributeRoundTrip | packages/scraper/src/templates/specifications.ts:77-89 | the `href` attribute of a link cell reads back as the unescaped link |
| Csv.DoubleQuotes | packages/scraper/src/csv.ts:11 | doubling quotes never shortens a value |
| Csv.ReadFieldRoundTrip | packages/scraper/src/csv.ts:4-14 | a written field, followed by a separator, line end or end of text, reads back as the value |
| Csv.CsvFieldPlain | packages/scraper/src/csv.ts:4-14 | a value without comma, quote, line feed or carriage return is written as is |
| Csv.Cells | packages/scraper/src/csv.ts:19 | a record holds the row's cell for each column, `""` when absent |
| Csv.Names | packages/scraper/src/csv.ts:17 | the header holds each column's name |
| Csv.ReadRecordRoundTrip | packages/scraper/src/csv.ts:19 | a written line reads back as its fields |
| Csv.TerminatedLayout | packages/scraper/src/csv.ts:22 | the `body ? … : …` layout is every line, header first, each ending in a line feed |
| Csv.ToCsvLayout | packages/scraper/src/csv.ts:16-23 | the file is the header line and one line per row, each terminated |
| Csv.ToCsvRoundTrip | packages/scraper/src/csv.ts:16-23 | reading the file back gives the header names and then every row's cells |
| Csv.CompareZero | packages/scraper/src/csv.ts:26 | the string comparison says equal only for equal strings |
| Csv.CompareAntisymmetric | packages/scraper/src/csv.ts:26 | swapping the operands negates the comparison |
| Csv.CompareTransitive | packages/scraper/src/csv.ts:26 | the string comparison is transitive |
| Csv.RowCompareZero | packages/scraper/src/csv.ts:31-34 | two rows compare equal exactly when their key cells are equal |
| Csv.RowCompareTransitive | packages/scraper/src/csv.ts:31-34 | the row comparator is transitive, so it is a valid sort order |
| Csv.ChildOrder | packages/scraper/src/csv.ts:31-34 | child rows order by parent SKU, and by SKU only when the parent SKUs are equal |
| Csv.InsertPermutes | packages/scraper/src/csv.ts:26 | insertion adds exactly one row |
| Csv.SortRowsPermutes | packages/scraper/src/csv.ts:26 | sorting keeps exactly the rows |
| Csv.SortRowsSorted | packages/scraper/src/csv.ts:26 | sorting orders the rows by the comparator |
| Csv.SortRowsStable | packages/scraper/src/csv.ts:26 | rows with equal keys keep their input order |
| Csv.SortRowsSpec | packages/scraper/src/csv.ts:25-41 | the sorted rows are ordered, a permutation of the input, and stable |
| Csv.WriteParentsCsv | packages/scraper/src/csv.ts:25-28 | the parents file reads back as the parent header and the rows sorted by SKU |
| Csv.WriteChildrenCsv | packages/scraper/src/csv.ts:30-36 | the children file reads back as the child header and the rows sorted by parent SKU, then SKU |
| Csv.WriteFailuresCsv | packages/scraper/src/csv.ts:38-41 | the failures file reads back as the failure header and the rows sorted by URL |
| Pipeline.CollapseRuns | packages/scraper/src/pipeline.ts:23 | collapsing runs never lengthens the name and keeps a leading letter or digit |
| Pipeline.SanitizeSpec | packages/scraper/src/pipeline.ts:22-24 | a sanitized name is lower-case letters, digits and single inner dashes, and keeps every letter and digit of the input, in order |
| Pipeline.SanitizeSafe | packages/scraper/src/pipeline.ts:22-24 | a name that is already safe is unchanged |
| Pipeline.SanitizeIdempotent | packages/scraper/src/pipeline.ts:22-24 | sanitizing twice is sanitizing once |
| Pipeline.ArtifactFileName | packages/scraper/src/pipeline.ts:41-45 | a saved page's file name ends in ".html" and has a stem |
| Pipeline.ArtifactFileNameSafe | packages/scraper/src/pipeline.ts:42-43 | the stem of a saved page's name is non-empty and safe |
| Pipeline.CleanLine | packages/scraper/src/pipeline.ts:28-29 | an input line comes out trimmed |
| Pipeline.CleanLineIsTrim | packages/scraper/src/pipeline.ts:28-29 | dropping the carriage return of `\r?\n` makes no difference once the line is trimmed |
| Pipeline.ParseInputLinesShape | packages/scraper/src/pipeline.ts:26-31 | every listed URL is non-empty, trimmed, not a `#` comment and on one line |
| Pipeline.ParseInputLinesRoundTrip | packages/scraper/src/pipeline.ts:26-31 | URLs written one per line read back as themselves |
| Pipeline.ParseInputLinesCRLF | packages/scraper/src/pipeline.ts:28 | Windows line endings give the same URLs as Unix ones |
| Pipeline.FailureToRow | packages/scraper/src/pipeline.ts:33-39 | a failure row fills exactly the failure columns |
| Pipeline.ReasonTextInjective | packages/scraper/src/types.ts:56-60 | the four reasons are written under distinct texts |
| Pipeline.FailureRowRoundTrip | packages/scraper/src/pipeline.ts:33-39 | a failure row gives back its URL, its reason and its `\|`-joined missing fields |
| Pipeline.FieldNamesSeparable | packages/scraper/src/pipeline.ts:33-39 | no reported field name, and not "invalid_url", contains the `\|` separator |
| Pipeline.HandleFetched | packages/scraper/src/pipeline.ts:86-110 | a fetched page whose save succeeds is saved under its artifact name; when `saveArtifact` throws, the pass saves and appends nothing |
| Pipeline.Outcomes | packages/scraper/src/pipeline.ts:62 | there is one outcome per URL |
| Pipeline.OutcomeAt | packages/scraper/src/pipeline.ts:62-111 | the outcome of URL `i` is that of its own pass |
| Pipeline.RunPipeline | packages/scraper/src/pipeline.ts:47-127 | when no save throws, the summary and the three files are those of the outcomes of all input URLs, in order; when one does, the run returns no summary and writes no file, and the pages saved are those of the URLs before it |
| Pipeline.VisitAll | packages/scraper/src/pipeline.ts:62-111 | the loop collects each URL's outcome in input order, and stops at the first URL whose save throws, having collected exactly the URLs before it; it completes exactly when no save throws |
| Pipeline.FirstSaveFailure | packages/scraper/src/pipeline.ts:86 | the loop gets through the URLs before the first whose save throws, and no earlier URL's save throws |
| Pipeline.StopsAtSaveFailure | packages/scraper/src/pipeline.ts:86 | before the loop stops, the URL at hand fails to save exactly when it is the first to |
| Pipeline.VisitUrl | packages/scraper/src/pipeline.ts:63-86 | a URL that does not parse, or whose fetch throws, records its failure; otherwise the fetched page is handled; the pass reports a throwing save |
| Pipeline.VisitFetched | packages/scraper/src/pipeline.ts:86-110 | a fetched page is saved and then extracted and mapped, or recorded as a parse error; when the save throws, nothing is appended and the pass reports it |
| Pipeline.ExtractionFaultOutcome | packages/scraper/src/pipeline.ts:104-110 | an extraction error records a parse failure and nothing else |
| Pipeline.ExtractAndRecord | packages/scraper/src/pipeline.ts:88-103 | a page that extracts without error is recorded by what extraction returned |
| Pipeline.Record | packages/scraper/src/pipeline.ts:91-110 | an incomplete page records its reason and missing fields; a complete one pushes its parent row and then its child rows, or a parse error where mapping throws |
| Pipeline.FailureRows | packages/scraper/src/pipeline.ts:117 | there is one failure row per failure, in order |
| Pipeline.ClassifyShape | packages/scraper/src/pipeline.ts:88-110 | after extraction, a parent row is pushed exactly when the page is complete and mapping does not throw; its child rows all name its SKU |
| Pipeline.HandleShape | packages/scraper/src/pipeline.ts:62-111 | what each pass produces follows from its visit alone |
| Pipeline.ClassifyReasons | packages/scraper/src/pipeline.ts:91-98 | after extraction, no failure lists "invalid_url"; "no_variations_detected" is given exactly when the page is incomplete and its variations are missing |
| Pipeline.HandleReasons | packages/scraper/src/pipeline.ts:62-111 | "invalid_url" is listed exactly when the URL does not parse; "no_variations_detected" is given exactly when a fetched page yields no variation |
| Pipeline.IncompleteReasonSpec | packages/scraper/src/pipeline.ts:94-96 | an incomplete page is "no_variations_detected" exactly when no variation could be built, and "missing_required_fields" otherwise |
| Pipeline.OutcomesShaped | packages/scraper/src/pipeline.ts:62-111 | every outcome is shaped by its own URL and visit |
| Pipeline.GatherCounts | packages/scraper/src/pipeline.ts:102-103 | the collected arrays count the kept URLs, the failed URLs and the saved pages |
| Pipeline.GatherFailureUrls | packages/scraper/src/pipeline.ts:66-109 | every failure is reported under the URL of its own pass |
| Pipeline.GatherChildren | packages/scraper/src/pipeline.ts:102-103 | every child row names the SKU of some parent row |
| Pipeline.GatherGrows | packages/scraper/src/pipeline.ts:62-111 | the arrays only grow from pass to pass |
| Pipeline.CollectAccounts | packages/scraper/src/pipeline.ts:58-111 | the run's parent rows, failures and saved pages count the kept, failed and saved URLs; failures are under input URLs; child rows have parents |
| Pipeline.CountsCoverUrls | packages/scraper/src/pipeline.ts:62-111 | in a run where no save throws, every URL is counted as kept or failed, and as both only after a child-mapping error |
| Pipeline.KeptOrFailed | packages/scraper/src/pipeline.ts:62-111 | each pass keeps a parent row or records a failure exactly when its save does not throw, and both only when mapping the child rows throws |
| Pipeline.SummaryAccounts | packages/scraper/src/pipeline.ts:120-126 | in a run that returns a summary (no save throws), the summary counts every URL; successes equal parent rows; with no child-mapping error, successes and failures add up to the URL count |
| Pipeline.CollectGrows | packages/scraper/src/pipeline.ts:62-111 | a recorded failure never stops the loop: what the first URLs collect heads what the loop has collected when it ends |
| LegacyExtract.EscapeRegExp | src/extract.ts:113-115 | escaping never shortens the text |
| LegacyExtract.EscapeRegExpLiteral | src/extract.ts:113-115 | a pattern matches exactly the literal text iff it is the escaped text, so a material is matched literally |
| LegacyExtract.StripMaterial | src/extract.ts:38-40 | stripping the material leaves a suffix of the name |
| LegacyExtract.StripMaterialSpec | src/extract.ts:38-40 | a name that starts with the material (in any case) and then whitespace loses exactly that prefix |
| LegacyExtract.SplitSpaces | src/extract.ts:41 | `split(/\s+/)` gives at least one word |
| LegacyExtract.SplitTrimmedWords | src/extract.ts:41 | a trimmed, non-empty text splits into non-empty words without whitespace |
| LegacyExtract.SplitJoinWords | src/extract.ts:41 | space-joined words split back into the words |
| LegacyExtract.ItemTypeAndStyle | src/extract.ts:42-46 | with two or more words the item type is the first and last word and the style is every word after the first; with one word both are that word |
| LegacyExtract.ProductNameColumns | src/extract.ts:29-46 | the row's item type and style are built from the words of the name without the material |
| LegacyExtract.FirstFive | src/extract.ts:48-51 | at most five bullets are kept |
| LegacyExtract.CollectBullets | src/extract.ts:48-51 | the loop keeps the first five trimmed items |
| LegacyExtract.BulletSlotsPadded | src/extract.ts:75-79 | the five bullet columns equal the newer extractor's padded bullet points |
| LegacyExtract.ProductBullets | src/extract.ts:48-80 | bullet columns 1-5 hold the padded bullet points, and the keywords column is "N/A" |
| LegacyExtract.FinishTokenOffered | src/extract.ts:59-62 | an option yields a `name:code` token exactly when it is shown and has a name and a code |
| LegacyExtract.CollectFinishes | src/extract.ts:56-63 | the loop collects the specified tokens |
| LegacyExtract.FinishTokensSpec | src/extract.ts:56-63 | every token lists an offered option, and every offered option is listed |
| LegacyExtract.ParseInchesOf | src/extract.ts:97-98 | a text `<digits> inches` parses as the digits' value |
| LegacyExtract.ParseInchesMatched | src/extract.ts:97-98 | a text parses only when it has the `<digits> inches` form |
| LegacyExtract.ExtractWholeNumbers | src/extract.ts:94-101 | the numbers are strictly ascending and are exactly the values of the matching option texts |
| LegacyExtract.ExtractProduct | src/extract.ts:28-92 | extraction returns the specified row |
| LegacyExtract.ProductNames | src/extract.ts:29-36 | the model name holds no comma, and it and the material are trimmed |
| LegacyExtract.QuoteFieldReadsBack | src/extract.ts:121-126 | a field written by the older writer reads back as its value |
| LegacyExtract.QuoteFieldVersusCsv | src/extract.ts:121-126 | the older writer agrees with the newer one except on a value with a carriage return and no comma, quote or line feed: only the newer one quotes that value |
| LegacyExtract.RowValues | src/extract.ts:117-118 | a row has twenty values, in header order |
| LegacyExtract.RowToCsvReadsBack | src/extract.ts:117-119 | a row's line has twenty fields and reads back as the row's values |

## Left out

- Fetching, the file system, `mkdir`, `Bun.write` and browser rendering are not modelled. What each URL's visit returns is an input: whether `new URL` accepts it, what `scrape` returned, and where an exception was thrown, including whether `saveArtifact` throws (`Scraped.saveOk`). Which of `new URL` and `Bun.write` threw inside `saveArtifact`, and a partly written file, are not modelled.
- A throwing `mkdir`, input read or CSV write (pipeline.ts:52-55, pipeline.ts:113-118) is not modelled; only a throwing `saveArtifact` rejects the modelled run.
- Pipeline.SummaryAccounts: stated for runs in which no save throws, because only those return a summary (`Pipeline.RunPipeline`).
- Pipeline.CountsCoverUrls: stated for runs in which no save throws; a URL whose save throws is neither kept nor failed.
- `src/scraper.ts` and `csv-schema.ts` are not part of this model. The three column lists are constants with the documented columns. The two image index lists are a parameter (`ImageIndexes`).
- The HTML document and cheerio's selectors are not modelled. A page is given as the texts, attributes and option lists the selectors return (`ProductPage`, `LegacyPage`), plus the matches the raw-markup regular expressions find (`MarkupScan`). The URL pattern of `extractSkuImages` (extractor.ts:356) and the `inches` pattern of `src/extract.ts` are modelled by hand-written matchers. The other regular expressions are given through their matches.
- The regular-expression engine is not modelled. The material prefix of `src/extract.ts:39` is matched literally. `LegacyExtract.EscapeRegExpLiteral` proves that escaping makes the pattern literal.
- `localeCompare` is modelled as code-point order. Locale collation rules are not modelled.
- Strings are sequences of Unicode code points, not of UTF-16 code units. Lengths, indexes and slices therefore differ from JavaScript's for characters outside the Basic Multilingual Plane, and such characters sort after U+FFFF rather than among the surrogates. This affects `Mappers.ImageId` (mappers.ts:14), `Extractor.LastTwo` (extractor.ts:261), the length tests of the fallback variations (extractor.ts:256-273) and `Csv.Compare`.
- Numbers are exact decimals. Floating-point rounding, exponent notation, `Infinity` and `NaN` are not modelled beyond "not a number, skipped". `productWidth`, `productDepth` and `productHeight` are plain values.
- Case folding is ASCII only: `toLowerCase`, `toUpperCase` and the `/i` flag.
- `JSON.stringify` is modelled for the two fixed shapes it is applied to. `Mappers.DimListJsonSafe` shows that their strings need no escaping.
- Extractor.FallbackVariationsSpec: states which image-map SKUs yield a variation, not their order. The order is fixed by `Extractor.BuildFallbackVariations`, which follows the map's key order (`Extractor.ImageOrderSpec`).
- The finish de-duplication key `name|code` can merge two different finishes (`Extractor.FinishKeyCollision`). The model keeps this behaviour because the code has it.
- The child-row test in `packages/scraper/src/__tests__/mappers.test.ts:64` expects a `CUSTOM-<sku>-22.jpg` image. The code in `mappers.ts:13-22` builds the id with `101` inserted instead. The model follows the code (`Mappers.ImageId`).

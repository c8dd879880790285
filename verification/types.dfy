/**
 * The records the scraper passes between its stages: the parsed product with
 * its documents and variations, flat string-keyed rows, and the closed set of
 * failure reasons the pipeline records.
 */
module Types {
  import opened Text
  import opened Numbers

  datatype ParsedDocuments = ParsedDocuments(
    installationGuide: string,
    lineDrawing: string,
    measurementGuide: string,
    warranty: string,
    productSalesSheet: string)

  datatype ParsedVariation = ParsedVariation(
    finishName: string,
    finishCode: string,
    childSku: string,
    mainImage: string,
    subImages: seq<string>,
    packageWeight: string,
    packageWeightUnit: string,
    itemsPerInnerPack: string,
    numberOfBoxes: string)

  datatype ProductDimensions = ProductDimensions(productWidth: Dim, productDepth: Dim, productHeight: Dim)

  datatype ParsedProduct = ParsedProduct(
    url: string,
    parentSku: string,
    modelName: string,
    material: string,
    shortDescription: string,
    longDescription: string,
    bulletPoints: seq<string>,
    searchKeywords: string,
    docs: ParsedDocuments,
    widths: seq<Dim>,
    heights: seq<Dim>,
    dimensions: ProductDimensions,
    categoryTail: string,
    variations: seq<ParsedVariation>)

  /** The required fields the extractor checks, in the order it checks them. */
  datatype Field =
    | ParentSkuField | ModelNameField | MaterialField | WidthsField | HeightsField | VariationsField
    | FinishNameField | ChildSkuField | PackageWeightField | PackageWeightUnitField
    | ItemsPerInnerPackField | NumberOfBoxesField

  /** The name a missing field is reported under. */
  function FieldName(f: Field): string {
    match f
    case ParentSkuField => "parentSku"
    case ModelNameField => "modelName"
    case MaterialField => "material"
    case WidthsField => "widths"
    case HeightsField => "heights"
    case VariationsField => "variations"
    case FinishNameField => "finishName"
    case ChildSkuField => "childSku"
    case PackageWeightField => "packageWeight"
    case PackageWeightUnitField => "packageWeightUnit"
    case ItemsPerInnerPackField => "itemsPerInnerPack"
    case NumberOfBoxesField => "numberOfBoxes"
  }

  /** Distinct fields are reported under distinct names (their lengths or first letters differ). */
  lemma FieldNameInjective(a: Field, b: Field)
    ensures FieldName(a) == FieldName(b) ==> a == b
  {
    if FieldName(a) == FieldName(b) {
      assert |FieldName(a)| == |FieldName(b)| && FieldName(a)[0] == FieldName(b)[0];
    }
  }

  function FieldNames(fs: seq<Field>): (r: seq<string>)
    ensures |r| == |fs| && forall i :: 0 <= i < |fs| ==> r[i] == FieldName(fs[i])
  {
    seq(|fs|, i requires 0 <= i < |fs| => FieldName(fs[i]))
  }

  /** Reporting a list of distinct fields names each one once. */
  lemma FieldNamesDistinct(fs: seq<Field>)
    requires Distinct(fs)
    ensures Distinct(FieldNames(fs))
  {
    var r := FieldNames(fs);
    forall i, j | 0 <= i < j < |r| ensures r[i] != r[j] {
      FieldNameInjective(fs[i], fs[j]);
    }
  }

  datatype FailureReason =
    | MissingRequiredFields
    | NoVariationsDetected
    | ParseError
    | NetworkOrFetchError

  /** The string literal each reason is written as. */
  function ReasonText(r: FailureReason): string {
    match r
    case MissingRequiredFields => "missing_required_fields"
    case NoVariationsDetected => "no_variations_detected"
    case ParseError => "parse_error"
    case NetworkOrFetchError => "network_or_fetch_error"
  }

  datatype PipelineFailure = PipelineFailure(url: string, reason: FailureReason, missingFields: seq<string>)

  /** `record[key] ?? ""` */
  function Cell<K(==)>(record: map<K, string>, key: K): string {
    if key in record then record[key] else ""
  }
}

/**
 * The fixed column schemas of the three output files. The module that
 * declares them in the repository (`csv-schema.ts`) is not part of this model;
 * the lists below are the documented output columns, in order. A column is a
 * value of one closed enumeration, written in the header under its name, and a
 * row (`Record<Column, string>`) is a map from columns to cell text.
 */
module Schema {
  import opened Text

  datatype Column =
    | Type | Sku | Name | Description | ShortDescription | Categories | Images
    | AttributeName | AttributeValues
    | BulletPoint1 | BulletPoint2 | BulletPoint3 | BulletPoint4 | BulletPoint5
    | SearchKeywords | InstallationGuidePdf | LineDrawingPdf | MeasurementGuidePdf | WarrantyPdf
    | VvaAttributesJson | VvaDefaultFormula | VvaDefaultSkuTemplate
    | ParentSku | RegularPrice | GalleryImages
    | PackageWeight | PackageWeightUnit | ItemsPerInnerPack | NumberOfBoxes | VvaValuesJson
    | Url | Reason | MissingFields

  /** The header text of a column. */
  function ColumnName(c: Column): string {
    match c
    case Type => "Type"
    case Sku => "SKU"
    case Name => "Name"
    case Description => "Description"
    case ShortDescription => "Short description"
    case Categories => "Categories"
    case Images => "Images"
    case AttributeName => "Attribute 1 name"
    case AttributeValues => "Attribute 1 value(s)"
    case BulletPoint1 => "Bullet Point 1"
    case BulletPoint2 => "Bullet Point 2"
    case BulletPoint3 => "Bullet Point 3"
    case BulletPoint4 => "Bullet Point 4"
    case BulletPoint5 => "Bullet Point 5"
    case SearchKeywords => "Search Keywords"
    case InstallationGuidePdf => "Installation Guide/Manual PDF"
    case LineDrawingPdf => "Line Drawing PDF"
    case MeasurementGuidePdf => "Measurement Guide PDF"
    case WarrantyPdf => "Warranty PDF"
    case VvaAttributesJson => "vva_attributes_json"
    case VvaDefaultFormula => "vva_default_formula"
    case VvaDefaultSkuTemplate => "vva_default_sku_template"
    case ParentSku => "Parent SKU"
    case RegularPrice => "Regular price"
    case GalleryImages => "Woo Variation Gallery Images"
    case PackageWeight => "Package Weight"
    case PackageWeightUnit => "Package Weight Unit"
    case ItemsPerInnerPack => "Items per Inner Pack"
    case NumberOfBoxes => "Number of Boxes"
    case VvaValuesJson => "vva_values_json"
    case Url => "URL"
    case Reason => "Reason"
    case MissingFields => "Missing Fields"
  }

  const PARENT_COLUMNS: seq<Column> := [
    Type, Sku, Name, Description, ShortDescription, Categories, Images,
    AttributeName, AttributeValues,
    BulletPoint1, BulletPoint2, BulletPoint3, BulletPoint4, BulletPoint5,
    SearchKeywords, InstallationGuidePdf, LineDrawingPdf, MeasurementGuidePdf, WarrantyPdf,
    VvaAttributesJson, VvaDefaultFormula, VvaDefaultSkuTemplate
  ]

  const CHILD_COLUMNS: seq<Column> := [
    Type, ParentSku, Sku, Name, RegularPrice, Images, GalleryImages,
    AttributeName, AttributeValues,
    PackageWeight, PackageWeightUnit, ItemsPerInnerPack, NumberOfBoxes,
    VvaValuesJson
  ]

  const FAILURE_COLUMNS: seq<Column> := [Url, Reason, MissingFields]

  /** A row of one of the output files. */
  type Row = map<Column, string>

  /** The columns of a schema, as a set. */
  function ColumnSet(columns: seq<Column>): (r: set<Column>)
    ensures forall c :: c in r <==> c in columns
  {
    set c | c in columns
  }

  /** A row that fills exactly the columns of its schema. */
  predicate Fills(row: Row, columns: seq<Column>) {
    row.Keys == ColumnSet(columns)
  }

  /** Text without the characters that make `csvField` quote. */
  predicate PlainText(s: string) {
    forall i :: 0 <= i < |s| ==> s[i] != ',' && s[i] != '"' && s[i] != '\n' && s[i] != '\r'
  }

  /**
   * A header name never needs quoting in a CSV file (the header line is
   * written without `csvField`), and none is empty.
   */
  lemma ColumnNamePlain(c: Column)
    ensures PlainText(ColumnName(c)) && ColumnName(c) != ""
  {
    NamesPlain0();
    NamesPlain1();
    NamesPlain2();
    NamesPlain3();
    NamesPlain4();
    NamesPlain5();
  }

  lemma NamesPlain0()
    ensures PlainText("Type")
         && PlainText("SKU")
         && PlainText("Name")
         && PlainText("Description")
         && PlainText("Short description")
         && PlainText("Categories")
  {
  }

  lemma NamesPlain1()
    ensures PlainText("Images")
         && PlainText("Attribute 1 name")
         && PlainText("Attribute 1 value(s)")
         && PlainText("Bullet Point 1")
         && PlainText("Bullet Point 2")
         && PlainText("Bullet Point 3")
  {
  }

  lemma NamesPlain2()
    ensures PlainText("Bullet Point 4")
         && PlainText("Bullet Point 5")
         && PlainText("Search Keywords")
         && PlainText("Installation Guide/Manual PDF")
         && PlainText("Line Drawing PDF")
         && PlainText("Measurement Guide PDF")
  {
  }

  lemma NamesPlain3()
    ensures PlainText("Warranty PDF")
         && PlainText("vva_attributes_json")
         && PlainText("vva_default_formula")
         && PlainText("vva_default_sku_template")
         && PlainText("Parent SKU")
         && PlainText("Regular price")
  {
  }

  lemma NamesPlain4()
    ensures PlainText("Woo Variation Gallery Images")
         && PlainText("Package Weight")
         && PlainText("Package Weight Unit")
         && PlainText("Items per Inner Pack")
         && PlainText("Number of Boxes")
         && PlainText("vva_values_json")
  {
  }

  lemma NamesPlain5()
    ensures PlainText("URL")
         && PlainText("Reason")
         && PlainText("Missing Fields")
  {
  }

  /** The shape the schema's own tests fix: sizes, first and last columns. */
  lemma SchemaShape()
    ensures |PARENT_COLUMNS| == 22 && PARENT_COLUMNS[0] == Type && PARENT_COLUMNS[21] == VvaDefaultSkuTemplate
    ensures |CHILD_COLUMNS| == 14 && CHILD_COLUMNS[0] == Type && CHILD_COLUMNS[13] == VvaValuesJson
    ensures |FAILURE_COLUMNS| == 3
  {
  }

  /** No schema names a column twice. */
  lemma SchemaDistinct()
    ensures Distinct(PARENT_COLUMNS) && Distinct(CHILD_COLUMNS) && Distinct(FAILURE_COLUMNS)
  {
  }

  /**
   * `CHILD_IMAGE_INDEXES` and `WOO_GALLERY_IMAGE_INDEXES`: two fixed lists of
   * image positions whose values live in the schema module, so they are
   * parameters of the row mapping here.
   */
  datatype ImageIndexes = ImageIndexes(childImages: seq<nat>, galleryImages: seq<nat>)
}

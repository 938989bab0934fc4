/**
 * The remote side as the downloader sees it: item records (`id`, `name`,
 * `mimeType`), the folder test, the Google-document conversion table, the
 * file name and request a download uses, and the query strings sent to
 * `files().list`.
 */
module Drive {
  import opened Wrappers

  /** One entry of a `files().list` response. */
  datatype Item = Item(id: string, name: string, mimeType: string)

  /**
   * A node of the remote tree: its item and what listing its children
   * (`'<id>' in parents`) answers. The tree is finite, which stands for the
   * remote side having no folder cycles.
   */
  datatype Node = Node(item: Item, listing: Listing)

  /** The answer of one `files().list(q=...).execute()`: the `files` list, or an exception. */
  datatype Listing = Listed(nodes: seq<Node>) | ListingFails

  const FolderMimeType: string := "application/vnd.google-apps.folder"

  /** The literal part of `application/vnd\.google-apps\..+`. */
  const GoogleAppsPrefix: string := "application/vnd.google-apps."

  predicate IsFolder(item: Item) {
    item.mimeType == FolderMimeType
  }

  /** `isFile` is the negation of `isFolder`: every item is exactly one of the two. */
  predicate IsFile(item: Item)
    ensures IsFile(item) != IsFolder(item)
  {
    item.mimeType != FolderMimeType
  }

  /**
   * `re.match(r'application/vnd\.google-apps\..+', mimeType)`: the prefix,
   * then at least one character other than a newline (what `.` matches).
   */
  predicate IsGoogleDoc(mimeType: string) {
    |mimeType| > |GoogleAppsPrefix|
    && mimeType[..|GoogleAppsPrefix|] == GoogleAppsPrefix
    && mimeType[|GoogleAppsPrefix|] != '\n'
  }

  /** The `--gDocConversion` choice. */
  datatype Target = MsOffice | Pdf

  /** An entry of the conversion table: the export mime type and the extension appended to the name. */
  datatype Export = Export(mimeType: string, ext: string)

  const PdfExport: Export := Export("application/pdf", ".pdf")
  const ScriptExport: Export := Export("application/vnd.google-apps.script+json", ".json")

  /** An inner dict of the table: one export per `--gDocConversion` choice. */
  datatype ByTarget = ByTarget(msoffice: Export, pdf: Export) {
    function Pick(target: Target): Export {
      match target
      case MsOffice => msoffice
      case Pdf => pdf
    }
  }

  /** `GDOC_MIME_TYPE_CONVERSION`. */
  const ConversionTable: map<string, ByTarget> := map[
    "application/vnd.google-apps.document" := ByTarget(
      Export("application/vnd.openxmlformats-officedocument.wordprocessingml.document", ".docx"),
      PdfExport),
    "application/vnd.google-apps.spreadsheet" := ByTarget(
      Export("application/vnd.openxmlformats-officedocument.spreadsheetml.sheet", ".xls"),
      PdfExport),
    "application/vnd.google-apps.presentation" := ByTarget(
      Export("application/vnd.openxmlformats-officedocument.presentationml.presentation", ".pptx"),
      PdfExport),
    "application/vnd.google-apps.drawing" := ByTarget(PdfExport, PdfExport),
    "application/vnd.google-apps.script" := ByTarget(ScriptExport, ScriptExport)
  ]

  /** `googleDocConversion`: `None` stands for the `KeyError` of a type missing from the table. */
  function Conversion(mimeType: string, target: Target): (r: Option<Export>)
    ensures r.Some? <==> mimeType in ConversionTable
  {
    if mimeType in ConversionTable then Some(ConversionTable[mimeType].Pick(target)) else None
  }

  /** The request a download sends. */
  datatype Request = ExportMedia(fileId: string, exportMimeType: string) | GetMedia(fileId: string)

  /** The local file name and the request of `download` (lines 200-206); `None` is the `KeyError`. */
  function DownloadPlan(item: Item, target: Target): Option<(string, Request)> {
    if IsGoogleDoc(item.mimeType) then
      match Conversion(item.mimeType, target)
      case None => None
      case Some(e) => Some((item.name + e.ext, ExportMedia(item.id, e.mimeType)))
    else
      Some((item.name, GetMedia(item.id)))
  }

  /**
   * A Google document is exported under the table's mime type with the
   * table's extension appended to its name; any other file is fetched as is
   * under its raw, unsanitised name; a Google type the table lacks fails.
   */
  lemma DownloadNaming(item: Item, target: Target)
    ensures IsGoogleDoc(item.mimeType) && item.mimeType in ConversionTable ==>
      var e := ConversionTable[item.mimeType].Pick(target);
      DownloadPlan(item, target) == Some((item.name + e.ext, ExportMedia(item.id, e.mimeType)))
    ensures !IsGoogleDoc(item.mimeType) ==> DownloadPlan(item, target) == Some((item.name, GetMedia(item.id)))
    ensures DownloadPlan(item, target).None? <==> IsGoogleDoc(item.mimeType) && item.mimeType !in ConversionTable
  {
  }

  /** Exactly the five document types have an entry; a form, for one, does not. */
  lemma ConversionDomain(target: Target)
    ensures ConversionTable.Keys == {
      "application/vnd.google-apps.document", "application/vnd.google-apps.spreadsheet",
      "application/vnd.google-apps.presentation", "application/vnd.google-apps.drawing",
      "application/vnd.google-apps.script"}
    ensures IsGoogleDoc("application/vnd.google-apps.form")
    ensures DownloadPlan(Item("f", "Survey", "application/vnd.google-apps.form"), target) == None
    ensures Conversion("application/vnd.google-apps.document", Pdf) == Some(Export("application/pdf", ".pdf"))
  {
    assert "application/vnd.google-apps.form"[..|GoogleAppsPrefix|] == GoogleAppsPrefix;
  }

  /** Every table entry is a Google type, so the table is only consulted behind the pattern test. */
  lemma TableKeysAreGoogleDocs(mimeType: string)
    requires mimeType in ConversionTable
    ensures IsGoogleDoc(mimeType)
  {
  }

  /** `"name='{0}' and trashed=false".format(source)`. */
  function NameQuery(source: string): (q: string)
    ensures |q| >= 6 + |source| && q[6..6 + |source|] == source
  {
    "name='" + source + "' and trashed=false"
  }

  /** `"'{0}' in parents".format(id)`. */
  function ChildQuery(id: string): (q: string)
    ensures |q| >= 1 + |id| && q[1..1 + |id|] == id
  {
    "'" + id + "' in parents"
  }

  /** A quote in the source name is put into the query as it is: nothing is escaped. */
  lemma QuotesAreNotEscaped()
    ensures NameQuery("Bob's") == "name='Bob's' and trashed=false"
  {
  }
}

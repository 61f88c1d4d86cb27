/** `ContentsXml` (modules/models/contents_xml.py): the `__contents__.xml`
    listing eXist writes into every folder of the backup, read as the list of
    sub-folders and the list of XML documents it holds. */
module Contents {
  import opened Wrappers
  import opened Text
  import Seqs

  /** `_correct_filename`: the listing escapes `&` as `&amp;`, the zip does not. */
  function CorrectFilename(name: string): string {
    ReplaceAll(name, "&amp;", "&")
  }

  /** The escaping the listing applies to a zip file name. */
  function EscapeFilename(name: string): string
    decreases |name|
  {
    if |name| == 0 then []
    else (if name[0] == '&' then "&amp;" else [name[0]]) + EscapeFilename(name[1..])
  }

  /** A name that holds no `&amp;` is already correct. */
  lemma CorrectFilenameIdentity(name: string)
    requires !Contains(name, "&amp;")
    ensures CorrectFilename(name) == name
  {
    ReplaceAllAbsent(name, "&amp;", "&");
  }

  /** Correcting undoes the listing's escaping, for every file name. */
  lemma {:induction false} CorrectUndoesEscape(name: string)
    ensures CorrectFilename(EscapeFilename(name)) == name
    decreases |name|
  {
    if |name| > 0 {
      var rest := EscapeFilename(name[1..]);
      CorrectUndoesEscape(name[1..]);
      if name[0] == '&' {
        var e := "&amp;" + rest;
        assert e[..5] == "&amp;" && e[5..] == rest;
      } else {
        var e := [name[0]] + rest;
        assert e[1..] == rest;
        if |e| >= 5 {
          assert e[..5][0] == name[0];
        }
      }
      assert name == [name[0]] + name[1..];
    }
  }

  datatype EntryKind = CollectionEntry | ResourceEntry

  /** An `exist:subcollection` or `exist:resource` element: its `name` and
      `filename` attributes. */
  datatype EntryXml = EntryXml(name: Option<string>, filename: Option<string>)

  /** An `exist:resource` element together with its `type` attribute. */
  datatype ResourceXml = ResourceXml(entry: EntryXml, resourceType: Option<string>)

  /** A parsed `__contents__.xml`, in document order. */
  datatype ContentsDoc = ContentsDoc(subcollections: seq<EntryXml>, resources: seq<ResourceXml>)

  datatype ContentEntry = ContentEntry(name: string, file: string, kind: EntryKind)

  datatype Contents = Contents(collections: seq<ContentEntry>, resources: seq<ContentEntry>)

  /** `ContentEntry.__init__`: both attributes are required. */
  function ParseEntry(e: EntryXml, kind: EntryKind): (r: Result<ContentEntry>)
    ensures r.Ok? <==> e.name.Some? && e.filename.Some?
    ensures e.name.None? ==> r == Err(AssertionFailed("name"))
    ensures r.Ok? ==>
              && r.value.name == e.name.value
              && r.value.file == CorrectFilename(e.filename.value)
              && r.value.kind == kind
  {
    if e.name.None? then Err(AssertionFailed("name"))
    else if e.filename.None? then Err(AssertionFailed("filename"))
    else Ok(ContentEntry(e.name.value, CorrectFilename(e.filename.value), kind))
  }

  /** Builds the entries in document order, failing on the first bad one. */
  function ParseEntries(es: seq<EntryXml>, kind: EntryKind): (r: Result<seq<ContentEntry>>)
    ensures r.Ok? <==> forall i :: 0 <= i < |es| ==> ParseEntry(es[i], kind).Ok?
    ensures r.Ok? ==> |r.value| == |es|
    ensures r.Ok? ==> forall i :: 0 <= i < |es| ==> r.value[i] == ParseEntry(es[i], kind).value
    decreases |es|
  {
    if |es| == 0 then Ok([])
    else
      match ParseEntry(es[0], kind)
      case Err(e) => Err(e)
      case Ok(first) =>
        match ParseEntries(es[1..], kind)
        case Err(e) =>
          assert forall i :: 1 <= i < |es| ==> es[1..][i - 1] == es[i];
          Err(e)
        case Ok(rest) =>
          assert forall i :: 1 <= i < |es| ==> es[1..][i - 1] == es[i];
          Ok([first] + rest)
  }

  /** Only resources of type `XMLResource` are listed. */
  predicate IsXmlResource(r: ResourceXml) {
    r.resourceType == Some("XMLResource")
  }

  /** The `exist:resource[@type='XMLResource']` elements, in order. */
  function XmlResources(rs: seq<ResourceXml>): (r: seq<EntryXml>)
    ensures |r| <= |rs|
    ensures forall i :: 0 <= i < |rs| && IsXmlResource(rs[i]) ==> rs[i].entry in r
    ensures forall i :: 0 <= i < |r| ==> ResourceXml(r[i], Some("XMLResource")) in rs
  {
    Seqs.FilterMap(rs, IsXmlResource, (x: ResourceXml) => x.entry)
  }

  /** `ContentsXml.__init__`: sub-folders become COLLECTION entries and XML
      documents RESOURCE entries, both in document order; an entry without a
      `name` or `filename` fails the whole listing, while resources of any
      other type are never looked at. */
  function ParseContents(doc: ContentsDoc): (r: Result<Contents>)
    ensures r.Ok? <==>
              && (forall i :: 0 <= i < |doc.subcollections| ==>
                    doc.subcollections[i].name.Some? && doc.subcollections[i].filename.Some?)
              && (forall i :: 0 <= i < |XmlResources(doc.resources)| ==>
                    XmlResources(doc.resources)[i].name.Some? && XmlResources(doc.resources)[i].filename.Some?)
    ensures r.Ok? ==> |r.value.collections| == |doc.subcollections|
    ensures r.Ok? ==> forall i :: 0 <= i < |doc.subcollections| ==>
              && r.value.collections[i].kind == CollectionEntry
              && r.value.collections[i].name == doc.subcollections[i].name.value
              && r.value.collections[i].file == CorrectFilename(doc.subcollections[i].filename.value)
    ensures r.Ok? ==> |r.value.resources| == |XmlResources(doc.resources)|
    ensures r.Ok? ==> forall i :: 0 <= i < |r.value.resources| ==>
              && r.value.resources[i].kind == ResourceEntry
              && r.value.resources[i].file == CorrectFilename(XmlResources(doc.resources)[i].filename.value)
  {
    match ParseEntries(doc.subcollections, CollectionEntry)
    case Err(e) => Err(e)
    case Ok(collections) =>
      match ParseEntries(XmlResources(doc.resources), ResourceEntry)
      case Err(e) => Err(e)
      case Ok(resources) => Ok(Contents(collections, resources))
  }

  /** The file names of a list of entries, in order. */
  function Files(es: seq<ContentEntry>): (r: seq<string>)
    ensures |r| == |es| && forall i :: 0 <= i < |es| ==> r[i] == es[i].file
  {
    seq(|es|, i requires 0 <= i < |es| => es[i].file)
  }
}

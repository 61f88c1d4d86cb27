/** `XmlCharter` (modules/models/xml_charter.py): the part every charter
    variant shares, read from the charter's CEI document. */
module Charters {
  import opened Wrappers
  import opened Text

  /** The first `cei:idno` element: its `id` attribute and its text. */
  datatype IdnoXml = IdnoXml(idAttr: Option<string>, text: Option<string>)

  /** The first `atom:link` element and its `ref` attribute. */
  datatype LinkXml = LinkXml(ref: Option<string>)

  /** The fields the charter classes read from a CEI document.  `atomId` is
      read with `findtext` and the default None, so an `atom:id` element
      without text gives `Some("")`. */
  datatype CharterXml = CharterXml(atomId: Option<string>, idno: Option<IdnoXml>, link: Option<LinkXml>)

  /** `imageBase` is the value a variant hands to the base constructor in
      its image slot (the fond's or collection's image base, or None). */
  datatype Charter = Charter(
    id: nat,
    file: string,
    atomId: string,
    idnoNorm: string,
    idnoText: string,
    imageBase: Option<Url>,
    url: Url)

  /** The suffix of every charter document name. */
  const CeiSuffix: string := ".cei.xml"

  /** `file.split(".cei.xml")[0]`: the charter's name in its URL. */
  function Stem(file: string): (r: string)
    ensures |r| <= |file| && r == file[..|r|]
    ensures !Contains(r, CeiSuffix)
    ensures |r| < |file| ==> StartsWith(file[|r|..], CeiSuffix)
  {
    BeforeFirst(file, CeiSuffix)
  }

  /** The (normalised, display) pair an idno element yields, if any. */
  function IdnoParts(idno: IdnoXml): (r: Option<(string, string)>)
    ensures r.None? <==> idno.idAttr.None? && idno.text.None?
    ensures idno.idAttr.Some? && idno.text.None? ==> r == Some((idno.idAttr.value, idno.idAttr.value))
    ensures idno.idAttr.None? && idno.text.Some? ==> r == Some((idno.text.value, idno.text.value))
    ensures idno.idAttr.Some? && idno.text.Some? ==> r == Some((idno.idAttr.value, idno.text.value))
  {
    match (idno.text, idno.idAttr)
    case (None, Some(norm)) => Some((norm, norm))
    case (Some(text), None) => Some((text, text))
    case (Some(text), Some(norm)) => Some((norm, text))
    case (None, None) => None
  }

  /** The conditions under which `XmlCharter.__init__` gets past its
      asserts. */
  predicate ValidCei(cei: CharterXml) {
    cei.atomId.Some? && cei.idno.Some? && IdnoParts(cei.idno.value).Some?
  }

  /** `XmlCharter(file, cei, images, url)`, given the ID it drew first. */
  function ParseCharter(id: nat, file: string, cei: CharterXml, imageBase: Option<Url>, url: Url): (r: Result<Charter>)
    ensures r.Ok? <==> ValidCei(cei)
    ensures cei.atomId.None? ==> r == Err(AssertionFailed("atom_id"))
    ensures cei.atomId.Some? && cei.idno.None? ==> r.Err? && r.error.Malformed?
    ensures r.Ok? ==>
              && r.value.id == id && r.value.file == file && r.value.atomId == cei.atomId.value
              && r.value.imageBase == imageBase && r.value.url == url
              && (r.value.idnoNorm, r.value.idnoText) == IdnoParts(cei.idno.value).value
  {
    match cei.atomId
    case None => Err(AssertionFailed("atom_id"))
    case Some(atomId) =>
      match cei.idno
      case None => Err(Malformed("No idno found for " + atomId))
      case Some(idno) =>
        match IdnoParts(idno)
        case None => Err(Malformed("No idno parts found for " + atomId))
        case Some(parts) => Ok(Charter(id, file, atomId, parts.0, parts.1, imageBase, url))
  }
}

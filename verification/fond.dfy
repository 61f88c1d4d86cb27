/** `XmlFond` (modules/models/xml_fond.py): an archival fond built from its
    EAD description, the archive it belongs to and, when the backup holds
    them, its image preferences. */
module Fonds {
  import opened Wrappers
  import opened Utils
  import opened Archives

  /** The `ead:unitid` element: its text and its `identifier` attribute. */
  datatype UnitIdXml = UnitIdXml(text: Option<string>, identifierAttr: Option<string>)

  /** The fields `XmlFond` reads from `{fond}.ead.xml`; `atomId` is read with
      `findtext` and the default "". */
  datatype EadXml = EadXml(atomId: string, unitid: Option<UnitIdXml>, unittitle: Option<Element>)

  /** The two `xrx:param` values of `{fond}.preferences.xml`, read with the
      default "". */
  datatype PrefsXml = PrefsXml(imageAccess: string, imageServerBaseUrl: string)

  datatype Fond = Fond(
    id: nat,
    file: string,
    atomId: string,
    archiveId: nat,
    archiveFile: string,
    identifier: string,
    title: string,
    oaiShared: bool,
    freeImageAccess: bool,
    imageBase: Option<Url>)

  /** The identifier: the unitid text, else its `identifier` attribute. */
  function FondIdentifier(u: UnitIdXml): Option<string> {
    if u.text.Some? then u.text else u.identifierAttr
  }

  /** The conditions under which `XmlFond.__init__` gets past every assert. */
  predicate ValidEad(ead: EadXml) {
    && ead.atomId != ""
    && ead.unitid.Some?
    && (ead.unitid.value.text.Some? || ead.unitid.value.identifierAttr.Some?)
    && ead.unittitle.Some?
  }

  /** The archive's OAI record lists the identifier among its shared fonds. */
  predicate SharedViaOai(archive: Archive, identifier: string) {
    archive.oai.Some? && identifier in archive.oai.value.fonds
  }

  /** `image_base`: the configured server base URL, when there is one, it is
      not empty and the URL validator accepts it. */
  function PrefsImageBase(prefs: Option<PrefsXml>, validUrl: Url -> bool): (r: Option<Url>)
    ensures r.Some? <==>
              prefs.Some? && prefs.value.imageServerBaseUrl != ""
              && validUrl(Literal(prefs.value.imageServerBaseUrl))
    ensures r.Some? ==> r.value == Literal(prefs.value.imageServerBaseUrl) && validUrl(r.value)
  {
    match prefs
    case None => None
    case Some(p) =>
      if p.imageServerBaseUrl == "" || !validUrl(Literal(p.imageServerBaseUrl)) then None
      else Some(Literal(p.imageServerBaseUrl))
  }

  /** `XmlFond(file, archive, ead, prefs)`, given the ID it drew first. */
  function ParseFond(id: nat, file: string, archive: Archive, ead: EadXml,
                     prefs: Option<PrefsXml>, validUrl: Url -> bool): (r: Result<Fond>)
    ensures r.Ok? <==> ValidEad(ead)
    ensures ead.atomId == "" ==> r == Err(AssertionFailed("atom_id"))
    ensures r.Ok? ==>
              && r.value.id == id && r.value.file == file && r.value.atomId == ead.atomId
              && r.value.archiveId == archive.id && r.value.archiveFile == archive.file
    ensures r.Ok? ==>
              && (ead.unitid.value.text.Some? ==> r.value.identifier == ead.unitid.value.text.value)
              && (ead.unitid.value.text.None? ==> r.value.identifier == ead.unitid.value.identifierAttr.value)
    ensures r.Ok? ==>
              && (ead.unittitle.value.text.Some? ==> r.value.title == Normalize(ead.unittitle.value.text.value))
              && (ead.unittitle.value.text.None? ==> r.value.title == Normalize(r.value.identifier))
    ensures r.Ok? ==> (r.value.oaiShared <==> SharedViaOai(archive, r.value.identifier))
    ensures r.Ok? ==> (r.value.freeImageAccess <==> prefs.Some? && prefs.value.imageAccess == "free")
    ensures r.Ok? ==> r.value.imageBase == PrefsImageBase(prefs, validUrl)
  {
    if ead.atomId == "" then Err(AssertionFailed("atom_id"))
    else if ead.unitid.None? then Err(AssertionFailed("unitid"))
    else
      match FondIdentifier(ead.unitid.value)
      case None => Err(AssertionFailed("identifier"))
      case Some(identifier) =>
        if ead.unittitle.None? then Err(AssertionFailed("unittitle"))
        else
          var title := Normalize(ead.unittitle.value.text.GetOr(identifier));
          var free := match prefs
            case None => false
            case Some(p) => if p.imageAccess == "" then false else p.imageAccess == "free";
          Ok(Fond(id, file, ead.atomId, archive.id, archive.file, identifier, title,
                  SharedViaOai(archive, identifier), free, PrefsImageBase(prefs, validUrl)))
  }

  /** A fond's title is always in normal form, and its image base, when set,
      is one the validator accepted. */
  lemma FondInvariants(id: nat, file: string, archive: Archive, ead: EadXml,
                       prefs: Option<PrefsXml>, validUrl: Url -> bool)
    ensures ParseFond(id, file, archive, ead, prefs, validUrl).Ok? ==>
              var f := ParseFond(id, file, archive, ead, prefs, validUrl).value;
              Normalized(f.title) && (f.imageBase.Some? ==> validUrl(f.imageBase.value))
  {
    var r := ParseFond(id, file, archive, ead, prefs, validUrl);
    if r.Ok? {
      var identifier := FondIdentifier(ead.unitid.value).value;
      NormalizeShape(ead.unittitle.value.text.GetOr(identifier));
    }
  }

  /** Without preferences a fond has neither free image access nor an image base. */
  lemma FondWithoutPrefs(id: nat, file: string, archive: Archive, ead: EadXml, validUrl: Url -> bool)
    requires ValidEad(ead)
    ensures !ParseFond(id, file, archive, ead, None, validUrl).value.freeImageAccess
    ensures ParseFond(id, file, archive, ead, None, validUrl).value.imageBase.None?
  {
  }
}

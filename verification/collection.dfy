/** `XmlCollection` (modules/models/xml_collection.py): a collection built
    from its CEI description, linked to the archival fonds its groups name. */
module Collections {
  import opened Wrappers
  import opened Text
  import opened Utils
  import Seqs
  import opened Fonds

  /** The fields `XmlCollection` reads from `{file}.cei.xml`.  `provenance`
      holds the direct text nodes of the `cei:provenance` element, and
      `groupTextIds` the `id` attribute of every `cei:group/cei:text`, in
      document order. */
  datatype CollectionXml = CollectionXml(
    atomId: Option<Element>,
    provenance: Option<seq<string>>,
    title: Option<Element>,
    imageServerAddress: Option<Element>,
    imageServerFolder: Option<Element>,
    groupTextIds: seq<Option<string>>)

  datatype Collection = Collection(
    id: nat,
    file: string,
    atomId: string,
    identifier: string,
    title: string,
    oaiShared: bool,
    imageBase: Option<Url>,
    linkedFonds: seq<nat>)

  const ImageServer: string := "images.monasterium.net"
  const ImageServerUrl: string := "http://images.monasterium.net"

  /** The URL a collection's image server fields describe, before validation:
      the bare host name of the image server is given a scheme only when it
      is joined with a folder; without a folder the address is used as written. */
  function ImageServerUrlOf(address: string, folder: Option<string>): (u: Url)
    ensures folder.None? ==> u == Literal(address)
    ensures folder.Some? ==> u.Joined? && |u.parts| == 2 && u.parts[1] == folder.value
    ensures folder.Some? ==> (u.parts[0] == ImageServerUrl <==> address == ImageServer || address == ImageServerUrl)
    ensures folder.Some? && address != ImageServer ==> u.parts[0] == address
  {
    match folder
    case None => Literal(address)
    case Some(f) => Joined([if address == ImageServer then ImageServerUrl else address, f])
  }

  /** `image_base`: set only when an address with text is present and the
      validator accepts the resulting URL. */
  function CollectionImageBase(x: CollectionXml, validUrl: Url -> bool): (r: Option<Url>)
    ensures r.Some? ==> validUrl(r.value)
    ensures r.Some? <==>
              && x.imageServerAddress.Some? && x.imageServerAddress.value.text.Some?
              && validUrl(ImageServerUrlOf(x.imageServerAddress.value.text.value, FolderText(x)))
    ensures r.Some? ==> r.value == ImageServerUrlOf(x.imageServerAddress.value.text.value, FolderText(x))
  {
    match x.imageServerAddress
    case None => None
    case Some(address) =>
      match address.text
      case None => None
      case Some(a) =>
        var url := ImageServerUrlOf(a, FolderText(x));
        if validUrl(url) then Some(url) else None
  }

  /** The folder text, when the folder element is present and has text. */
  function FolderText(x: CollectionXml): Option<string> {
    match x.imageServerFolder
    case None => None
    case Some(f) => f.text
  }

  /** `fond_id` of the first fond whose atom id is `groupId`, if any. */
  function FondLink(fonds: seq<Fond>, groupId: Option<string>): (r: Option<nat>)
    ensures r.Some? <==> groupId.Some? && exists j :: 0 <= j < |fonds| && fonds[j].atomId == groupId.value
    ensures r.Some? ==> exists j :: 0 <= j < |fonds| && fonds[j].atomId == groupId.value
                          && r.value == fonds[j].id
                          && forall k :: 0 <= k < j ==> fonds[k].atomId != groupId.value
  {
    match groupId
    case None => None
    case Some(g) =>
      match Seqs.FirstIndex(fonds, (f: Fond) => f.atomId == g)
      case None => None
      case Some(j) => Some(fonds[j].id)
  }

  /** The fond link of each group text, against `fonds`. */
  function LinkOf(fonds: seq<Fond>): Option<string> -> Option<nat> {
    g => FondLink(fonds, g)
  }

  /** `linked_fonds`: for each group text, in document order, the first fond
      with that atom id; texts that match no fond add nothing. */
  function LinkedFonds(groupIds: seq<Option<string>>, fonds: seq<Fond>): (r: seq<nat>)
    ensures |r| <= |groupIds|
    ensures |fonds| == 0 ==> r == []
    ensures forall i :: 0 <= i < |groupIds| && FondLink(fonds, groupIds[i]).Some? ==>
              FondLink(fonds, groupIds[i]).value in r
    ensures forall k :: 0 <= k < |r| ==> exists i, j ::
              0 <= i < |groupIds| && 0 <= j < |fonds| && groupIds[i] == Some(fonds[j].atomId) && r[k] == fonds[j].id
  {
    var links := Seqs.Map(groupIds, LinkOf(fonds));
    var r := Seqs.Somes(links);
    assert forall i :: 0 <= i < |groupIds| ==> links[i] == FondLink(fonds, groupIds[i]);
    forall k | 0 <= k < |r|
      ensures exists i, j :: 0 <= i < |groupIds| && 0 <= j < |fonds|
                && groupIds[i] == Some(fonds[j].atomId) && r[k] == fonds[j].id
    {
      assert Some(r[k]) in links;
      var i :| 0 <= i < |groupIds| && links[i] == Some(r[k]);
      var j :| 0 <= j < |fonds| && fonds[j].atomId == groupIds[i].value && r[k] == fonds[j].id
               && forall m :: 0 <= m < j ==> fonds[m].atomId != groupIds[i].value;
      assert groupIds[i] == Some(fonds[j].atomId);
    }
    r
  }

  /** Document order is kept and every group text contributes its own link,
      so a fond linked by several texts is listed once per text: the links of
      two runs of texts are those of the first followed by those of the
      second, and one text yields a link exactly when it names a fond. */
  lemma LinkedFondsOrder(a: seq<Option<string>>, b: seq<Option<string>>, g: Option<string>, fonds: seq<Fond>)
    ensures LinkedFonds(a + b, fonds) == LinkedFonds(a, fonds) + LinkedFonds(b, fonds)
    ensures LinkedFonds([g], fonds) == if FondLink(fonds, g).Some? then [FondLink(fonds, g).value] else []
  {
    Seqs.MapAppend(a, b, LinkOf(fonds));
    Seqs.SomesAppend(Seqs.Map(a, LinkOf(fonds)), Seqs.Map(b, LinkOf(fonds)));
    assert Seqs.Map([g], LinkOf(fonds)) == [FondLink(fonds, g)];
    Seqs.SomesOne(FondLink(fonds, g));
  }

  /** The title before its fallbacks: the first provenance text node,
      normalised. */
  function TitleOf(provenanceText: string, title: Option<Element>, identifier: string): string {
    var text := Normalize(provenanceText);
    if text != "" then text
    else if title.Some? && title.value.text.Some? then Normalize(title.value.text.value)
    else identifier
  }

  /** `XmlCollection(file, cei, fonds)`, given the ID it drew first.  A
      provenance element without any text node makes the `[0]` lookup fail. */
  function ParseCollection(id: nat, file: string, x: CollectionXml, fonds: seq<Fond>,
                           validUrl: Url -> bool): (r: Result<Collection>)
    ensures r.Ok? <==>
              && x.atomId.Some? && x.atomId.value.text.Some?
              && x.provenance.Some? && |x.provenance.value| > 0
    ensures x.atomId.None? ==> r == Err(AssertionFailed("atom_id"))
    ensures x.atomId.Some? && x.atomId.value.text.Some? && x.provenance.Some? && |x.provenance.value| == 0 ==>
              r == Err(IndexOutOfRange("provenance text"))
    ensures r.Ok? ==>
              && r.value.id == id && r.value.file == file
              && r.value.atomId == x.atomId.value.text.value
              && r.value.identifier == AfterLast(r.value.atomId, '/')
              && !r.value.oaiShared
              && r.value.imageBase == CollectionImageBase(x, validUrl)
              && r.value.linkedFonds == LinkedFonds(x.groupTextIds, fonds)
    ensures r.Ok? ==>
              var p := Normalize(x.provenance.value[0]);
              && (p != "" ==> r.value.title == p)
              && (p == "" && x.title.Some? && x.title.value.text.Some? ==> r.value.title == Normalize(x.title.value.text.value))
              && (p == "" && !(x.title.Some? && x.title.value.text.Some?) ==> r.value.title == r.value.identifier)
  {
    if x.atomId.None? then Err(AssertionFailed("atom_id"))
    else if x.atomId.value.text.None? then Err(AssertionFailed("atom_id text"))
    else
      var atomId := x.atomId.value.text.value;
      var identifier := AfterLast(atomId, '/');
      if x.provenance.None? then Err(AssertionFailed("provenance"))
      else if |x.provenance.value| == 0 then Err(IndexOutOfRange("provenance text"))
      else
        Ok(Collection(id, file, atomId, identifier,
                      TitleOf(x.provenance.value[0], x.title, identifier),
                      false, CollectionImageBase(x, validUrl), LinkedFonds(x.groupTextIds, fonds)))
  }

  /** The identifier is the last segment of the atom id: it holds no "/",
      and the atom id is some prefix ending in "/" followed by it, or the
      identifier itself when there is no "/" at all. */
  lemma CollectionIdentifier(atomId: string)
    ensures '/' !in AfterLast(atomId, '/')
    ensures '/' !in atomId ==> AfterLast(atomId, '/') == atomId
    ensures '/' in atomId ==>
              exists prefix :: atomId == prefix + ['/'] + AfterLast(atomId, '/')
  {
    var r := AfterLast(atomId, '/');
    if '/' in atomId {
      var prefix := atomId[..|atomId| - |r| - 1];
      assert atomId == prefix + ['/'] + r;
    }
  }
}

/** `XmlMycharter` (modules/models/xml_mycharter.py): a charter of a user's
    own collection. */
module Mycharters {
  import opened Wrappers
  import opened Charters
  import opened Collections
  import opened Mycollections

  datatype Mycharter = Mycharter(
    charter: Charter,
    ownerId: nat,
    ownerEmail: string,
    collectionId: nat,
    collectionAtomId: string,
    collectionFile: string,
    sourceAtomId: Option<string>,
    sourceCharterId: Option<nat>)

  /** The charter's page in the portal. */
  function MycharterUrl(collectionFile: string, file: string): (u: Url)
    ensures u.Literal?
    ensures u.text == "https://www.monasterium.net/mom/" + collectionFile + "/" + collectionFile + "/" + Stem(file) + "/my-charter"
  {
    Literal(MomBase + "/" + collectionFile + "/" + collectionFile + "/" + Stem(file) + "/my-charter")
  }

  /** `source_atom_id`: the `ref` of the first `atom:link`, if both exist. */
  function SourceAtomId(link: Option<LinkXml>): (r: Option<string>)
    ensures r.Some? <==> link.Some? && link.value.ref.Some?
    ensures r.Some? ==> r.value == link.value.ref.value
  {
    match link
    case None => None
    case Some(l) => l.ref
  }

  /** `XmlMycharter(file, cei, collection)`, given the ID its base drew: the
      base charter without image base, then the owner and collection fields
      copied from the collection; a collection without owner has no
      `owner_id` to copy, which fails after the ID was drawn. */
  function ParseMycharter(id: nat, file: string, cei: CharterXml, collection: Mycollection): (r: Result<Mycharter>)
    ensures r.Ok? <==> ParseCharter(id, file, cei, None, MycharterUrl(collection.collection.file, file)).Ok?
                       && collection.owner.Some?
    ensures ParseCharter(id, file, cei, None, MycharterUrl(collection.collection.file, file)).Ok? && collection.owner.None? ==>
              r == Err(AttributeMissing("owner_id"))
    ensures r.Ok? ==>
              && r.value.charter.id == id && r.value.charter.file == file && r.value.charter.atomId == cei.atomId.value
              && r.value.charter.imageBase.None?
              && r.value.charter.url == MycharterUrl(collection.collection.file, file)
              && r.value.ownerId == collection.owner.value.id
              && r.value.ownerEmail == collection.owner.value.email
              && r.value.collectionId == collection.collection.id
              && r.value.collectionAtomId == collection.collection.atomId
              && r.value.collectionFile == collection.collection.file
              && r.value.sourceAtomId == SourceAtomId(cei.link)
              && r.value.sourceCharterId.None?
  {
    match ParseCharter(id, file, cei, None, MycharterUrl(collection.collection.file, file))
    case Err(e) => Err(e)
    case Ok(c) =>
      match collection.owner
      case None => Err(AttributeMissing("owner_id"))
      case Some(owner) =>
        Ok(Mycharter(c, owner.id, owner.email, collection.collection.id, collection.collection.atomId,
                     collection.collection.file, SourceAtomId(cei.link), None))
  }

  /** `set_source_charter(source)`: records the source's ID and nothing else. */
  function SetSourceCharter(m: Mycharter, source: Charter): (r: Mycharter)
    ensures r.sourceCharterId == Some(source.id)
    ensures r == m.(sourceCharterId := r.sourceCharterId)
  {
    m.(sourceCharterId := Some(source.id))
  }

  /** A charter whose file name carries no ".cei.xml" keeps its whole file
      name in the URL. */
  lemma MycharterStemWholeName(collectionFile: string, file: string)
    requires !Text.Contains(file, CeiSuffix)
    ensures MycharterUrl(collectionFile, file).text
            == "https://www.monasterium.net/mom/" + collectionFile + "/" + collectionFile + "/" + file + "/my-charter"
  {
    var s := Stem(file);
    if |s| < |file| {
      Text.StartsWithContains(file, |s|, CeiSuffix);
    }
  }
}

/** `XmlCollectionCharter` (modules/models/xml_collection_charter.py): a
    charter of a public collection, which may stem from a user's charter. */
module CollectionCharters {
  import opened Wrappers
  import opened Charters
  import opened Collections
  import opened Mycharters

  datatype CollectionCharter = CollectionCharter(
    charter: Charter,
    collectionId: nat,
    collectionFile: string,
    sourceMycharterId: Option<nat>,
    sourceMycharterAtomId: Option<string>)

  /** The charter's page in the portal. */
  function CollectionCharterUrl(collection: Collection, file: string): (u: Url)
    ensures u.Joined? && |u.parts| == 4
    ensures u.parts[0] == MomBase && u.parts[1] == collection.file
    ensures u.parts[2] == Stem(file) && u.parts[3] == "charter"
  {
    Joined([MomBase, collection.file, Stem(file), "charter"])
  }

  /** `XmlCollectionCharter(file, collection, cei, ...)`, given the ID its
      base drew: the base charter with the collection's image base, linked to
      its collection and to no source yet. */
  function ParseCollectionCharter(id: nat, file: string, collection: Collection, cei: CharterXml): (r: Result<CollectionCharter>)
    ensures r.Ok? <==> ParseCharter(id, file, cei, collection.imageBase, CollectionCharterUrl(collection, file)).Ok?
    ensures r.Err? ==> r.error == ParseCharter(id, file, cei, collection.imageBase, CollectionCharterUrl(collection, file)).error
    ensures r.Ok? ==>
              && r.value.charter.id == id && r.value.charter.file == file && r.value.charter.atomId == cei.atomId.value
              && r.value.charter.imageBase == collection.imageBase
              && r.value.charter.url == CollectionCharterUrl(collection, file)
              && r.value.collectionId == collection.id && r.value.collectionFile == collection.file
              && r.value.sourceMycharterId.None? && r.value.sourceMycharterAtomId.None?
  {
    match ParseCharter(id, file, cei, collection.imageBase, CollectionCharterUrl(collection, file))
    case Err(e) => Err(e)
    case Ok(c) => Ok(CollectionCharter(c, collection.id, collection.file, None, None))
  }

  /** `set_source_mycharter(source)`: records the source's ID and atom id and
      nothing else. */
  function SetSourceMycharter(c: CollectionCharter, source: Mycharter): (r: CollectionCharter)
    ensures r.sourceMycharterId == Some(source.charter.id)
    ensures r.sourceMycharterAtomId == Some(source.charter.atomId)
    ensures r.charter == c.charter && r.collectionId == c.collectionId && r.collectionFile == c.collectionFile
  {
    c.(sourceMycharterId := Some(source.charter.id), sourceMycharterAtomId := Some(source.charter.atomId))
  }
}

/** The backup archive `MomBackup` reads (modules/models/mom_backup.py): an
    eXist database dump, seen as a map from path to the fields the parsers
    read from the document stored there.  A path that is not in its map is
    a document the zip does not hold; `_get_xml` raises `KeyError` for it
    and `_get_xml_optional` returns None. */
module Backup {
  import opened Wrappers
  import opened Contents
  import Archives
  import Fonds
  import Collections
  import Users
  import Charters

  datatype Store = Store(
    /** `__contents__.xml`, keyed by the folder it lists */
    contents: map<string, ContentsDoc>,
    users: map<string, Users.UserXml>,
    eags: map<string, Archives.EagXml>,
    oais: map<string, Archives.OaiXml>,
    eads: map<string, Fonds.EadXml>,
    prefs: map<string, Fonds.PrefsXml>,
    collectionCeis: map<string, Collections.CollectionXml>,
    charterCeis: map<string, Charters.CharterXml>)

  const UsersFolder: string := "db/mom-data/xrx.user"
  const ArchivesFolder: string := "db/mom-data/metadata.archive.public"
  const FondsFolder: string := "db/mom-data/metadata.fond.public"
  const ChartersFolder: string := "db/mom-data/metadata.charter.public"
  const CollectionsFolder: string := "db/mom-data/metadata.collection.public"
  const SavedFolder: string := "db/mom-data/metadata.charter.saved"

  function UserPath(file: string): string { UsersFolder + "/" + file }
  function EagPath(f: string): string { ArchivesFolder + "/" + f + "/" + f + ".eag.xml" }
  function OaiPath(f: string): string { ArchivesFolder + "/" + f + "/oai.xml" }
  function FondFolder(archiveFile: string): string { FondsFolder + "/" + archiveFile }
  function EadPath(a: string, f: string): string { FondsFolder + "/" + a + "/" + f + "/" + f + ".ead.xml" }
  function PrefsPath(a: string, f: string): string { FondsFolder + "/" + a + "/" + f + "/" + f + ".preferences.xml" }
  function FondChartersFolder(a: string, f: string): string { ChartersFolder + "/" + a + "/" + f }
  function CollectionChartersFolder(c: string): string { ChartersFolder + "/" + c }
  function CollectionCeiPath(f: string): string { CollectionsFolder + "/" + f + "/" + f + ".cei.xml" }
  function SavedPath(f: string): string { SavedFolder + "/" + f }

  /** `_get_contents(folder)`: a missing listing is `NotFound`, a listing
      with a bad entry fails as `ContentsXml` does. */
  function GetContents(store: Store, folder: string): (r: Result<Contents>)
    ensures folder !in store.contents ==> r == Err(NotFound(folder))
    ensures folder in store.contents ==> r == ParseContents(store.contents[folder])
  {
    if folder !in store.contents then Err(NotFound(folder))
    else ParseContents(store.contents[folder])
  }

  /** The sub-folders a folder listing names, when it could be read. */
  function Folders(listing: Result<Contents>): (r: Result<seq<string>>)
    ensures listing.Err? ==> r == Err(listing.error)
    ensures listing.Ok? ==> r == Ok(Files(listing.value.collections))
  {
    match listing
    case Err(e) => Err(e)
    case Ok(contents) => Ok(Files(contents.collections))
  }

  /** The XML documents a folder listing names, when it could be read. */
  function Documents(listing: Result<Contents>): (r: Result<seq<string>>)
    ensures listing.Err? ==> r == Err(listing.error)
    ensures listing.Ok? ==> r == Ok(Files(listing.value.resources))
  {
    match listing
    case Err(e) => Err(e)
    case Ok(contents) => Ok(Files(contents.resources))
  }

  /** `_get_xml_optional` for a map of documents. */
  function Optional<T>(docs: map<string, T>, path: string): (r: Option<T>)
    ensures r.Some? <==> path in docs
    ensures r.Some? ==> r.value == docs[path]
  {
    if path in docs then Some(docs[path]) else None
  }
}

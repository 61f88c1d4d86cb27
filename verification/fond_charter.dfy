/** `XmlFondCharter` (modules/models/xml_fond_charter.py): a charter of an
    archival fond. */
module FondCharters {
  import opened Wrappers
  import opened Charters
  import opened Fonds

  datatype FondCharter = FondCharter(
    charter: Charter,
    archiveId: nat,
    archiveFile: string,
    fondId: nat,
    fondFile: string)

  /** The charter's page in the portal. */
  function FondCharterUrl(fond: Fond, file: string): (u: Url)
    ensures u.Joined? && |u.parts| == 5
    ensures u.parts[0] == MomBase && u.parts[1] == fond.archiveFile && u.parts[2] == fond.file
    ensures u.parts[3] == Stem(file) && u.parts[4] == "charter"
  {
    Joined([MomBase, fond.archiveFile, fond.file, Stem(file), "charter"])
  }

  /** `XmlFondCharter(file, fond, cei, users)`, given the ID its base drew:
      the base charter with the fond's image base and URL, linked to its
      fond and archive; a base failure is a failure. */
  function ParseFondCharter(id: nat, file: string, fond: Fond, cei: CharterXml): (r: Result<FondCharter>)
    ensures r.Ok? <==> ParseCharter(id, file, cei, fond.imageBase, FondCharterUrl(fond, file)).Ok?
    ensures r.Err? ==> r.error == ParseCharter(id, file, cei, fond.imageBase, FondCharterUrl(fond, file)).error
    ensures r.Ok? ==>
              && r.value.charter.id == id && r.value.charter.file == file && r.value.charter.atomId == cei.atomId.value
              && r.value.charter.imageBase == fond.imageBase
              && r.value.charter.url == FondCharterUrl(fond, file)
              && r.value.archiveId == fond.archiveId && r.value.archiveFile == fond.archiveFile
              && r.value.fondId == fond.id && r.value.fondFile == fond.file
  {
    match ParseCharter(id, file, cei, fond.imageBase, FondCharterUrl(fond, file))
    case Err(e) => Err(e)
    case Ok(c) => Ok(FondCharter(c, fond.archiveId, fond.archiveFile, fond.id, fond.file))
  }

  /** Two charters of fonds with different (archive, fond) files never share
      a URL. */
  lemma FondCharterUrlsDistinct(f1: Fond, f2: Fond, file1: string, file2: string)
    requires (f1.archiveFile, f1.file) != (f2.archiveFile, f2.file)
    ensures FondCharterUrl(f1, file1) != FondCharterUrl(f2, file2)
  {
    var u1 := FondCharterUrl(f1, file1);
    var u2 := FondCharterUrl(f2, file2);
    assert u1.parts[1] != u2.parts[1] || u1.parts[2] != u2.parts[2];
  }
}

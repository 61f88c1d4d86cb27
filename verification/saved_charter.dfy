/** `XmlSavedCharter` (modules/models/xml_saved_charter.py): a working copy
    of a charter that a user saved while editing it.  Its file name encodes
    the charter it copies: `a#b#archive#fond#charter.xml` for a fond
    charter, `a#b#collection#charter.xml` for a collection charter. */
module SavedCharters {
  import opened Wrappers
  import opened Text
  import opened Charters
  import opened Fonds
  import opened Collections
  import Seqs

  /** `editorId` is -1, `startTime` None (the class-level default, taken
      from the clock when the class is loaded) and `released` false until
      the stage copies them from a user's save record. */
  datatype SavedCharter = SavedCharter(
    charter: Charter,
    editorId: int,
    startTime: Option<string>,
    released: bool)

  const SavedPrefix: string := "https://www.monasterium.net/mom/saved-charter?id=tag:www.monasterium.net,2011:/charter"

  /** What the file name of a saved charter resolves to: its URL and the
      image base of the fond or collection it belongs to. */
  datatype Target = Target(url: Url, imageBase: Option<Url>)

  /** `file.rsplit(".xml")[0].split("#")`: the "#"-separated parts of the
      file name before its first ".xml". */
  function NameParts(file: string): (parts: seq<string>)
    ensures |parts| >= 1
    ensures forall i :: 0 <= i < |parts| ==> '#' !in parts[i]
  {
    Split(BeforeFirst(file, ".xml"), '#')
  }

  /** The first collection whose file is `collectionFile`. */
  function CollectionByFile(collections: seq<Collection>, collectionFile: string): (r: Option<nat>)
    ensures r.Some? ==> r.value < |collections| && collections[r.value].file == collectionFile
                        && forall j :: 0 <= j < r.value ==> collections[j].file != collectionFile
    ensures r.None? ==> forall j :: 0 <= j < |collections| ==> collections[j].file != collectionFile
  {
    Seqs.FirstIndex(collections, (c: Collection) => c.file == collectionFile)
  }

  /** The first fond of archive `archiveFile` whose file is `fondFile`. */
  function FondByFiles(fonds: seq<Fond>, archiveFile: string, fondFile: string): (r: Option<nat>)
    ensures r.Some? ==> r.value < |fonds| && fonds[r.value].archiveFile == archiveFile && fonds[r.value].file == fondFile
                        && forall j :: 0 <= j < r.value ==> !(fonds[j].archiveFile == archiveFile && fonds[j].file == fondFile)
    ensures r.None? ==> forall j :: 0 <= j < |fonds| ==> !(fonds[j].archiveFile == archiveFile && fonds[j].file == fondFile)
  {
    Seqs.FirstIndex(fonds, (f: Fond) => f.archiveFile == archiveFile && f.file == fondFile)
  }

  /** The part of `XmlSavedCharter.__init__` before the base constructor:
      a file name with other than four or five parts is rejected; the first
      two parts are dropped and the rest are joined onto the saved-charter
      prefix; two remaining parts name a collection, three an archive and a
      fond, and that parent must exist. */
  function ResolveTarget(file: string, fonds: seq<Fond>, collections: seq<Collection>): (r: Result<Target>)
    ensures |NameParts(file)| < 4 || |NameParts(file)| > 5 ==> r.Err?
    ensures r.Ok? ==> r.value.url == Joined([SavedPrefix] + NameParts(file)[2..])
    ensures |NameParts(file)| == 4 ==>
              var c := CollectionByFile(collections, NameParts(file)[2]);
              && (r.Ok? <==> c.Some?)
              && (r.Ok? ==> r.value.imageBase == collections[c.value].imageBase)
    ensures |NameParts(file)| == 5 ==>
              var f := FondByFiles(fonds, NameParts(file)[2], NameParts(file)[3]);
              && (r.Ok? <==> f.Some?)
              && (r.Ok? ==> r.value.imageBase == fonds[f.value].imageBase)
  {
    var parts := NameParts(file);
    if |parts| < 4 || |parts| > 5 then Err(Malformed("Cannot extract url from saved charter file " + file))
    else
      var rest := parts[2..];
      var url := Joined([SavedPrefix] + rest);
      if |rest| == 2 then
        match CollectionByFile(collections, rest[0])
        case None => Err(Malformed("Cannot find collection " + rest[0] + " for saved charter file " + file))
        case Some(i) => Ok(Target(url, collections[i].imageBase))
      else
        match FondByFiles(fonds, rest[0], rest[1])
        case None => Err(Malformed("Cannot find fond " + rest[0] + "/" + rest[1] + " for saved charter file " + file))
        case Some(i) => Ok(Target(url, fonds[i].imageBase))
  }

  /** `XmlSavedCharter(file, cei, users, fonds, collections)` once its
      target resolved and its base drew `id`. */
  function ParseSavedCharter(id: nat, file: string, cei: CharterXml, target: Target): (r: Result<SavedCharter>)
    ensures r.Ok? <==> ParseCharter(id, file, cei, target.imageBase, target.url).Ok?
    ensures r.Err? ==> r.error == ParseCharter(id, file, cei, target.imageBase, target.url).error
    ensures r.Ok? ==>
              && r.value.charter.id == id && r.value.charter.file == file && r.value.charter.atomId == cei.atomId.value
              && r.value.charter.url == target.url && r.value.charter.imageBase == target.imageBase
              && r.value.editorId == -1 && r.value.startTime.None? && !r.value.released
  {
    match ParseCharter(id, file, cei, target.imageBase, target.url)
    case Err(e) => Err(e)
    case Ok(c) => Ok(SavedCharter(c, -1, None, false))
  }

  /** File names round-trip: for "#"-free parts whose joined text has no
      ".xml" before the extension, the saved-charter URL is built from
      exactly the parts after the first two. */
  lemma NamePartsRoundTrip(parts: seq<string>)
    requires |parts| >= 1
    requires forall i :: 0 <= i < |parts| ==> '#' !in parts[i]
    requires forall i :: 0 <= i < |Join(parts, '#')| ==> !StartsWith((Join(parts, '#') + ".xml")[i..], ".xml")
    ensures NameParts(Join(parts, '#') + ".xml") == parts
  {
    BeforeFirstAppend(Join(parts, '#'), ".xml");
    SplitJoin(parts, '#');
  }

  /** A well-formed collection file name resolves to the collection it
      names, whatever the first two parts are. */
  lemma CollectionTargetResolves(a: string, b: string, c: string, ch: string, collections: seq<Collection>, i: nat)
    requires '#' !in a && '#' !in b && '#' !in c && '#' !in ch
    requires forall k :: 0 <= k < |Join([a, b, c, ch], '#')| ==>
               !StartsWith((Join([a, b, c, ch], '#') + ".xml")[k..], ".xml")
    requires i < |collections| && collections[i].file == c
    requires forall j :: 0 <= j < i ==> collections[j].file != c
    ensures ResolveTarget(Join([a, b, c, ch], '#') + ".xml", [], collections)
            == Ok(Target(Joined([SavedPrefix, c, ch]), collections[i].imageBase))
  {
    var parts := [a, b, c, ch];
    NamePartsRoundTrip(parts);
    assert [SavedPrefix] + parts[2..] == [SavedPrefix, c, ch];
  }
}

/** `Oai` and `XmlArchive` (modules/models/xml_archive.py): an archive record
    built from its EAG description and, when the backup holds one, its OAI
    sharing record. */
module Archives {
  import opened Wrappers
  import opened Utils
  import Seqs

  /** The texts of the `oei:fond` and `oei:harvester` elements of `oai.xml`,
      in document order; None for an element without text. */
  datatype OaiXml = OaiXml(fondTexts: seq<Option<string>>, harvesterTexts: seq<Option<string>>)

  datatype Oai = Oai(fonds: seq<string>, harvesters: seq<string>)

  /** The `eag:repositorid` element: its text and its `countrycode`
      attribute, read with the default "". */
  datatype RepositoryXml = RepositoryXml(text: Option<string>, countrycode: string)

  /** The fields `XmlArchive` reads from `{file}.eag.xml`.  `findtext` with
      default "" turns a missing element and an empty one alike into "". */
  datatype EagXml = EagXml(atomId: string, repository: Option<RepositoryXml>, autform: string)

  datatype Archive = Archive(
    id: nat,
    file: string,
    atomId: string,
    repositoryId: string,
    countrycode: string,
    name: string,
    oai: Option<Oai>)

  /** `Oai.__init__`: the texts of the elements that have one, in order. */
  function ParseOai(x: OaiXml): (r: Oai)
    ensures |r.fonds| <= |x.fondTexts| && |r.harvesters| <= |x.harvesterTexts|
    ensures forall i :: 0 <= i < |x.fondTexts| && x.fondTexts[i].Some? ==> x.fondTexts[i].value in r.fonds
    ensures forall i :: 0 <= i < |r.fonds| ==> Some(r.fonds[i]) in x.fondTexts
    ensures forall i :: 0 <= i < |x.harvesterTexts| && x.harvesterTexts[i].Some? ==> x.harvesterTexts[i].value in r.harvesters
    ensures forall i :: 0 <= i < |r.harvesters| ==> Some(r.harvesters[i]) in x.harvesterTexts
  {
    Oai(Seqs.Somes(x.fondTexts), Seqs.Somes(x.harvesterTexts))
  }

  /** Document order is kept: the fonds of two consecutive runs of elements
      are the fonds of the first run followed by those of the second. */
  lemma OaiKeepsOrder(a: seq<Option<string>>, b: seq<Option<string>>, hs: seq<Option<string>>)
    ensures ParseOai(OaiXml(a + b, hs)).fonds == ParseOai(OaiXml(a, hs)).fonds + ParseOai(OaiXml(b, hs)).fonds
  {
    Seqs.SomesAppend(a, b);
  }

  /** The conditions under which `XmlArchive.__init__` gets past every assert. */
  predicate ValidEag(eag: EagXml) {
    && eag.atomId != ""
    && eag.repository.Some?
    && eag.repository.value.text.Some?
    && eag.repository.value.countrycode != ""
    && Normalize(eag.autform) != ""
  }

  /** `XmlArchive(file, eag, oai)`, given the ID it drew from the shared
      generator (which it does before looking at the document). */
  function ParseArchive(id: nat, file: string, eag: EagXml, oai: Option<OaiXml>): (r: Result<Archive>)
    ensures r.Ok? <==> ValidEag(eag)
    ensures eag.atomId == "" ==> r == Err(AssertionFailed("atom_id"))
    ensures r.Ok? ==>
              && r.value.id == id && r.value.file == file
              && r.value.atomId == eag.atomId
              && r.value.repositoryId == eag.repository.value.text.value
              && r.value.countrycode == eag.repository.value.countrycode
              && r.value.name == Normalize(eag.autform)
              && (r.value.oai.None? <==> oai.None?)
              && (oai.Some? ==> r.value.oai == Some(ParseOai(oai.value)))
  {
    if eag.atomId == "" then Err(AssertionFailed("atom_id"))
    else if eag.repository.None? then Err(AssertionFailed("repositorid"))
    else if eag.repository.value.text.None? then Err(AssertionFailed("repositorid text"))
    else if eag.repository.value.countrycode == "" then Err(AssertionFailed("countrycode"))
    else
      var name := Normalize(eag.autform);
      if name == "" then Err(AssertionFailed("name"))
      else
        Ok(Archive(id, file, eag.atomId, eag.repository.value.text.value,
                   eag.repository.value.countrycode, name,
                   match oai case None => None case Some(o) => Some(ParseOai(o))))
  }

  /** An archive's name is in normal form and holds at least one character
      that is not whitespace; an autform that is nothing but whitespace is
      rejected. */
  lemma ArchiveName(id: nat, file: string, eag: EagXml, oai: Option<OaiXml>)
    ensures ParseArchive(id, file, eag, oai).Ok? ==>
              Normalized(ParseArchive(id, file, eag, oai).value.name)
              && ParseArchive(id, file, eag, oai).value.name != ""
    ensures (forall i :: 0 <= i < |eag.autform| ==> Text.IsSpace(eag.autform[i])) ==>
              ParseArchive(id, file, eag, oai).Err?
  {
    NormalizeShape(eag.autform);
    NormalizeEmpty(eag.autform);
  }
}

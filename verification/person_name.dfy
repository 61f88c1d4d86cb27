/** `XmlPersonName` (modules/models/xml_person_name.py): one mention of a
    person in a charter text, with the key that may identify the person. */
module PersonNames {
  import opened Wrappers
  import opened Text
  import opened Utils
  import Seqs

  /** `IndexLocation`: where in the charter the mention sits. */
  datatype IndexLocation = Abstract | Back | Tenor

  /** The mention element: the text nodes below it, in document order, and
      its `reg` and `key` attributes. */
  datatype PersonNameXml = PersonNameXml(texts: seq<string>, reg: Option<string>, key: Option<string>)

  datatype PersonName = PersonName(
    id: nat,
    charterId: nat,
    location: IndexLocation,
    personId: Option<nat>,
    text: string,
    reg: Option<string>,
    key: Option<string>,
    wikidataIri: Option<string>)

  const EntityPrefix: string := "http://www.wikidata.org/entity/"

  /** The Wikidata entity a (normalised) key names: "wikidata:Q…" keys keep
      what follows their last ":", "P_wikidata_…" keys what follows their
      last "_"; any other key names none. */
  function WikidataIri(key: Option<string>): (r: Option<string>)
    ensures key.None? ==> r.None?
    ensures key.Some? && StartsWith(key.value, "wikidata:Q") ==> r == Some(EntityPrefix + AfterLast(key.value, ':'))
    ensures key.Some? && !StartsWith(key.value, "wikidata:Q") && StartsWith(key.value, "P_wikidata_") ==>
              r == Some(EntityPrefix + AfterLast(key.value, '_'))
    ensures key.Some? && !StartsWith(key.value, "wikidata:Q") && !StartsWith(key.value, "P_wikidata_") ==> r.None?
  {
    match key
    case None => None
    case Some(k) =>
      if StartsWith(k, "wikidata:Q") then Some(EntityPrefix + AfterLast(k, ':'))
      else if StartsWith(k, "P_wikidata_") then Some(EntityPrefix + AfterLast(k, '_'))
      else None
  }

  /** `normalize_string` applied to an attribute that may be missing. */
  function NormalizeOpt(a: Option<string>): (r: Option<string>)
    ensures r.None? <==> a.None?
    ensures r.Some? ==> r.value == Normalize(a.value)
  {
    match a
    case None => None
    case Some(v) => Some(Normalize(v))
  }

  /** `XmlPersonName(charter_id, cei, location)`, given the ID it drew. */
  function ParsePersonName(id: nat, charterId: nat, x: PersonNameXml, location: IndexLocation): (r: PersonName)
    ensures r.id == id && r.charterId == charterId && r.location == location
    ensures r.personId.None?
    ensures r.text == Normalize(Seqs.Concat(x.texts))
    ensures r.reg == NormalizeOpt(x.reg) && r.key == NormalizeOpt(x.key)
    ensures r.wikidataIri == WikidataIri(r.key)
  {
    var key := NormalizeOpt(x.key);
    PersonName(id, charterId, location, None, Normalize(Seqs.Concat(x.texts)), NormalizeOpt(x.reg), key, WikidataIri(key))
  }

  /** `set_person_id(person_id)`: sets the person and nothing else. */
  function SetPersonId(n: PersonName, personId: nat): (r: PersonName)
    ensures r.personId == Some(personId)
    ensures r == n.(personId := r.personId)
  {
    n.(personId := Some(personId))
  }

  /** A Wikidata item key names the item: "wikidata:Q42" gives ".../entity/Q42". */
  lemma WikidataItemKey(n: string)
    requires ':' !in n
    ensures WikidataIri(Some("wikidata:Q" + n)) == Some(EntityPrefix + "Q" + n)
  {
    var k := "wikidata:Q" + n;
    assert k[..10] == "wikidata:Q";
    assert k == "wikidata" + [':'] + ("Q" + n);
    AfterLastAppend("wikidata", ':', "Q" + n);
    assert EntityPrefix + ("Q" + n) == EntityPrefix + "Q" + n;
  }

  /** A "P_wikidata_" key keeps only the text after the last "_": the key
      "P_wikidata_123" gives ".../entity/123", without a "Q". */
  lemma WikidataPrefixedKey(n: string)
    requires '_' !in n
    ensures WikidataIri(Some("P_wikidata_" + n)) == Some(EntityPrefix + n)
  {
    var k := "P_wikidata_" + n;
    assert k[..11] == "P_wikidata_";
    assert k[..10] != "wikidata:Q" by { assert k[0] == 'P'; }
    assert k == "P_wikidata" + ['_'] + n;
    AfterLastAppend("P_wikidata", '_', n);
  }

  /** The text of a mention is in normal form, and so are `reg` and `key`. */
  lemma PersonNameNormalized(id: nat, charterId: nat, x: PersonNameXml, location: IndexLocation)
    ensures Normalized(ParsePersonName(id, charterId, x, location).text)
    ensures x.reg.Some? ==> Normalized(ParsePersonName(id, charterId, x, location).reg.value)
    ensures x.key.Some? ==> Normalized(ParsePersonName(id, charterId, x, location).key.value)
  {
    NormalizeShape(Seqs.Concat(x.texts));
    if x.reg.Some? {
      NormalizeShape(x.reg.value);
    }
    if x.key.Some? {
      NormalizeShape(x.key.value);
    }
  }
}

/** `XmlIndexPerson` and `XmlPersonIndex` (modules/models/xml_index_person.py,
    modules/models/xml_person_index.py): the persons of a TEI person index,
    each with its identifiers and the names it is known by. */
module IndexPersons {
  import opened Wrappers
  import opened Text
  import opened SerialIds

  /** A `momtei:persName`: its text (None when it has none) and `ref`. */
  datatype PersNameXml = PersNameXml(text: Option<string>, ref: Option<string>)

  /** A `momtei:person`: its `xml:id`, the text of its `idno[@type='URI']`
      (None when the element is missing) and its names, in document order. */
  datatype IndexPersonXml = IndexPersonXml(xmlId: Option<string>, uri: Option<string>, names: seq<PersNameXml>)

  /** `Name(text, ref)` */
  datatype Name = Name(text: string, ref: Option<string>)

  datatype IndexPerson = IndexPerson(
    id: nat,
    indexIdentifier: string,
    xmlId: string,
    momIri: string,
    wikidataIri: Option<string>,
    names: seq<Name>)

  /** The index document: `atomId` read with the default "", and its persons. */
  datatype PersonIndexXml = PersonIndexXml(atomId: string, persons: seq<IndexPersonXml>)

  datatype PersonIndexDoc = PersonIndexDoc(atomId: string, identifier: string, persons: seq<IndexPerson>)

  const MomIndexBase: string := "http://www.monasterium.net/mom/index/"

  const BareWikidata: string := "http://wikidata.org/"
  const WwwWikidata: string := "http://www.wikidata.org/"

  /** The Wikidata IRI with the host spelled without "www." corrected: no
      occurrence of the bare host is left. */
  function FixWikidataIri(uri: Option<string>): (r: Option<string>)
    ensures r.None? <==> uri.None?
    ensures r.Some? ==> !Contains(r.value, BareWikidata)
    ensures r.Some? && !Contains(uri.value, BareWikidata) ==> r == uri
    ensures r.Some? ==> r.value == ReplaceAll(uri.value, BareWikidata, WwwWikidata)
  {
    match uri
    case None => None
    case Some(u) =>
      NoBareHostLeft(u);
      if !Contains(u, BareWikidata) then
        ReplaceAllAbsent(u, BareWikidata, WwwWikidata);
        Some(ReplaceAll(u, BareWikidata, WwwWikidata))
      else Some(ReplaceAll(u, BareWikidata, WwwWikidata))
  }

  /** After the replacement, the bare host occurs nowhere: it is neither
      left over nor formed across a replaced host. */
  lemma {:induction false} NoBareHostLeft(s: string)
    ensures !Contains(ReplaceAll(s, BareWikidata, WwwWikidata), BareWikidata)
    decreases |s|
  {
    var o := ReplaceAll(s, BareWikidata, WwwWikidata);
    if |s| < |BareWikidata| {
      ShorterAbsent(s, BareWikidata);
    } else if s[..|BareWikidata|] == BareWikidata {
      NoBareHostLeft(s[|BareWikidata|..]);
      NoBareHostAfterWww(ReplaceAll(s[|BareWikidata|..], BareWikidata, WwwWikidata));
    } else {
      var rest := ReplaceAll(s[1..], BareWikidata, WwwWikidata);
      NoBareHostLeft(s[1..]);
      assert o == [s[0]] + rest && o[1..] == rest;
      if |BareWikidata| <= |o| && o[..|BareWikidata|] == BareWikidata {
        BareHostSuffixKept(s, 0);
        assert false;
      }
    }
  }

  /** The bare host has its only "h" in front. */
  lemma BareHostLetters()
    ensures forall j :: 0 < j < |BareWikidata| ==> BareWikidata[j] != 'h'
  {
  }

  /** If the replaced text starts with the part of the bare host from `j`
      on, so did the text before replacement. */
  lemma {:induction false} BareHostSuffixKept(s: string, j: nat)
    requires j < |BareWikidata|
    ensures StartsWith(ReplaceAll(s, BareWikidata, WwwWikidata), BareWikidata[j..]) ==>
              StartsWith(s, BareWikidata[j..])
    decreases |s|
  {
    var q := BareWikidata[j..];
    var o := ReplaceAll(s, BareWikidata, WwwWikidata);
    BareHostLetters();
    if |s| < |BareWikidata| {
    } else if s[..|BareWikidata|] == BareWikidata {
      if j == 0 {
        assert q == BareWikidata;
      } else {
        // the replaced text starts with the "h" of the "www." host, and the
        // bare host has no other "h"
        assert o == WwwWikidata + ReplaceAll(s[|BareWikidata|..], BareWikidata, WwwWikidata);
        assert o[0] == 'h' != q[0];
      }
    } else {
      var rest := ReplaceAll(s[1..], BareWikidata, WwwWikidata);
      assert o == [s[0]] + rest;
      if StartsWith(o, q) {
        assert s[0] == q[0];
        if |q| > 1 {
          assert q[1..] == BareWikidata[j + 1..];
          assert rest[..|q| - 1] == o[1..|q|];
          BareHostSuffixKept(s[1..], j + 1);
          assert s[..|q|] == [s[0]] + s[1..][..|q| - 1];
        }
      }
    }
  }

  /** A text that does not contain the bare host still does not once the
      "www." host is put in front of it. */
  lemma NoBareHostAfterWww(t: string)
    requires !Contains(t, BareWikidata)
    ensures !Contains(WwwWikidata + t, BareWikidata)
  {
    var u := WwwWikidata + t;
    forall i | 0 <= i < |WwwWikidata| ensures !StartsWith(u[i..], BareWikidata) {
      if i == 0 {
        assert u[8] != BareWikidata[8];
      } else {
        assert u[i] == WwwWikidata[i] != 'h';
      }
    }
    assert u[|WwwWikidata|..] == t;
    ContainsDrop(u, BareWikidata, |WwwWikidata|);
  }

  /** The names that have text, verbatim, with their `ref`, in document order. */
  function Names(xs: seq<PersNameXml>): (r: seq<Name>)
    ensures |r| <= |xs|
    ensures forall i :: 0 <= i < |xs| && xs[i].text.Some? ==> Name(xs[i].text.value, xs[i].ref) in r
    ensures forall k :: 0 <= k < |r| ==> PersNameXml(Some(r[k].text), r[k].ref) in xs
    decreases |xs|
  {
    if |xs| == 0 then []
    else
      var init := xs[..|xs| - 1];
      var x := xs[|xs| - 1];
      assert xs == init + [x];
      var r := Names(init);
      match x.text
      case None => r
      case Some(t) => r + [Name(t, x.ref)]
  }

  /** Document order is kept and every name with text appears once for
      each element: the names of two runs of elements are those of the
      first followed by those of the second, and one element yields a name
      exactly when it has text. */
  lemma {:induction false} NamesOrder(a: seq<PersNameXml>, b: seq<PersNameXml>, x: PersNameXml)
    ensures Names(a + b) == Names(a) + Names(b)
    ensures Names([x]) == if x.text.Some? then [Name(x.text.value, x.ref)] else []
    decreases |b|
  {
    assert [x][..0] == [];
    if |b| == 0 {
      assert a + b == a;
    } else {
      var init := b[..|b| - 1];
      assert (a + b)[..|a + b| - 1] == a + init;
      assert (a + b)[|a + b| - 1] == b[|b| - 1];
      NamesOrder(a, init, x);
    }
  }

  /** `XmlIndexPerson(tei, index_identifier)`, given the ID it drew first. */
  function ParseIndexPerson(id: nat, x: IndexPersonXml, indexIdentifier: string): (r: Result<IndexPerson>)
    ensures r.Ok? <==> x.xmlId.Some?
    ensures r.Err? ==> r.error.Malformed?
    ensures r.Ok? ==>
              && r.value.id == id && r.value.indexIdentifier == indexIdentifier
              && r.value.xmlId == x.xmlId.value
              && r.value.momIri == MomIndexBase + indexIdentifier + "/" + x.xmlId.value
              && r.value.wikidataIri == FixWikidataIri(x.uri)
              && r.value.names == Names(x.names)
  {
    match x.xmlId
    case None => Err(Malformed("IndexPerson has no xml:id"))
    case Some(xmlId) =>
      Ok(IndexPerson(id, indexIdentifier, xmlId, MomIndexBase + indexIdentifier + "/" + xmlId,
                     FixWikidataIri(x.uri), Names(x.names)))
  }

  /** The persons of one index, built in document order, each drawing the
      next index-person ID; the first person without an `xml:id` fails the
      whole index, after the IDs drawn so far. */
  function BuildIndexPersons(xs: seq<IndexPersonXml>, identifier: string, c: Counters): (s: Stage<seq<IndexPerson>>)
    ensures s.out.Ok? <==> forall i :: 0 <= i < |xs| ==> xs[i].xmlId.Some?
    ensures s.out.Ok? ==> Current(s.counters, IndexPersonKind) == Current(c, IndexPersonKind) + |xs|
    ensures s.out.Ok? ==> |s.out.value| == |xs|
    ensures s.out.Ok? ==> forall i :: 0 <= i < |xs| ==>
              s.out.value[i] == ParseIndexPerson(Current(c, IndexPersonKind) + i + 1, xs[i], identifier).value
    ensures forall k :: k != IndexPersonKind ==> Current(s.counters, k) == Current(c, k)
    decreases |xs|
  {
    if |xs| == 0 then Stage(Ok([]), c)
    else
      var init := xs[..|xs| - 1];
      var x := xs[|xs| - 1];
      assert forall i :: 0 <= i < |init| ==> init[i] == xs[i];
      var before := BuildIndexPersons(init, identifier, c);
      match before.out
      case Err(e) => Stage(Err(e), before.counters)
      case Ok(persons) =>
        var a := Next(Construct(Some(before.counters)), IndexPersonKind);
        match ParseIndexPerson(a.id, x, identifier)
        case Err(e) => Stage(Err(e), a.counters)
        case Ok(p) => Stage(Ok(persons + [p]), a.counters)
  }

  /** `XmlPersonIndex(tei)`: the atom id is required; the identifier is its
      last "/"-separated segment; every person is built with it. */
  function ParsePersonIndex(x: PersonIndexXml, c: Counters): (s: Stage<PersonIndexDoc>)
    ensures s.out.Ok? <==> x.atomId != "" && forall i :: 0 <= i < |x.persons| ==> x.persons[i].xmlId.Some?
    ensures x.atomId == "" ==> s == Stage(Err(AssertionFailed("atom_id")), c)
    ensures s.out.Ok? ==>
              && s.out.value.atomId == x.atomId
              && s.out.value.identifier == AfterLast(x.atomId, '/')
              && |s.out.value.persons| == |x.persons|
              && forall i :: 0 <= i < |x.persons| ==>
                   && s.out.value.persons[i].indexIdentifier == s.out.value.identifier
                   && s.out.value.persons[i].xmlId == x.persons[i].xmlId.value
                   && s.out.value.persons[i].id == Current(c, IndexPersonKind) + i + 1
  {
    if x.atomId == "" then Stage(Err(AssertionFailed("atom_id")), c)
    else
      var identifier := AfterLast(x.atomId, '/');
      var built := BuildIndexPersons(x.persons, identifier, c);
      match built.out
      case Err(e) => Stage(Err(e), built.counters)
      case Ok(persons) => Stage(Ok(PersonIndexDoc(x.atomId, identifier, persons)), built.counters)
  }
}

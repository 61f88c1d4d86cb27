/** `Person` and `PersonIndex` (modules/models/person_index.py): the
    registry of persons, found by their Wikidata IRI or by their id in a
    MOM person index.  The Python class keeps its three dictionaries at
    class level, shared by every instance; here they are one explicit
    `PersonIndex` value threaded from call to call, together with the
    shared ID counters. */
module Persons {
  import opened Wrappers
  import opened SerialIds
  import opened IndexPersons
  import opened PersonNames

  datatype Person = Person(
    id: nat,
    momId: Option<string>,
    momIri: Option<string>,
    names: seq<string>,
    wikidataIri: Option<string>)

  datatype PersonIndex = PersonIndex(
    persons: map<nat, Person>,
    wikidataIds: map<string, nat>,
    momIds: map<string, nat>)

  /** Every ID a key map stores names a registered person, stored under its
      own ID. */
  ghost predicate Valid(ix: PersonIndex) {
    && (forall w :: w in ix.wikidataIds ==> ix.wikidataIds[w] in ix.persons)
    && (forall m :: m in ix.momIds ==> ix.momIds[m] in ix.persons)
    && (forall id :: id in ix.persons ==> ix.persons[id].id == id)
  }

  /** Every registered person's ID was handed out by the shared counter. */
  ghost predicate Coherent(ix: PersonIndex, c: Counters) {
    forall id :: id in ix.persons ==> 1 <= id <= Current(c, PersonKind)
  }

  /** The index before any person was added. */
  function EmptyIndex(): (ix: PersonIndex)
    ensures Valid(ix) && forall c :: Coherent(ix, c)
    ensures |ix.persons| == 0
  {
    PersonIndex(map[], map[], map[])
  }

  /** The registered ID for a key, if the key is given and registered. */
  function Lookup(keys: map<string, nat>, key: Option<string>): (r: Option<nat>)
    ensures r.Some? <==> key.Some? && key.value in keys
    ensures r.Some? ==> r.value == keys[key.value]
  {
    match key
    case None => None
    case Some(k) => if k in keys then Some(keys[k]) else None
  }

  /** `find_person_by_ids(names, wikidata_iri, mom_id)`: a conflict when the
      two keys resolve to different persons; otherwise the person the
      Wikidata key resolves to, else the one the MOM key resolves to, else
      None.  A resolved ID without a person is the `KeyError` the
      dictionary lookup raises.  The names only feed the error message and
      are not modelled. */
  function FindPersonByIds(ix: PersonIndex, wikidataIri: Option<string>, momId: Option<string>): (r: Result<Option<Person>>)
    ensures var w := Lookup(ix.wikidataIds, wikidataIri);
            var m := Lookup(ix.momIds, momId);
            && (w.Some? && m.Some? && w.value != m.value ==> r == Err(IdentityConflict(wikidataIri.value, momId.value)))
            && (w.Some? && (m.None? || m.value == w.value) && w.value in ix.persons ==> r == Ok(Some(ix.persons[w.value])))
            && (w.None? && m.Some? && m.value in ix.persons ==> r == Ok(Some(ix.persons[m.value])))
            && (w.None? && m.None? ==> r == Ok(None))
    ensures Valid(ix) && r.Err? ==> r.error.IdentityConflict?
  {
    var w := Lookup(ix.wikidataIds, wikidataIri);
    var m := Lookup(ix.momIds, momId);
    if w.Some? && m.Some? && w.value != m.value then Err(IdentityConflict(wikidataIri.value, momId.value))
    else
      var pid := if w.Some? then w else m;
      match pid
      case None => Ok(None)
      case Some(id) =>
        if id in ix.persons then Ok(Some(ix.persons[id])) else Err(NotFound("person"))
  }

  /** The outcome of an add: the person's ID, the index and the counters
      afterwards. */
  datatype Added = Added(out: Result<nat>, index: PersonIndex, counters: Counters)

  /** `_add_person(names, wikidata_iri, mom_id, mom_iri)`: a person found by
      either key keeps its record and its ID is returned; otherwise a new
      person with the next person ID is registered under each key given.  A
      failed lookup changes nothing. */
  function AddPerson(ix: PersonIndex, c: Counters, names: seq<string>, wikidataIri: Option<string>,
                     momId: Option<string>, momIri: Option<string>): (r: Added)
    ensures FindPersonByIds(ix, wikidataIri, momId).Err? ==>
              r == Added(Err(FindPersonByIds(ix, wikidataIri, momId).error), ix, c)
    ensures FindPersonByIds(ix, wikidataIri, momId) == Ok(None) ==>
              var id := Current(c, PersonKind) + 1;
              && r.out == Ok(id)
              && r.index.persons == ix.persons[id := Person(id, momId, momIri, names, wikidataIri)]
              && r.index.wikidataIds == (if wikidataIri.Some? then ix.wikidataIds[wikidataIri.value := id] else ix.wikidataIds)
              && r.index.momIds == (if momId.Some? then ix.momIds[momId.value := id] else ix.momIds)
              && r.counters == Next(c, PersonKind).counters
    ensures FindPersonByIds(ix, wikidataIri, momId).Ok? && FindPersonByIds(ix, wikidataIri, momId).value.Some? ==>
              r == Added(Ok(FindPersonByIds(ix, wikidataIri, momId).value.value.id), ix, c)
  {
    match FindPersonByIds(ix, wikidataIri, momId)
    case Err(e) => Added(Err(e), ix, c)
    case Ok(Some(p)) => Added(Ok(p.id), ix, c)
    case Ok(None) =>
      var a := Next(Construct(Some(c)), PersonKind);
      var p := Person(a.id, momId, momIri, names, wikidataIri);
      var wids := if wikidataIri.Some? then ix.wikidataIds[wikidataIri.value := a.id] else ix.wikidataIds;
      var mids := if momId.Some? then ix.momIds[momId.value := a.id] else ix.momIds;
      Added(Ok(a.id), PersonIndex(ix.persons[a.id := p], wids, mids), a.counters)
  }

  /** `count_persons()` */
  function CountPersons(ix: PersonIndex): (n: nat)
    ensures n == |ix.persons.Keys|
  {
    |ix.persons|
  }

  /** Every registered person holds an ID the shared counter handed out, and
      no two hold the same one, so there are never more persons than person
      IDs handed out. */
  lemma CountPersonsBounded(ix: PersonIndex, c: Counters)
    requires Coherent(ix, c)
    ensures CountPersons(ix) <= Current(c, PersonKind)
  {
    IdsBounded(ix.persons.Keys, Current(c, PersonKind));
  }

  lemma {:induction false} IdsBounded(ids: set<nat>, n: nat)
    requires forall id :: id in ids ==> 1 <= id <= n
    ensures |ids| <= n
    decreases n
  {
    if n > 0 {
      IdsBounded(ids - {n}, n - 1);
    } else {
      assert forall id :: id !in ids;
      assert ids == {};
    }
  }

  /** Adding keeps the index valid and coherent with the counters; the count
      grows by one exactly when a new person is created, and by nothing when
      an existing one is found or the lookup fails. */
  lemma AddPersonPreserves(ix: PersonIndex, c: Counters, names: seq<string>, wikidataIri: Option<string>,
                           momId: Option<string>, momIri: Option<string>)
    requires Valid(ix) && Coherent(ix, c)
    ensures var r := AddPerson(ix, c, names, wikidataIri, momId, momIri);
            && Valid(r.index) && Coherent(r.index, r.counters)
            && (FindPersonByIds(ix, wikidataIri, momId) == Ok(None) ==> CountPersons(r.index) == CountPersons(ix) + 1)
            && (FindPersonByIds(ix, wikidataIri, momId) != Ok(None) ==> CountPersons(r.index) == CountPersons(ix))
  {
    if FindPersonByIds(ix, wikidataIri, momId) == Ok(None) {
      AddNewPerson(ix, c, names, wikidataIri, momId, momIri);
    }
  }

  lemma AddNewPerson(ix: PersonIndex, c: Counters, names: seq<string>, wikidataIri: Option<string>,
                     momId: Option<string>, momIri: Option<string>)
    requires Valid(ix) && Coherent(ix, c)
    requires FindPersonByIds(ix, wikidataIri, momId) == Ok(None)
    ensures var r := AddPerson(ix, c, names, wikidataIri, momId, momIri);
            && Valid(r.index) && Coherent(r.index, r.counters)
            && CountPersons(r.index) == CountPersons(ix) + 1
  {
    var r := AddPerson(ix, c, names, wikidataIri, momId, momIri);
    var id := Current(c, PersonKind) + 1;
    assert id !in ix.persons;
    NewPersonCount(ix, id, Person(id, momId, momIri, names, wikidataIri));
    NewPersonValid(ix, r.index, id);
  }

  /** Registering a person under a fresh ID adds one to the count. */
  lemma NewPersonCount(ix: PersonIndex, id: nat, p: Person)
    requires id !in ix.persons
    ensures |ix.persons[id := p]| == |ix.persons| + 1
  {
    assert ix.persons[id := p].Keys == ix.persons.Keys + {id};
  }

  /** An index that gained one person under its own ID, with keys pointing
      either to it or to where they pointed before, is still valid. */
  lemma NewPersonValid(ix: PersonIndex, ix': PersonIndex, id: nat)
    requires Valid(ix)
    requires id in ix'.persons && ix'.persons[id].id == id
    requires forall k :: k in ix'.persons && k != id ==> k in ix.persons && ix'.persons[k] == ix.persons[k]
    requires forall k :: k in ix.persons ==> k in ix'.persons
    requires forall w :: w in ix'.wikidataIds ==> ix'.wikidataIds[w] == id || (w in ix.wikidataIds && ix'.wikidataIds[w] == ix.wikidataIds[w])
    requires forall m :: m in ix'.momIds ==> ix'.momIds[m] == id || (m in ix.momIds && ix'.momIds[m] == ix.momIds[m])
    ensures Valid(ix')
  {
  }

  /** Adding the same identity twice finds the person created the first time:
      the second add returns the same ID and changes nothing. */
  lemma AddPersonTwice(ix: PersonIndex, c: Counters, names: seq<string>, wikidataIri: Option<string>,
                       momId: Option<string>, momIri: Option<string>)
    requires Valid(ix) && Coherent(ix, c)
    requires wikidataIri.Some? || momId.Some?
    requires AddPerson(ix, c, names, wikidataIri, momId, momIri).out.Ok?
    ensures var r := AddPerson(ix, c, names, wikidataIri, momId, momIri);
            var r2 := AddPerson(r.index, r.counters, names, wikidataIri, momId, momIri);
            r2 == Added(r.out, r.index, r.counters)
  {
    var r := AddPerson(ix, c, names, wikidataIri, momId, momIri);
    AddPersonPreserves(ix, c, names, wikidataIri, momId, momIri);
    var id := r.out.value;
    var w := Lookup(r.index.wikidataIds, wikidataIri);
    var m := Lookup(r.index.momIds, momId);
    if FindPersonByIds(ix, wikidataIri, momId) == Ok(None) {
      assert w.Some? ==> w.value == id;
      assert m.Some? ==> m.value == id;
      assert r.index.persons[id].id == id;
    } else {
      var p := FindPersonByIds(ix, wikidataIri, momId).value.value;
      assert p.id in ix.persons;
    }
  }

  /** The texts of a person's names, in order. */
  function NameTexts(names: seq<Name>): (r: seq<string>)
    ensures |r| == |names| && forall i :: 0 <= i < |names| ==> r[i] == names[i].text
  {
    seq(|names|, i requires 0 <= i < |names| => names[i].text)
  }

  /** `add_xml_index_person(person)`: the person is registered under its
      Wikidata IRI and its `xml:id` as MOM id, unless one of them already
      names a person; a conflict between the two keys changes nothing.  The
      ID returned is one the person's keys resolve to afterwards, and every
      earlier registration stays in place. */
  function AddIndexPerson(ix: PersonIndex, c: Counters, p: IndexPerson): (r: Added)
    ensures r.out.Err? <==> FindPersonByIds(ix, p.wikidataIri, Some(p.xmlId)).Err?
    ensures r.out.Err? ==> r.index == ix && r.counters == c
    ensures FindPersonByIds(ix, p.wikidataIri, Some(p.xmlId)) == Ok(None) ==>
              && r.out.Ok? && r.out.value in r.index.persons
              && r.index.persons[r.out.value] == Person(r.out.value, Some(p.xmlId), Some(p.momIri), NameTexts(p.names), p.wikidataIri)
    ensures Valid(ix) && Coherent(ix, c) ==>
              && Valid(r.index) && Coherent(r.index, r.counters) && Extends(ix, r.index)
              && (r.out.Ok? ==> Resolves(r.index, p, r.out.value))
  {
    AddPersonRegisters(ix, c, NameTexts(p.names), p.wikidataIri, Some(p.xmlId), Some(p.momIri));
    AddPerson(ix, c, NameTexts(p.names), p.wikidataIri, Some(p.xmlId), Some(p.momIri))
  }

  /** The keys given resolve to `id`: the Wikidata IRI or the MOM id. */
  ghost predicate KeysResolve(ix: PersonIndex, wikidataIri: Option<string>, momId: Option<string>, id: nat) {
    || (wikidataIri.Some? && wikidataIri.value in ix.wikidataIds && ix.wikidataIds[wikidataIri.value] == id)
    || (momId.Some? && momId.value in ix.momIds && ix.momIds[momId.value] == id)
  }

  /** An add on a valid, coherent index keeps it so, undoes no registration,
      and returns an ID the keys resolve to afterwards. */
  lemma AddPersonRegisters(ix: PersonIndex, c: Counters, names: seq<string>, wikidataIri: Option<string>,
                           momId: Option<string>, momIri: Option<string>)
    ensures Valid(ix) && Coherent(ix, c) ==>
              var r := AddPerson(ix, c, names, wikidataIri, momId, momIri);
              && Valid(r.index) && Coherent(r.index, r.counters) && Extends(ix, r.index)
              && (r.out.Ok? && (wikidataIri.Some? || momId.Some?) ==> KeysResolve(r.index, wikidataIri, momId, r.out.value))
  {
    if Valid(ix) && Coherent(ix, c) {
      AddPersonPreserves(ix, c, names, wikidataIri, momId, momIri);
      if FindPersonByIds(ix, wikidataIri, momId) == Ok(None) {
        assert Current(c, PersonKind) + 1 !in ix.persons;
      }
    }
  }

  /** The outcome of adding a list: the IDs, in input order, and the state. */
  datatype AddedAll = AddedAll(out: Result<seq<nat>>, index: PersonIndex, counters: Counters)

  /** `add_all_xml_index_persons(persons)`: one ID per person in input order;
      the first failure aborts the list, while the additions before it stay
      in the shared index. */
  function AddAllIndexPersons(ix: PersonIndex, c: Counters, ps: seq<IndexPerson>): (r: AddedAll)
    ensures r.out.Ok? ==> |r.out.value| == |ps|
    ensures |ps| == 0 ==> r == AddedAll(Ok([]), ix, c)
    decreases |ps|
  {
    if |ps| == 0 then AddedAll(Ok([]), ix, c)
    else
      var before := AddAllIndexPersons(ix, c, ps[..|ps| - 1]);
      match before.out
      case Err(e) => AddedAll(Err(e), before.index, before.counters)
      case Ok(ids) =>
        var a := AddIndexPerson(before.index, before.counters, ps[|ps| - 1]);
        match a.out
        case Err(e) => AddedAll(Err(e), a.index, a.counters)
        case Ok(id) => AddedAll(Ok(ids + [id]), a.index, a.counters)
  }

  /** Once an entry fails, the rest of the list is not looked at: the
      outcome is the one after the failing entry. */
  lemma {:induction false} AddAllIndexPersonsAborts(ix: PersonIndex, c: Counters, ps: seq<IndexPerson>, n: nat)
    requires n <= |ps|
    requires AddAllIndexPersons(ix, c, ps[..n]).out.Err?
    ensures AddAllIndexPersons(ix, c, ps) == AddAllIndexPersons(ix, c, ps[..n])
    decreases |ps|
  {
    if n < |ps| {
      var init := ps[..|ps| - 1];
      assert init[..n] == ps[..n];
      AddAllIndexPersonsAborts(ix, c, init, n);
    } else {
      assert ps[..n] == ps;
    }
  }

  /** The first entry whose add fails decides the outcome: its error, with
      the index and counters as that add left them, so the additions before
      it stay in the index. */
  lemma AddAllIndexPersonsFirstFailure(ix: PersonIndex, c: Counters, ps: seq<IndexPerson>, i: nat)
    requires i < |ps| && AddAllIndexPersons(ix, c, ps[..i]).out.Ok?
    requires AddIndexPerson(AddAllIndexPersons(ix, c, ps[..i]).index, AddAllIndexPersons(ix, c, ps[..i]).counters, ps[i]).out.Err?
    ensures var before := AddAllIndexPersons(ix, c, ps[..i]);
            var a := AddIndexPerson(before.index, before.counters, ps[i]);
            AddAllIndexPersons(ix, c, ps) == AddedAll(Err(a.out.error), a.index, a.counters)
  {
    var upto := ps[..i + 1];
    assert upto[..|upto| - 1] == ps[..i] && upto[|upto| - 1] == ps[i];
    AddAllIndexPersonsAborts(ix, c, ps, i + 1);
  }

  /** The list succeeds exactly when every entry's add succeeds on the state
      the entries before it left. */
  lemma AddAllIndexPersonsSucceeds(ix: PersonIndex, c: Counters, ps: seq<IndexPerson>)
    ensures AddAllIndexPersons(ix, c, ps).out.Ok? <==>
              forall i :: 0 <= i < |ps| ==> AddAllIndexPersons(ix, c, ps[..i]).out.Ok? && StepSucceeds(ix, c, ps, i)
  {
    if AddAllIndexPersons(ix, c, ps).out.Ok? {
      forall i | 0 <= i < |ps| ensures AddAllIndexPersons(ix, c, ps[..i]).out.Ok? && StepSucceeds(ix, c, ps, i) {
        var upto := ps[..i + 1];
        assert upto[..|upto| - 1] == ps[..i] && upto[|upto| - 1] == ps[i];
        if AddAllIndexPersons(ix, c, upto).out.Err? {
          AddAllIndexPersonsAborts(ix, c, ps, i + 1);
        }
      }
    } else if |ps| > 0 {
      assert ps[..|ps| - 1] == ps[..|ps| - 1];
      assert !(AddAllIndexPersons(ix, c, ps[..|ps| - 1]).out.Ok? && StepSucceeds(ix, c, ps, |ps| - 1));
    }
  }

  /** The add of entry `i` succeeds on the state the entries before it left. */
  ghost predicate StepSucceeds(ix: PersonIndex, c: Counters, ps: seq<IndexPerson>, i: nat)
    requires i < |ps|
  {
    var before := AddAllIndexPersons(ix, c, ps[..i]);
    AddIndexPerson(before.index, before.counters, ps[i]).out.Ok?
  }

  /** Registrations are never undone or redirected: every person and every
      key of `ix` is still there, with the same value, in `ix'`. */
  ghost predicate Extends(ix: PersonIndex, ix': PersonIndex) {
    && (forall id :: id in ix.persons ==> id in ix'.persons && ix'.persons[id] == ix.persons[id])
    && (forall w :: w in ix.wikidataIds ==> w in ix'.wikidataIds && ix'.wikidataIds[w] == ix.wikidataIds[w])
    && (forall m :: m in ix.momIds ==> m in ix'.momIds && ix'.momIds[m] == ix.momIds[m])
  }

  /** One of the keys of index person `p` resolves to `id`. */
  ghost predicate Resolves(ix: PersonIndex, p: IndexPerson, id: nat) {
    KeysResolve(ix, p.wikidataIri, Some(p.xmlId), id)
  }

  /** One add keeps the index valid and coherent, extends it by at most one
      person, and the ID it returns is one its keys resolve to afterwards. */
  lemma AddIndexPersonStep(ix: PersonIndex, c: Counters, p: IndexPerson)
    requires Valid(ix) && Coherent(ix, c)
    ensures var a := AddIndexPerson(ix, c, p);
            && Valid(a.index) && Coherent(a.index, a.counters)
            && Extends(ix, a.index)
            && CountPersons(ix) <= CountPersons(a.index) <= CountPersons(ix) + 1
            && (a.out.Ok? ==> Resolves(a.index, p, a.out.value))
  {
    AddPersonPreserves(ix, c, NameTexts(p.names), p.wikidataIri, Some(p.xmlId), Some(p.momIri));
  }

  lemma ExtendsTransitive(a: PersonIndex, b: PersonIndex, c: PersonIndex)
    requires Extends(a, b) && Extends(b, c)
    ensures Extends(a, c)
  {
  }

  lemma ResolvesExtended(ix: PersonIndex, ix': PersonIndex, p: IndexPerson, id: nat)
    requires Resolves(ix, p, id) && Extends(ix, ix')
    ensures Resolves(ix', p, id)
  {
  }

  /** Adding a list keeps the index valid, coherent and extended, and adds
      at most one person per entry. */
  lemma {:induction false} AddAllIndexPersonsState(ix: PersonIndex, c: Counters, ps: seq<IndexPerson>)
    requires Valid(ix) && Coherent(ix, c)
    ensures var r := AddAllIndexPersons(ix, c, ps);
            && Valid(r.index) && Coherent(r.index, r.counters) && Extends(ix, r.index)
            && CountPersons(ix) <= CountPersons(r.index) <= CountPersons(ix) + |ps|
    decreases |ps|
  {
    if |ps| > 0 {
      var before := AddAllIndexPersons(ix, c, ps[..|ps| - 1]);
      AddAllIndexPersonsState(ix, c, ps[..|ps| - 1]);
      if before.out.Ok? {
        AddIndexPersonStep(before.index, before.counters, ps[|ps| - 1]);
        ExtendsTransitive(ix, before.index, AddIndexPerson(before.index, before.counters, ps[|ps| - 1]).index);
      }
    }
  }

  /** The ID reported for each entry, in input order, is one that entry's
      keys resolve to once the whole list has been added. */
  lemma {:induction false} AddAllIndexPersonsResolve(ix: PersonIndex, c: Counters, ps: seq<IndexPerson>)
    requires Valid(ix) && Coherent(ix, c)
    ensures var r := AddAllIndexPersons(ix, c, ps);
            r.out.Ok? ==> forall i :: 0 <= i < |ps| ==> Resolves(r.index, ps[i], r.out.value[i])
    decreases |ps|
  {
    var r := AddAllIndexPersons(ix, c, ps);
    if |ps| > 0 && r.out.Ok? {
      var init := ps[..|ps| - 1];
      var before := AddAllIndexPersons(ix, c, init);
      AddAllIndexPersonsResolve(ix, c, init);
      AddAllIndexPersonsState(ix, c, init);
      AddIndexPersonStep(before.index, before.counters, ps[|ps| - 1]);
      forall i | 0 <= i < |ps| - 1 ensures Resolves(r.index, ps[i], r.out.value[i]) {
        assert ps[i] == init[i];
        ResolvesExtended(before.index, r.index, init[i], before.out.value[i]);
      }
    }
  }

  /** `find_for_name(name)`: the person the mention's Wikidata IRI names,
      else the one its key names as MOM id, else None; a conflict when the
      two name different persons.  In a valid index the person found is
      registered under one of the mention's keys. */
  function FindForName(ix: PersonIndex, n: PersonName): (r: Result<Option<Person>>)
    ensures var w := Lookup(ix.wikidataIds, n.wikidataIri);
            var m := Lookup(ix.momIds, n.key);
            && (r == Ok(None) <==> w.None? && m.None?)
            && (Valid(ix) ==> (r.Err? <==> w.Some? && m.Some? && w.value != m.value))
            && (r.Ok? && r.value.Some? && w.Some? ==> w.value in ix.persons && r.value.value == ix.persons[w.value])
            && (r.Ok? && r.value.Some? && w.None? ==> m.Some? && m.value in ix.persons && r.value.value == ix.persons[m.value])
            && (Valid(ix) && r.Ok? && r.value.Some? ==> KeysResolve(ix, n.wikidataIri, n.key, r.value.value.id))
  {
    FindPersonByIds(ix, n.wikidataIri, n.key)
  }
}

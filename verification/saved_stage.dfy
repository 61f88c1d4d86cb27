/** `MomBackup.list_saved_charters` (modules/models/mom_backup.py): the
    charters users saved while editing.  Every saved document is read (an
    absent one aborts); one whose file name does not resolve to a fond or
    collection, or that fails to construct, is skipped; only the first of
    each atom id is kept.  The charters are then handed out once per save
    recorded in the user documents, stamped with the saving user. */
module SavedStage {
  import opened Wrappers
  import opened SerialIds
  import opened Contents
  import opened Fonds
  import opened Collections
  import opened Users
  import opened Charters
  import opened SavedCharters
  import opened Backup
  import opened Stages
  import Seqs

  function SavedId(x: SavedCharter): int { x.charter.id }
  function SavedFile(x: SavedCharter): string { x.charter.file }
  function SavedAtomId(x: SavedCharter): string { x.charter.atomId }

  function MakeSaved(store: Store, fonds: seq<Fond>, collections: seq<Collection>, id: nat, file: string): Result<SavedCharter> {
    if SavedPath(file) !in store.charterCeis then Err(NotFound(SavedPath(file)))
    else
      match ResolveTarget(file, fonds, collections)
      case Err(e) => Err(e)
      case Ok(target) => ParseSavedCharter(id, file, store.charterCeis[SavedPath(file)], target)
  }

  /** The saved-charter loop: the file name is resolved before any ID is
      drawn, so an unresolvable one costs no ID. */
  function SavedLoop(store: Store, fonds: seq<Fond>, collections: seq<Collection>): Loop<SavedCharter> {
    Loop(CharterKind,
         f => SavedPath(f) in store.charterCeis,
         f => ResolveTarget(f, fonds, collections).Ok?,
         f => SavedPath(f) in store.charterCeis && ResolveTarget(f, fonds, collections).Ok?
              && ValidCei(store.charterCeis[SavedPath(f)]),
         f => NotFound(SavedPath(f)),
         Abort, Skip,
         (id, f) => MakeSaved(store, fonds, collections, id, f),
         SavedId, SavedFile)
  }

  lemma SavedLoopWellFormed(store: Store, fonds: seq<Fond>, collections: seq<Collection>)
    ensures WellFormed(SavedLoop(store, fonds, collections))
  {
  }

  /** One `xrx:saved` entry of a user, with the user who made it. */
  datatype SaveEvent = SaveEvent(editorId: nat, record: SavedRecord)

  /** One user's saves, in document order. */
  function UserSaves(u: User): (r: seq<SaveEvent>)
    ensures |r| == |u.savedCharters|
    ensures forall k :: 0 <= k < |r| ==> r[k] == SaveEvent(u.id, u.savedCharters[k])
  {
    seq(|u.savedCharters|, k requires 0 <= k < |u.savedCharters| => SaveEvent(u.id, u.savedCharters[k]))
  }

  /** The users' saves, user by user and in document order within each user. */
  function SaveEvents(users: seq<User>): (r: seq<SaveEvent>)
    ensures forall e :: e in r ==> exists i :: 0 <= i < |users| && e.editorId == users[i].id && e.record in users[i].savedCharters
    ensures forall i, s :: 0 <= i < |users| && s in users[i].savedCharters ==> SaveEvent(users[i].id, s) in r
    decreases |users|
  {
    if |users| == 0 then []
    else
      var init := users[..|users| - 1];
      var u := users[|users| - 1];
      assert forall i :: 0 <= i < |init| ==> init[i] == users[i];
      var own := UserSaves(u);
      assert forall s :: s in u.savedCharters ==> SaveEvent(u.id, s) in own by {
        forall s | s in u.savedCharters ensures SaveEvent(u.id, s) in own {
          var k :| 0 <= k < |u.savedCharters| && u.savedCharters[k] == s;
          assert own[k] == SaveEvent(u.id, s);
        }
      }
      assert forall e :: e in own ==> e.editorId == u.id && e.record in u.savedCharters;
      SaveEvents(init) + own
  }

  /** The saves come user by user, in the order of the users, and one user
      contributes exactly its own saves, once each and in document order. */
  lemma {:induction false} SaveEventsOrder(a: seq<User>, b: seq<User>, u: User)
    ensures SaveEvents(a + b) == SaveEvents(a) + SaveEvents(b)
    ensures SaveEvents([u]) == UserSaves(u)
    decreases |b|
  {
    assert [u][..0] == [];
    if |b| == 0 {
      assert a + b == a;
    } else {
      var init := b[..|b| - 1];
      assert (a + b)[..|a + b| - 1] == a + init;
      assert (a + b)[|a + b| - 1] == b[|b| - 1];
      SaveEventsOrder(a, init, u);
    }
  }

  /** The last save of `atomId`, if any. */
  function LastSave(events: seq<SaveEvent>, atomId: string): (r: Option<SaveEvent>)
    ensures r.None? <==> forall i :: 0 <= i < |events| ==> events[i].record.atomId != atomId
    ensures r.Some? ==> exists i :: 0 <= i < |events| && events[i] == r.value && r.value.record.atomId == atomId
                          && forall j :: i < j < |events| ==> events[j].record.atomId != atomId
    decreases |events|
  {
    if |events| == 0 then None
    else
      var init := events[..|events| - 1];
      assert forall i :: 0 <= i < |init| ==> init[i] == events[i];
      if events[|events| - 1].record.atomId == atomId then Some(events[|events| - 1])
      else LastSave(init, atomId)
  }

  /** The position of the listed charter with `atomId`, if any. */
  function CharterIndex(charters: seq<SavedCharter>, atomId: string): (r: Option<nat>)
    ensures r.Some? ==> r.value < |charters| && charters[r.value].charter.atomId == atomId
    ensures r.None? <==> forall j :: 0 <= j < |charters| ==> charters[j].charter.atomId != atomId
  {
    Seqs.FirstIndex(charters, (x: SavedCharter) => x.charter.atomId == atomId)
  }

  /** A save of a charter that is listed. */
  function ListedIn(charters: seq<SavedCharter>): SaveEvent -> bool {
    (e: SaveEvent) => CharterIndex(charters, e.record.atomId).Some?
  }

  /** The saves of charters that are listed: every such save, and no other. */
  function Matched(users: seq<User>, charters: seq<SavedCharter>): (r: seq<SaveEvent>)
    ensures forall k :: 0 <= k < |r| ==> r[k] in SaveEvents(users) && CharterIndex(charters, r[k].record.atomId).Some?
    ensures forall e :: e in SaveEvents(users) && CharterIndex(charters, e.record.atomId).Some? ==> e in r
  {
    var events := SaveEvents(users);
    var r := Seqs.Filter(events, ListedIn(charters));
    forall e | e in events && CharterIndex(charters, e.record.atomId).Some? ensures e in r {
      var i :| 0 <= i < |events| && events[i] == e;
    }
    r
  }

  /** The matched saves keep save order: user by user, and within one user
      in document order, each save kept exactly when its charter is listed. */
  lemma MatchedOrder(a: seq<User>, b: seq<User>, u: User, charters: seq<SavedCharter>)
    ensures Matched(a + b, charters) == Matched(a, charters) + Matched(b, charters)
    ensures Matched([u], charters) == Seqs.Filter(UserSaves(u), ListedIn(charters))
  {
    SaveEventsOrder(a, b, u);
    Seqs.FilterAppend(SaveEvents(a), SaveEvents(b), ListedIn(charters));
  }

  /** The charter object with the fields the last assignment to it left:
      Python mutates the one shared object on every save, so every copy
      in the result shows the values of the last save of its atom id. */
  function Stamp(x: SavedCharter, e: SaveEvent): SavedCharter {
    x.(editorId := e.editorId, startTime := Some(e.record.startTime), released := e.record.released)
  }

  /** The second loop of `list_saved_charters`: one entry per save of a
      listed charter, in save order. */
  function CrossLink(users: seq<User>, charters: seq<SavedCharter>): (r: seq<SavedCharter>)
    ensures |r| == |Matched(users, charters)|
  {
    var matched := Matched(users, charters);
    var events := SaveEvents(users);
    seq(|matched|, k requires 0 <= k < |matched| =>
      var e := matched[k];
      Stamp(charters[CharterIndex(charters, e.record.atomId).value], LastSave(events, e.record.atomId).GetOr(e)))
  }

  /** Entry `k` is the listed charter of the `k`-th matched save, unchanged
      but for the three fields a save sets, and those come from the last
      save of that atom id by one of the users. */
  lemma CrossLinkEntry(users: seq<User>, charters: seq<SavedCharter>, k: nat)
    requires k < |CrossLink(users, charters)|
    ensures var x := CrossLink(users, charters)[k];
            var e := Matched(users, charters)[k];
            && x.charter == charters[CharterIndex(charters, e.record.atomId).value].charter
            && x.charter.atomId == e.record.atomId
            && exists i :: 0 <= i < |users| && x.editorId == users[i].id
                 && SavedRecord(x.charter.atomId, x.startTime.value, x.released) in users[i].savedCharters
  {
    var events := SaveEvents(users);
    var e := Matched(users, charters)[k];
    var last := LastSave(events, e.record.atomId);
    assert e in events;
    assert last.Some?;
    assert last.value in events;
  }

  /** Entries for the same atom id are the same charter with the same
      stamp: the one object is appended once per save. */
  lemma CrossLinkAliasing(users: seq<User>, charters: seq<SavedCharter>, k1: nat, k2: nat)
    requires k1 < |CrossLink(users, charters)| && k2 < |CrossLink(users, charters)|
    requires CrossLink(users, charters)[k1].charter.atomId == CrossLink(users, charters)[k2].charter.atomId
    ensures CrossLink(users, charters)[k1] == CrossLink(users, charters)[k2]
  {
    CrossLinkEntry(users, charters, k1);
    CrossLinkEntry(users, charters, k2);
  }

  /** Every entry carries the stamp of the last save of its atom id, by
      whichever user made it: the shared object is overwritten on every save,
      so the last assignment wins for all of its copies. */
  lemma CrossLinkLastSave(users: seq<User>, charters: seq<SavedCharter>, k: nat)
    requires k < |CrossLink(users, charters)|
    ensures var x := CrossLink(users, charters)[k];
            var last := LastSave(SaveEvents(users), x.charter.atomId);
            && last.Some?
            && x.editorId == last.value.editorId
            && x.startTime == Some(last.value.record.startTime)
            && x.released == last.value.record.released
  {
    var e := Matched(users, charters)[k];
    assert e in SaveEvents(users);
    CrossLinkEntry(users, charters, k);
  }

  /** Every save of a listed charter by any of the users yields an entry. */
  lemma CrossLinkCovers(users: seq<User>, charters: seq<SavedCharter>, i: nat, s: SavedRecord)
    requires i < |users| && s in users[i].savedCharters
    requires CharterIndex(charters, s.atomId).Some?
    ensures exists k :: 0 <= k < |CrossLink(users, charters)| && CrossLink(users, charters)[k].charter.atomId == s.atomId
  {
    var e := SaveEvent(users[i].id, s);
    assert e in SaveEvents(users);
    var matched := Matched(users, charters);
    assert e in matched;
    var k :| 0 <= k < |matched| && matched[k] == e;
    CrossLinkEntry(users, charters, k);
  }

  /** Every charter constructed from a saved document, duplicates included. */
  function BuiltSaved(store: Store, fonds: seq<Fond>, collections: seq<Collection>, c: Counters): (s: Stage<seq<SavedCharter>>)
    ensures forall k :: k != CharterKind ==> Current(s.counters, k) == Current(c, k)
  {
    match GetContents(store, SavedFolder)
    case Err(e) => Stage(Err(e), c)
    case Ok(contents) => Run(SavedLoop(store, fonds, collections), Files(contents.resources), c)
  }

  /** `list_saved_charters(users, fonds, collections)` */
  function ListSavedCharters(store: Store, users: seq<User>, fonds: seq<Fond>, collections: seq<Collection>,
                             c: Counters): (s: Stage<seq<SavedCharter>>)
    ensures s.counters == BuiltSaved(store, fonds, collections, c).counters
    ensures s.out.Ok? <==> BuiltSaved(store, fonds, collections, c).out.Ok?
  {
    var built := BuiltSaved(store, fonds, collections, c);
    match built.out
    case Err(e) => Stage(Err(e), built.counters)
    case Ok(charters) => Stage(Ok(CrossLink(users, Seqs.DedupFirst(charters, SavedAtomId))), built.counters)
  }

  /** The listing fails exactly when the folder listing cannot be read or a
      document it names is absent. */
  lemma ListSavedChartersSucceeds(store: Store, users: seq<User>, fonds: seq<Fond>, collections: seq<Collection>, c: Counters)
    ensures ListSavedCharters(store, users, fonds, collections, c).out.Ok? <==>
              && GetContents(store, SavedFolder).Ok?
              && forall f :: f in Files(GetContents(store, SavedFolder).value.resources) ==> SavedPath(f) in store.charterCeis
  {
    if GetContents(store, SavedFolder).Ok? {
      var files := Files(GetContents(store, SavedFolder).value.resources);
      SavedLoopWellFormed(store, fonds, collections);
      RunCompletes(SavedLoop(store, fonds, collections), files, c);
    }
  }

  /** Each charter constructed is the one its own saved document and file
      name describe, before any save is stamped on it; its ID was drawn
      during the listing. */
  lemma BuiltSavedFrom(store: Store, fonds: seq<Fond>, collections: seq<Collection>, c: Counters, k: nat)
    requires BuiltSaved(store, fonds, collections, c).out.Ok? && k < |BuiltSaved(store, fonds, collections, c).out.value|
    ensures var x := BuiltSaved(store, fonds, collections, c).out.value[k];
            && SavedPath(x.charter.file) in store.charterCeis
            && ResolveTarget(x.charter.file, fonds, collections).Ok?
            && Ok(x) == ParseSavedCharter(x.charter.id, x.charter.file, store.charterCeis[SavedPath(x.charter.file)],
                                          ResolveTarget(x.charter.file, fonds, collections).value)
            && Current(c, CharterKind) < x.charter.id <= Current(BuiltSaved(store, fonds, collections, c).counters, CharterKind)
  {
    var files := Files(GetContents(store, SavedFolder).value.resources);
    var l := SavedLoop(store, fonds, collections);
    SavedLoopWellFormed(store, fonds, collections);
    RunMade(l, files, c, k);
    RunIds(l, files, c);
  }

  /** The charters before stamping carry distinct atom ids; every charter
      that is the first constructed with its atom id is listed, and nothing
      else is. */
  lemma ListedSavedFirst(store: Store, fonds: seq<Fond>, collections: seq<Collection>, c: Counters)
    requires BuiltSaved(store, fonds, collections, c).out.Ok?
    ensures var built := BuiltSaved(store, fonds, collections, c).out.value;
            var listed := Seqs.DedupFirst(built, SavedAtomId);
            && Seqs.DistinctKeys(listed, SavedAtomId)
            && (forall i :: 0 <= i < |built| && Seqs.FirstOfKey(built, SavedAtomId, i) ==> built[i] in listed)
            && (forall k :: 0 <= k < |listed| ==>
                  exists i :: 0 <= i < |built| && built[i] == listed[k] && Seqs.FirstOfKey(built, SavedAtomId, i))
  {
    var built := BuiltSaved(store, fonds, collections, c).out.value;
    var listed := Seqs.DedupFirst(built, SavedAtomId);
    forall i | 0 <= i < |built| && Seqs.FirstOfKey(built, SavedAtomId, i) ensures built[i] in listed {
      Seqs.DedupFirstKeepsFirst(built, SavedAtomId, i);
    }
    forall k | 0 <= k < |listed|
      ensures exists i :: 0 <= i < |built| && built[i] == listed[k] && Seqs.FirstOfKey(built, SavedAtomId, i)
    {
      Seqs.DedupFirstOnlyFirst(built, SavedAtomId, k);
    }
  }
}

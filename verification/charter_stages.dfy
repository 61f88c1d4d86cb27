/** `MomBackup.list_fond_charters` and `list_collection_charters`
    (modules/models/mom_backup.py): the charters in the charter folder of
    every fond or collection.  A folder without a listing is skipped, an
    absent document or a charter that fails to construct is skipped, and
    of several charters with one atom id only the first is kept. */
module CharterStages {
  import opened Wrappers
  import opened SerialIds
  import opened Contents
  import opened Fonds
  import opened Collections
  import opened Charters
  import opened FondCharters
  import opened CollectionCharters
  import opened Backup
  import opened Stages
  import Seqs

  // ----- charters of fonds -----

  function FondCharterId(x: FondCharter): int { x.charter.id }
  function FondCharterFile(x: FondCharter): string { x.charter.file }
  function FondCharterAtomId(x: FondCharter): string { x.charter.atomId }

  /** The path of the CEI document `file` in the charter folder of `g`. */
  function FondCharterPath(g: Fond, file: string): string { FondChartersFolder(g.archiveFile, g.file) + "/" + file }

  function MakeFondCharter(store: Store, g: Fond, id: nat, file: string): Result<FondCharter> {
    if FondCharterPath(g, file) in store.charterCeis then ParseFondCharter(id, file, g, store.charterCeis[FondCharterPath(g, file)])
    else Err(NotFound(FondCharterPath(g, file)))
  }

  /** An absent CEI document and a charter that fails to construct are both
      reported and skipped; the failing charter has drawn its ID. */
  function FondCharterLoop(store: Store, g: Fond): Loop<FondCharter> {
    Loop(CharterKind,
         f => FondCharterPath(g, f) in store.charterCeis,
         f => true,
         f => FondCharterPath(g, f) in store.charterCeis && ValidCei(store.charterCeis[FondCharterPath(g, f)]),
         f => NotFound(FondCharterPath(g, f)),
         Skip, Skip,
         (id, f) => MakeFondCharter(store, g, id, f),
         FondCharterId, FondCharterFile)
  }

  function FondCharterLoops(store: Store): Fond -> Loop<FondCharter> {
    (g: Fond) => FondCharterLoop(store, g)
  }

  /** The charter documents of `g`, read from its folder listing. */
  function FondCharterListing(store: Store): Fond -> Result<seq<string>> {
    (g: Fond) => Documents(GetContents(store, FondChartersFolder(g.archiveFile, g.file)))
  }

  lemma FondCharterLoopsUniform(store: Store)
    ensures Uniform(FondCharterLoops(store), CharterKind, FondCharterId)
  {
  }

  /** Every charter the loops construct, duplicates included, in order. */
  function BuiltFondCharters(store: Store, gs: seq<Fond>, c: Counters): (s: Stage<seq<FondCharter>>)
    ensures forall k :: k != CharterKind ==> Current(s.counters, k) == Current(c, k)
  {
    RunGroups(gs, FondCharterListing(store), true, FondCharterLoops(store), CharterKind, c)
  }

  /** `list_fond_charters(fonds, users)`: the charters of every fond, of which only the first with
      each atom id is kept. */
  function ListFondCharters(store: Store, gs: seq<Fond>, c: Counters): (s: Stage<seq<FondCharter>>)
    ensures s.counters == BuiltFondCharters(store, gs, c).counters
    ensures s.out.Ok? <==> BuiltFondCharters(store, gs, c).out.Ok?
    ensures s.out.Ok? ==> Seqs.DistinctKeys(s.out.value, FondCharterAtomId)
    ensures s.out.Ok? ==> forall x :: x in s.out.value ==> x in BuiltFondCharters(store, gs, c).out.value
  {
    var built := BuiltFondCharters(store, gs, c);
    match built.out
    case Err(e) => Stage(Err(e), built.counters)
    case Ok(charters) => Stage(Ok(Seqs.DedupFirst(charters, FondCharterAtomId)), built.counters)
  }

  /** The listing fails exactly when the charter folder listing of some
      fond exists but cannot be read; a fond without one is skipped. */
  lemma ListFondChartersSucceeds(store: Store, gs: seq<Fond>, c: Counters)
    ensures ListFondCharters(store, gs, c).out.Ok? <==>
              forall j :: 0 <= j < |gs| ==> Listable(Documents(GetContents(store, FondChartersFolder(gs[j].archiveFile, gs[j].file))), true)
  {
    FondCharterLoopsUniform(store);
    RunGroupsSucceeds(gs, FondCharterListing(store), true, FondCharterLoops(store), CharterKind, FondCharterId, c);
    forall j | 0 <= j < |gs|
      ensures GroupCompletes(gs[j], FondCharterListing(store), true, FondCharterLoops(store)) <==>
              Listable(Documents(GetContents(store, FondChartersFolder(gs[j].archiveFile, gs[j].file))), true)
    {
    }
  }

  /** The charters listed drew their IDs during the listing, in strictly
      increasing order. */
  lemma ListFondChartersIds(store: Store, gs: seq<Fond>, c: Counters)
    requires ListFondCharters(store, gs, c).out.Ok?
    ensures var s := ListFondCharters(store, gs, c);
            && (forall i :: 0 <= i < |s.out.value| ==> Current(c, CharterKind) < s.out.value[i].charter.id <= Current(s.counters, CharterKind))
            && Seqs.IncreasingBy(s.out.value, FondCharterId)
  {
    var built := BuiltFondCharters(store, gs, c).out.value;
    FondCharterLoopsUniform(store);
    RunGroupsIds(gs, FondCharterListing(store), true, FondCharterLoops(store), CharterKind, FondCharterId, c);
    Seqs.DedupFirstIncreasing(built, FondCharterAtomId, FondCharterId);
    var listed := ListFondCharters(store, gs, c).out.value;
    var after := BuiltFondCharters(store, gs, c).counters;
    forall i | 0 <= i < |listed|
      ensures Current(c, CharterKind) < listed[i].charter.id <= Current(after, CharterKind)
    {
      assert listed[i] in built;
      var k :| 0 <= k < |built| && built[k] == listed[i];
      assert FondCharterId(built[k]) == listed[i].charter.id;
    }
  }

  /** Each charter constructed belongs to one of the fonds and is the one
      its own CEI document describes. */
  lemma BuiltFondChartersFrom(store: Store, gs: seq<Fond>, c: Counters, k: nat)
    requires BuiltFondCharters(store, gs, c).out.Ok? && k < |BuiltFondCharters(store, gs, c).out.value|
    ensures var x := BuiltFondCharters(store, gs, c).out.value[k];
            exists j :: 0 <= j < |gs| && FondCharterPath(gs[j], x.charter.file) in store.charterCeis
              && Ok(x) == ParseFondCharter(x.charter.id, x.charter.file, gs[j], store.charterCeis[FondCharterPath(gs[j], x.charter.file)])
  {
    var x := BuiltFondCharters(store, gs, c).out.value[k];
    RunGroupsMade(gs, FondCharterListing(store), true, FondCharterLoops(store), CharterKind, c, k);
    var j, id: nat, f :| 0 <= j < |gs| && FondCharterListing(store)(gs[j]).Ok? && f in FondCharterListing(store)(gs[j]).value
                         && FondCharterLoops(store)(gs[j]).make(id, f) == Ok(x);
    assert MakeFondCharter(store, gs[j], id, f) == Ok(x);
  }

  /** Of the charters that share an atom id, the first constructed is the
      one listed: every first of its atom id is kept, and nothing else is. */
  lemma ListFondChartersKeepsFirst(store: Store, gs: seq<Fond>, c: Counters)
    requires ListFondCharters(store, gs, c).out.Ok?
    ensures var built := BuiltFondCharters(store, gs, c).out.value;
            && (forall i :: 0 <= i < |built| && Seqs.FirstOfKey(built, FondCharterAtomId, i) ==> built[i] in ListFondCharters(store, gs, c).out.value)
            && (forall x :: x in ListFondCharters(store, gs, c).out.value ==>
                  exists i :: 0 <= i < |built| && built[i] == x && Seqs.FirstOfKey(built, FondCharterAtomId, i))
  {
    var built := BuiltFondCharters(store, gs, c).out.value;
    var listed := ListFondCharters(store, gs, c).out.value;
    forall i | 0 <= i < |built| && Seqs.FirstOfKey(built, FondCharterAtomId, i) ensures built[i] in listed {
      Seqs.DedupFirstKeepsFirst(built, FondCharterAtomId, i);
    }
    forall x | x in listed ensures exists i :: 0 <= i < |built| && built[i] == x && Seqs.FirstOfKey(built, FondCharterAtomId, i) {
      var k :| 0 <= k < |listed| && listed[k] == x;
      Seqs.DedupFirstOnlyFirst(built, FondCharterAtomId, k);
    }
  }

  // ----- charters of collections -----

  function CollectionCharterId(x: CollectionCharter): int { x.charter.id }
  function CollectionCharterFile(x: CollectionCharter): string { x.charter.file }
  function CollectionCharterAtomId(x: CollectionCharter): string { x.charter.atomId }

  /** The path of the CEI document `file` in the charter folder of `g`. */
  function CollectionCharterPath(g: Collection, file: string): string { CollectionChartersFolder(g.file) + "/" + file }

  function MakeCollectionCharter(store: Store, g: Collection, id: nat, file: string): Result<CollectionCharter> {
    if CollectionCharterPath(g, file) in store.charterCeis then ParseCollectionCharter(id, file, g, store.charterCeis[CollectionCharterPath(g, file)])
    else Err(NotFound(CollectionCharterPath(g, file)))
  }

  /** An absent CEI document and a charter that fails to construct are both
      reported and skipped; the failing charter has drawn its ID. */
  function CollectionCharterLoop(store: Store, g: Collection): Loop<CollectionCharter> {
    Loop(CharterKind,
         f => CollectionCharterPath(g, f) in store.charterCeis,
         f => true,
         f => CollectionCharterPath(g, f) in store.charterCeis && ValidCei(store.charterCeis[CollectionCharterPath(g, f)]),
         f => NotFound(CollectionCharterPath(g, f)),
         Skip, Skip,
         (id, f) => MakeCollectionCharter(store, g, id, f),
         CollectionCharterId, CollectionCharterFile)
  }

  function CollectionCharterLoops(store: Store): Collection -> Loop<CollectionCharter> {
    (g: Collection) => CollectionCharterLoop(store, g)
  }

  /** The charter documents of `g`, read from its folder listing. */
  function CollectionCharterListing(store: Store): Collection -> Result<seq<string>> {
    (g: Collection) => Documents(GetContents(store, CollectionChartersFolder(g.file)))
  }

  lemma CollectionCharterLoopsUniform(store: Store)
    ensures Uniform(CollectionCharterLoops(store), CharterKind, CollectionCharterId)
  {
  }

  /** Every charter the loops construct, duplicates included, in order. */
  function BuiltCollectionCharters(store: Store, gs: seq<Collection>, c: Counters): (s: Stage<seq<CollectionCharter>>)
    ensures forall k :: k != CharterKind ==> Current(s.counters, k) == Current(c, k)
  {
    RunGroups(gs, CollectionCharterListing(store), true, CollectionCharterLoops(store), CharterKind, c)
  }

  /** `list_collection_charters(collections, users)`: the charters of every collection, of which only the first with
      each atom id is kept. */
  function ListCollectionCharters(store: Store, gs: seq<Collection>, c: Counters): (s: Stage<seq<CollectionCharter>>)
    ensures s.counters == BuiltCollectionCharters(store, gs, c).counters
    ensures s.out.Ok? <==> BuiltCollectionCharters(store, gs, c).out.Ok?
    ensures s.out.Ok? ==> Seqs.DistinctKeys(s.out.value, CollectionCharterAtomId)
    ensures s.out.Ok? ==> forall x :: x in s.out.value ==> x in BuiltCollectionCharters(store, gs, c).out.value
  {
    var built := BuiltCollectionCharters(store, gs, c);
    match built.out
    case Err(e) => Stage(Err(e), built.counters)
    case Ok(charters) => Stage(Ok(Seqs.DedupFirst(charters, CollectionCharterAtomId)), built.counters)
  }

  /** The listing fails exactly when the charter folder listing of some
      collection exists but cannot be read; a collection without one is skipped. */
  lemma ListCollectionChartersSucceeds(store: Store, gs: seq<Collection>, c: Counters)
    ensures ListCollectionCharters(store, gs, c).out.Ok? <==>
              forall j :: 0 <= j < |gs| ==> Listable(Documents(GetContents(store, CollectionChartersFolder(gs[j].file))), true)
  {
    CollectionCharterLoopsUniform(store);
    RunGroupsSucceeds(gs, CollectionCharterListing(store), true, CollectionCharterLoops(store), CharterKind, CollectionCharterId, c);
    forall j | 0 <= j < |gs|
      ensures GroupCompletes(gs[j], CollectionCharterListing(store), true, CollectionCharterLoops(store)) <==>
              Listable(Documents(GetContents(store, CollectionChartersFolder(gs[j].file))), true)
    {
    }
  }

  /** The charters listed drew their IDs during the listing, in strictly
      increasing order. */
  lemma ListCollectionChartersIds(store: Store, gs: seq<Collection>, c: Counters)
    requires ListCollectionCharters(store, gs, c).out.Ok?
    ensures var s := ListCollectionCharters(store, gs, c);
            && (forall i :: 0 <= i < |s.out.value| ==> Current(c, CharterKind) < s.out.value[i].charter.id <= Current(s.counters, CharterKind))
            && Seqs.IncreasingBy(s.out.value, CollectionCharterId)
  {
    var built := BuiltCollectionCharters(store, gs, c).out.value;
    CollectionCharterLoopsUniform(store);
    RunGroupsIds(gs, CollectionCharterListing(store), true, CollectionCharterLoops(store), CharterKind, CollectionCharterId, c);
    Seqs.DedupFirstIncreasing(built, CollectionCharterAtomId, CollectionCharterId);
    var listed := ListCollectionCharters(store, gs, c).out.value;
    var after := BuiltCollectionCharters(store, gs, c).counters;
    forall i | 0 <= i < |listed|
      ensures Current(c, CharterKind) < listed[i].charter.id <= Current(after, CharterKind)
    {
      assert listed[i] in built;
      var k :| 0 <= k < |built| && built[k] == listed[i];
      assert CollectionCharterId(built[k]) == listed[i].charter.id;
    }
  }

  /** Each charter constructed belongs to one of the collections and is the one
      its own CEI document describes. */
  lemma BuiltCollectionChartersFrom(store: Store, gs: seq<Collection>, c: Counters, k: nat)
    requires BuiltCollectionCharters(store, gs, c).out.Ok? && k < |BuiltCollectionCharters(store, gs, c).out.value|
    ensures var x := BuiltCollectionCharters(store, gs, c).out.value[k];
            exists j :: 0 <= j < |gs| && CollectionCharterPath(gs[j], x.charter.file) in store.charterCeis
              && Ok(x) == ParseCollectionCharter(x.charter.id, x.charter.file, gs[j], store.charterCeis[CollectionCharterPath(gs[j], x.charter.file)])
  {
    var x := BuiltCollectionCharters(store, gs, c).out.value[k];
    RunGroupsMade(gs, CollectionCharterListing(store), true, CollectionCharterLoops(store), CharterKind, c, k);
    var j, id: nat, f :| 0 <= j < |gs| && CollectionCharterListing(store)(gs[j]).Ok? && f in CollectionCharterListing(store)(gs[j]).value
                         && CollectionCharterLoops(store)(gs[j]).make(id, f) == Ok(x);
    assert MakeCollectionCharter(store, gs[j], id, f) == Ok(x);
  }

  /** Of the charters that share an atom id, the first constructed is the
      one listed: every first of its atom id is kept, and nothing else is. */
  lemma ListCollectionChartersKeepsFirst(store: Store, gs: seq<Collection>, c: Counters)
    requires ListCollectionCharters(store, gs, c).out.Ok?
    ensures var built := BuiltCollectionCharters(store, gs, c).out.value;
            && (forall i :: 0 <= i < |built| && Seqs.FirstOfKey(built, CollectionCharterAtomId, i) ==> built[i] in ListCollectionCharters(store, gs, c).out.value)
            && (forall x :: x in ListCollectionCharters(store, gs, c).out.value ==>
                  exists i :: 0 <= i < |built| && built[i] == x && Seqs.FirstOfKey(built, CollectionCharterAtomId, i))
  {
    var built := BuiltCollectionCharters(store, gs, c).out.value;
    var listed := ListCollectionCharters(store, gs, c).out.value;
    forall i | 0 <= i < |built| && Seqs.FirstOfKey(built, CollectionCharterAtomId, i) ensures built[i] in listed {
      Seqs.DedupFirstKeepsFirst(built, CollectionCharterAtomId, i);
    }
    forall x | x in listed ensures exists i :: 0 <= i < |built| && built[i] == x && Seqs.FirstOfKey(built, CollectionCharterAtomId, i) {
      var k :| 0 <= k < |listed| && listed[k] == x;
      Seqs.DedupFirstOnlyFirst(built, CollectionCharterAtomId, k);
    }
  }
}

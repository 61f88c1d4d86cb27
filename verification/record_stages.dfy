/** `MomBackup.list_archives`, `list_fonds` and `list_collections`
    (modules/models/mom_backup.py): an entry whose document is absent is
    skipped, a record that fails to construct aborts the listing, and a
    folder listing that cannot be read aborts it too. */
module RecordStages {
  import opened Wrappers
  import opened SerialIds
  import opened Contents
  import opened Archives
  import opened Fonds
  import opened Collections
  import opened Backup
  import opened Stages
  import Seqs

  function ArchiveId(a: Archive): int { a.id }
  function ArchiveFile(a: Archive): string { a.file }
  function FondId(f: Fond): int { f.id }
  function FondFile(f: Fond): string { f.file }
  function CollectionId(x: Collection): int { x.id }
  function CollectionFile(x: Collection): string { x.file }

  // ----- archives -----

  function HasEag(store: Store): string -> bool {
    f => EagPath(f) in store.eags
  }

  function ArchiveBuilds(store: Store): string -> bool {
    f => EagPath(f) in store.eags && ValidEag(store.eags[EagPath(f)])
  }

  /** `XmlArchive(file, eag, oai)` for the documents of archive folder `file`;
      the OAI document is optional. */
  function MakeArchive(store: Store, id: nat, file: string): Result<Archive> {
    if EagPath(file) in store.eags then ParseArchive(id, file, store.eags[EagPath(file)], Optional(store.oais, OaiPath(file)))
    else Err(NotFound(EagPath(file)))
  }

  function ArchiveLoop(store: Store): Loop<Archive> {
    Loop(ArchiveKind, HasEag(store), f => true, ArchiveBuilds(store), f => NotFound(EagPath(f)),
         Skip, Abort, (id, f) => MakeArchive(store, id, f), ArchiveId, ArchiveFile)
  }

  lemma ArchiveLoopWellFormed(store: Store)
    ensures WellFormed(ArchiveLoop(store))
  {
  }

  /** `list_archives()` */
  function ListArchives(store: Store, c: Counters): (s: Stage<seq<Archive>>)
    ensures GetContents(store, ArchivesFolder).Err? ==> s == Stage(Err(GetContents(store, ArchivesFolder).error), c)
    ensures forall k :: k != ArchiveKind ==> Current(s.counters, k) == Current(c, k)
  {
    match GetContents(store, ArchivesFolder)
    case Err(e) => Stage(Err(e), c)
    case Ok(contents) => Run(ArchiveLoop(store), Files(contents.collections), c)
  }

  /** The archive folders the listing names, when it can be read. */
  function ArchiveFolders(store: Store): seq<string>
    requires GetContents(store, ArchivesFolder).Ok?
  {
    Files(GetContents(store, ArchivesFolder).value.collections)
  }

  /** The listing succeeds exactly when the folder listing parses and every
      archive folder holding an EAG document holds a valid one. */
  lemma ListArchivesSucceeds(store: Store, c: Counters)
    ensures ListArchives(store, c).out.Ok? <==>
              && GetContents(store, ArchivesFolder).Ok?
              && forall f :: f in ArchiveFolders(store) && EagPath(f) in store.eags ==> ValidEag(store.eags[EagPath(f)])
  {
    if GetContents(store, ArchivesFolder).Ok? {
      ArchiveLoopWellFormed(store);
      RunCompletes(ArchiveLoop(store), ArchiveFolders(store), c);
    }
  }

  /** A successful listing holds one archive per folder with an EAG
      document, in listing order, with IDs drawn during the listing in
      strictly increasing order. */
  lemma ListArchivesShape(store: Store, c: Counters)
    requires ListArchives(store, c).out.Ok?
    ensures Seqs.Map(ListArchives(store, c).out.value, ArchiveFile) == Seqs.Filter(ArchiveFolders(store), HasEag(store))
    ensures var s := ListArchives(store, c);
            && (forall i :: 0 <= i < |s.out.value| ==> Current(c, ArchiveKind) < s.out.value[i].id <= Current(s.counters, ArchiveKind))
            && Seqs.IncreasingBy(s.out.value, ArchiveId)
  {
    var files := ArchiveFolders(store);
    var l := ArchiveLoop(store);
    ArchiveLoopWellFormed(store);
    ListArchivesSucceeds(store, c);
    RunFiles(l, files, c);
    RunIds(l, files, c);
    Seqs.FilterSame(files, ArchiveBuilds(store), HasEag(store));
  }

  /** Each archive listed is the one its own folder's documents describe. */
  lemma ListArchivesFrom(store: Store, c: Counters, k: nat)
    requires ListArchives(store, c).out.Ok? && k < |ListArchives(store, c).out.value|
    ensures var a := ListArchives(store, c).out.value[k];
            && EagPath(a.file) in store.eags
            && Ok(a) == ParseArchive(a.id, a.file, store.eags[EagPath(a.file)], Optional(store.oais, OaiPath(a.file)))
  {
    ArchiveLoopWellFormed(store);
    RunMade(ArchiveLoop(store), ArchiveFolders(store), c, k);
  }

  // ----- fonds -----

  function HasEad(store: Store, archive: Archive): string -> bool {
    f => EadPath(archive.file, f) in store.eads
  }

  function FondBuilds(store: Store, archive: Archive): string -> bool {
    f => EadPath(archive.file, f) in store.eads && ValidEad(store.eads[EadPath(archive.file, f)])
  }

  /** `XmlFond(file, archive, ead, preferences)`; the preferences are optional. */
  function MakeFond(store: Store, archive: Archive, validUrl: Url -> bool, id: nat, file: string): Result<Fond> {
    if EadPath(archive.file, file) in store.eads then
      ParseFond(id, file, archive, store.eads[EadPath(archive.file, file)],
                Optional(store.prefs, PrefsPath(archive.file, file)), validUrl)
    else Err(NotFound(EadPath(archive.file, file)))
  }

  function FondLoop(store: Store, archive: Archive, validUrl: Url -> bool): Loop<Fond> {
    Loop(FondKind, HasEad(store, archive), f => true, FondBuilds(store, archive),
         f => NotFound(EadPath(archive.file, f)), Skip, Abort,
         (id, f) => MakeFond(store, archive, validUrl, id, f), FondId, FondFile)
  }

  lemma FondLoopWellFormed(store: Store, archive: Archive, validUrl: Url -> bool)
    ensures WellFormed(FondLoop(store, archive, validUrl))
  {
  }

  function FondLoops(store: Store, validUrl: Url -> bool): Archive -> Loop<Fond> {
    (a: Archive) => FondLoop(store, a, validUrl)
  }

  /** The fond folders of an archive, read from its folder listing. */
  function FondListing(store: Store): Archive -> Result<seq<string>> {
    (a: Archive) => Folders(GetContents(store, FondFolder(a.file)))
  }

  lemma FondLoopsUniform(store: Store, validUrl: Url -> bool)
    ensures Uniform(FondLoops(store, validUrl), FondKind, FondId)
  {
  }

  /** The fonds of one archive can all be listed: its folder listing parses
      and every fond folder holding an EAD document holds a valid one. */
  ghost predicate FondsReadable(store: Store, archive: Archive) {
    && GetContents(store, FondFolder(archive.file)).Ok?
    && forall f :: f in Files(GetContents(store, FondFolder(archive.file)).value.collections) ==>
                     EadPath(archive.file, f) in store.eads ==> ValidEad(store.eads[EadPath(archive.file, f)])
  }

  lemma FondGroupCompletes(store: Store, archive: Archive, validUrl: Url -> bool)
    ensures GroupCompletes(archive, FondListing(store), false, FondLoops(store, validUrl)) <==> FondsReadable(store, archive)
  {
    if GetContents(store, FondFolder(archive.file)).Ok? {
      var files := Files(GetContents(store, FondFolder(archive.file)).value.collections);
      var l := FondLoop(store, archive, validUrl);
      if FondsReadable(store, archive) {
        forall i | 0 <= i < |files| && l.present(files[i]) && l.eligible(files[i]) ensures l.valid(files[i]) {
          assert files[i] in files;
        }
      }
    }
  }

  /** `list_fonds(archives)`: the fonds of each archive in turn; an archive
      whose fond folder cannot be listed aborts. */
  function ListFonds(store: Store, archives: seq<Archive>, c: Counters, validUrl: Url -> bool): (s: Stage<seq<Fond>>)
    ensures forall k :: k != FondKind ==> Current(s.counters, k) == Current(c, k)
  {
    RunGroups(archives, FondListing(store), false, FondLoops(store, validUrl), FondKind, c)
  }

  /** The listing succeeds exactly when the fonds of every archive can be
      listed. */
  lemma ListFondsSucceeds(store: Store, archives: seq<Archive>, c: Counters, validUrl: Url -> bool)
    ensures ListFonds(store, archives, c, validUrl).out.Ok? <==> forall j :: 0 <= j < |archives| ==> FondsReadable(store, archives[j])
  {
    FondLoopsUniform(store, validUrl);
    RunGroupsSucceeds(archives, FondListing(store), false, FondLoops(store, validUrl), FondKind, FondId, c);
    forall j | 0 <= j < |archives|
      ensures GroupCompletes(archives[j], FondListing(store), false, FondLoops(store, validUrl)) <==> FondsReadable(store, archives[j])
    {
      FondGroupCompletes(store, archives[j], validUrl);
    }
  }

  /** The fonds' IDs were drawn during the listing, in strictly increasing
      order. */
  lemma ListFondsIds(store: Store, archives: seq<Archive>, c: Counters, validUrl: Url -> bool)
    requires ListFonds(store, archives, c, validUrl).out.Ok?
    ensures var s := ListFonds(store, archives, c, validUrl);
            && (forall i :: 0 <= i < |s.out.value| ==> Current(c, FondKind) < s.out.value[i].id <= Current(s.counters, FondKind))
            && Seqs.IncreasingBy(s.out.value, FondId)
  {
    FondLoopsUniform(store, validUrl);
    RunGroupsIds(archives, FondListing(store), false, FondLoops(store, validUrl), FondKind, FondId, c);
  }

  /** Each fond listed belongs to one of the archives and is the one its
      own EAD and preferences documents describe. */
  lemma ListFondsFrom(store: Store, archives: seq<Archive>, c: Counters, validUrl: Url -> bool, k: nat)
    requires ListFonds(store, archives, c, validUrl).out.Ok? && k < |ListFonds(store, archives, c, validUrl).out.value|
    ensures var f := ListFonds(store, archives, c, validUrl).out.value[k];
            exists j :: 0 <= j < |archives| && EadPath(archives[j].file, f.file) in store.eads
              && Ok(f) == ParseFond(f.id, f.file, archives[j], store.eads[EadPath(archives[j].file, f.file)],
                                    Optional(store.prefs, PrefsPath(archives[j].file, f.file)), validUrl)
  {
    var x := ListFonds(store, archives, c, validUrl).out.value[k];
    RunGroupsMade(archives, FondListing(store), false, FondLoops(store, validUrl), FondKind, c, k);
    var j, id: nat, f :| 0 <= j < |archives| && FondListing(store)(archives[j]).Ok? && f in FondListing(store)(archives[j]).value
                         && FondLoops(store, validUrl)(archives[j]).make(id, f) == Ok(x);
    assert MakeFond(store, archives[j], validUrl, id, f) == Ok(x);
  }

  // ----- collections -----

  function HasCollectionCei(store: Store): string -> bool {
    f => CollectionCeiPath(f) in store.collectionCeis
  }

  /** The conditions under which `XmlCollection.__init__` gets past its
      asserts and its `[0]` lookup. */
  predicate ValidCollectionXml(x: CollectionXml) {
    x.atomId.Some? && x.atomId.value.text.Some? && x.provenance.Some? && |x.provenance.value| > 0
  }

  function CollectionBuilds(store: Store): string -> bool {
    f => CollectionCeiPath(f) in store.collectionCeis && ValidCollectionXml(store.collectionCeis[CollectionCeiPath(f)])
  }

  function MakeCollection(store: Store, fonds: seq<Fond>, validUrl: Url -> bool, id: nat, file: string): Result<Collection> {
    if CollectionCeiPath(file) in store.collectionCeis then
      ParseCollection(id, file, store.collectionCeis[CollectionCeiPath(file)], fonds, validUrl)
    else Err(NotFound(CollectionCeiPath(file)))
  }

  function CollectionLoop(store: Store, fonds: seq<Fond>, validUrl: Url -> bool): Loop<Collection> {
    Loop(CollectionKind, HasCollectionCei(store), f => true, CollectionBuilds(store),
         f => NotFound(CollectionCeiPath(f)), Skip, Abort,
         (id, f) => MakeCollection(store, fonds, validUrl, id, f), CollectionId, CollectionFile)
  }

  lemma CollectionLoopWellFormed(store: Store, fonds: seq<Fond>, validUrl: Url -> bool)
    ensures WellFormed(CollectionLoop(store, fonds, validUrl))
  {
  }

  /** `list_collections(fonds)` */
  function ListCollections(store: Store, fonds: seq<Fond>, c: Counters, validUrl: Url -> bool): (s: Stage<seq<Collection>>)
    ensures GetContents(store, CollectionsFolder).Err? ==> s == Stage(Err(GetContents(store, CollectionsFolder).error), c)
    ensures forall k :: k != CollectionKind ==> Current(s.counters, k) == Current(c, k)
  {
    match GetContents(store, CollectionsFolder)
    case Err(e) => Stage(Err(e), c)
    case Ok(contents) => Run(CollectionLoop(store, fonds, validUrl), Files(contents.collections), c)
  }

  function CollectionFolders(store: Store): seq<string>
    requires GetContents(store, CollectionsFolder).Ok?
  {
    Files(GetContents(store, CollectionsFolder).value.collections)
  }

  /** The listing succeeds exactly when the folder listing parses and every
      collection folder holding a CEI document holds a valid one. */
  lemma ListCollectionsSucceeds(store: Store, fonds: seq<Fond>, c: Counters, validUrl: Url -> bool)
    ensures ListCollections(store, fonds, c, validUrl).out.Ok? <==>
              && GetContents(store, CollectionsFolder).Ok?
              && forall f :: f in CollectionFolders(store) && CollectionCeiPath(f) in store.collectionCeis ==>
                               ValidCollectionXml(store.collectionCeis[CollectionCeiPath(f)])
  {
    if GetContents(store, CollectionsFolder).Ok? {
      CollectionLoopWellFormed(store, fonds, validUrl);
      RunCompletes(CollectionLoop(store, fonds, validUrl), CollectionFolders(store), c);
    }
  }

  /** A successful listing holds one collection per folder with a CEI
      document, in listing order, with IDs drawn during the listing in
      strictly increasing order; each is the one its document describes. */
  lemma ListCollectionsShape(store: Store, fonds: seq<Fond>, c: Counters, validUrl: Url -> bool)
    requires ListCollections(store, fonds, c, validUrl).out.Ok?
    ensures Seqs.Map(ListCollections(store, fonds, c, validUrl).out.value, CollectionFile)
              == Seqs.Filter(CollectionFolders(store), HasCollectionCei(store))
    ensures var s := ListCollections(store, fonds, c, validUrl);
            && (forall i :: 0 <= i < |s.out.value| ==> Current(c, CollectionKind) < s.out.value[i].id <= Current(s.counters, CollectionKind))
            && Seqs.IncreasingBy(s.out.value, CollectionId)
  {
    var files := CollectionFolders(store);
    var l := CollectionLoop(store, fonds, validUrl);
    CollectionLoopWellFormed(store, fonds, validUrl);
    ListCollectionsSucceeds(store, fonds, c, validUrl);
    RunFiles(l, files, c);
    RunIds(l, files, c);
    Seqs.FilterSame(files, CollectionBuilds(store), HasCollectionCei(store));
  }

  /** Each collection listed is the one its own CEI document describes,
      linked against the fonds given. */
  lemma ListCollectionsFrom(store: Store, fonds: seq<Fond>, c: Counters, validUrl: Url -> bool, k: nat)
    requires ListCollections(store, fonds, c, validUrl).out.Ok? && k < |ListCollections(store, fonds, c, validUrl).out.value|
    ensures var x := ListCollections(store, fonds, c, validUrl).out.value[k];
            && CollectionCeiPath(x.file) in store.collectionCeis
            && Ok(x) == ParseCollection(x.id, x.file, store.collectionCeis[CollectionCeiPath(x.file)], fonds, validUrl)
  {
    CollectionLoopWellFormed(store, fonds, validUrl);
    RunMade(CollectionLoop(store, fonds, validUrl), CollectionFolders(store), c, k);
  }
}

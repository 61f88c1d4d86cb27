/** The row-building part of `CharterDb` (modules/models/charter_db.py):
    which rows each `insert_*` method writes, and how it resolves keys
    against what the database already holds.  The database is modelled by
    the maps it is queried through: the `charters` table as its atom id to
    charter ID map, and the `images` table as its URL to image map. */
module CharterDb {
  import opened Wrappers
  import opened Text
  import opened Users
  import opened Charters
  import opened FondCharters
  import opened CollectionCharters
  import opened SavedCharters
  import opened Collections
  import opened Mycollections
  import Seqs

  // ----- users -----

  /** `email_id_map`: lower-cased email to user ID, built in user order, so
      the last user with an email wins. */
  function EmailIds(users: seq<User>): (r: map<string, nat>)
    ensures forall i :: 0 <= i < |users| ==> Lower(users[i].email) in r
    ensures forall k :: k in r ==> exists i :: 0 <= i < |users| && Lower(users[i].email) == k && r[k] == users[i].id
    decreases |users|
  {
    if |users| == 0 then map[]
    else
      var init := users[..|users| - 1];
      assert forall i :: 0 <= i < |init| ==> init[i] == users[i];
      EmailIds(init)[Lower(users[|users| - 1].email) := users[|users| - 1].id]
  }

  /** Of the users whose emails agree ignoring case, the last one's ID is
      the one the map keeps. */
  lemma {:induction false} EmailIdsLastWins(users: seq<User>, i: nat)
    requires i < |users|
    requires forall j :: i < j < |users| ==> Lower(users[j].email) != Lower(users[i].email)
    ensures EmailIds(users)[Lower(users[i].email)] == users[i].id
    decreases |users|
  {
    if i < |users| - 1 {
      var init := users[..|users| - 1];
      assert init[i] == users[i];
      assert forall j :: i < j < |init| ==> init[j] == users[j];
      EmailIdsLastWins(init, i);
    }
  }

  /** A `users` row. */
  datatype UserRow = UserRow(id: nat, email: string, firstName: Option<string>, name: Option<string>)

  /** An `UPDATE users SET moderator_id` pair. */
  datatype ModeratorLink = ModeratorLink(moderatorId: nat, userId: nat)

  function UserRows(users: seq<User>): (r: seq<UserRow>)
    ensures |r| == |users|
    ensures forall i :: 0 <= i < |users| ==>
              r[i].id == users[i].id && r[i].email == users[i].email
              && r[i].firstName == users[i].firstName && r[i].name == users[i].name
  {
    seq(|users|, i requires 0 <= i < |users| => UserRow(users[i].id, users[i].email, users[i].firstName, users[i].name))
  }

  /** The moderator link of one user, if its moderator resolves to another user. */
  function ModeratorOf(emails: map<string, nat>, u: User): (r: Option<ModeratorLink>)
    ensures r.Some? <==>
              u.moderatorEmail.Some? && Lower(u.moderatorEmail.value) in emails
              && emails[Lower(u.moderatorEmail.value)] != u.id
    ensures r.Some? ==> r.value == ModeratorLink(emails[Lower(u.moderatorEmail.value)], u.id)
  {
    match u.moderatorEmail
    case None => None
    case Some(m) =>
      if Lower(m) in emails && emails[Lower(m)] != u.id then Some(ModeratorLink(emails[Lower(m)], u.id)) else None
  }

  /** The moderator links `insert_users` records, in user order: one for
      each user whose moderator resolves, and no other. */
  function ModeratorLinks(users: seq<User>): (r: seq<ModeratorLink>)
    ensures |r| <= |users|
    ensures forall l :: l in r ==> exists i :: 0 <= i < |users| && ModeratorOf(EmailIds(users), users[i]) == Some(l)
    ensures forall i :: 0 <= i < |users| && ModeratorOf(EmailIds(users), users[i]).Some? ==>
              ModeratorOf(EmailIds(users), users[i]).value in r
  {
    var emails := EmailIds(users);
    var links := seq(|users|, i requires 0 <= i < |users| => ModeratorOf(emails, users[i]));
    assert forall i :: 0 <= i < |users| ==> links[i] == ModeratorOf(emails, users[i]);
    forall l | l in Seqs.Somes(links)
      ensures exists i :: 0 <= i < |users| && ModeratorOf(emails, users[i]) == Some(l)
    {
      var i :| 0 <= i < |links| && links[i] == Some(l);
    }
    Seqs.Somes(links)
  }

  /** Nobody moderates themselves, and every link points from a user to the
      user its moderator email names, ignoring case. */
  lemma ModeratorLinksSound(users: seq<User>, l: ModeratorLink)
    requires l in ModeratorLinks(users)
    ensures l.moderatorId != l.userId
    ensures exists i :: 0 <= i < |users| && users[i].id == l.userId && users[i].moderatorEmail.Some?
              && Lower(users[i].moderatorEmail.value) in EmailIds(users)
              && l.moderatorId == EmailIds(users)[Lower(users[i].moderatorEmail.value)]
  {
  }

  /** A user whose moderator email names another user, ignoring case, gets
      the link. */
  lemma ModeratorLinksComplete(users: seq<User>, i: nat)
    requires i < |users| && users[i].moderatorEmail.Some?
    requires Lower(users[i].moderatorEmail.value) in EmailIds(users)
    requires EmailIds(users)[Lower(users[i].moderatorEmail.value)] != users[i].id
    ensures ModeratorLink(EmailIds(users)[Lower(users[i].moderatorEmail.value)], users[i].id) in ModeratorLinks(users)
  {
    var m := ModeratorOf(EmailIds(users), users[i]);
    assert m.Some?;
  }

  // ----- images -----

  const ImageHost: string := "images.monasterium.net"

  /** `is_external`: an image not served by the portal's image host. */
  predicate IsExternal(url: string) {
    !Contains(url, ImageHost)
  }

  datatype Image = Image(id: nat, isExternal: bool)

  /** The `images` table: its rows by URL, and the last ID its serial
      column handed out. */
  datatype ImageTable = ImageTable(rows: map<string, Image>, last: nat)

  /** `INSERT INTO images ... ON CONFLICT (url) DO NOTHING` for one URL.  The
      `SERIAL` column draws its value before the conflict is found, so a URL
      already present uses up an ID that no row receives. */
  function InsertImage(t: ImageTable, url: string): (r: ImageTable)
    ensures url in r.rows && r.last == t.last + 1
    ensures url in t.rows ==> r.rows == t.rows
    ensures url !in t.rows ==> r.rows == t.rows[url := Image(r.last, IsExternal(url))]
  {
    var n := t.last + 1;
    if url in t.rows then t.(last := n) else ImageTable(t.rows[url := Image(n, IsExternal(url))], n)
  }

  /** The insert for a list of URLs, one after the other. */
  function InsertImages(t: ImageTable, urls: seq<string>): (r: ImageTable)
    ensures forall u :: u in t.rows ==> u in r.rows && r.rows[u] == t.rows[u]
    ensures forall u :: u in urls ==> u in r.rows
    ensures forall u :: u in r.rows ==> u in t.rows || u in urls
    ensures forall u :: u in r.rows && u !in t.rows ==> r.rows[u].isExternal == IsExternal(u)
    ensures forall u :: u in r.rows && u !in t.rows ==> t.last < r.rows[u].id <= r.last
    ensures t.last <= r.last
    decreases |urls|
  {
    if |urls| == 0 then t
    else
      var init := urls[..|urls| - 1];
      assert urls == init + [urls[|urls| - 1]];
      InsertImage(InsertImages(t, init), urls[|urls| - 1])
  }

  /** Rows the table already held keep their IDs, and every URL inserted
      gets a different ID from every other row, when the table's IDs were
      distinct and at most its last ID before. */
  ghost predicate ImageIdsDistinct(t: ImageTable) {
    forall u, v :: u in t.rows && v in t.rows && u != v ==> t.rows[u].id != t.rows[v].id
  }

  ghost predicate ImageIdsIssued(t: ImageTable) {
    forall u :: u in t.rows ==> t.rows[u].id <= t.last
  }

  lemma {:induction false} InsertImagesKeepsIdsDistinct(t: ImageTable, urls: seq<string>)
    requires ImageIdsDistinct(t) && ImageIdsIssued(t)
    ensures ImageIdsDistinct(InsertImages(t, urls)) && ImageIdsIssued(InsertImages(t, urls))
    decreases |urls|
  {
    if |urls| > 0 {
      var init := urls[..|urls| - 1];
      InsertImagesKeepsIdsDistinct(t, init);
    }
  }

  /** A record of `insert_images`. */
  datatype ImageRecord = ImageRecord(url: string, isExternal: bool)

  function Same(s: string): string { s }

  function ImageRecordOf(url: string): ImageRecord { ImageRecord(url, IsExternal(url)) }

  /** `insert_images(images)`: the dictionary keyed by URL keeps one record
      per URL, in first-seen order. */
  function ImageRecords(images: seq<string>): (r: seq<ImageRecord>)
    ensures forall k :: 0 <= k < |r| ==> r[k].url in images && r[k].isExternal == IsExternal(r[k].url)
    ensures forall i :: 0 <= i < |images| ==> exists k :: 0 <= k < |r| && r[k].url == images[i]
    ensures forall j, k :: 0 <= j < k < |r| ==> r[j].url != r[k].url
  {
    var urls := Seqs.DedupFirst(images, Same);
    assert forall i :: 0 <= i < |images| ==> images[i] in urls by {
      forall i | 0 <= i < |images| ensures images[i] in urls {
        assert Same(images[i]) in Seqs.KeySet(urls, Same);
      }
    }
    Seqs.Map(urls, ImageRecordOf)
  }

  /** A URL is among the keys of a list exactly when it is in the list. */
  lemma SeenKey(images: seq<string>, u: string)
    ensures u in Seqs.KeySet(Seqs.DedupFirst(images, Same), Same) <==> u in images
  {
    if u in images {
      var i :| 0 <= i < |images| && images[i] == u;
      assert Same(images[i]) in Seqs.KeySet(images, Same);
    }
  }

  /** Deduplicating URLs keeps a further URL exactly when it is new. */
  lemma DedupUrlsSnoc(images: seq<string>, u: string)
    ensures Seqs.DedupFirst(images + [u], Same) ==
              if u in images then Seqs.DedupFirst(images, Same) else Seqs.DedupFirst(images, Same) + [u]
  {
    var xs := images + [u];
    assert xs[..|xs| - 1] == images && xs[|xs| - 1] == u;
    SeenKey(images, u);
  }

  /** The records come in first-seen order: a further URL adds its record at
      the end when it is new and nothing when it was seen before. */
  lemma ImageRecordsSnoc(images: seq<string>, u: string)
    ensures ImageRecords([]) == []
    ensures ImageRecords(images + [u]) ==
              if u in images then ImageRecords(images) else ImageRecords(images) + [ImageRecordOf(u)]
  {
    if u in images {
      ImageRecordsSeen(images, u);
    } else {
      ImageRecordsNew(images, u);
    }
  }

  /** A URL seen before adds no record. */
  lemma ImageRecordsSeen(images: seq<string>, u: string)
    requires u in images
    ensures ImageRecords(images + [u]) == ImageRecords(images)
  {
    DedupUrlsSnoc(images, u);
  }

  /** A new URL adds its record at the end. */
  lemma ImageRecordsNew(images: seq<string>, u: string)
    requires u !in images
    ensures ImageRecords(images + [u]) == ImageRecords(images) + [ImageRecordOf(u)]
  {
    var kept := Seqs.DedupFirst(images, Same);
    DedupUrlsSnoc(images, u);
    Seqs.MapAppend(kept, [u], ImageRecordOf);
    assert Seqs.Map([u], ImageRecordOf) == [ImageRecordOf(u)];
  }

  /** One image of one record, in the order the comprehensions visit them. */
  datatype ImageUse = ImageUse(ownerId: nat, url: string)

  /** `[(owner.id, image) for owner in owners for image in owner.images]` */
  function ImageUses(owners: seq<nat>, imagesOf: nat -> seq<string>): (r: seq<ImageUse>)
    ensures forall i, u :: 0 <= i < |owners| && u in imagesOf(owners[i]) ==> ImageUse(owners[i], u) in r
    ensures forall x :: x in r ==> x.ownerId in owners && x.url in imagesOf(x.ownerId)
    decreases |owners|
  {
    if |owners| == 0 then []
    else
      var init := owners[..|owners| - 1];
      var o := owners[|owners| - 1];
      assert forall i :: 0 <= i < |init| ==> init[i] == owners[i];
      var own := seq(|imagesOf(o)|, k requires 0 <= k < |imagesOf(o)| => ImageUse(o, imagesOf(o)[k]));
      assert forall u :: u in imagesOf(o) ==> ImageUse(o, u) in own by {
        forall u | u in imagesOf(o) ensures ImageUse(o, u) in own {
          var k :| 0 <= k < |imagesOf(o)| && imagesOf(o)[k] == u;
          assert own[k] == ImageUse(o, u);
        }
      }
      ImageUses(init, imagesOf) + own
  }

  /** A `charters_images` or `saved_charters_images` pair. */
  datatype ImageLink = ImageLink(ownerId: nat, imageId: nat)

  function LinkFor(t: ImageTable, x: ImageUse): Option<ImageLink> {
    if x.url in t.rows then Some(ImageLink(x.ownerId, t.rows[x.url].id)) else None
  }

  /** The links, only for URLs the table holds. */
  function ImageLinks(uses: seq<ImageUse>, t: ImageTable): (r: seq<ImageLink>)
    ensures forall l :: l in r ==> exists x :: x in uses && x.url in t.rows && l == ImageLink(x.ownerId, t.rows[x.url].id)
  {
    var links := seq(|uses|, k requires 0 <= k < |uses| => LinkFor(t, uses[k]));
    forall l | l in Seqs.Somes(links)
      ensures exists x :: x in uses && x.url in t.rows && l == ImageLink(x.ownerId, t.rows[x.url].id)
    {
      var k :| 0 <= k < |links| && links[k] == Some(l);
      assert uses[k] in uses;
    }
    Seqs.Somes(links)
  }

  /** Every image was inserted right before the lookup, so no link is lost:
      there is one link per image of each record, to that URL's row. */
  lemma ImageLinksComplete(uses: seq<ImageUse>, t: ImageTable)
    requires forall x :: x in uses ==> x.url in t.rows
    ensures |ImageLinks(uses, t)| == |uses|
    ensures forall k :: 0 <= k < |uses| ==> ImageLinks(uses, t)[k] == ImageLink(uses[k].ownerId, t.rows[uses[k].url].id)
  {
    var links := seq(|uses|, k requires 0 <= k < |uses| => LinkFor(t, uses[k]));
    assert forall k :: 0 <= k < |uses| ==> uses[k] in uses && links[k] == LinkFor(t, uses[k]);
    Seqs.SomesAll(links);
  }

  // ----- charters -----

  /** A `charters` row.  `idno_id` holds the charter's normalised idno and
      `last_editor_id` is empty, the values the code evidently means to
      write (see `CharterRecordsAsWritten`). */
  datatype CharterRow = CharterRow(id: nat, atomId: string, idnoId: string, idnoText: string, url: Url, lastEditorId: Option<nat>)

  /** A `fonds_charters` or `collections_charters` pair. */
  datatype ParentLink = ParentLink(parentId: nat, charterId: nat)

  /** What one `insert_fonds_charters` or `insert_collections_charters`
      call writes. */
  datatype ChartersInsert = ChartersInsert(
    charters: seq<CharterRow>,
    parents: seq<ParentLink>,
    images: ImageTable,
    imageLinks: seq<ImageLink>)

  function CharterRowOf(c: Charter): CharterRow {
    CharterRow(c.id, c.atomId, c.idnoNorm, c.idnoText, c.url, None)
  }

  function CharterIdOf(c: Charter): nat { c.id }

  /** The shared body of the two charter inserts: the charters with the ID
      of their fond or collection, and the images each carries.  The image
      lists are a parameter (`imagesOf`, by charter ID), since what the base
      constructor stores there is not derived here. */
  function InsertCharters(charters: seq<Charter>, parentIds: seq<nat>, imagesOf: nat -> seq<string>,
                          t: ImageTable): (r: ChartersInsert)
    requires |parentIds| == |charters|
    ensures |r.charters| == |charters| && |r.parents| == |charters|
    ensures forall i :: 0 <= i < |charters| ==>
              && r.charters[i].id == charters[i].id && r.charters[i].atomId == charters[i].atomId
              && r.charters[i].idnoId == charters[i].idnoNorm && r.charters[i].idnoText == charters[i].idnoText
              && r.charters[i].url == charters[i].url && r.charters[i].lastEditorId.None?
              && r.parents[i] == ParentLink(parentIds[i], charters[i].id)
    ensures forall u :: u in t.rows ==> u in r.images.rows && r.images.rows[u] == t.rows[u]
    ensures forall i, u :: 0 <= i < |charters| && u in imagesOf(charters[i].id) ==> u in r.images.rows
  {
    var ids := Seqs.Map(charters, CharterIdOf);
    var uses := ImageUses(ids, imagesOf);
    var table := InsertImages(t, Seqs.Map(uses, (x: ImageUse) => x.url));
    assert forall x :: x in uses ==> x.url in table.rows by {
      forall x | x in uses ensures x.url in table.rows {
        var k :| 0 <= k < |uses| && uses[k] == x;
        assert Seqs.Map(uses, (x: ImageUse) => x.url)[k] == x.url;
      }
    }
    assert forall i, u :: 0 <= i < |charters| && u in imagesOf(charters[i].id) ==> ImageUse(ids[i], u) in uses;
    ChartersInsert(
      Seqs.Map(charters, CharterRowOf),
      seq(|charters|, i requires 0 <= i < |charters| => ParentLink(parentIds[i], charters[i].id)),
      table,
      ImageLinks(uses, table))
  }

  /** The image links of a charter insert are one per image of each charter,
      in order, each to the row of that URL. */
  lemma InsertChartersLinks(charters: seq<Charter>, parentIds: seq<nat>, imagesOf: nat -> seq<string>, t: ImageTable)
    requires |parentIds| == |charters|
    ensures var r := InsertCharters(charters, parentIds, imagesOf, t);
            var uses := ImageUses(Seqs.Map(charters, CharterIdOf), imagesOf);
            && |r.imageLinks| == |uses|
            && forall k :: 0 <= k < |uses| ==> r.imageLinks[k] == ImageLink(uses[k].ownerId, r.images.rows[uses[k].url].id)
  {
    var uses := ImageUses(Seqs.Map(charters, CharterIdOf), imagesOf);
    var table := InsertImages(t, Seqs.Map(uses, (x: ImageUse) => x.url));
    forall x | x in uses ensures x.url in table.rows {
      var k :| 0 <= k < |uses| && uses[k] == x;
      assert Seqs.Map(uses, (x: ImageUse) => x.url)[k] == x.url;
    }
    ImageLinksComplete(uses, table);
  }

  /** The attributes a charter object carries: those `XmlCharter.__init__`
      assigns. */
  const CharterAttributes: set<string> := {"id", "file", "images", "url", "atom_id", "idno_norm", "idno_text"}

  /** A saved charter also carries the class-level defaults of
      `XmlSavedCharter`. */
  const SavedCharterAttributes: set<string> := CharterAttributes + {"editor_id", "start_time", "released"}

  /** The attributes a `charters` record reads, in column order. */
  const CharterColumns: seq<string> := ["id", "atom_id", "idno_id", "idno_text", "url", "last_editor_id"]

  /** The attributes a `saved_charters` record reads, in column order. */
  const SavedColumns: seq<string> := ["id", "atom_id", "editor_id", "idno_id", "idno_text", "released", "start_time", "url"]

  /** The first of `names` an object with `attributes` lacks: reading the
      names in order raises `AttributeError` there. */
  function FirstMissing(names: seq<string>, attributes: set<string>): (r: Option<string>)
    ensures r.None? <==> forall i :: 0 <= i < |names| ==> names[i] in attributes
    ensures r.Some? ==> exists i :: 0 <= i < |names| && names[i] == r.value && r.value !in attributes
                          && forall j :: 0 <= j < i ==> names[j] in attributes
  {
    match Seqs.FirstIndex(names, (n: string) => n !in attributes)
    case None => None
    case Some(i) => Some(names[i])
  }

  /** Both record lists first miss `idno_id`. */
  lemma IdnoIdMissing()
    ensures FirstMissing(CharterColumns, CharterAttributes) == Some("idno_id")
    ensures FirstMissing(SavedColumns, SavedCharterAttributes) == Some("idno_id")
  {
    assert CharterColumns[0] in CharterAttributes && CharterColumns[1] in CharterAttributes;
    assert CharterColumns[2] == "idno_id" && "idno_id" !in CharterAttributes;
    assert SavedColumns[0] in SavedCharterAttributes && SavedColumns[1] in SavedCharterAttributes;
    assert SavedColumns[2] in SavedCharterAttributes;
    assert SavedColumns[3] == "idno_id" && "idno_id" !in SavedCharterAttributes;
  }

  /** `charter_records` of `insert_fonds_charters` and
      `insert_collections_charters` as the code reads it: the first charter
      already raises on an attribute no charter object carries, so only an
      empty list gets through. */
  function CharterRecordsAsWritten(charters: seq<Charter>): (r: Result<seq<CharterRow>>)
    ensures r.Ok? <==> |charters| == 0
    ensures r.Err? ==> r.error == AttributeMissing("idno_id")
  {
    if |charters| == 0 then Ok([])
    else
      IdnoIdMissing();
      match FirstMissing(CharterColumns, CharterAttributes)
      case Some(a) => Err(AttributeMissing(a))
      case None => Ok(Seqs.Map(charters, CharterRowOf))
  }

  /** One charter shows it: the code as written stops at `idno_id`, while the
      corrected insert writes that charter's row. */
  lemma CharterRecordsAsWrittenFail(c: Charter, parentId: nat, imagesOf: nat -> seq<string>, t: ImageTable)
    ensures CharterRecordsAsWritten([c]) == Err(AttributeMissing("idno_id"))
    ensures InsertCharters([c], [parentId], imagesOf, t).charters == [CharterRowOf(c)]
  {
  }

  function FondCharterBase(x: FondCharter): Charter { x.charter }
  function FondOf(x: FondCharter): nat { x.fondId }
  function CollectionCharterBase(x: CollectionCharter): Charter { x.charter }
  function CollectionOf(x: CollectionCharter): nat { x.collectionId }

  /** `insert_fonds_charters(charters)`: every charter links to its fond. */
  function InsertFondsCharters(charters: seq<FondCharter>, imagesOf: nat -> seq<string>, t: ImageTable): (r: ChartersInsert)
    ensures |r.parents| == |charters| && |r.charters| == |charters|
    ensures forall i :: 0 <= i < |charters| ==> r.parents[i] == ParentLink(charters[i].fondId, charters[i].charter.id)
    ensures forall i :: 0 <= i < |charters| ==> r.charters[i] == CharterRowOf(charters[i].charter)
  {
    InsertCharters(Seqs.Map(charters, FondCharterBase), Seqs.Map(charters, FondOf), imagesOf, t)
  }

  /** `insert_collections_charters(charters)`: every charter links to its
      collection. */
  function InsertCollectionsCharters(charters: seq<CollectionCharter>, imagesOf: nat -> seq<string>, t: ImageTable): (r: ChartersInsert)
    ensures |r.parents| == |charters| && |r.charters| == |charters|
    ensures forall i :: 0 <= i < |charters| ==> r.parents[i] == ParentLink(charters[i].collectionId, charters[i].charter.id)
    ensures forall i :: 0 <= i < |charters| ==> r.charters[i] == CharterRowOf(charters[i].charter)
  {
    InsertCharters(Seqs.Map(charters, CollectionCharterBase), Seqs.Map(charters, CollectionOf), imagesOf, t)
  }

  // ----- saved charters -----

  /** A `saved_charters` row. */
  datatype SavedRow = SavedRow(
    id: nat, atomId: string, editorId: int, idnoId: string, idnoText: string,
    released: bool, originalId: nat, startTime: Option<string>, url: Url)

  function SavedRowFor(x: SavedCharter, original: map<string, nat>): (r: Option<SavedRow>)
    ensures r.Some? <==> x.charter.atomId in original
  {
    if x.charter.atomId !in original then None
    else
      Some(SavedRow(x.charter.id, x.charter.atomId, x.editorId, x.charter.idnoNorm, x.charter.idnoText,
                    x.released, original[x.charter.atomId], x.startTime, x.charter.url))
  }

  /** The saved charters `insert_saved_charters` keeps: those whose atom id
      names a charter already in the `charters` table. */
  function ValidSaved(charters: seq<SavedCharter>, original: map<string, nat>): (r: seq<SavedCharter>)
    ensures forall x :: x in r ==> x in charters && x.charter.atomId in original
    ensures forall x :: x in charters && x.charter.atomId in original ==> x in r
  {
    Seqs.Filter(charters, (x: SavedCharter) => x.charter.atomId in original)
  }

  /** The rows `insert_saved_charters` writes. */
  function SavedRows(charters: seq<SavedCharter>, original: map<string, nat>): (r: seq<SavedRow>)
    ensures |r| <= |charters|
  {
    Seqs.Somes(seq(|charters|, i requires 0 <= i < |charters| => SavedRowFor(charters[i], original)))
  }

  /** A row is written exactly for each saved charter with an original, and
      its `original_charter_id` is that charter's ID; the other columns are
      the saved charter's own. */
  lemma SavedRowsExact(charters: seq<SavedCharter>, original: map<string, nat>)
    ensures forall row :: row in SavedRows(charters, original) ==>
              row.atomId in original && row.originalId == original[row.atomId]
              && exists i :: 0 <= i < |charters| && charters[i].charter.id == row.id
                   && charters[i].charter.atomId == row.atomId && charters[i].editorId == row.editorId
                   && charters[i].released == row.released && charters[i].startTime == row.startTime
    ensures forall i :: 0 <= i < |charters| && charters[i].charter.atomId in original ==>
              SavedRowFor(charters[i], original).value in SavedRows(charters, original)
    ensures forall i :: 0 <= i < |charters| && charters[i].charter.atomId !in original ==>
              forall row :: row in SavedRows(charters, original) ==> row.atomId != charters[i].charter.atomId
  {
    var rows := seq(|charters|, i requires 0 <= i < |charters| => SavedRowFor(charters[i], original));
    assert forall i :: 0 <= i < |charters| ==> rows[i] == SavedRowFor(charters[i], original);
    forall row | row in Seqs.Somes(rows)
      ensures row.atomId in original && row.originalId == original[row.atomId]
      ensures exists i :: 0 <= i < |charters| && charters[i].charter.id == row.id
                && charters[i].charter.atomId == row.atomId && charters[i].editorId == row.editorId
                && charters[i].released == row.released && charters[i].startTime == row.startTime
    {
      var i :| 0 <= i < |rows| && rows[i] == Some(row);
    }
  }

  /** `charter_records` of `insert_saved_charters` as the code reads it: a
      saved charter without an original is skipped before its attributes are
      read, and the first one with an original raises on `idno_id`. */
  function SavedRecordsAsWritten(charters: seq<SavedCharter>, original: map<string, nat>): (r: Result<seq<SavedRow>>)
    ensures r.Ok? <==> forall i :: 0 <= i < |charters| ==> charters[i].charter.atomId !in original
    ensures r.Ok? ==> r.value == []
    ensures r.Err? ==> r.error == AttributeMissing("idno_id")
  {
    if forall i :: 0 <= i < |charters| ==> charters[i].charter.atomId !in original then
      SavedRowsNone(charters, original);
      Ok(SavedRows(charters, original))
    else
      IdnoIdMissing();
      match FirstMissing(SavedColumns, SavedCharterAttributes)
      case Some(a) => Err(AttributeMissing(a))
      case None => Ok(SavedRows(charters, original))
  }

  lemma SavedRowsNone(charters: seq<SavedCharter>, original: map<string, nat>)
    requires forall i :: 0 <= i < |charters| ==> charters[i].charter.atomId !in original
    ensures SavedRows(charters, original) == []
  {
    var rows := seq(|charters|, i requires 0 <= i < |charters| => SavedRowFor(charters[i], original));
    assert forall i :: 0 <= i < |rows| ==> rows[i].None?;
  }

  /** One saved charter with an original shows it: the code as written
      stops at `idno_id`, while the corrected rows hold that charter's row. */
  lemma SavedRecordsAsWrittenFail(x: SavedCharter, original: map<string, nat>)
    requires x.charter.atomId in original
    ensures SavedRecordsAsWritten([x], original) == Err(AttributeMissing("idno_id"))
    ensures SavedRows([x], original) == [SavedRowFor(x, original).value]
  {
    var rows := seq(1, i requires 0 <= i < 1 => SavedRowFor([x][i], original));
    assert rows == [SavedRowFor(x, original)];
    Seqs.SomesOne(SavedRowFor(x, original));
  }

  /** What `insert_saved_charters` writes: rows for the saved charters with
      an original, and images and image links for those charters only. */
  datatype SavedInsert = SavedInsert(rows: seq<SavedRow>, images: ImageTable, imageLinks: seq<ImageLink>)

  function SavedIdOf(x: SavedCharter): nat { x.charter.id }

  function InsertSavedCharters(charters: seq<SavedCharter>, original: map<string, nat>,
                               imagesOf: nat -> seq<string>, t: ImageTable): (r: SavedInsert)
    ensures r.rows == SavedRows(charters, original)
    ensures forall l :: l in r.imageLinks ==> exists x :: x in ValidSaved(charters, original) && l.ownerId == x.charter.id
    ensures forall u :: u in t.rows ==> u in r.images.rows && r.images.rows[u] == t.rows[u]
    ensures forall x, u :: x in ValidSaved(charters, original) && u in imagesOf(x.charter.id) ==> u in r.images.rows
  {
    var valid := ValidSaved(charters, original);
    var ids := Seqs.Map(valid, SavedIdOf);
    var uses := ImageUses(ids, imagesOf);
    var table := InsertImages(t, Seqs.Map(uses, UseUrl));
    var links := ImageLinks(uses, table);
    assert forall l :: l in links ==> l.ownerId in ids;
    SavedImagesInserted(valid, imagesOf, t);
    SavedInsert(SavedRows(charters, original), table, links)
  }

  function UseUrl(x: ImageUse): string { x.url }

  /** Inserting the URLs of some image uses puts every one of them in the table. */
  lemma UsesInserted(uses: seq<ImageUse>, t: ImageTable)
    ensures forall x :: x in uses ==> x.url in InsertImages(t, Seqs.Map(uses, UseUrl)).rows
  {
    forall x | x in uses ensures x.url in InsertImages(t, Seqs.Map(uses, UseUrl)).rows {
      var k :| 0 <= k < |uses| && uses[k] == x;
      assert Seqs.Map(uses, UseUrl)[k] == x.url;
    }
  }

  /** Inserting the images the saved charters use puts each image of
      each of them in the table. */
  lemma SavedImagesInserted(valid: seq<SavedCharter>, imagesOf: nat -> seq<string>, t: ImageTable)
    ensures var table := InsertImages(t, Seqs.Map(ImageUses(Seqs.Map(valid, SavedIdOf), imagesOf), UseUrl));
            forall x, u :: x in valid && u in imagesOf(x.charter.id) ==> u in table.rows
  {
    var ids := Seqs.Map(valid, SavedIdOf);
    var uses := ImageUses(ids, imagesOf);
    var table := InsertImages(t, Seqs.Map(uses, UseUrl));
    UsesInserted(uses, t);
    forall x, u | x in valid && u in imagesOf(x.charter.id) ensures u in table.rows {
      var i :| 0 <= i < |valid| && valid[i] == x;
      assert ids[i] == x.charter.id;
      assert ImageUse(ids[i], u) in ImageUses(ids, imagesOf);
    }
  }

  /** The image links of the saved-charter insert are one per image of each
      kept saved charter, in order, each to the row of that URL. */
  lemma InsertSavedChartersLinks(charters: seq<SavedCharter>, original: map<string, nat>,
                                 imagesOf: nat -> seq<string>, t: ImageTable)
    ensures var r := InsertSavedCharters(charters, original, imagesOf, t);
            var uses := ImageUses(Seqs.Map(ValidSaved(charters, original), SavedIdOf), imagesOf);
            && |r.imageLinks| == |uses|
            && forall k :: 0 <= k < |uses| ==> r.imageLinks[k] == ImageLink(uses[k].ownerId, r.images.rows[uses[k].url].id)
  {
    var uses := ImageUses(Seqs.Map(ValidSaved(charters, original), SavedIdOf), imagesOf);
    UsesInserted(uses, t);
    ImageLinksComplete(uses, InsertImages(t, Seqs.Map(uses, UseUrl)));
  }

  // ----- bookmarks -----

  /** A bookmark: the charter's atom id and the user's note. */
  datatype Bookmark = Bookmark(atomId: string, note: Option<string>)

  datatype UserBookmarks = UserBookmarks(userId: nat, bookmarks: seq<Bookmark>)

  /** A `user_charter_bookmarks` row. */
  datatype BookmarkRow = BookmarkRow(userId: nat, charterId: nat, note: Option<string>)

  function BookmarkRowFor(userId: nat, b: Bookmark, charters: map<string, nat>): Option<BookmarkRow> {
    if b.atomId in charters then Some(BookmarkRow(userId, charters[b.atomId], b.note)) else None
  }

  function UserBookmarkRows(u: UserBookmarks, charters: map<string, nat>): (r: seq<BookmarkRow>)
    ensures forall row :: row in r ==> row.userId == u.userId
    ensures forall row :: row in r ==>
              exists b :: b in u.bookmarks && b.atomId in charters && row == BookmarkRow(u.userId, charters[b.atomId], b.note)
    ensures forall b :: b in u.bookmarks && b.atomId in charters ==> BookmarkRow(u.userId, charters[b.atomId], b.note) in r
  {
    var rows := seq(|u.bookmarks|, k requires 0 <= k < |u.bookmarks| => BookmarkRowFor(u.userId, u.bookmarks[k], charters));
    assert forall k :: 0 <= k < |u.bookmarks| ==> rows[k] == BookmarkRowFor(u.userId, u.bookmarks[k], charters);
    forall row | row in Seqs.Somes(rows)
      ensures row.userId == u.userId
      ensures exists b :: b in u.bookmarks && b.atomId in charters && row == BookmarkRow(u.userId, charters[b.atomId], b.note)
    {
      var k :| 0 <= k < |rows| && rows[k] == Some(row);
      assert u.bookmarks[k] in u.bookmarks;
    }
    Seqs.Somes(rows)
  }

  /** `insert_user_charter_bookmarks(users)`: a row for each bookmark whose
      atom id names a charter in the `charters` table, and for nothing else. */
  function BookmarkRows(users: seq<UserBookmarks>, charters: map<string, nat>): (r: seq<BookmarkRow>)
    ensures forall row :: row in r ==>
              exists i, b :: 0 <= i < |users| && b in users[i].bookmarks && b.atomId in charters
                && row == BookmarkRow(users[i].userId, charters[b.atomId], b.note)
    ensures forall i, b :: 0 <= i < |users| && b in users[i].bookmarks && b.atomId in charters ==>
              BookmarkRow(users[i].userId, charters[b.atomId], b.note) in r
  {
    var perUser := seq(|users|, i requires 0 <= i < |users| => UserBookmarkRows(users[i], charters));
    assert forall i :: 0 <= i < |users| ==> perUser[i] == UserBookmarkRows(users[i], charters);
    Seqs.Concat(perUser)
  }

  // ----- collections -----

  /** A `collections` row as `insert_collections` writes it. */
  datatype CollectionRow = CollectionRow(id: nat, atomId: string, identifier: string, imageBase: Option<Url>,
                                         oaiShared: bool, title: string)

  /** A `collection_fonds` pair. */
  datatype CollectionFond = CollectionFond(collectionId: nat, fondId: nat)

  function CollectionRowOf(c: Collection): CollectionRow {
    CollectionRow(c.id, c.atomId, c.identifier, c.imageBase, c.oaiShared, c.title)
  }

  function FondLinksOf(c: Collection): (r: seq<CollectionFond>)
    ensures |r| == |c.linkedFonds| && forall k :: 0 <= k < |r| ==> r[k] == CollectionFond(c.id, c.linkedFonds[k])
  {
    seq(|c.linkedFonds|, k requires 0 <= k < |c.linkedFonds| => CollectionFond(c.id, c.linkedFonds[k]))
  }

  /** `insert_collections(collections)`: one row per collection, and a
      `collection_fonds` pair for each fond each collection links. */
  function CollectionFondRows(collections: seq<Collection>): (r: seq<CollectionFond>)
    ensures forall p :: p in r ==>
              exists i :: 0 <= i < |collections| && p.collectionId == collections[i].id
                && p.fondId in collections[i].linkedFonds
    ensures forall i, f :: 0 <= i < |collections| && f in collections[i].linkedFonds ==>
              CollectionFond(collections[i].id, f) in r
  {
    var perCollection := seq(|collections|, i requires 0 <= i < |collections| => FondLinksOf(collections[i]));
    assert forall i :: 0 <= i < |collections| ==> perCollection[i] == FondLinksOf(collections[i]);
    forall i, f | 0 <= i < |collections| && f in collections[i].linkedFonds
      ensures CollectionFond(collections[i].id, f) in perCollection[i]
    {
      var k :| 0 <= k < |collections[i].linkedFonds| && collections[i].linkedFonds[k] == f;
      assert perCollection[i][k] == CollectionFond(collections[i].id, f);
    }
    Seqs.Concat(perCollection)
  }

  /** A `collections` row as `insert_public_collections` writes it. */
  datatype PublicCollectionRow = PublicCollectionRow(id: nat, atomId: string, identifier: string, oaiShared: bool, title: string)

  /** A `collection_source` pair. */
  datatype CollectionSource = CollectionSource(collectionId: nat, sourceCollectionId: nat)

  function SourceOf(m: Mycollection): (r: Option<CollectionSource>)
    ensures r.Some? <==> m.privateMycollectionId.Some?
  {
    match m.privateMycollectionId
    case None => None
    case Some(p) => Some(CollectionSource(m.collection.id, p))
  }

  function PublicCollectionRowOf(m: Mycollection): PublicCollectionRow {
    PublicCollectionRow(m.collection.id, m.collection.atomId, m.collection.identifier, m.collection.oaiShared, m.collection.title)
  }

  /** `insert_public_collections(mycollections)`: a source pair exactly for
      each collection that names its private collection. */
  function CollectionSources(mycollections: seq<Mycollection>): (r: seq<CollectionSource>)
    ensures forall s :: s in r ==>
              exists i :: 0 <= i < |mycollections| && mycollections[i].privateMycollectionId.Some?
                && s == CollectionSource(mycollections[i].collection.id, mycollections[i].privateMycollectionId.value)
    ensures forall i :: 0 <= i < |mycollections| && mycollections[i].privateMycollectionId.Some? ==>
              CollectionSource(mycollections[i].collection.id, mycollections[i].privateMycollectionId.value) in r
    ensures (forall i :: 0 <= i < |mycollections| ==> mycollections[i].privateMycollectionId.None?) ==> r == []
  {
    var sources := seq(|mycollections|, i requires 0 <= i < |mycollections| => SourceOf(mycollections[i]));
    assert forall i :: 0 <= i < |mycollections| ==> sources[i] == SourceOf(mycollections[i]);
    forall s | s in Seqs.Somes(sources)
      ensures exists i :: 0 <= i < |mycollections| && mycollections[i].privateMycollectionId.Some?
                && s == CollectionSource(mycollections[i].collection.id, mycollections[i].privateMycollectionId.value)
    {
      var i :| 0 <= i < |sources| && sources[i] == Some(s);
    }
    Seqs.Somes(sources)
  }

  /** A `private_collections` row. */
  datatype PrivateCollectionRow = PrivateCollectionRow(id: nat, atomId: string, identifier: string, title: string, ownerId: nat)

  /** `insert_private_collections(mycollections)`: reading `owner_id` of a
      collection that never had `set_user` called fails. */
  function PrivateCollectionRows(mycollections: seq<Mycollection>): (r: Result<seq<PrivateCollectionRow>>)
    ensures r.Ok? <==> forall i :: 0 <= i < |mycollections| ==> mycollections[i].owner.Some?
    ensures r.Err? ==> r.error == AttributeMissing("owner_id")
    ensures r.Ok? ==> |r.value| == |mycollections| && forall i :: 0 <= i < |mycollections| ==>
              r.value[i] == PrivateCollectionRow(mycollections[i].collection.id, mycollections[i].collection.atomId,
                                                 mycollections[i].collection.identifier, mycollections[i].collection.title,
                                                 mycollections[i].owner.value.id)
    decreases |mycollections|
  {
    if |mycollections| == 0 then Ok([])
    else
      var init := mycollections[..|mycollections| - 1];
      var m := mycollections[|mycollections| - 1];
      assert forall i :: 0 <= i < |init| ==> init[i] == mycollections[i];
      match PrivateCollectionRows(init)
      case Err(e) => Err(e)
      case Ok(rows) =>
        match m.owner
        case None => Err(AttributeMissing("owner_id"))
        case Some(o) =>
          var r := rows + [PrivateCollectionRow(m.collection.id, m.collection.atomId, m.collection.identifier, m.collection.title, o.id)];
          assert forall i :: 0 <= i < |init| ==> r[i] == rows[i];
          Ok(r)
  }
}

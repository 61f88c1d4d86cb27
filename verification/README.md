# mom-sql import core, modelled in Dafny

mom-sql reads an eXist backup of the Monasterium (MOM) charter portal and loads it into a
relational database. The backup is a zip of XML documents. Its records are archives (EAG),
their fonds (EAD plus image preferences), public collections, the charters of fonds and
collections, users with their saved working copies of charters, users' own collections
("my collections") and charters, and person indexes with the person-name mentions that
point into them.

This project models the part of the import that turns extracted fields into typed records
and links those records together:

- **Serial IDs.** The ID allocator keeps one counter per kind of record. All its instances
  share that state (`SerialIds`).
- **Field rules.** Each record constructor has its own field-derivation rules, fallbacks and
  required-field failures (`Archives`, `Fonds`, `Collections`, `Charters`, `FondCharters`,
  `CollectionCharters`, `SavedCharters`, `Users`, `Mycollections`, `Mycharters`,
  `PersonNames`, `IndexPersons`).
- **Folder listings and image lists.** The backup's folder listings (`Contents`) and the
  image-list filter (`ImagesFile`).
- **Whitespace normalisation** (`Utils`).
- **The person identity index** (`Persons`). It resolves a person by Wikidata IRI or MOM id.
- **The batch stages of `MomBackup`** (`UserStage`, `RecordStages`, `CharterStages`,
  `SavedStage`, built on the generic listing loop `Stages`). They skip missing documents,
  keep the first record of each atom id or file name, and cross-link saved charters to the
  saves recorded in the user documents.
- **The row builders of `CharterDb`** (`CharterDb`). They resolve moderators, drop saved
  charters without an original, flag and deduplicate images, and filter bookmarks, image
  links and collection sources.

The shared counter state is an explicit `Counters` map. Every constructor and stage takes it
and returns it (`Stage`). The backup is a `Store`: maps from path to already-parsed document,
where an absent key means "not in the zip". The database tables the inserts query are maps
from key to ID. Every raised exception or failed `assert` is an `Err` of the `Result`
datatype.

## Model

| member | source | states |
|---|---|---|
| SerialIds.Construct | modules/models/serial_id_generator.py:1-12 | A new generator starts from the shared counters when there are any, so constructing one never resets a count; only the very first starts empty |
| SerialIds.Next | modules/models/serial_id_generator.py:14-18 | A kind never seen gets 1; every call returns the kind's previous value plus one and stores it; every other kind is unchanged |
| SerialIds.NextIsFresh | modules/models/serial_id_generator.py:14-18 | The new ID was not handed out before for its kind, is handed out afterwards, and no counter goes down |
| SerialIds.AllocateRun | modules/models/serial_id_generator.py:8-18 | n records built one after the other, each through a new generator, get the next n numbers of their kind, strictly increasing, and no other kind moves |
| Utils.NormalizeShape | modules/utils.py:5-8 | The result has no whitespace at either end; each whitespace run becomes one space, so no two whitespace characters are adjacent; the non-whitespace characters are kept in order |
| Utils.NormalizeIdempotent | modules/utils.py:5-8 | Normalising twice is normalising once |
| Utils.NormalizeFixpoint | modules/utils.py:5-8 | Text already in normal form comes back unchanged |
| Utils.NormalizeEmpty | modules/utils.py:5-8 | The result is empty exactly when the input is all whitespace |
| Utils.CollapseEnds | modules/utils.py:7 | The substitution keeps a whitespace or non-whitespace first and last character as such and empties only empty text |
| Utils.CollapseCollapsed | modules/utils.py:7 | After the substitution every whitespace character is a single space followed by a non-whitespace one |
| Utils.CollapseSolid | modules/utils.py:7 | The substitution keeps the non-whitespace characters, in order |
| Utils.CollapseFixpoint | modules/utils.py:7 | Collapsed text is left as it is by the substitution |
| Contents.CorrectFilenameIdentity | modules/models/contents_xml.py:9-11 | A name without "&amp;" is returned unchanged |
| Contents.CorrectUndoesEscape | modules/models/contents_xml.py:9-11 | Correcting undoes the listing's escaping of "&" for every file name |
| Contents.ParseEntry | modules/models/contents_xml.py:24-33 | An entry fails exactly when it lacks `name` or `filename`; otherwise it keeps the name, the corrected file name and its kind |
| Contents.ParseEntries | modules/models/contents_xml.py:56-65 | All entries parse or the listing fails; the parsed entries keep document order, one per element |
| Contents.XmlResources | modules/models/contents_xml.py:60-65 | Exactly the resources typed XMLResource are listed, and nothing else |
| Contents.ParseContents | modules/models/contents_xml.py:54-65 | Sub-folders become COLLECTION entries and XML documents RESOURCE entries, in document order; the listing fails exactly when one of them lacks an attribute |
| ImagesFile.ListImages | modules/models/images_file.py:17-25 | One URL per line whose stripped text passes the filter, and no URL from any other line |
| ImagesFile.ListImagesOrder | modules/models/images_file.py:17-25 | The list follows the file line by line: the URLs of two parts of a file are those of the first part followed by those of the second, and one line gives its URL when it passes the filter and nothing otherwise |
| ImagesFile.AcceptedLineIsRewritten | modules/models/images_file.py:4-25 | An accepted line without leading whitespace starts with "./" and becomes the image host plus the stripped remainder |
| ImagesFile.IndentedLineIsNotRewritten | modules/models/images_file.py:17-25 | A line with leading whitespace is emitted stripped and not rewritten |
| ImagesFile.IndentedExample | modules/models/images_file.py:17-25 | An indented "./img" line passes the filter and comes out as the stripped relative path |
| ImagesFile.ThumbnailsRejected | modules/models/images_file.py:4-10 | Lines in the illuminated-charter thumbnails folder are never used |
| Archives.ParseOai | modules/models/xml_archive.py:10-24 | The fonds and harvesters lists hold exactly the texts of the elements that have one |
| Archives.OaiKeepsOrder | modules/models/xml_archive.py:13-17 | The fonds list keeps document order: splitting the elements splits the list |
| Archives.ParseArchive | modules/models/xml_archive.py:27-60 | Construction fails exactly without atom id, repositorid text, country code or a non-blank name; the fields are copied, the name normalised, and oai is None exactly when no OAI document is given |
| Archives.ArchiveName | modules/models/xml_archive.py:55-57 | An archive's name is normalised and non-empty; an all-whitespace autform is rejected |
| Fonds.PrefsImageBase | modules/models/xml_fond.py:80-87 | The image base is set exactly when preferences name a non-empty URL the validator accepts |
| Fonds.ParseFond | modules/models/xml_fond.py:22-87 | Fails exactly without atom id, unitid (text or attribute) or unittitle; identifier falls back from text to attribute; title from unittitle text to identifier; oai_shared iff the archive's OAI fonds list the identifier; free access iff the parameter is "free"; archive fields copied |
| Fonds.FondInvariants | modules/models/xml_fond.py:56-63 | The title is in normal form and the image base, when set, is accepted by the validator |
| Fonds.FondWithoutPrefs | modules/models/xml_fond.py:70-87 | Without preferences there is neither free image access nor an image base |
| Collections.ImageServerUrlOf | modules/models/xml_collection.py:57-65 | The bare image host gets its scheme only when joined with a folder; without a folder the address is used as written |
| Collections.CollectionImageBase | modules/models/xml_collection.py:54-67 | The image base is set exactly when an address with text is present and the validator accepts the URL built from it |
| Collections.FondLink | modules/models/xml_collection.py:73-77 | A group id links the first fond with that atom id, and nothing when none has it |
| Collections.LinkedFonds | modules/models/xml_collection.py:69-79 | Every group text that matches a fond contributes that fond's ID, and every linked ID is one of a fond a group text names |
| Collections.LinkedFondsOrder | modules/models/xml_collection.py:69-79 | The linked IDs follow the group elements in order, one per matching group, so a fond named twice is linked twice; one group gives the first matching fond's ID or nothing |
| Collections.ParseCollection | modules/models/xml_collection.py:23-79 | Fails exactly without atom id text or a provenance text node; identifier is the last "/" segment; title falls back from provenance to cei:title to identifier; oai_shared is false |
| Collections.CollectionIdentifier | modules/models/xml_collection.py:37 | The identifier holds no "/" and the atom id ends in "/" plus it, or equals it when there is no "/" |
| Mycollections.SetUser | modules/models/xml_mycollection.py:21-23 | Records the user's ID and email as owner and changes nothing else |
| Mycollections.SetUserLastWins | modules/models/xml_mycollection.py:21-23 | Setting a second user overrides the first |
| Mycollections.ParseMycollection | modules/models/xml_mycollection.py:8-19 | The collection rules with an empty fond list, so no linked fonds; an owner exactly when a user is given; no private collection ID yet |
| Charters.Stem | modules/models/xml_fond_charter.py:24 | The stem is the file name's prefix before the first ".cei.xml" and holds no ".cei.xml" |
| Charters.IdnoParts | modules/models/xml_charter.py:40-52 | Only the attribute: both fields are it; only text: both are it; both: attribute and text; neither: failure |
| Charters.ParseCharter | modules/models/xml_charter.py:18-52 | Fails exactly without atom id, without idno, or without any idno part; URL and image slot stored as given |
| FondCharters.FondCharterUrl | modules/models/xml_fond_charter.py:19-26 | The URL joins the portal base, archive file, fond file, stem and "charter", in that order |
| FondCharters.ParseFondCharter | modules/models/xml_fond_charter.py:11-41 | Succeeds exactly when the base charter does, with the fond's image base; archive and fond fields copied from the fond |
| FondCharters.FondCharterUrlsDistinct | modules/models/xml_fond_charter.py:19-26 | Charters of fonds with different (archive, fond) files never share a URL |
| CollectionCharters.CollectionCharterUrl | modules/models/xml_collection_charter.py:22-28 | The URL joins the portal base, collection file, stem and "charter" |
| CollectionCharters.ParseCollectionCharter | modules/models/xml_collection_charter.py:13-43 | Succeeds exactly when the base charter does, with the collection's image base; collection fields copied; no source my-charter yet |
| CollectionCharters.SetSourceMycharter | modules/models/xml_collection_charter.py:45-47 | Records the source's ID and atom id and changes nothing else |
| Mycharters.MycharterUrl | modules/models/xml_mycharter.py:24 | The URL is the portal base, the collection file twice, the stem and "my-charter" |
| Mycharters.SourceAtomId | modules/models/xml_mycharter.py:44-49 | The ref of the first atom:link, or None without link or ref |
| Mycharters.ParseMycharter | modules/models/xml_mycharter.py:17-49 | The base charter with no image base; owner and collection fields copied from the collection; fails when the collection has no owner |
| Mycharters.SetSourceCharter | modules/models/xml_mycharter.py:51-52 | Records the source's ID and changes nothing else |
| Mycharters.MycharterStemWholeName | modules/models/xml_mycharter.py:24 | A file name without ".cei.xml" is used whole in the URL |
| SavedCharters.NameParts | modules/models/xml_saved_charter.py:26 | The parts are the "#"-pieces of the name before its first ".xml" |
| SavedCharters.CollectionByFile | modules/models/xml_saved_charter.py:40-54 | The first collection with the given file, or none when no collection has it |
| SavedCharters.FondByFiles | modules/models/xml_saved_charter.py:56-71 | The first fond with the given archive and fond files, or none |
| SavedCharters.ResolveTarget | modules/models/xml_saved_charter.py:26-71 | Other than 4 or 5 parts fails; the first two parts are dropped and the rest joined onto the saved-charter prefix; two parts take the collection's image base, three the fond's, and a missing parent fails |
| SavedCharters.ParseSavedCharter | modules/models/xml_saved_charter.py:13-74 | The base charter with the resolved URL and image base, editor -1, not released |
| SavedCharters.NamePartsRoundTrip | modules/models/xml_saved_charter.py:26-35 | A name built from "#"-free parts resolves to exactly the parts after the first two |
| SavedCharters.CollectionTargetResolves | modules/models/xml_saved_charter.py:40-54 | A four-part name resolves to the first collection of its third part |
| Users.ParseSaved | modules/models/xml_user.py:16-31 | A save fails without atom id or start time; released iff freigabe is "yes" |
| Users.SavedRecords | modules/models/xml_user.py:86-92 | Failing saves are skipped; the rest are kept in document order |
| Users.SavedRecordsOrder | modules/models/xml_user.py:86-92 | The records follow the save elements in order: two runs of saves give the first run's records then the second's, and one save gives its record when it parses and nothing when it fails |
| Users.BookmarkAtomIds | modules/models/xml_user.py:79-84 | Exactly the bookmark texts that are neither missing nor empty, in order |
| Users.BookmarkAtomIdsOrder | modules/models/xml_user.py:79-84 | The ids follow the bookmark elements in order, duplicates kept: two runs give the first run's ids then the second's, and one bookmark gives its text exactly when that is present and non-empty |
| Users.FixModeratorRewrites | modules/models/xml_user.py:73-76 | Both wrong Vogeler addresses, "...@lrz.uni-muenchen.at" and "...@lrz.uni-graz.at", come out as "g.vogeler@lrz.uni-muenchen.de" |
| Users.FixModeratorKeepsOthers | modules/models/xml_user.py:70-77 | An address holding neither wrong Vogeler address is not changed |
| Users.NonEmpty | modules/models/xml_user.py:56-64 | A field is None exactly when it normalises to "" |
| Users.ParseUser | modules/models/xml_user.py:44-92 | Fails exactly when the normalised email is empty; first name, name and moderator are set only when non-empty; the moderator is the rewritten address |
| Users.ModeratorAddressFixed | modules/models/xml_user.py:66-77 | A user whose moderator is one of the two wrong addresses gets "g.vogeler@lrz.uni-muenchen.de" as moderator |
| Users.UserFieldsNormalized | modules/models/xml_user.py:52-64 | Email, first name and name are normalised and non-empty |
| PersonNames.WikidataIri | modules/models/xml_person_name.py:37-47 | "wikidata:Q" keys give the entity after the last ":", "P_wikidata_" keys the one after the last "_", any other key or none gives None |
| PersonNames.NormalizeOpt | modules/models/xml_person_name.py:27-35 | A present attribute is normalised, a missing one stays None |
| PersonNames.ParsePersonName | modules/models/xml_person_name.py:9-47 | The text is the normalised concatenation of all descendant text; reg and key normalised; no person yet |
| PersonNames.SetPersonId | modules/models/xml_person_name.py:49-50 | Sets the person and nothing else |
| PersonNames.WikidataItemKey | modules/models/xml_person_name.py:40-43 | "wikidata:Q42" names entity Q42 |
| PersonNames.WikidataPrefixedKey | modules/models/xml_person_name.py:44-47 | "P_wikidata_123" names entity 123, without a "Q" |
| PersonNames.PersonNameNormalized | modules/models/xml_person_name.py:22-35 | Text, reg and key are in normal form |
| IndexPersons.FixWikidataIri | modules/models/xml_index_person.py:31-38 | An absent IRI stays None and a present one stays present; afterwards no "http://wikidata.org/" is left in it, and an IRI without one is unchanged |
| IndexPersons.Names | modules/models/xml_index_person.py:40-46 | Exactly the names with text, verbatim, with their ref, in order |
| IndexPersons.NamesOrder | modules/models/xml_index_person.py:40-46 | The names follow the persName elements in order: two runs give the first run's names then the second's, and one element gives its name exactly when it has text |
| IndexPersons.ParseIndexPerson | modules/models/xml_index_person.py:14-46 | Fails exactly without xml:id; the MOM IRI is built from the index identifier and the xml:id |
| IndexPersons.BuildIndexPersons | modules/models/xml_person_index.py:21-23 | One person per element in order, each with the index identifier; one without xml:id fails the whole index |
| IndexPersons.ParsePersonIndex | modules/models/xml_person_index.py:10-23 | Fails without atom id; the identifier is the last "/" segment |
| Persons.EmptyIndex | modules/models/person_index.py:23-26 | The empty index is valid and counts no person |
| Persons.Lookup | modules/models/person_index.py:49-54 | A key resolves only when given and registered |
| Persons.FindPersonByIds | modules/models/person_index.py:45-69 | A conflict when both keys resolve to different persons; otherwise the Wikidata hit, else the MOM hit, else None; the index is not touched |
| Persons.AddPerson | modules/models/person_index.py:28-43 | A found person's ID is returned and nothing changes; otherwise a new person with a fresh ID is registered under each key given |
| Persons.CountPersonsBounded | modules/models/person_index.py:28-43 | The count of persons never exceeds the number of person IDs the generator has handed out |
| Persons.AddPersonPreserves | modules/models/person_index.py:28-43 | Adding keeps every key map pointing at registered persons; the count grows by one exactly when a person is created |
| Persons.AddNewPerson | modules/models/person_index.py:36-42 | A new person is found afterwards by each key it was given |
| Persons.AddPersonTwice | modules/models/person_index.py:35-43 | Adding the same identity twice returns the same ID and changes nothing the second time |
| Persons.AddIndexPerson | modules/models/person_index.py:71-76 | Fails exactly on a key conflict, and then changes nothing; a person found by neither key is created with the xml:id, the MOM IRI, the name texts and the Wikidata IRI; on a valid index the result is valid, extended, and the ID is one the person's keys resolve to |
| Persons.AddAllIndexPersons | modules/models/person_index.py:78-79 | One ID per person in input order |
| Persons.AddAllIndexPersonsAborts | modules/models/person_index.py:78-79 | Once a prefix of the list fails, the rest of the list is never added: the whole list gives the prefix's result |
| Persons.AddAllIndexPersonsFirstFailure | modules/models/person_index.py:78-79 | The first entry that fails decides the result: its error, with the index and counters the additions before it left |
| Persons.AddAllIndexPersonsSucceeds | modules/models/person_index.py:78-79 | The list succeeds exactly when every entry's add succeeds on the state the entries before it left |
| Persons.AddIndexPersonStep | modules/models/person_index.py:71-76 | One add keeps the index valid, extends it, and the ID returned is one the person's keys resolve to |
| Persons.AddAllIndexPersonsState | modules/models/person_index.py:78-79 | Adding a list keeps the index valid and extended, at most one person per entry |
| Persons.AddAllIndexPersonsResolve | modules/models/person_index.py:78-79 | Each reported ID is one that entry's keys resolve to after the whole list |
| Persons.FindForName | modules/models/person_index.py:81-82 | None exactly when neither the mention's Wikidata IRI nor its key (as MOM id) is registered; on a valid index an error exactly when they name different persons; otherwise the person the Wikidata IRI names, else the one the key names |
| Backup.GetContents | modules/models/mom_backup.py:54-65 | An absent listing is NotFound; a present one parses as a folder listing |
| Stages.Run | modules/models/mom_backup.py:84-96 | A listing loop moves only its own kind's counter, and never down |
| Stages.RunCompletes | modules/models/mom_backup.py:84-96 | A listing fails exactly when an absent document or failing record meets an aborting policy |
| Stages.RunFiles | modules/models/mom_backup.py:84-96 | The records listed are those of the entries that are present and valid, one each, in listing order |
| Stages.RunIds | modules/models/mom_backup.py:84-96 | Every record's ID was drawn during the listing, strictly increasing |
| Stages.RunMade | modules/models/mom_backup.py:84-96 | Every record listed was built from one of the entries |
| Stages.RunGroups | modules/models/mom_backup.py:98-112 | A nested listing moves only its own kind's counter, and never down |
| Stages.RunGroupsSucceeds | modules/models/mom_backup.py:98-112 | A nested listing succeeds exactly when each group's listing can be run to its end |
| Stages.RunGroupsIds | modules/models/mom_backup.py:98-112 | IDs of a nested listing were drawn during it, strictly increasing |
| Stages.RunGroupsMade | modules/models/mom_backup.py:98-112 | Every record of a nested listing was built by one group's loop from one of its entries |
| UserStage.UserFiles | modules/models/mom_backup.py:70-81 | The files read are non-reserved listing entries, no two equal ignoring case |
| UserStage.ListUsers | modules/models/mom_backup.py:67-82 | An unreadable folder listing fails the stage and draws no ID; only user IDs are drawn |
| UserStage.ListUsersSucceeds | modules/models/mom_backup.py:67-82 | The stage succeeds exactly when every selected user file has a document with an email |
| UserStage.ListUsersFiles | modules/models/mom_backup.py:72-81 | One user per selected file in order, none of them admin.xml or guest.xml, no two file names equal ignoring case |
| UserStage.ListUsersIds | modules/models/mom_backup.py:67-82 | User IDs were drawn during the stage, strictly increasing |
| UserStage.ListUsersKeepsFirst | modules/models/mom_backup.py:74-81 | Of the files equal ignoring case, the first becomes a user |
| RecordStages.ListArchives | modules/models/mom_backup.py:84-96 | An unreadable listing fails the stage; only archive IDs are drawn |
| RecordStages.ListArchivesSucceeds | modules/models/mom_backup.py:84-96 | The stage succeeds exactly when every archive folder holding an EAG document holds a valid one |
| RecordStages.ListArchivesShape | modules/models/mom_backup.py:87-95 | One archive per folder with an EAG document, in listing order; folders without one are skipped; IDs increasing |
| RecordStages.ListArchivesFrom | modules/models/mom_backup.py:89-95 | Each archive is the one its own folder's EAG and optional OAI documents describe |
| RecordStages.ListFonds | modules/models/mom_backup.py:98-112 | Only fond IDs are drawn |
| RecordStages.ListFondsSucceeds | modules/models/mom_backup.py:98-112 | The stage succeeds exactly when the fonds of every archive can be listed |
| RecordStages.ListFondsIds | modules/models/mom_backup.py:98-112 | Fond IDs were drawn during the stage, strictly increasing |
| RecordStages.ListFondsFrom | modules/models/mom_backup.py:104-111 | Each fond belongs to one of the archives and is the one its EAD and optional preferences describe |
| RecordStages.ListCollections | modules/models/mom_backup.py:146-157 | An unreadable listing fails the stage; only collection IDs are drawn |
| RecordStages.ListCollectionsSucceeds | modules/models/mom_backup.py:146-157 | The stage succeeds exactly when every collection folder holding a CEI document holds a valid one |
| RecordStages.ListCollectionsShape | modules/models/mom_backup.py:149-156 | One collection per folder with a CEI document, in listing order; IDs increasing |
| RecordStages.ListCollectionsFrom | modules/models/mom_backup.py:150-156 | Each collection is the one its CEI document describes, linked against the given fonds |
| CharterStages.BuiltFondCharters | modules/models/mom_backup.py:114-144 | Building the charters moves only the charter counter |
| CharterStages.ListFondCharters | modules/models/mom_backup.py:114-144 | The listed charters are the built ones with the first of each atom id, no two sharing one |
| CharterStages.ListFondChartersSucceeds | modules/models/mom_backup.py:118-127 | Fails exactly when some fond's charter listing exists but cannot be read; a fond without one is skipped |
| CharterStages.ListFondChartersIds | modules/models/mom_backup.py:114-144 | Charter IDs were drawn during the stage, strictly increasing |
| CharterStages.BuiltFondChartersFrom | modules/models/mom_backup.py:128-143 | Each charter belongs to one of the fonds and is the one its CEI document describes |
| CharterStages.ListFondChartersKeepsFirst | modules/models/mom_backup.py:135-143 | Every first charter of its atom id is kept and nothing else is |
| CharterStages.BuiltCollectionCharters | modules/models/mom_backup.py:159-189 | Building the charters moves only the charter counter |
| CharterStages.ListCollectionCharters | modules/models/mom_backup.py:159-189 | The listed charters are the built ones with the first of each atom id, no two sharing one |
| CharterStages.ListCollectionChartersSucceeds | modules/models/mom_backup.py:163-172 | Fails exactly when some collection's charter listing exists but cannot be read; a collection without one is skipped |
| CharterStages.ListCollectionChartersIds | modules/models/mom_backup.py:159-189 | Charter IDs were drawn during the stage, strictly increasing |
| CharterStages.BuiltCollectionChartersFrom | modules/models/mom_backup.py:173-188 | Each charter belongs to one of the collections and is the one its CEI document describes |
| CharterStages.ListCollectionChartersKeepsFirst | modules/models/mom_backup.py:180-188 | Every first charter of its atom id is kept and nothing else is |
| SavedStage.SaveEvents | modules/models/mom_backup.py:214-215 | The saves are exactly each user's saved records, paired with that user |
| SavedStage.SaveEventsOrder | modules/models/mom_backup.py:214-215 | Saves are visited user by user, each user's saves in document order: two runs of users give the first run's saves then the second's, and one user gives its own saves |
| SavedStage.LastSave | modules/models/mom_backup.py:214-220 | The last save of an atom id, found exactly when one exists |
| SavedStage.CharterIndex | modules/models/mom_backup.py:216-217 | The listed charter of an atom id, found exactly when one is listed |
| SavedStage.Matched | modules/models/mom_backup.py:214-216 | Every save whose atom id names a listed charter is matched, and no other save |
| SavedStage.MatchedOrder | modules/models/mom_backup.py:214-216 | Matches keep the visiting order, user by user: two runs of users give the first run's matches then the second's, and one user gives its saves of listed charters in document order |
| SavedStage.CrossLink | modules/models/mom_backup.py:213-222 | One entry per matched save |
| SavedStage.CrossLinkEntry | modules/models/mom_backup.py:216-221 | Entry k is the charter of the k-th matched save, whose editor, start time and released come from a user's save of that atom id |
| SavedStage.CrossLinkAliasing | modules/models/mom_backup.py:217-221 | Entries of one atom id are one and the same object |
| SavedStage.CrossLinkLastSave | modules/models/mom_backup.py:213-222 | Every entry carries the editor, start time and released flag of the last save of its atom id across all users |
| SavedStage.CrossLinkCovers | modules/models/mom_backup.py:214-221 | Every save of a listed charter by any user yields an entry |
| SavedStage.BuiltSaved | modules/models/mom_backup.py:197-212 | Building moves only the charter counter |
| SavedStage.ListSavedCharters | modules/models/mom_backup.py:191-222 | An unreadable listing fails the stage; only charter IDs are drawn |
| SavedStage.ListSavedChartersSucceeds | modules/models/mom_backup.py:199-203 | Fails exactly when the listing cannot be read or a document it names is absent |
| SavedStage.BuiltSavedFrom | modules/models/mom_backup.py:203-209 | Each charter is the one its saved document and file name describe, its ID drawn during the stage |
| SavedStage.ListedSavedFirst | modules/models/mom_backup.py:205-209 | The charters before stamping carry distinct atom ids; every first charter built with an atom id is listed, and every listed charter is the first built with its atom id |
| CharterDb.EmailIds | modules/models/charter_db.py:524 | Every user's lower-cased email is a key, and each key maps to the ID of a user with that email |
| CharterDb.EmailIdsLastWins | modules/models/charter_db.py:524 | Of users sharing an email ignoring case, the last one's ID is the one kept |
| CharterDb.UserRows | modules/models/charter_db.py:525-537 | One row per user with its ID, email, first name and name |
| CharterDb.ModeratorOf | modules/models/charter_db.py:539-547 | A link exactly when the moderator email is set, resolves ignoring case, and resolves to another user |
| CharterDb.ModeratorLinks | modules/models/charter_db.py:538-550 | A link for each user whose moderator resolves, and no other |
| CharterDb.ModeratorLinksSound | modules/models/charter_db.py:539-547 | No user moderates themselves, and each link points to the user the moderator email names |
| CharterDb.ModeratorLinksComplete | modules/models/charter_db.py:539-547 | A user whose moderator email names another user gets the link |
| CharterDb.InsertImage | modules/models/charter_db.py:370-373 | Every insert uses up one value of the ID sequence; a URL already in the table keeps its row; a new one gets the drawn ID and its external flag |
| CharterDb.InsertImages | modules/models/charter_db.py:365-373 | Existing rows are unchanged; every URL is present afterwards; new rows come only from the URLs, with the right flag and fresh IDs |
| CharterDb.InsertImagesKeepsIdsDistinct | modules/models/charter_db.py:365-373 | Image IDs stay distinct across inserts |
| CharterDb.ImageRecords | modules/models/charter_db.py:509-519 | One record per distinct URL, every URL covered, each flagged external iff it lacks the image host |
| CharterDb.ImageRecordsSnoc | modules/models/charter_db.py:509-519 | The records come in first-seen order: a further URL adds its record at the end when new and nothing when already seen, so the COPY order that assigns the image IDs is fixed |
| CharterDb.ImageUses | modules/models/charter_db.py:381-386 | Every image of every owner appears, and nothing else |
| CharterDb.ImageLinks | modules/models/charter_db.py:374-386 | Links are produced only for URLs found in the images table, to that URL's row |
| CharterDb.ImageLinksComplete | modules/models/charter_db.py:374-386 | When every image was inserted first, there is exactly one link per image use, in order |
| CharterDb.InsertCharters | modules/models/charter_db.py:452-507 | One charter row and one parent link per charter, fields copied, the normalised idno as idno_id and no last editor; existing image rows unchanged and every image present |
| CharterDb.CharterRecordsAsWritten | modules/models/charter_db.py:397-407 | Reading the columns from the charter objects fails on `idno_id` for any non-empty list; only an empty list yields records |
| CharterDb.CharterRecordsAsWrittenFail | modules/models/charter_db.py:455-465 | One charter makes the records as written fail on `idno_id`, while the corrected insert writes its row |
| CharterDb.InsertChartersLinks | modules/models/charter_db.py:483-502 | One image link per image of each charter, to that URL's row |
| CharterDb.InsertFondsCharters | modules/models/charter_db.py:452-475 | Every charter row is written and linked to its fond |
| CharterDb.InsertCollectionsCharters | modules/models/charter_db.py:393-418 | Every charter row is written and linked to its collection |
| CharterDb.SavedRowFor | modules/models/charter_db.py:342-359 | A row exactly when the atom id names a charter in the table |
| CharterDb.ValidSaved | modules/models/charter_db.py:338-360 | The kept saved charters are exactly those with an original |
| CharterDb.SavedRowsExact | modules/models/charter_db.py:337-364 | A row exactly for each saved charter with an original, whose original ID is that charter's; none for the others |
| CharterDb.SavedRecordsAsWritten | modules/models/charter_db.py:338-359 | Reading the columns from the saved charter objects fails on `idno_id` exactly when some charter has an original; otherwise there are no records |
| CharterDb.SavedRecordsAsWrittenFail | modules/models/charter_db.py:342-359 | One saved charter with an original makes the records as written fail on `idno_id`, while the corrected rows hold its row |
| CharterDb.InsertSavedCharters | modules/models/charter_db.py:325-391 | Rows as above; existing image rows unchanged and every image of every kept saved charter present; image links only for kept saved charters |
| CharterDb.InsertSavedChartersLinks | modules/models/charter_db.py:365-390 | One image link per image of each kept saved charter, in order, each to that URL's row |
| CharterDb.UserBookmarkRows | modules/models/charter_db.py:566-571 | One user's rows are exactly its bookmarks whose atom id resolves |
| CharterDb.BookmarkRows | modules/models/charter_db.py:553-576 | A row exactly for each bookmark whose atom id names a charter |
| CharterDb.FondLinksOf | modules/models/charter_db.py:269-273 | One pair per linked fond of the collection, in order |
| CharterDb.CollectionFondRows | modules/models/charter_db.py:250-279 | A pair exactly for each fond each collection links |
| CharterDb.SourceOf | modules/models/charter_db.py:616-620 | A source pair exactly when the private collection ID is set |
| CharterDb.CollectionSources | modules/models/charter_db.py:598-626 | Source pairs exactly for collections naming their private collection; none when none does |
| CharterDb.PrivateCollectionRows | modules/models/charter_db.py:578-596 | Fails exactly when some collection has no owner; otherwise one row per collection with its owner ID |

## Left out

- Zip access, the `__contents__.xml` path joining and `_get_xml`/`_get_xml_optional`: the backup is a `Store` of already-parsed documents keyed by path.
- lxml lookups: every attribute or text a constructor reads is an `Option<string>` input.
- The psycopg connection, the DDL, and the COPY/executemany/commit calls: the tables are maps, and the inserts are pure row builders.
- `join_url_parts` is not part of this model (it is not defined in the code the model follows). A joined URL is the datatype value `Joined(parts)`, so only the order of the parts is stated.
- `validators.url` is an uninterpreted predicate parameter `validUrl`.
- `parse_date`: a start time is kept as its raw text.
- Users.ParseSaved: assumes `parse_date` accepts every non-empty start time. The code skips a save whose start time `parse_date` rejects, because the exception is caught with the others (xml_user.py:27, 88-92); the model keeps that save.
- The `datetime.now()` default of a saved charter is `None`.
- `str.lower()` is modelled on ASCII letters only. Unicode case mapping is not modelled.
- Logging and `print` are I/O. Also left out: `sql_import.py` (the entry script), `modules/constants.py` (a namespace table), and `pick_random_items`, which is random.
- The charters' `images` lists: the base constructor is handed an image base in that slot, and the list is never derived. The charter inserts therefore take the images of each charter as a parameter, `imagesOf`.
- Constructor call-signature mismatches:
  - The charter variants and `XmlMycollection` call their base constructors with other arguments than it declares. `XmlFondCharter`, `XmlCollectionCharter` and `XmlSavedCharter` pass five or six arguments to `XmlCharter.__init__`, which takes four (xml_fond_charter.py:29, xml_collection_charter.py:31, xml_saved_charter.py:74, xml_charter.py:18). As written, every such construction raises TypeError before `XmlCharter` draws an ID. The `except Exception` of each stage skips it, so `list_fond_charters`, `list_collection_charters` and `list_saved_charters` return empty lists and draw no charter IDs. The `CharterStages` and `SavedStage` lemmas describe the constructors the code evidently intends.
  - `insert_user_charter_bookmarks` reads `user.bookmarks`, which `XmlUser` does not define.
  - `insert_fonds_charters`, `insert_collections_charters` and `insert_saved_charters` read `charter.idno_id` and (the first two) `charter.last_editor_id`, which no charter class defines; see "## Findings".

  Each class's field rules are modelled, and bookmarks are (atom id, note) pairs per user.
- The `users` and `person_index` arguments of the charter constructors are not used in the code the model follows, so they are dropped.
- `insert_archives` and `insert_fonds` are plain column projections of already modelled records, so no separate member states them.
- CharterDb.InsertSavedCharters: the `url is None` guard is not modelled. Every saved charter has a URL, so the guard can never skip one.
- CharterDb.InsertCharters: writes the normalised idno as `idno_id` and None as `last_editor_id`, where the code stops with an AttributeError on the first charter; see "## Findings".
- CharterDb.InsertFondsCharters: as InsertCharters, the corrected columns rather than the AttributeError.
- CharterDb.InsertCollectionsCharters: as InsertCharters, the corrected columns rather than the AttributeError.
- CharterDb.SavedRowFor: writes the normalised idno as `idno_id`, where the code stops with an AttributeError; see "## Findings".
- CharterDb.InsertSavedCharters: its rows use SavedRowFor, so the same correction applies.
- Persons.FindPersonByIds: the names argument only feeds the error message and is not modelled.
- Two points where the code and its description differ, both following the code:
  - A "P_wikidata_123" key gives `.../entity/123`, without a "Q".
  - The moderator attribute is spelled `moderater_email` in both files that use it.

## Findings

| source | as written | input that shows it | evidently intended | confidence | as-written member | corrected member |
|---|---|---|---|---|---|---|
| modules/models/charter_db.py:397-407 | The fond and collection charter records read `charter.idno_id` and `charter.last_editor_id`; no charter class sets either, so the first charter raises AttributeError | Any list with one charter | One row per charter, with the normalised idno (`idno_norm`) as `idno_id` and no last editor | not executed | CharterDb.CharterRecordsAsWrittenFail | CharterDb.InsertCharters |
| modules/models/charter_db.py:346-359 | The saved charter records read `charter.idno_id`, which no saved charter sets, so the first saved charter with an original raises AttributeError | One saved charter whose atom id names a charter in the table | One row per saved charter with an original, with the normalised idno as `idno_id` | not executed | CharterDb.SavedRecordsAsWrittenFail | CharterDb.SavedRowsExact |

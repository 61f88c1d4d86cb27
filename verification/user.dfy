/** `SavedCharter` and `XmlUser` (modules/models/xml_user.py): a user account
    of the portal, read from its `xrx.user` document, with the charters the
    user saved while editing. */
module Users {
  import opened Wrappers
  import opened Text
  import opened Utils
  import Seqs

  /** One `xrx:saved` element: its `xrx:id`, `xrx:start_time` and
      `xrx:freigabe` texts, each read with the default "". */
  datatype SavedXml = SavedXml(id: string, startTime: string, freigabe: string)

  /** A charter the user saved.  `parse_date` is not part of this model, so
      the start time is kept as the text it would parse. */
  datatype SavedRecord = SavedRecord(atomId: string, startTime: string, released: bool)

  /** The fields `XmlUser` reads, each text with the default "";
      `bookmarks` holds the text of every `xrx:bookmark`, None when it has
      none, and `saved` every `xrx:saved` element, in document order. */
  datatype UserXml = UserXml(
    email: string,
    firstname: string,
    name: string,
    moderator: string,
    bookmarks: seq<Option<string>>,
    saved: seq<SavedXml>)

  datatype User = User(
    id: nat,
    file: string,
    email: string,
    firstName: Option<string>,
    name: Option<string>,
    moderatorEmail: Option<string>,
    bookmarkAtomIds: seq<string>,
    savedCharters: seq<SavedRecord>)

  /** `SavedCharter(saved)`: the atom id and the start time are required. */
  function ParseSaved(x: SavedXml): (r: Result<SavedRecord>)
    ensures r.Ok? <==> x.id != "" && x.startTime != ""
    ensures x.id == "" ==> r == Err(Malformed("Cannot find atom_id for saved charter"))
    ensures x.id != "" && x.startTime == "" ==> r == Err(Malformed("Cannot find start_time for saved charter"))
    ensures r.Ok? ==> r.value.atomId == x.id && r.value.startTime == x.startTime
    ensures r.Ok? ==> (r.value.released <==> x.freigabe == "yes")
  {
    if x.id == "" then Err(Malformed("Cannot find atom_id for saved charter"))
    else if x.startTime == "" then Err(Malformed("Cannot find start_time for saved charter"))
    else Ok(SavedRecord(x.id, x.startTime, x.freigabe == "yes"))
  }

  predicate ParsesSaved(x: SavedXml) {
    ParseSaved(x).Ok?
  }

  /** The record a `xrx:saved` element makes, None when it fails to parse. */
  function SavedOption(x: SavedXml): Option<SavedRecord> {
    ParseSaved(x).ToOption()
  }

  /** The loop over `xrx:saved`: a record that fails to parse is reported and
      skipped, the others are kept in document order. */
  function SavedRecords(xs: seq<SavedXml>): (r: seq<SavedRecord>)
    ensures |r| <= |xs|
    ensures forall i :: 0 <= i < |xs| && ParsesSaved(xs[i]) ==> ParseSaved(xs[i]).value in r
    ensures forall k :: 0 <= k < |r| ==> exists i :: 0 <= i < |xs| && ParsesSaved(xs[i]) && r[k] == ParseSaved(xs[i]).value
  {
    var parsed := Seqs.Map(xs, SavedOption);
    var r := Seqs.Somes(parsed);
    forall k | 0 <= k < |r|
      ensures exists i :: 0 <= i < |xs| && ParsesSaved(xs[i]) && r[k] == ParseSaved(xs[i]).value
    {
      var i :| 0 <= i < |parsed| && parsed[i] == Some(r[k]);
    }
    r
  }

  /** Document order is kept and every element yields at most one record:
      the records of two runs of elements are those of the first followed by
      those of the second, and one element yields its record exactly when it
      parses. */
  lemma SavedRecordsOrder(a: seq<SavedXml>, b: seq<SavedXml>, x: SavedXml)
    ensures SavedRecords(a + b) == SavedRecords(a) + SavedRecords(b)
    ensures SavedRecords([x]) == if ParsesSaved(x) then [ParseSaved(x).value] else []
  {
    Seqs.MapAppend(a, b, SavedOption);
    Seqs.SomesAppend(Seqs.Map(a, SavedOption), Seqs.Map(b, SavedOption));
    assert Seqs.Map([x], SavedOption) == [SavedOption(x)];
    Seqs.SomesOne(SavedOption(x));
  }

  predicate NonEmptyText(t: Option<string>) {
    t.Some? && t.value != ""
  }

  /** A bookmark text, None when it is missing or empty. */
  function BookmarkText(t: Option<string>): Option<string> {
    if NonEmptyText(t) then t else None
  }

  /** `bookmark_atom_ids`: the bookmark texts that are neither missing nor empty. */
  function BookmarkAtomIds(texts: seq<Option<string>>): (r: seq<string>)
    ensures |r| <= |texts|
    ensures forall k :: 0 <= k < |r| ==> r[k] != "" && Some(r[k]) in texts
    ensures forall i :: 0 <= i < |texts| && NonEmptyText(texts[i]) ==> texts[i].value in r
  {
    var kept := Seqs.Map(texts, BookmarkText);
    var r := Seqs.Somes(kept);
    forall k | 0 <= k < |r| ensures r[k] != "" && Some(r[k]) in texts {
      var i :| 0 <= i < |kept| && kept[i] == Some(r[k]);
    }
    r
  }

  /** Document order and repetitions are kept: the ids of two runs of
      bookmarks are those of the first followed by those of the second, and
      one bookmark yields its text exactly when the text is non-empty. */
  lemma BookmarkAtomIdsOrder(a: seq<Option<string>>, b: seq<Option<string>>, t: Option<string>)
    ensures BookmarkAtomIds(a + b) == BookmarkAtomIds(a) + BookmarkAtomIds(b)
    ensures BookmarkAtomIds([t]) == if NonEmptyText(t) then [t.value] else []
  {
    Seqs.MapAppend(a, b, BookmarkText);
    Seqs.SomesAppend(Seqs.Map(a, BookmarkText), Seqs.Map(b, BookmarkText));
    assert Seqs.Map([t], BookmarkText) == [BookmarkText(t)];
    Seqs.SomesOne(BookmarkText(t));
  }

  const WrongMuenchen: string := "g.vogeler@lrz.uni-muenchen.at"
  const WrongGraz: string := "g.vogeler@lrz.uni-graz.at"
  const RightMuenchen: string := "g.vogeler@lrz.uni-muenchen.de"

  /** The fix-up of two known wrong moderator addresses. */
  function FixModerator(m: string): string {
    ReplaceAll(ReplaceAll(m, WrongMuenchen, RightMuenchen), WrongGraz, RightMuenchen)
  }

  /** An address that is neither of the wrong ones anywhere is left alone. */
  lemma FixModeratorKeepsOthers(m: string)
    requires !Contains(m, WrongMuenchen) && !Contains(m, WrongGraz)
    ensures FixModerator(m) == m
  {
    ReplaceAllAbsent(m, WrongMuenchen, RightMuenchen);
    ReplaceAllAbsent(m, WrongGraz, RightMuenchen);
  }

  /** Both wrong addresses become the muenchen.de one. */
  lemma FixModeratorRewrites()
    ensures FixModerator(WrongMuenchen) == RightMuenchen
    ensures FixModerator(WrongGraz) == RightMuenchen
  {
    ReplaceWhole(WrongMuenchen, RightMuenchen);
    ReplaceWhole(WrongGraz, RightMuenchen);
    assert ReplaceAll(WrongGraz, WrongMuenchen, RightMuenchen) == WrongGraz;
    RightAddressHasNoGraz();
    ReplaceAllAbsent(RightMuenchen, WrongGraz, RightMuenchen);
  }

  /** Replacing a whole text by `rep` gives `rep`. */
  lemma ReplaceWhole(pat: string, rep: string)
    requires |pat| > 0
    ensures ReplaceAll(pat, pat, rep) == rep
  {
    assert pat[..|pat|] == pat && pat[|pat|..] == [];
  }

  lemma RightAddressHasNoGraz()
    ensures !Contains(RightMuenchen, WrongGraz)
  {
    var s := RightMuenchen;
    forall i | 0 <= i < 5 ensures !StartsWith(s[i..], WrongGraz) {
      if i == 0 {
        assert s[18] != WrongGraz[18];
      } else if i == 4 {
        assert s[5] != WrongGraz[1];
      } else {
        assert s[i] != WrongGraz[0];
      }
    }
    ShorterAbsent(s[5..], WrongGraz);
    ContainsDrop(s, WrongGraz, 5);
  }

  /** Text that is None when it normalises to "". */
  function NonEmpty(s: string): (r: Option<string>)
    ensures r.None? <==> s == ""
    ensures r.Some? ==> r.value == s
  {
    if s == "" then None else Some(s)
  }

  /** `XmlUser(file, xrx)`, given the ID it drew first: the normalised email
      is required; first name, name and moderator are None when they
      normalise to ""; the moderator address is fixed up. */
  function ParseUser(id: nat, file: string, x: UserXml): (r: Result<User>)
    ensures r.Ok? <==> Normalize(x.email) != ""
    ensures r.Err? ==> r.error == AssertionFailed("email")
    ensures r.Ok? ==>
              && r.value.id == id && r.value.file == file
              && r.value.email == Normalize(Normalize(x.email))
              && r.value.firstName == NonEmpty(Normalize(x.firstname))
              && r.value.name == NonEmpty(Normalize(x.name))
              && (r.value.moderatorEmail.None? <==> Normalize(x.moderator) == "")
              && (r.value.moderatorEmail.Some? ==> r.value.moderatorEmail.value == FixModerator(Normalize(x.moderator)))
              && r.value.bookmarkAtomIds == BookmarkAtomIds(x.bookmarks)
              && r.value.savedCharters == SavedRecords(x.saved)
  {
    var email := Normalize(x.email);
    if email == "" then Err(AssertionFailed("email"))
    else
      var moderator := Normalize(x.moderator);
      Ok(User(id, file, Normalize(email), NonEmpty(Normalize(x.firstname)), NonEmpty(Normalize(x.name)),
              if moderator == "" then None else Some(FixModerator(moderator)),
              BookmarkAtomIds(x.bookmarks), SavedRecords(x.saved)))
  }

  /** A user whose moderator text is one of the two wrong addresses
      (around any whitespace) is moderated by the muenchen.de address. */
  lemma ModeratorAddressFixed(id: nat, file: string, x: UserXml)
    requires Normalize(x.email) != ""
    requires Normalize(x.moderator) == WrongMuenchen || Normalize(x.moderator) == WrongGraz
    ensures ParseUser(id, file, x).value.moderatorEmail == Some(RightMuenchen)
  {
    FixModeratorRewrites();
  }

  /** The email the user keeps is the normalised email text (normalising it
      a second time changes nothing), never empty and in normal form, and so
      are the first name and the name when present. */
  lemma UserFieldsNormalized(id: nat, file: string, x: UserXml)
    requires ParseUser(id, file, x).Ok?
    ensures ParseUser(id, file, x).value.email == Normalize(x.email) != ""
    ensures Normalized(ParseUser(id, file, x).value.email)
    ensures ParseUser(id, file, x).value.firstName.Some? ==> Normalized(ParseUser(id, file, x).value.firstName.value)
    ensures ParseUser(id, file, x).value.name.Some? ==> Normalized(ParseUser(id, file, x).value.name.value)
  {
    NormalizeIdempotent(x.email);
    NormalizeShape(x.email);
    NormalizeShape(x.firstname);
    NormalizeShape(x.name);
  }
}

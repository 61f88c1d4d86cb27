/** `MomBackup.list_users` (modules/models/mom_backup.py): every user
    document the user folder lists, except the two built-in accounts, and
    only the first of the file names that differ in case alone. */
module UserStage {
  import opened Wrappers
  import opened Text
  import opened Utils
  import opened SerialIds
  import opened Contents
  import opened Users
  import opened Backup
  import opened Stages
  import Seqs

  /** The built-in accounts that are never imported. */
  predicate NotReserved(file: string) {
    file != "admin.xml" && file != "guest.xml"
  }

  /** The files whose documents the loop reads, in listing order: the
      dictionary keyed by lower-cased name lets only the first file of each
      key through, and since any failure aborts the stage, the files read
      are exactly the first of each key among the non-reserved ones. */
  function UserFiles(files: seq<string>): (r: seq<string>)
    ensures forall k :: 0 <= k < |r| ==> NotReserved(r[k]) && r[k] in files
    ensures Seqs.DistinctKeys(r, Lower)
  {
    var candidates := Seqs.Filter(files, NotReserved);
    var r := Seqs.DedupFirst(candidates, Lower);
    assert forall k :: 0 <= k < |r| ==> r[k] in candidates;
    r
  }

  function UserFile(u: User): string { u.file }
  function UserId(u: User): int { u.id }

  /** The user document of `file` is present and names an email. */
  predicate Readable(store: Store, file: string) {
    UserPath(file) in store.users && Normalize(store.users[UserPath(file)].email) != ""
  }

  /** `XmlUser(file, xrx)` for the document of `file`. */
  function MakeUser(store: Store, id: nat, file: string): Result<User> {
    if UserPath(file) in store.users then ParseUser(id, file, store.users[UserPath(file)])
    else Err(NotFound(UserPath(file)))
  }

  /** The user loop: `_get_xml` raises for an absent document and a user
      without email raises too, so both abort the listing. */
  function UserLoop(store: Store): Loop<User> {
    Loop(UserKind,
         f => UserPath(f) in store.users,
         f => true,
         f => Readable(store, f),
         f => NotFound(UserPath(f)),
         Abort, Abort,
         (id, f) => MakeUser(store, id, f),
         UserId, UserFile)
  }

  lemma UserLoopWellFormed(store: Store)
    ensures WellFormed(UserLoop(store))
  {
  }

  /** `list_users()` */
  function ListUsers(store: Store, c: Counters): (s: Stage<seq<User>>)
    ensures GetContents(store, UsersFolder).Err? ==> s == Stage(Err(GetContents(store, UsersFolder).error), c)
    ensures forall k :: k != UserKind ==> Current(s.counters, k) == Current(c, k)
  {
    match GetContents(store, UsersFolder)
    case Err(e) => Stage(Err(e), c)
    case Ok(contents) => Run(UserLoop(store), UserFiles(Files(contents.resources)), c)
  }

  /** The files `list_users` reads, when the folder listing parses. */
  function SelectedUsers(store: Store): seq<string>
    requires GetContents(store, UsersFolder).Ok?
  {
    UserFiles(Files(GetContents(store, UsersFolder).value.resources))
  }

  /** The listing succeeds exactly when the folder listing parses and every
      user file it selects has a document with an email. */
  lemma ListUsersSucceeds(store: Store, c: Counters)
    ensures ListUsers(store, c).out.Ok? <==>
              GetContents(store, UsersFolder).Ok? && forall f :: f in SelectedUsers(store) ==> Readable(store, f)
  {
    if GetContents(store, UsersFolder).Ok? {
      UserLoopWellFormed(store);
      RunCompletes(UserLoop(store), SelectedUsers(store), c);
    }
  }

  /** A successful listing holds one user per selected file, in order: none
      of them a built-in account and no two with file names equal ignoring
      case. */
  lemma ListUsersFiles(store: Store, c: Counters)
    requires ListUsers(store, c).out.Ok?
    ensures Seqs.Map(ListUsers(store, c).out.value, UserFile) == SelectedUsers(store)
    ensures var us := ListUsers(store, c).out.value;
            && (forall i :: 0 <= i < |us| ==> NotReserved(us[i].file))
            && (forall i, j :: 0 <= i < j < |us| ==> Lower(us[i].file) != Lower(us[j].file))
  {
    var files := SelectedUsers(store);
    var l := UserLoop(store);
    UserLoopWellFormed(store);
    ListUsersSucceeds(store, c);
    RunFiles(l, files, c);
    Seqs.FilterAll(files, l.valid);
    var us := Run(l, files, c).out.value;
    assert forall i :: 0 <= i < |us| ==> Seqs.Map(us, UserFile)[i] == files[i];
  }

  /** The users' IDs were drawn during the listing, in strictly increasing
      order. */
  lemma ListUsersIds(store: Store, c: Counters)
    requires ListUsers(store, c).out.Ok?
    ensures var s := ListUsers(store, c);
            && (forall i :: 0 <= i < |s.out.value| ==> Current(c, UserKind) < s.out.value[i].id <= Current(s.counters, UserKind))
            && Seqs.IncreasingBy(s.out.value, UserId)
  {
    UserLoopWellFormed(store);
    RunIds(UserLoop(store), SelectedUsers(store), c);
  }

  /** Of the user files whose names agree ignoring case, the first listed
      is the one imported: any non-reserved file with no earlier file of the
      same lower-cased name becomes a user. */
  lemma ListUsersKeepsFirst(store: Store, c: Counters, i: nat)
    requires ListUsers(store, c).out.Ok?
    requires var files := Seqs.Filter(Files(GetContents(store, UsersFolder).value.resources), NotReserved);
             i < |files| && Seqs.FirstOfKey(files, Lower, i)
    ensures var files := Seqs.Filter(Files(GetContents(store, UsersFolder).value.resources), NotReserved);
            exists k :: 0 <= k < |ListUsers(store, c).out.value| && ListUsers(store, c).out.value[k].file == files[i]
  {
    var files := Seqs.Filter(Files(GetContents(store, UsersFolder).value.resources), NotReserved);
    Seqs.DedupFirstKeepsFirst(files, Lower, i);
    var kept := UserFiles(Files(GetContents(store, UsersFolder).value.resources));
    var k :| 0 <= k < |kept| && kept[k] == files[i];
    ListUsersFiles(store, c);
    assert Seqs.Map(ListUsers(store, c).out.value, UserFile)[k] == files[i];
  }
}

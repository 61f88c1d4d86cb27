/** `XmlMycollection` (modules/models/xml_mycollection.py): a collection a
    user assembled, built like a public collection but linked to no fonds,
    and owned by a user when one is given. */
module Mycollections {
  import opened Wrappers
  import opened Collections
  import opened Users

  /** The owner fields `set_user` copies from a user. */
  datatype Owner = Owner(id: nat, email: string)

  /** `owner` is None while `set_user` has not been called, in which case the
      Python object has no `owner_id` attribute at all. */
  datatype Mycollection = Mycollection(
    collection: Collection,
    owner: Option<Owner>,
    privateMycollectionId: Option<nat>)

  /** `set_user(user)`: records the owner and touches nothing else. */
  function SetUser(m: Mycollection, user: User): (r: Mycollection)
    ensures r.owner == Some(Owner(user.id, user.email))
    ensures r.collection == m.collection && r.privateMycollectionId == m.privateMycollectionId
  {
    m.(owner := Some(Owner(user.id, user.email)))
  }

  /** `XmlMycollection(file, cei, user)`, given the ID its collection drew:
      the collection rules apply with an empty fond list; the owner is set
      exactly when a user is given; `private_mycollection_id` starts as None. */
  function ParseMycollection(id: nat, file: string, x: CollectionXml, user: Option<User>,
                             validUrl: Url -> bool): (r: Result<Mycollection>)
    ensures r.Ok? <==> ParseCollection(id, file, x, [], validUrl).Ok?
    ensures r.Err? ==> r.error == ParseCollection(id, file, x, [], validUrl).error
    ensures r.Ok? ==> r.value.collection.linkedFonds == []
    ensures r.Ok? ==> r.value.collection == ParseCollection(id, file, x, [], validUrl).value
    ensures r.Ok? ==> (r.value.owner.Some? <==> user.Some?)
    ensures r.Ok? && user.Some? ==> r.value.owner == Some(Owner(user.value.id, user.value.email))
    ensures r.Ok? ==> r.value.privateMycollectionId.None?
  {
    match ParseCollection(id, file, x, [], validUrl)
    case Err(e) => Err(e)
    case Ok(c) =>
      var m := Mycollection(c, None, None);
      Ok(match user case None => m case Some(u) => SetUser(m, u))
  }

  /** Setting the same user twice is setting it once, and the last user set wins. */
  lemma SetUserLastWins(m: Mycollection, u1: User, u2: User)
    ensures SetUser(SetUser(m, u1), u2) == SetUser(m, u2)
  {
  }
}

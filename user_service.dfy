/** Read-only views of the users: a profile and the list, both without password hashes. */
module UserService {
  import opened Results
  import opened Entities
  import opened DataStore

  /** The public data of the user with identity `userId`. */
  function GetProfile(store: Store, userId: Id): (r: Result<PublicUser>)
    reads store
    ensures r.Fail? <==> forall j :: 0 <= j < |store.users| ==> store.users[j].id != userId
    ensures r.Fail? ==> r.failure == NotFound
    ensures r.Ok? ==>
      && store.FindUserById(userId).Some?
      && var u := store.FindUserById(userId).value;
      && r.value.id == u.id && r.value.id == userId
      && r.value.name == u.name && r.value.email == u.email && r.value.role == u.role
  {
    match store.FindUserById(userId)
    case None => Fail(NotFound)
    case Some(u) => Ok(Public(u))
  }

  /** One public record per stored user, in store order. */
  function ListUsers(store: Store): (r: seq<PublicUser>)
    reads store
    ensures |r| == |store.users|
    ensures forall i :: 0 <= i < |r| ==>
      && r[i].id == store.users[i].id && r[i].name == store.users[i].name
      && r[i].email == store.users[i].email && r[i].role == store.users[i].role
  {
    var all := store.ListUsers();
    seq(|all|, i requires 0 <= i < |all| => Public(all[i]))
  }
}

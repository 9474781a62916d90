/** Registration and login. Password hashing, password checking and token signing are
    outside the model and are passed in as functions; the signing secret is a parameter. */
module AuthService {
  import opened Results
  import opened Entities
  import opened Text
  import opened DataStore

  datatype RegisterInput = RegisterInput(name: Option<string>, email: Option<string>,
                                         password: Option<string>, role: Option<string>)

  datatype LoginInput = LoginInput(email: Option<string>, password: Option<string>)

  /** What a token asserts: the user's identity and role. */
  datatype Claims = Claims(sub: Id, role: string)

  /** A signed token and the public data of the user it names. */
  datatype Session = Session(token: string, user: PublicUser)

  /** No two stored emails are equal ignoring case. */
  ghost predicate EmailsDistinct(users: seq<User>)
  {
    forall i, j :: 0 <= i < j < |users| ==> Lower(users[i].email) != Lower(users[j].email)
  }

  /** The claims signed into a token: an empty role is signed as "user". */
  function ClaimsOf(u: User): (c: Claims)
    ensures c.sub == u.id
    ensures c.role != ""
    ensures u.role == "" ==> c.role == "user"
    ensures u.role != "" ==> c.role == u.role
  {
    Claims(u.id, if u.role == "" then "user" else u.role)
  }

  /** signToken: a 500 failure when no secret is configured, otherwise the signed claims. */
  function SignToken(u: User, secret: Option<string>, sign: (Claims, string) -> string): (r: Result<string>)
    ensures r.Fail? <==> !Truthy(secret)
    ensures r.Fail? ==> r.failure == Internal
    ensures r.Ok? ==> r.value == sign(ClaimsOf(u), secret.value)
  {
    if !Truthy(secret) then Fail(Internal) else Ok(sign(ClaimsOf(u), secret.value))
  }

  predicate HasCredentials(input: RegisterInput)
  {
    Truthy(input.name) && Truthy(input.email) && Truthy(input.password)
  }

  method Register(store: Store, input: RegisterInput, hash: string -> string,
                  secret: Option<string>, sign: (Claims, string) -> string)
    returns (r: Result<Session>)
    requires store.Valid()
    modifies store
    ensures store.Valid()
    ensures store.menuItems == old(store.menuItems) && store.orders == old(store.orders)
    ensures !HasCredentials(input) ==> r == Fail(InvalidInput) && store.users == old(store.users)
    ensures HasCredentials(input) && old(store.FindUserByEmail(input.email.value)).Some? ==>
              r == Fail(Conflict) && store.users == old(store.users)
    ensures HasCredentials(input) && old(store.FindUserByEmail(input.email.value)).None? ==>
      && |store.users| == |old(store.users)| + 1
      && store.users[..|old(store.users)|] == old(store.users)
      && var u := store.users[|old(store.users)|];
      && u.name == input.name.value && u.email == input.email.value
      && u.passwordHash == hash(input.password.value)
      && u.role == input.role.GetOr("user")
      && (forall v :: v in old(store.users) ==> v.id != u.id)
      // the user is stored before the token is signed, so a missing secret leaves it stored
      && r == (if Truthy(secret) then Ok(Session(sign(ClaimsOf(u), secret.value), Public(u)))
               else Fail(Internal))
    ensures EmailsDistinct(old(store.users)) ==> EmailsDistinct(store.users)
  {
    if !HasCredentials(input) {
      return Fail(InvalidInput);
    }
    var email := input.email.value;
    var existing := store.FindUserByEmail(email);
    if existing.Some? {
      return Fail(Conflict);
    }
    var passwordHash := hash(input.password.value);
    var user := store.CreateUser(input.name.value, email, passwordHash, input.role.GetOr("user"));
    var token := SignToken(user, secret, sign);
    if token.Fail? {
      return Fail(token.failure);
    }
    r := Ok(Session(token.value, Public(user)));
  }

  /** The session for the user whose email matches ignoring case and whose password checks. */
  function Login(store: Store, input: LoginInput, check: (string, string) -> bool,
                 secret: Option<string>, sign: (Claims, string) -> string): (r: Result<Session>)
    reads store
    ensures !Truthy(input.email) || !Truthy(input.password) ==> r == Fail(InvalidInput)
    ensures Truthy(input.email) && Truthy(input.password) && store.FindUserByEmail(input.email.value).None? ==>
              r == Fail(Unauthorized)
    ensures Truthy(input.email) && Truthy(input.password) && store.FindUserByEmail(input.email.value).Some? ==>
      var u := store.FindUserByEmail(input.email.value).value;
      && (!check(input.password.value, u.passwordHash) ==> r == Fail(Unauthorized))
      && (check(input.password.value, u.passwordHash) && !Truthy(secret) ==> r == Fail(Internal))
      && (check(input.password.value, u.passwordHash) && Truthy(secret) ==>
            r == Ok(Session(sign(ClaimsOf(u), secret.value), Public(u))))
  {
    if !Truthy(input.email) || !Truthy(input.password) then Fail(InvalidInput)
    else
      match store.FindUserByEmail(input.email.value)
      case None => Fail(Unauthorized)
      case Some(u) =>
        if !check(input.password.value, u.passwordHash) then Fail(Unauthorized)
        else
          match SignToken(u, secret, sign)
          case Fail(e) => Fail(e)
          case Ok(token) => Ok(Session(token, Public(u)))
  }

  /** Emails match ignoring case: two spellings of one address find the same user. */
  lemma FindUserByEmailIgnoresCase(store: Store, e1: string, e2: string)
    requires Lower(e1) == Lower(e2)
    ensures store.FindUserByEmail(e1) == store.FindUserByEmail(e2)
  {
    var k1, k2 := store.UserIndexByEmail(e1), store.UserIndexByEmail(e2);
    if k1 != -1 && k2 != -1 {
      assert !(k1 < k2) && !(k2 < k1);
    }
  }

  /** Logging in does not depend on the case in which the email is typed. */
  lemma LoginIgnoresCase(store: Store, e1: string, e2: string, password: Option<string>,
                         check: (string, string) -> bool, secret: Option<string>,
                         sign: (Claims, string) -> string)
    requires Lower(e1) == Lower(e2)
    ensures Login(store, LoginInput(Some(e1), password), check, secret, sign)
         == Login(store, LoginInput(Some(e2), password), check, secret, sign)
  {
    FindUserByEmailIgnoresCase(store, e1, e2);
    assert e1 == "" <==> Lower(e1) == "";
    assert e2 == "" <==> Lower(e2) == "";
  }

  /** While emails are distinct ignoring case, each stored user can log in with any
      spelling of their email and a password that checks against their hash. */
  lemma LoginFindsRegisteredUser(store: Store, i: nat, email: string, password: string,
                                 check: (string, string) -> bool, secret: Option<string>,
                                 sign: (Claims, string) -> string)
    requires EmailsDistinct(store.users)
    requires i < |store.users|
    requires email != "" && password != "" && Lower(email) == Lower(store.users[i].email)
    requires check(password, store.users[i].passwordHash) && Truthy(secret)
    ensures var u := store.users[i];
      Login(store, LoginInput(Some(email), Some(password)), check, secret, sign)
        == Ok(Session(sign(ClaimsOf(u), secret.value), Public(u)))
  {
    var k := store.UserIndexByEmail(email);
    assert k != -1;
    assert k == i;
  }
}

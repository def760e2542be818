/** `UserService`: registration with unique usernames, and the lookups
    login is built on.  Hashing and verification are parameters: `hash`
    stands for the salted BCrypt hash and `verify` for its check. */
module Users {
  import opened Outcomes
  import opened Text
  import opened Tables

  /** `existsByUsername`. */
  predicate ExistsByUsername(users: map<nat, User>, username: string)
  {
    exists k :: k in users && users[k].username == username
  }

  /** The newest user by that name is the one user by that name, and
      `findByUsername` finds one exactly when `existsByUsername` holds. */
  lemma FoundExactlyWhenExists(users: map<nat, User>, n: nat, username: string)
    requires UserTable(users, n)
    ensures FindUser(users, username, n).Some? <==> ExistsByUsername(users, username)
    ensures FindUser(users, username, n).Some? ==>
              var u := FindUser(users, username, n).value;
              u.id in users && users[u.id] == u &&
              forall k :: k in users && users[k].username == username ==> k == u.id
  {
    FindUserSpec(users, username, n);
  }

  /** `register`: both fields must have text, the username must be new; the
      one user added keeps the username as given and the hash of the
      password. */
  method Register(st: Store, username: Option<string>, rawPassword: Option<string>, hash: string -> string)
    returns (r: Result<User>)
    requires st.Valid()
    modifies st`users, st`nextUserId
    ensures st.Valid()
    ensures r.Err? <==>
              !HasText(username) || !HasText(rawPassword) || ExistsByUsername(old(st.users), username.value)
    ensures r.Err? ==>
              && r.error == (if !HasText(username) || !HasText(rawPassword) then BlankCredentials else UsernameTaken)
              && unchanged(st)
    ensures r.Ok? ==>
              && r.value == User(old(st.nextUserId), username.value, hash(rawPassword.value))
              && r.value.id !in old(st.users)
              && st.users == old(st.users)[r.value.id := r.value]
              && st.nextUserId == old(st.nextUserId) + 1
  {
    if !HasText(username) || !HasText(rawPassword) {
      return Err(BlankCredentials);
    }
    if ExistsByUsername(st.users, username.value) {
      return Err(UsernameTaken);
    }
    var user := User(st.nextUserId, username.value, hash(rawPassword.value));
    st.users := st.users[user.id := user];
    st.nextUserId := st.nextUserId + 1;
    r := Ok(user);
  }

  /** `login`: empty for blank input, otherwise the user of that name if the
      raw password verifies against the stored hash. */
  function Login(users: map<nat, User>, n: nat, username: Option<string>, rawPassword: Option<string>,
                 verify: (string, string) -> bool): (r: Option<User>)
    ensures r.Some? ==>
              && HasText(username) && HasText(rawPassword)
              && r.value in users.Values
              && r.value.username == username.value
              && verify(rawPassword.value, r.value.password)
  {
    if !HasText(username) || !HasText(rawPassword) then None
    else
      match FindUser(users, username.value, n)
      case None => None
      case Some(u) => if verify(rawPassword.value, u.password) then Some(u) else None
  }

  /** With text in both fields, login succeeds exactly when the one user of
      that name has a hash the password verifies against. */
  lemma LoginSpec(users: map<nat, User>, n: nat, username: string, rawPassword: string,
                  verify: (string, string) -> bool)
    requires UserTable(users, n)
    requires HasText(Some(username)) && HasText(Some(rawPassword))
    ensures Login(users, n, Some(username), Some(rawPassword), verify).Some? <==>
              exists k :: k in users && users[k].username == username && verify(rawPassword, users[k].password)
    ensures Login(users, n, Some(username), Some(rawPassword), verify).Some? ==>
              var u := Login(users, n, Some(username), Some(rawPassword), verify).value;
              u.id in users && users[u.id] == u
  {
    FindUserSpec(users, username, n);
  }

  /** A user just registered can log in with the same password, provided
      `verify` accepts a password against its own hash. */
  lemma LoginAfterRegister(users: map<nat, User>, n: nat, username: string, rawPassword: string,
                           hash: string -> string, verify: (string, string) -> bool)
    requires UserTable(users, n)
    requires HasText(Some(username)) && HasText(Some(rawPassword))
    requires !ExistsByUsername(users, username)
    requires verify(rawPassword, hash(rawPassword))
    ensures var user := User(n, username, hash(rawPassword));
            Login(users[n := user], n + 1, Some(username), Some(rawPassword), verify) == Some(user)
  {
  }

  /** `findById`: "用户不存在" exactly when the id is absent. */
  function FindUserById(users: map<nat, User>, id: nat): (r: Result<User>)
    ensures r.Ok? <==> id in users
    ensures r.Ok? ==> r.value == users[id]
    ensures r.Err? ==> r.error == UserNotFound
  {
    match Lookup(users, id)
    case Some(u) => Ok(u)
    case None => Err(UserNotFound)
  }
}

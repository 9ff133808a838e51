/** The authentication context: login against the `users` table kept in
    `localStorage`, logout, partial updates of the signed-in user, and the
    two questions the rest of the client asks of it. */
module AuthContext {
  import opened Common
  import opened Records

  datatype LoginError = UserNotFound | AccountDeactivated | InvalidPassword

  /** The message each login failure is thrown with. */
  function ErrorMessage(e: LoginError): (m: string)
    ensures m != ""
  {
    match e
    case UserNotFound => "User not found"
    case AccountDeactivated => "Account is deactivated. Please contact administrator."
    case InvalidPassword => "Invalid password"
  }

  /** `users[i]` is the record `users.find(u => u.email === email)` returns. */
  ghost predicate FirstWithEmail(users: seq<User>, email: string, i: int) {
    0 <= i < |users| && users[i].email == email &&
    forall j :: 0 <= j < i ==> users[j].email != email
  }

  /** The position of the first user with this email, if any. */
  function FindByEmail(users: seq<User>, email: string): (r: Option<nat>)
    ensures r.Some? ==> FirstWithEmail(users, email, r.value)
    ensures r.None? <==> forall j :: 0 <= j < |users| ==> users[j].email != email
  {
    if users == [] then None
    else if users[0].email == email then Some(0)
    else
      match FindByEmail(users[1..], email)
      case None => None
      case Some(k) => Some(k + 1)
  }

  /** The checks of `login` in their order: unknown email, then an inactive
      account, then a wrong password. On success, the position of the
      record that signs in. */
  function Authenticate(users: seq<User>, email: string, password: string): (r: Result<nat, LoginError>)
    ensures r == Err(UserNotFound) <==> forall j :: 0 <= j < |users| ==> users[j].email != email
    ensures r == Err(AccountDeactivated) <==>
      exists i :: FirstWithEmail(users, email, i) && !users[i].isActive
    ensures r == Err(InvalidPassword) <==>
      exists i :: FirstWithEmail(users, email, i) && users[i].isActive && users[i].password != password
    ensures r.Ok? ==>
      FirstWithEmail(users, email, r.value) && users[r.value].isActive && users[r.value].password == password
  {
    match FindByEmail(users, email)
    case None => Err(UserNotFound)
    case Some(i) =>
      if !users[i].isActive then Err(AccountDeactivated)
      else if users[i].password != password then Err(InvalidPassword)
      else Ok(i)
  }

  /** `users.map(u => u.email === signedIn.email ? signedIn : u)`: every
      record carrying the signed-in email is replaced by the signed-in
      record, every other record is kept, in place. */
  function ReplaceByEmail(users: seq<User>, signedIn: User): (r: seq<User>)
    ensures |r| == |users|
    ensures forall j :: 0 <= j < |users| && users[j].email != signedIn.email ==> r[j] == users[j]
    ensures forall j :: 0 <= j < |users| && users[j].email == signedIn.email ==> r[j] == signedIn
  {
    Map(users, (u: User) => if u.email == signedIn.email then signedIn else u)
  }

  ghost predicate UniqueEmails(users: seq<User>) {
    forall i, j :: 0 <= i < j < |users| ==> users[i].email != users[j].email
  }

  /** With one record per email, a login changes the `lastLogin` field of
      the signed-in record and nothing else in the table. */
  lemma LoginTouchesOnlyLastLogin(users: seq<User>, i: nat, now: string)
    requires UniqueEmails(users) && i < |users|
    ensures var r := ReplaceByEmail(users, users[i].(lastLogin := Some(now)));
      && r[i].lastLogin == Some(now)
      && (forall j :: 0 <= j < |users| ==> r[j].(lastLogin := users[j].lastLogin) == users[j])
      && (forall j :: 0 <= j < |users| && j != i ==> r[j] == users[j])
  {
    var r := ReplaceByEmail(users, users[i].(lastLogin := Some(now)));
    forall j | 0 <= j < |users| && j != i ensures r[j] == users[j] {
      if j < i {
        assert users[j].email != users[i].email;
      } else {
        assert users[i].email != users[j].email;
      }
    }
  }

  /** The session record `login` stores: id, email, username, role, active
      flag and last login of the user, and no password. */
  function SessionOf(u: User): (s: Session)
    ensures s.id == Some(u.id) && s.email == Some(u.email) && s.username == Some(u.username)
    ensures s.role == Some(u.role) && s.isActive == Some(u.isActive) && s.lastLogin == u.lastLogin
  {
    Session(Some(u.id), Some(u.email), Some(u.username), Some(u.role), Some(u.isActive), u.lastLogin)
  }

  /** `{ ...user, ...patch }` over the session keys: a key present in the
      patch wins, every other key keeps the current user's value; with no
      current user only the patch's keys are present. */
  function Merge(user: Option<Session>, patch: Session): (r: Session)
    ensures patch.id.Some? ==> r.id == patch.id
    ensures patch.email.Some? ==> r.email == patch.email
    ensures patch.username.Some? ==> r.username == patch.username
    ensures patch.role.Some? ==> r.role == patch.role
    ensures patch.isActive.Some? ==> r.isActive == patch.isActive
    ensures patch.lastLogin.Some? ==> r.lastLogin == patch.lastLogin
    ensures user.None? ==> r == patch
  {
    var base := user.GetOr(NoKeys);
    Session(
      Override(base.id, patch.id),
      Override(base.email, patch.email),
      Override(base.username, patch.username),
      Override(base.role, patch.role),
      Override(base.isActive, patch.isActive),
      Override(base.lastLogin, patch.lastLogin))
  }

  /** The empty object. */
  const NoKeys := Session(None, None, None, None, None, None)

  function Override<T>(base: Option<T>, patch: Option<T>): Option<T> {
    if patch.Some? then patch else base
  }

  /** A key the patch leaves out keeps the current value. */
  lemma MergeKeepsOtherKeys(user: Session, patch: Session)
    ensures patch.id.None? ==> Merge(Some(user), patch).id == user.id
    ensures patch.email.None? ==> Merge(Some(user), patch).email == user.email
    ensures patch.username.None? ==> Merge(Some(user), patch).username == user.username
    ensures patch.role.None? ==> Merge(Some(user), patch).role == user.role
    ensures patch.isActive.None? ==> Merge(Some(user), patch).isActive == user.isActive
    ensures patch.lastLogin.None? ==> Merge(Some(user), patch).lastLogin == user.lastLogin
  {
  }

  /** Applying the same update twice changes nothing more; an empty update
      changes nothing. */
  lemma MergeIdempotent(user: Option<Session>, patch: Session)
    ensures Merge(Some(Merge(user, patch)), patch) == Merge(user, patch)
    ensures user.Some? ==> Merge(user, NoKeys) == user.value
  {
  }

  /** `checkAuth()`: `!!user` */
  predicate IsAuthenticated(user: Option<Session>) {
    user.Some?
  }

  /** `isAdmin()`: `user?.role === 'admin'` */
  predicate IsAdmin(user: Option<Session>) {
    user.Some? && user.value.role == Some("admin")
  }

  /** Being an administrator needs a signed-in user. */
  lemma AdminIsAuthenticated(user: Option<Session>)
    ensures IsAdmin(user) ==> IsAuthenticated(user)
    ensures IsAdmin(user) <==> exists s :: user == Some(s) && s.role == Some("admin")
  {
    if IsAdmin(user) {
      assert user == Some(user.value);
    }
  }

  /** How the stored `currentUser` key reads at start-up. */
  datatype StoredUser = Absent | Parsed(session: Session) | Malformed

  class AuthProvider {
    /** the `users` key of `localStorage` */
    var users: seq<User>
    /** the `user` state of the provider */
    var user: Option<Session>
    /** the `currentUser` key of `localStorage` */
    var storedUser: Option<Session>

    /** The state and the stored copy of the signed-in user agree. */
    ghost predicate Valid()
      reads this
    {
      user == storedUser
    }

    /** The mount effect: restore the stored user; a value that does not
        parse is removed. */
    constructor (table: seq<User>, stored: StoredUser)
      ensures Valid()
      ensures users == table
      ensures stored.Parsed? ==> user == Some(stored.session)
      ensures !stored.Parsed? ==> user == None
    {
      users := table;
      match stored
      case Parsed(s) =>
        user := Some(s);
        storedUser := Some(s);
      case Absent =>
        user := None;
        storedUser := None;
      case Malformed =>
        user := None;
        storedUser := None;
    }

    /** `login(credentials)` with the clock reading `now`. A failure throws
        and changes nothing; a success rewrites the records with that email,
        stores and returns the session of the first of them. */
    method Login(email: string, password: string, now: string) returns (r: Result<Session, LoginError>)
      requires Valid()
      modifies this
      ensures Valid()
      ensures Authenticate(old(users), email, password).Err? ==>
        && r == Err(Authenticate(old(users), email, password).error)
        && users == old(users) && user == old(user)
      ensures Authenticate(old(users), email, password).Ok? ==>
        var signedIn := old(users)[Authenticate(old(users), email, password).value].(lastLogin := Some(now));
        && r == Ok(SessionOf(signedIn))
        && users == ReplaceByEmail(old(users), signedIn)
        && user == Some(SessionOf(signedIn))
    {
      match Authenticate(users, email, password)
      case Err(e) =>
        r := Err(e);
      case Ok(i) =>
        var signedIn := users[i].(lastLogin := Some(now));
        users := ReplaceByEmail(users, signedIn);
        var session := SessionOf(signedIn);
        storedUser := Some(session);
        user := Some(session);
        r := Ok(session);
    }

    /** `logout()`: the stored and the current user are removed. */
    method Logout()
      requires Valid()
      modifies this
      ensures Valid()
      ensures user == None && !IsAuthenticated(user) && users == old(users)
    {
      storedUser := None;
      user := None;
    }

    /** `updateUser(patch)`: the patch's keys override, every other key is kept. */
    method UpdateUser(patch: Session)
      requires Valid()
      modifies this
      ensures Valid()
      ensures user == Some(Merge(old(user), patch)) && users == old(users)
    {
      var updated := Merge(user, patch);
      storedUser := Some(updated);
      user := Some(updated);
    }
  }
}

/**
 * Accounts and the session, kept under two browser-storage keys: the list of
 * registered users and the record of the user currently logged in.
 *
 * `localStorage` becomes the two fields of `AuthStore`. JSON encoding is not
 * modelled: a key holds a typed value or is absent. The clock is a parameter
 * (`Clock`), and a storage fault is the parameter `fault`: the one storage
 * access that throws during the call, if any. The first throw ends the
 * operation, so one is enough.
 */
module Auth {
  import opened Wrappers

  /** A registered account, stored with its password in plain text. */
  datatype User = User(id: int, username: string, email: string, password: string, createdAt: string)

  /** The session record: a user's public part and the logged-in flag. */
  datatype CurrentUser = CurrentUser(id: int, username: string, email: string, isLoggedIn: bool)

  /** What `registerUser` is given: a user without `id` and `createdAt`. */
  datatype NewUser = NewUser(username: string, email: string, password: string)

  /** The values of `Date.now()` and `new Date().toISOString()` when a user registers. */
  datatype Clock = Clock(now: int, isoTime: string)

  /** The storage accesses that can throw. Reading a key includes parsing its JSON. */
  datatype Access = ReadUsers | WriteUsers | ReadSession | WriteSession | RemoveSession

  /** `{ success, message? }`. */
  datatype Reply = Reply(success: bool, message: Option<string>)

  /** `{ success, message?, user? }`. */
  datatype LoginReply = LoginReply(success: bool, message: Option<string>, user: Option<CurrentUser>)

  const EmailTakenMessage := "A user with this email already exists. Please use a different email or login."
  const RegisterFailedMessage := "Failed to register user. Please try again."
  const InvalidCredentialsMessage := "Invalid email or password. Please try again."
  const LoginFailedMessage := "Login failed. Please try again."

  /** The access `a` throws in this call. */
  predicate Throws(fault: Option<Access>, a: Access) {
    fault == Some(a)
  }

  /** `users.some(user => user.email === email)`: an exact, case-sensitive match. */
  function HasEmail(users: seq<User>, email: string): (b: bool)
    ensures b <==> exists i | 0 <= i < |users| :: users[i].email == email
    decreases |users|
  {
    if users == [] then false
    else users[0].email == email || HasEmail(users[1..], email)
  }

  /** The user has exactly this email and this password. */
  predicate Credentials(u: User, email: string, password: string) {
    u.email == email && u.password == password
  }

  /** `users.find(...)` by credentials: the position of the FIRST user with both. */
  function Find(users: seq<User>, email: string, password: string): (r: Option<nat>)
    ensures r.Some? ==> r.value < |users| && Credentials(users[r.value], email, password)
    ensures r.Some? ==> forall j | 0 <= j < r.value :: !Credentials(users[j], email, password)
    ensures r.None? <==> forall j | 0 <= j < |users| :: !Credentials(users[j], email, password)
    decreases |users|
  {
    if users == [] then None
    else if Credentials(users[0], email, password) then Some(0)
    else
      match Find(users[1..], email, password)
      case None => None
      case Some(i) => Some(i + 1)
  }

  /** The account `registerUser` creates: `{ id: Date.now(), ...userData, createdAt }`. */
  function Account(data: NewUser, clock: Clock): (u: User)
    ensures u.id == clock.now && u.createdAt == clock.isoTime
    ensures u.username == data.username && u.email == data.email
    ensures Credentials(u, data.email, data.password)
  {
    User(clock.now, data.username, data.email, data.password, clock.isoTime)
  }

  /** The session record for a user: everything but the password and the creation time, logged in. */
  function Project(u: User): (c: CurrentUser)
    ensures c.isLoggedIn
    ensures c.id == u.id && c.username == u.username && c.email == u.email
  {
    CurrentUser(u.id, u.username, u.email, true)
  }

  /**
   * A newly registered account can log in with the password it was registered
   * with: `find` reaches it, at the end of the list, when no earlier user has
   * its email.
   */
  lemma {:induction false} AccountFindable(users: seq<User>, data: NewUser, clock: Clock)
    requires !HasEmail(users, data.email)
    ensures Find(users + [Account(data, clock)], data.email, data.password) == Some(|users|)
    decreases |users|
  {
    var all := users + [Account(data, clock)];
    if users != [] {
      assert all[1..] == users[1..] + [Account(data, clock)];
      AccountFindable(users[1..], data, clock);
    }
  }

  /** No two stored users share an email. */
  ghost predicate DistinctEmails(users: seq<User>) {
    forall i, j | 0 <= i < j < |users| :: users[i].email != users[j].email
  }

  /** A logged-in session belongs to one of the stored users. */
  ghost predicate SessionOfStoredUser(users: seq<User>, session: Option<CurrentUser>) {
    session.Some? && session.value.isLoggedIn ==>
      exists i | 0 <= i < |users| :: Project(users[i]) == session.value
  }

  /** Appending a user whose email is not yet stored keeps the emails distinct. */
  lemma AppendKeepsDistinct(users: seq<User>, u: User)
    requires DistinctEmails(users) && !HasEmail(users, u.email)
    ensures DistinctEmails(users + [u])
  {
  }

  class AuthStore {
    /** The `cookingDiaryUsers` key; an absent key reads as the empty list. */
    var users: seq<User>
    /** The `cookingDiaryCurrentUser` key; `None` when absent. */
    var session: Option<CurrentUser>

    /** The invariant the operations keep: unique emails, and a session of a stored user. */
    ghost predicate Valid()
      reads this
    {
      DistinctEmails(users) && SessionOfStoredUser(users, session)
    }

    /** The app's first run has both keys absent: no users and no session, which is valid. */
    constructor (users: seq<User>, session: Option<CurrentUser>)
      ensures this.users == users && this.session == session
      ensures users == [] && session == None ==> Valid()
    {
      this.users := users;
      this.session := session;
    }

    /**
     * `registerUser`: refuse a stored email; otherwise append the new account,
     * then log it in. A fault while writing the session comes after the users
     * were written, so the new account stays stored.
     */
    method Register(data: NewUser, clock: Clock, fault: Option<Access>) returns (r: Reply)
      modifies this
      ensures Throws(fault, ReadUsers) ==>
        r == Reply(false, Some(RegisterFailedMessage)) && users == old(users) && session == old(session)
      ensures !Throws(fault, ReadUsers) && HasEmail(old(users), data.email) ==>
        r == Reply(false, Some(EmailTakenMessage)) && users == old(users) && session == old(session)
      ensures r.success <==>
        !HasEmail(old(users), data.email) && !Throws(fault, ReadUsers) && !Throws(fault, WriteUsers)
        && !Throws(fault, WriteSession)
      ensures r.success ==>
        r.message == None
        && users == old(users) + [Account(data, clock)]
        && session == Some(Project(Account(data, clock)))
      ensures !r.success ==>
        session == old(session) && r.message in {Some(EmailTakenMessage), Some(RegisterFailedMessage)}
      ensures r.message == Some(EmailTakenMessage) <==> !Throws(fault, ReadUsers) && HasEmail(old(users), data.email)
      ensures !r.success && r.message == Some(RegisterFailedMessage) ==>
        if Throws(fault, WriteSession) then users == old(users) + [Account(data, clock)] else users == old(users)
      ensures DistinctEmails(old(users)) ==> DistinctEmails(users)
      ensures old(Valid()) ==> Valid()
    {
      if Throws(fault, ReadUsers) {
        return Reply(false, Some(RegisterFailedMessage));
      }
      var existing := users;
      if HasEmail(existing, data.email) {
        return Reply(false, Some(EmailTakenMessage));
      }
      var newUser := Account(data, clock);
      if Throws(fault, WriteUsers) {
        return Reply(false, Some(RegisterFailedMessage));
      }
      users := existing + [newUser];
      ghost var stored := old(users);
      if DistinctEmails(stored) {
        AppendKeepsDistinct(stored, newUser);
      }
      if old(Valid()) {
        if session.Some? && session.value.isLoggedIn {
          var i :| 0 <= i < |stored| && Project(stored[i]) == session.value;
          assert users[i] == stored[i];
        }
      }
      if Throws(fault, WriteSession) {
        return Reply(false, Some(RegisterFailedMessage));
      }
      session := Some(Project(newUser));
      assert users[|stored|] == newUser;
      r := Reply(true, None);
    }

    /**
     * `loginUser`: log in the first user with exactly this email and password.
     * An unknown email and a wrong password get the same reply.
     */
    method Login(email: string, password: string, fault: Option<Access>) returns (r: LoginReply)
      modifies this`session
      ensures users == old(users)
      ensures Throws(fault, ReadUsers) ==>
        r == LoginReply(false, Some(LoginFailedMessage), None) && session == old(session)
      ensures !Throws(fault, ReadUsers) && Find(users, email, password).None? ==>
        r == LoginReply(false, Some(InvalidCredentialsMessage), None) && session == old(session)
      ensures r.success <==>
        Find(users, email, password).Some? && !Throws(fault, ReadUsers) && !Throws(fault, WriteSession)
      ensures r.success ==>
        r.message == None
        && session == Some(Project(users[Find(users, email, password).value]))
        && r.user == session
      ensures r.message == Some(InvalidCredentialsMessage) <==>
        !Throws(fault, ReadUsers) && Find(users, email, password).None?
      ensures !r.success ==>
        session == old(session) && r.user == None
        && r.message in {Some(InvalidCredentialsMessage), Some(LoginFailedMessage)}
      ensures old(Valid()) ==> Valid()
    {
      if Throws(fault, ReadUsers) {
        return LoginReply(false, Some(LoginFailedMessage), None);
      }
      var found := Find(users, email, password);
      if found.None? {
        return LoginReply(false, Some(InvalidCredentialsMessage), None);
      }
      var current := Project(users[found.value]);
      if Throws(fault, WriteSession) {
        return LoginReply(false, Some(LoginFailedMessage), None);
      }
      session := Some(current);
      r := LoginReply(true, None, Some(current));
    }

    /** `getCurrentUser`: the session record, or `None` when the key is absent or unreadable. */
    function GetCurrentUser(fault: Option<Access>): (c: Option<CurrentUser>)
      reads this
      ensures c.None? <==> session.None? || Throws(fault, ReadSession)
      ensures c.Some? ==> c == session
    {
      if Throws(fault, ReadSession) then None else session
    }

    /** `isLoggedIn`: there is a readable session record whose flag is set. */
    function IsLoggedIn(fault: Option<Access>): (b: bool)
      reads this
      ensures b ==> session.Some? && session.value.isLoggedIn && !Throws(fault, ReadSession)
      ensures b ==> Valid() ==> exists i | 0 <= i < |users| :: Project(users[i]) == session.value
      ensures !b ==> GetCurrentUser(fault).None? || !GetCurrentUser(fault).value.isLoggedIn
    {
      var c := GetCurrentUser(fault);
      c.Some? && c.value.isLoggedIn
    }

    /** `logoutUser`: remove the session key. */
    method Logout(fault: Option<Access>) returns (success: bool)
      modifies this`session
      ensures success <==> !Throws(fault, RemoveSession)
      ensures session == if success then None else old(session)
      ensures users == old(users)
      ensures old(Valid()) ==> Valid()
    {
      if Throws(fault, RemoveSession) {
        return false;
      }
      session := None;
      success := true;
    }
  }

  // ---------------------------------------------------------------- scenarios

  /**
   * Registering the same email twice: the second call is refused with the
   * "already exists" message, and the email is stored exactly once.
   */
  method RegisterTwice(users: seq<User>, first: NewUser, second: NewUser, c1: Clock, c2: Clock)
    returns (r1: Reply, r2: Reply, stored: seq<User>)
    requires DistinctEmails(users) && !HasEmail(users, first.email)
    requires second.email == first.email
    ensures r1.success && r2 == Reply(false, Some(EmailTakenMessage))
    ensures DistinctEmails(stored)
    ensures stored == users + [Account(first, c1)]
    ensures exists i | 0 <= i < |stored| :: stored[i].email == first.email
  {
    var store := new AuthStore(users, None);
    r1 := store.Register(first, c1, None);
    r2 := store.Register(second, c2, None);
    stored := store.users;
    AppendKeepsDistinct(users, Account(first, c1));
    assert stored[|users|].email == first.email;
  }

  /** After a successful registration the current user is the new account, logged in. */
  method RegisterThenCurrentUser(users: seq<User>, session: Option<CurrentUser>, data: NewUser, clock: Clock)
    returns (r: Reply, current: Option<CurrentUser>, loggedIn: bool)
    requires !HasEmail(users, data.email)
    ensures r.success && loggedIn
    ensures current == Some(CurrentUser(clock.now, data.username, data.email, true))
  {
    var store := new AuthStore(users, session);
    r := store.Register(data, clock, None);
    current := store.GetCurrentUser(None);
    loggedIn := store.IsLoggedIn(None);
  }

  /**
   * A wrong password for a stored email gets exactly the reply an unknown
   * email gets, so a reply never reveals whether an email is registered.
   */
  method WrongPasswordLooksLikeUnknownEmail(
    users: seq<User>, session: Option<CurrentUser>, i: nat, wrong: string, unknown: string, any: string)
    returns (r1: LoginReply, r2: LoginReply)
    requires DistinctEmails(users)
    requires i < |users| && wrong != users[i].password
    requires !HasEmail(users, unknown)
    ensures r1 == r2 == LoginReply(false, Some(InvalidCredentialsMessage), None)
  {
    var store := new AuthStore(users, session);
    r1 := store.Login(users[i].email, wrong, None);
    r2 := store.Login(unknown, any, None);
  }

  /** After logging out (once or twice) there is no current user. */
  method LogoutTwice(users: seq<User>, session: Option<CurrentUser>)
    returns (once: Option<CurrentUser>, twice: Option<CurrentUser>, loggedIn: bool)
    ensures once == None && twice == None && !loggedIn
  {
    var store := new AuthStore(users, session);
    var ok := store.Logout(None);
    once := store.GetCurrentUser(None);
    ok := store.Logout(None);
    twice := store.GetCurrentUser(None);
    loggedIn := store.IsLoggedIn(None);
  }
}

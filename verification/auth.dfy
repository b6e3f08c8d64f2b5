/**
  Registration and login. Password hashing is a parameter: `hash` makes the
  stored hash of a password and `check` tells whether a password matches a
  stored hash; the salt and the algorithm are inside them. Access tokens are
  not modelled.
*/
module Auth {
  import opened Base
  import opened Errors
  import opened Models
  import opened Db
  import opened Schemas

  /** The password hashing the routes use. */
  datatype Hasher = Hasher(hash: string -> string, check: (string, string) -> bool)

  /** A hasher whose check accepts every password against its own hash. */
  ghost predicate Sound(h: Hasher) {
    forall password :: h.check(h.hash(password), password)
  }

  /** No two users share an email or a username, as the unique columns
      demand. */
  predicate UsersUnique(st: Store) {
    forall i, j :: 0 <= i < j < |st.users| ==>
      st.users[i].email != st.users[j].email && st.users[i].username != st.users[j].username
  }

  predicate EmailTaken(users: seq<User>, email: string) {
    exists i :: 0 <= i < |users| && users[i].email == email
  }

  predicate UsernameTaken(users: seq<User>, username: string) {
    exists i :: 0 <= i < |users| && users[i].username == username
  }

  /** The id of the first user with `email`, as `.first()` finds it. */
  function FindByEmail(users: seq<User>, email: string): (r: Option<nat>)
    ensures r.None? <==> !EmailTaken(users, email)
    ensures r.Some? ==> r.value < |users| && users[r.value].email == email
    ensures r.Some? ==> forall j :: 0 <= j < r.value ==> users[j].email != email
  {
    if |users| == 0 then None
    else if users[|users| - 1].email == email && FindByEmail(users[..|users| - 1], email).None? then
      Some(|users| - 1)
    else
      FindByEmail(users[..|users| - 1], email)
  }

  // ----- register -----

  /** The success body of `register`, without its access token. */
  datatype Registered = Registered(message: string, user: UserView)

  /** The user `register` creates: a zero request count and the day the
      user model was loaded as its last request date, since the column's
      default is evaluated once, when the server starts. */
  function NewUser(data: RegisterData, h: Hasher, loadedOn: Day): User {
    User(data.username, data.email, h.hash(data.password), 0, loadedOn)
  }

  /** `register`: a taken email is refused before a taken username. */
  function Register(st: Store, raw: RegisterRequest, h: Hasher, loadedOn: Day): (x: Step<Registered>)
    ensures x.trace.Valid() && x.trace.before == st
    ensures x.result.Err? ==> x.trace.writes == [] && x.trace.after == st
    ensures LoadRegister(raw).Err? ==> x.result == Err(LoadRegister(raw).failure)
    ensures LoadRegister(raw).Ok? && EmailTaken(st.users, raw.email.value) ==>
      x.result == Throw(Conflict, "Email already exists")
    ensures LoadRegister(raw).Ok? && !EmailTaken(st.users, raw.email.value) && UsernameTaken(st.users, raw.username.value) ==>
      x.result == Throw(Conflict, "Username already taken")
    ensures x.result.Ok? <==>
      LoadRegister(raw).Ok? && !EmailTaken(st.users, raw.email.value) && !UsernameTaken(st.users, raw.username.value)
    ensures x.result.Ok? ==>
      var u := User(raw.username.value, raw.email.value, h.hash(raw.password.value), 0, loadedOn);
      && x.trace.writes == [AddUser(u)]
      && x.trace.after == st.(users := st.users + [u])
      && x.result.value == Registered("User created successfully", ShowUser(|st.users|, u))
  {
    match LoadRegister(raw)
    case Err(failure) => Step(Err(failure), Begin(st))
    case Ok(data) =>
      if EmailTaken(st.users, data.email) then
        Step(Throw(Conflict, "Email already exists"), Begin(st))
      else if UsernameTaken(st.users, data.username) then
        Step(Throw(Conflict, "Username already taken"), Begin(st))
      else
        var t := Commit(Begin(st), AddUser(NewUser(data, h, loadedOn)));
        Step(Ok(Registered("User created successfully", ShowUser(|st.users|, t.after.users[|st.users|]))), t)
  }

  // ----- login -----

  /** The success body of `login`, without its access token. */
  datatype LoggedIn = LoggedIn(message: string, user: UserView)

  /** `login`: an unknown email and a wrong password are refused alike. It
      reads the store and writes nothing. */
  function Login(st: Store, raw: LoginRequest, h: Hasher): (r: Result<LoggedIn>)
    ensures LoadLogin(raw).Err? ==> r == Err(LoadLogin(raw).failure)
    ensures LoadLogin(raw).Ok? && r.Err? ==> r == Throw(Unauthorized, "Invalid email or password")
    ensures r.Ok? <==>
      && LoadLogin(raw).Ok?
      && EmailTaken(st.users, raw.email.value)
      && h.check(st.users[FindByEmail(st.users, raw.email.value).value].passwordHash, raw.password.value)
    ensures r.Ok? ==>
      var id := FindByEmail(st.users, raw.email.value).value;
      r.value == LoggedIn("Login successful", ShowUser(id, st.users[id]))
  {
    match LoadLogin(raw)
    case Err(failure) => Err(failure)
    case Ok(data) =>
      match FindByEmail(st.users, data.email)
      case None => Throw(Unauthorized, "Invalid email or password")
      case Some(id) =>
        if !h.check(st.users[id].passwordHash, data.password) then
          Throw(Unauthorized, "Invalid email or password")
        else
          Ok(LoggedIn("Login successful", ShowUser(id, st.users[id])))
  }

  // ----- properties -----

  /** Registering keeps emails and usernames unique. */
  lemma RegisterKeepsUsersUnique(st: Store, raw: RegisterRequest, h: Hasher, loadedOn: Day)
    requires UsersUnique(st)
    ensures UsersUnique(Register(st, raw, h, loadedOn).trace.after)
  {
    var x := Register(st, raw, h, loadedOn);
    if x.result.Ok? {
      var users := x.trace.after.users;
      forall i, j | 0 <= i < j < |users|
        ensures users[i].email != users[j].email && users[i].username != users[j].username
      {
        if j == |st.users| {
          assert users[i] == st.users[i];
        }
      }
    }
  }

  /** With unique emails, login looks up the one user holding the email. */
  lemma LoginFindsTheOwner(st: Store, raw: LoginRequest, h: Hasher, id: nat)
    requires UsersUnique(st)
    requires id < |st.users| && raw.email == Some(st.users[id].email) && raw.password.Some?
    ensures Login(st, raw, h).Ok? <==> h.check(st.users[id].passwordHash, raw.password.value)
    ensures Login(st, raw, h).Ok? ==> Login(st, raw, h).value.user == ShowUser(id, st.users[id])
  {
    var found := FindByEmail(st.users, raw.email.value);
    assert found == Some(id);
  }

  /** A caller cannot tell an unknown email from a wrong password. */
  lemma LoginHidesWhichCheckFailed(st: Store, h: Hasher, unknown: LoginRequest, wrong: LoginRequest)
    requires LoadLogin(unknown).Ok? && !EmailTaken(st.users, unknown.email.value)
    requires LoadLogin(wrong).Ok? && Login(st, wrong, h).Err?
    ensures Login(st, unknown, h) == Login(st, wrong, h)
  {
  }

  /** A newly registered user can log in with the password they chose, and
      registering the same email again is refused. */
  lemma RegisterThenLogin(st: Store, raw: RegisterRequest, h: Hasher, loadedOn: Day, again: RegisterRequest)
    requires Sound(h)
    requires Register(st, raw, h, loadedOn).result.Ok?
    requires again.email == raw.email
    requires LoadRegister(again).Ok?
    ensures var after := Register(st, raw, h, loadedOn).trace.after;
      && Login(after, LoginRequest(raw.email, raw.password), h)
        == Ok(LoggedIn("Login successful", ShowUser(|st.users|, after.users[|st.users|])))
      && Register(after, again, h, loadedOn).result == Throw(Conflict, "Email already exists")
  {
    var after := Register(st, raw, h, loadedOn).trace.after;
    var found := FindByEmail(after.users, raw.email.value);
    assert after.users[..|after.users| - 1] == st.users;
    assert found == Some(|st.users|);
    assert EmailTaken(after.users, raw.email.value) by {
      assert after.users[|st.users|].email == raw.email.value;
    }
  }

  /** Registering keeps every user within its columns when the email
      fits: the schema bounds the username to 80 characters, inside the
      column's 100. */
  lemma RegisterKeepsUsersFitting(st: Store, raw: RegisterRequest, h: Hasher, loadedOn: Day)
    requires forall i :: 0 <= i < |st.users| ==> UserFits(st.users[i])
    requires raw.email.Some? ==> |raw.email.value| <= 100
    ensures var after := Register(st, raw, h, loadedOn).trace.after;
      forall i :: 0 <= i < |after.users| ==> UserFits(after.users[i])
  {
  }

  /** The schema puts no length rule on the email, so an email longer than
      its column is accepted and stored. */
  lemma OverlongEmailAccepted(st: Store, h: Hasher, loadedOn: Day)
    requires !EmailTaken(st.users, seq(101, _ => 'e')) && !UsernameTaken(st.users, "ada")
    ensures var email: string := seq(101, _ => 'e');
      var x := Register(st, RegisterRequest(Some(email), Some("ada"), Some("secret")), h, loadedOn);
      && x.result.Ok? && !UserFits(x.trace.after.users[|st.users|])
  {
  }
}

/**
  The identity handler: `register`, `login` and `google`, selected by the
  body's `action` on a POST. The password hash is a deterministic function the
  handler is given (`hash`), and the freshly generated session token is a
  value it is given (`token`): the token is returned, never stored.
 */
module Auth {
  import opened Events
  import opened Store

  const MsgEmailTaken := "Email уже зарегистрирован"
  const MsgBadCredentials := "Неверный email или пароль"
  const MsgBadAction := "Неверное действие"
  const MsgMethodNotAllowed := "Method not allowed"

  /** The response bodies. */
  datatype ReplyBody = Preflight | Error(message: string) | Session(token: string, user: UserView)

  // ---- request schemas ----------------------------------------------------

  datatype RegisterRequest = RegisterRequest(email: string, name: string, password: string)
  datatype LoginRequest = LoginRequest(email: string, password: string)
  datatype GoogleAuthRequest = GoogleAuthRequest(googleId: string, email: string, name: string, avatarUrl: Option<string>)

  /** The shape an `EmailStr` field must have: one `@` with text on both
      sides. */
  predicate EmailSyntax(s: string) {
    exists i :: 0 < i < |s| - 1 && s[i] == '@' && '@' !in s[..i] && '@' !in s[i + 1..]
  }

  predicate EmailField(fields: map<string, Json>, key: string) {
    key in fields && fields[key].JStr? && EmailSyntax(fields[key].s)
  }

  /** `RegisterRequest(**body)`: an email, a name of 2 to 255 characters and
      a password of at least 6. */
  function RegisterSchema(fields: map<string, Json>): (r: Option<RegisterRequest>)
    ensures r.Some? <==> && EmailField(fields, "email")
                         && StringField(fields, "name", 2, Some(255))
                         && StringField(fields, "password", 6, None)
    ensures r.Some? ==> && fields["email"] == JStr(r.value.email) && EmailSyntax(r.value.email)
                        && fields["name"] == JStr(r.value.name) && 2 <= |r.value.name| <= 255
                        && fields["password"] == JStr(r.value.password) && |r.value.password| >= 6
  {
    if EmailField(fields, "email") && StringField(fields, "name", 2, Some(255)) && StringField(fields, "password", 6, None)
    then Some(RegisterRequest(fields["email"].s, fields["name"].s, fields["password"].s))
    else None
  }

  /** `LoginRequest(**body)`: an email and a password of any length. */
  function LoginSchema(fields: map<string, Json>): (r: Option<LoginRequest>)
    ensures r.Some? <==> EmailField(fields, "email") && StringField(fields, "password", 0, None)
    ensures r.Some? ==> fields["email"] == JStr(r.value.email) && fields["password"] == JStr(r.value.password)
  {
    if EmailField(fields, "email") && StringField(fields, "password", 0, None)
    then Some(LoginRequest(fields["email"].s, fields["password"].s))
    else None
  }

  /** `avatar_url: Optional[str] = None`: absent or null is no avatar. */
  function OptionalString(fields: map<string, Json>, key: string): Option<Option<string>> {
    if key !in fields || fields[key] == JNull then Some(None)
    else if fields[key].JStr? then Some(Some(fields[key].s))
    else None
  }

  /** `GoogleAuthRequest(**body)`: a non-empty google id, an email, a name of
      any length and an optional avatar URL. */
  function GoogleSchema(fields: map<string, Json>): (r: Option<GoogleAuthRequest>)
    ensures r.Some? <==> && StringField(fields, "google_id", 1, None) && EmailField(fields, "email")
                         && StringField(fields, "name", 0, None) && OptionalString(fields, "avatar_url").Some?
    ensures r.Some? ==> && fields["google_id"] == JStr(r.value.googleId) && r.value.googleId != ""
                        && fields["email"] == JStr(r.value.email) && fields["name"] == JStr(r.value.name)
                        && (r.value.avatarUrl.None? <==> "avatar_url" !in fields || fields["avatar_url"] == JNull)
  {
    if && StringField(fields, "google_id", 1, None) && EmailField(fields, "email")
       && StringField(fields, "name", 0, None) && OptionalString(fields, "avatar_url").Some?
    then Some(GoogleAuthRequest(fields["google_id"].s, fields["email"].s, fields["name"].s,
                                OptionalString(fields, "avatar_url").value))
    else None
  }

  /** Login bounds neither the password's length nor its content: a body
      with a well-formed email and any string password, the empty one
      included, passes validation. */
  lemma LoginAcceptsAnyPassword(fields: map<string, Json>, password: string)
    requires EmailField(fields, "email") && "password" in fields && fields["password"] == JStr(password)
    ensures LoginSchema(fields) == Some(LoginRequest(fields["email"].s, password))
  {
  }

  // ---- dispatch -------------------------------------------------------------

  datatype Operation =
    | Register(register: RegisterRequest)
    | Login(login: LoginRequest)
    | Google(google: GoogleAuthRequest)

  datatype Step = Respond(outcome: Outcome<ReplyBody>) | Execute(op: Operation)

  /** The branch structure of the handler, up to the first store access:
      OPTIONS is a 200, a POST is routed by its `action` (an unknown one is a
      400, a body a schema rejects raises), any other method is a 405. */
  function Dispatch(ev: Event): (s: Step)
    ensures ev.httpMethod == "OPTIONS" ==> s == Respond(Reply(200, Preflight))
    ensures ev.httpMethod !in {"POST", "OPTIONS"} ==> s == Respond(Reply(405, Error(MsgMethodNotAllowed)))
    ensures ev.httpMethod == "POST" && ev.body.Object? &&
            ActionOf(ev.body.fields) !in {Some("register"), Some("login"), Some("google")} ==>
              s == Respond(Reply(400, Error(MsgBadAction)))
    ensures ev.httpMethod == "POST" && ev.body.Malformed? ==> s == Respond(Raised(BadJson))
    ensures ev.httpMethod == "POST" && ev.body.Object? && ActionOf(ev.body.fields) == Some("register") ==>
              s == match RegisterSchema(ev.body.fields)
                   case Some(r) => Execute(Register(r))
                   case None => Respond(Raised(ValidationError))
    ensures ev.httpMethod == "POST" && ev.body.Object? && ActionOf(ev.body.fields) == Some("login") ==>
              s == match LoginSchema(ev.body.fields)
                   case Some(r) => Execute(Login(r))
                   case None => Respond(Raised(ValidationError))
    ensures ev.httpMethod == "POST" && ev.body.Object? && ActionOf(ev.body.fields) == Some("google") ==>
              s == match GoogleSchema(ev.body.fields)
                   case Some(r) => Execute(Google(r))
                   case None => Respond(Raised(ValidationError))
    ensures s.Execute? ==> ev.httpMethod == "POST"
  {
    if ev.httpMethod == "OPTIONS" then Respond(Reply(200, Preflight))
    else if ev.httpMethod == "POST" then
      match ev.body
      case Malformed => Respond(Raised(BadJson))
      case Object(fields) =>
        var action := ActionOf(fields);
        if action == Some("register") then
          match RegisterSchema(fields)
          case Some(r) => Execute(Register(r))
          case None => Respond(Raised(ValidationError))
        else if action == Some("login") then
          match LoginSchema(fields)
          case Some(r) => Execute(Login(r))
          case None => Respond(Raised(ValidationError))
        else if action == Some("google") then
          match GoogleSchema(fields)
          case Some(r) => Execute(Google(r))
          case None => Respond(Raised(ValidationError))
        else Respond(Reply(400, Error(MsgBadAction)))
    else Respond(Reply(405, Error(MsgMethodNotAllowed)))
  }

  // ---- operations ---------------------------------------------------------

  /** What `register` answers and the `users` table and counter it leaves
      (`users'`, `next'`): 400 and no insert when the email is already in
      `users`; otherwise exactly one new row with the email, the name, the
      password's hash, no google id and no avatar, whose projection is
      returned with the session token. */
  predicate RegisterEffect(users: seq<User>, next: nat, hash: string -> string, req: RegisterRequest, token: string,
                           out: Outcome<ReplyBody>, users': seq<User>, next': nat)
  {
    if Lookup(users, ByEmail(req.email)).Some? then
      out == Reply(400, Error(MsgEmailTaken)) && users' == users && next' == next
    else
      var u := User(next, req.email, req.name, Some(hash(req.password)), None, None);
      && users' == users + [u] && next' == next + 1
      && out == Reply(200, Session(token, View(u)))
  }

  /** `register` against the store: the effect above, on `users` only. */
  method RegisterUser(db: Database, hash: string -> string, req: RegisterRequest, token: string)
    returns (out: Outcome<ReplyBody>)
    requires db.Valid()
    modifies db
    ensures db.Valid()
    ensures db.contacts == old(db.contacts) && db.nextEdgeId == old(db.nextEdgeId)
    ensures RegisterEffect(old(db.users), old(db.nextUserId), hash, req, token, out, db.users, db.nextUserId)
  {
    var passwordHash := hash(req.password);
    if Lookup(db.users, ByEmail(req.email)).Some? {
      return Reply(400, Error(MsgEmailTaken));
    }
    var user := db.InsertUser(req.email, req.name, Some(passwordHash), None, None);
    out := Reply(200, Session(token, View(user)));
  }

  /** What `login` answers against `users`: the first row with the email
      and the hash of the password, or a 401 that does not say whether the
      email or the password was wrong. */
  predicate LoginEffect(users: seq<User>, hash: string -> string, req: LoginRequest, token: string, out: Outcome<ReplyBody>) {
    match Lookup(users, ByCredentials(req.email, hash(req.password)))
    case Some(u) => out == Reply(200, Session(token, View(u)))
    case None => out == Reply(401, Error(MsgBadCredentials))
  }

  /** `login`: succeeds exactly when some row has the email and the hash of
      the password, and answers as above. The store is only read. */
  method LoginUser(db: Database, hash: string -> string, req: LoginRequest, token: string)
    returns (out: Outcome<ReplyBody>)
    ensures out.Reply? && out.status == 200 <==>
              exists u :: u in db.users && u.email == req.email && u.passwordHash == Some(hash(req.password))
    ensures LoginEffect(db.users, hash, req, token, out)
  {
    var passwordHash := hash(req.password);
    var user := Lookup(db.users, ByCredentials(req.email, passwordHash));
    if user.None? {
      return Reply(401, Error(MsgBadCredentials));
    }
    out := Reply(200, Session(token, View(user.value)));
  }

  /** What `google` answers and the `users` table and counter it leaves: a
      known google id returns its row as it is (name and avatar are not
      refreshed); an unknown one inserts exactly one row bound to it. */
  predicate GoogleEffect(users: seq<User>, next: nat, req: GoogleAuthRequest, token: string,
                         out: Outcome<ReplyBody>, users': seq<User>, next': nat)
  {
    match Lookup(users, ByGoogleId(req.googleId))
    case Some(u) =>
      out == Reply(200, Session(token, View(u))) && users' == users && next' == next
    case None =>
      var u := User(next, req.email, req.name, None, Some(req.googleId), req.avatarUrl);
      && users' == users + [u] && next' == next + 1
      && out == Reply(200, Session(token, View(u)))
  }

  /** `google` against the store: the effect above, on `users` only. */
  method GoogleLogin(db: Database, req: GoogleAuthRequest, token: string) returns (out: Outcome<ReplyBody>)
    requires db.Valid()
    modifies db
    ensures db.Valid()
    ensures db.contacts == old(db.contacts) && db.nextEdgeId == old(db.nextEdgeId)
    ensures GoogleEffect(old(db.users), old(db.nextUserId), req, token, out, db.users, db.nextUserId)
  {
    var user := Lookup(db.users, ByGoogleId(req.googleId));
    if user.Some? {
      return Reply(200, Session(token, View(user.value)));
    }
    var created := db.InsertUser(req.email, req.name, None, Some(req.googleId), req.avatarUrl);
    out := Reply(200, Session(token, View(created)));
  }

  /** One invocation of the identity handler: each routed operation answers
      and changes `users` as its own contract says; `contacts` is never
      touched. */
  method Handle(db: Database, hash: string -> string, ev: Event, token: string) returns (out: Outcome<ReplyBody>)
    requires db.Valid()
    modifies db
    ensures db.Valid()
    ensures db.contacts == old(db.contacts) && db.nextEdgeId == old(db.nextEdgeId)
    ensures Dispatch(ev).Respond? ==> out == Dispatch(ev).outcome && unchanged(db)
    ensures Dispatch(ev).Execute? && Dispatch(ev).op.Register? ==>
              RegisterEffect(old(db.users), old(db.nextUserId), hash, Dispatch(ev).op.register, token,
                             out, db.users, db.nextUserId)
    ensures Dispatch(ev).Execute? && Dispatch(ev).op.Login? ==>
              LoginEffect(old(db.users), hash, Dispatch(ev).op.login, token, out) && unchanged(db)
    ensures Dispatch(ev).Execute? && Dispatch(ev).op.Google? ==>
              GoogleEffect(old(db.users), old(db.nextUserId), Dispatch(ev).op.google, token,
                           out, db.users, db.nextUserId)
  {
    match Dispatch(ev)
    case Respond(o) =>
      out := o;
    case Execute(Register(r)) =>
      out := RegisterUser(db, hash, r, token);
    case Execute(Login(r)) =>
      out := LoginUser(db, hash, r, token);
    case Execute(Google(r)) =>
      out := GoogleLogin(db, r, token);
  }

  // ---- properties across calls -------------------------------------------

  /** Round trip: right after a successful `register(e, n, p)`, the lookup
      `login(e, p)` performs finds the row just inserted, because the hash is
      a function of the password alone. */
  lemma RegisterThenLogin(users: seq<User>, id: nat, hash: string -> string, req: RegisterRequest)
    requires Lookup(users, ByEmail(req.email)).None?
    ensures var u := User(id, req.email, req.name, Some(hash(req.password)), None, None);
            Lookup(users + [u], ByCredentials(req.email, hash(req.password))) == Some(u)
  {
    var u := User(id, req.email, req.name, Some(hash(req.password)), None, None);
    assert Lookup(users, ByCredentials(req.email, hash(req.password))).None?;
    LookupAfterAppendNew(users, u, ByCredentials(req.email, hash(req.password)));
  }

  /** Registering the same email again is refused: after a successful
      `register` the email lookup finds a row. */
  lemma RegisterTwiceRefused(users: seq<User>, u: User, email: string)
    requires u.email == email
    ensures Lookup(users + [u], ByEmail(email)).Some?
  {
    if Lookup(users, ByEmail(email)).None? {
      LookupAfterAppendNew(users, u, ByEmail(email));
    }
  }

  /** A repeated `google` call with the same id finds the row the first call
      inserted, so it returns the same user and inserts nothing more. */
  lemma GoogleRepeatFindsSameUser(users: seq<User>, u: User, googleId: string)
    requires Lookup(users, ByGoogleId(googleId)).None?
    requires u.googleId == Some(googleId)
    ensures Lookup(users + [u], ByGoogleId(googleId)) == Some(u)
  {
    LookupAfterAppendNew(users, u, ByGoogleId(googleId));
  }

  /** The two calls of the round trip, made against the store. */
  method RegisterThenLoginScenario(db: Database, hash: string -> string, req: RegisterRequest, t1: string, t2: string)
    returns (registered: Outcome<ReplyBody>, loggedIn: Outcome<ReplyBody>)
    requires db.Valid()
    requires Lookup(db.users, ByEmail(req.email)).None?
    modifies db
    ensures registered.Reply? && registered.status == 200 && registered.body.Session?
    ensures loggedIn.Reply? && loggedIn.status == 200 && loggedIn.body.Session?
    ensures loggedIn.body.user == registered.body.user
  {
    ghost var before := db.users;
    registered := RegisterUser(db, hash, req, t1);
    RegisterThenLogin(before, db.users[|db.users| - 1].id, hash, req);
    loggedIn := LoginUser(db, hash, LoginRequest(req.email, req.password), t2);
  }

  /** The two calls of a repeated federated login, made against the store. */
  method GoogleTwiceScenario(db: Database, req: GoogleAuthRequest, t1: string, t2: string)
    returns (first: Outcome<ReplyBody>, second: Outcome<ReplyBody>)
    requires db.Valid()
    modifies db
    ensures first.Reply? && first.body.Session? && second.Reply? && second.body.Session?
    ensures second.body.user == first.body.user
    ensures |db.users| <= |old(db.users)| + 1
  {
    ghost var before := db.users;
    first := GoogleLogin(db, req, t1);
    if Lookup(before, ByGoogleId(req.googleId)).None? {
      GoogleRepeatFindsSameUser(before, db.users[|db.users| - 1], req.googleId);
    }
    second := GoogleLogin(db, req, t2);
  }
}

/** The decision logic of the authentication routes: bearer-token extraction, the password
    rule, the OTP records of registration and password reset, and the profile routes. The
    database is a value (its users and its live OTP records); every handler returns its reply
    and the database after the request. Token signing and checking, password hashing and
    comparison, mail delivery and the outcome of a user insert are parameters. */
module AuthRoutes {
  import opened Wrappers
  import opened Seqs
  import opened Text
  import opened JsValues

  const BearerPrefix: string := "Bearer "
  const MinPasswordLength: nat := 8
  const AvatarDir: string := "/uploads/avatars/"
  /** The fields `PUT /me` copies from the body. */
  const AllowedFields: seq<string> := ["name", "mobile", "place", "timezone", "notifications"]

  const PasswordRule: string := "Password must be at least 8 characters long."
  const BadCode: string := "Invalid or expired verification code."
  const SendFailed: string := "Error sending verification code."

  /** A stored user: its id, e-mail, password and every other field of the document. */
  datatype User = User(id: string, email: string, password: string, profile: map<string, Value>)

  datatype OtpRecord = OtpRecord(email: string, otp: string)

  datatype Db = Db(users: seq<User>, otps: seq<OtpRecord>)

  /** A response: a status with a message, a status with a JSON body, a successful login
      (the user view; the signed token is left out) or a granted reset (the user id the reset
      token is signed for). */
  datatype Reply =
    | Message(status: int, message: string)
    | Body(status: int, body: Value)
    | LoggedIn(user: map<string, Value>)
    | ResetGranted(userId: string)
  {
    /** The HTTP status of the response. */
    function Code(): int {
      match this
      case Message(status, _) => status
      case Body(status, _) => status
      case LoggedIn(_) => 200
      case ResetGranted(_) => 200
    }
  }

  /** The outcome of the multer upload of the `photo` file. */
  datatype Upload = UploadError(reason: string) | NoFile | Stored(filename: string)

  /** `!v` for a string field of a request body (absent or empty). */
  predicate Blank(v: Option<string>) {
    v.None? || v.value == ""
  }

  // ---------------------------------------------------------------------------
  // users and OTP records

  /** The index of the first user satisfying p (`findOne` returns the first match). */
  function IndexWhere(users: seq<User>, p: User -> bool): (r: Option<nat>)
    ensures r.Some? ==> r.value < |users| && p(users[r.value]) && forall j :: 0 <= j < r.value ==> !p(users[j])
    ensures r.None? ==> forall j :: 0 <= j < |users| ==> !p(users[j])
  {
    if |users| == 0 then None
    else if p(users[0]) then Some(0)
    else
      match IndexWhere(users[1..], p)
      case None => None
      case Some(k) => Some(k + 1)
  }

  /** `User.findOne({ email })` */
  function FindByEmail(users: seq<User>, email: string): (r: Option<nat>)
    ensures r.Some? ==> r.value < |users| && users[r.value].email == email
    ensures r.None? <==> forall u :: u in users ==> u.email != email
  {
    IndexWhere(users, (u: User) => u.email == email)
  }

  /** `User.findById(id)` */
  function FindById(users: seq<User>, id: string): (r: Option<nat>)
    ensures r.Some? ==> r.value < |users| && users[r.value].id == id
    ensures r.None? <==> forall u :: u in users ==> u.id != id
  {
    IndexWhere(users, (u: User) => u.id == id)
  }

  /** `OTP.findOne({ email, otp })` finds something. */
  predicate HasOtp(otps: seq<OtpRecord>, email: string, otp: string) {
    OtpRecord(email, otp) in otps
  }

  /** `OTP.deleteMany({ email })` */
  function DeleteOtps(otps: seq<OtpRecord>, email: string): (r: seq<OtpRecord>)
    ensures forall o :: o in r <==> o in otps && o.email != email
  {
    Filter(otps, (o: OtpRecord) => o.email != email)
  }

  // ---------------------------------------------------------------------------
  // bearer tokens

  /** `req.headers.authorization || ''` */
  function HeaderText(header: Option<string>): string {
    if header.Some? then header.value else ""
  }

  /** `authHeader.startsWith('Bearer ') ? authHeader.substring(7) : null` */
  function BearerToken(header: Option<string>): (t: Option<string>)
    ensures t.Some? <==> StartsWith(HeaderText(header), BearerPrefix)
    ensures t.Some? ==> BearerPrefix + t.value == HeaderText(header)
  {
    var h := HeaderText(header);
    if StartsWith(h, BearerPrefix) then
      assert h == h[..7] + h[7..];
      Some(h[7..])
    else None
  }

  /** The guard of the token-protected routes: `if (!token)` answers 401 Unauthorized. */
  function Authorize(header: Option<string>): (r: Result<string, Reply>)
    ensures r.Ok? <==> header.Some? && StartsWith(header.value, BearerPrefix) && |header.value| > |BearerPrefix|
    ensures r.Ok? ==> r.value != "" && header == Some(BearerPrefix + r.value)
    ensures r.Err? ==> r.error == Message(401, "Unauthorized")
  {
    var t := BearerToken(header);
    if t.Some? && t.value != "" then Ok(t.value) else Err(Message(401, "Unauthorized"))
  }

  /** A header built from a non-empty token gives that token back. */
  lemma {:induction false} AuthorizeBearer(t: string)
    requires t != ""
    ensures Authorize(Some(BearerPrefix + t)) == Ok(t)
  {
    assert (BearerPrefix + t)[..7] == BearerPrefix;
    assert (BearerPrefix + t)[7..] == t;
  }

  /** Without a header, with another scheme, or with "Bearer " alone, the route answers 401. */
  lemma {:induction false} AuthorizeRejects(header: Option<string>)
    requires header.None? || !StartsWith(header.value, BearerPrefix) || header.value == BearerPrefix
    ensures Authorize(header) == Err(Message(401, "Unauthorized"))
  {
    if header.Some? && header.value == BearerPrefix {
      assert header.value[7..] == "";
    }
  }

  // ---------------------------------------------------------------------------
  // registration

  /** `POST /request-email-otp`. `otp` is the drawn code and `mailSent` whether the mail went
      out; the record is stored before the mail is sent, so it stays when sending fails. */
  function RequestEmailOtp(db: Db, email: Option<string>, otp: string, mailSent: bool): (r: (Reply, Db))
    ensures Blank(email) ==> r == (Message(400, "Email is required."), db)
    ensures r.1.users == db.users
    ensures r.1 != db <==> !Blank(email) && FindByEmail(db.users, email.value).None?
    ensures r.1 != db ==> r.1.otps == db.otps + [OtpRecord(email.value, otp)]
    ensures r.0.Code() == 200 <==> !Blank(email) && FindByEmail(db.users, email.value).None? && mailSent
    ensures !Blank(email) && FindByEmail(db.users, email.value).Some? ==>
      r == (Message(400, "User with this email already exists."), db)
    ensures !Blank(email) && FindByEmail(db.users, email.value).None? ==>
      r.0 == (if mailSent then Message(200, "Verification code sent to your email.") else Message(500, SendFailed))
  {
    if Blank(email) then (Message(400, "Email is required."), db)
    else if FindByEmail(db.users, email.value).Some? then
      (Message(400, "User with this email already exists."), db)
    else
      var stored := db.(otps := db.otps + [OtpRecord(email.value, otp)]);
      assert |stored.otps| > |db.otps|;
      if mailSent then (Message(200, "Verification code sent to your email."), stored)
      else (Message(500, SendFailed), stored)
  }

  /** The fields of the registration form; the password is the body's value as sent. */
  datatype Registration = Registration(name: Value, email: string, password: Value,
                                       mobile: Value, place: Value, otp: string)

  /** `v.length < n` on a body value: a string's or an array's length, or an object's numeric
      `length` property. Anything else has no length, and `undefined < n` is false. */
  predicate ShorterThan(v: Value, n: nat) {
    match v
    case Str(t) => |t| < n
    case Arr(items) => |items| < n
    case Obj(_) => Get(v, "length").Num? && Get(v, "length").n < n
    case _ => false
  }

  /** `!password || password.length < 8` */
  predicate WeakPassword(password: Value)
    ensures password.Str? ==> (WeakPassword(password) <==> |password.s| < MinPasswordLength)
    ensures password.Num? || password.Bool? || password.NaN? ==> (WeakPassword(password) <==> !Truthy(password))
  {
    !Truthy(password) || ShorterThan(password, MinPasswordLength)
  }

  /** `String(n)` for an integer. */
  function IntText(n: int): (t: string)
    ensures n >= 0 ==> t == NatToDecimal(n)
    ensures n < 0 ==> t == "-" + NatToDecimal(-n)
  {
    if n < 0 then "-" + NatToDecimal(-n) else NatToDecimal(n)
  }

  /** Mongoose's cast of a value to a `String` path: a string stays, a number or a boolean
      becomes its text, an object with a non-empty string `_id` becomes that id; arrays and
      other objects fail the cast (`None`), and so do `null` and `undefined`, which a required
      path refuses. */
  function StringCast(v: Value): (r: Option<string>)
    ensures v.Str? ==> r == Some(v.s)
    ensures v.Num? ==> r == Some(IntText(v.n))
    ensures v.Bool? ==> r == Some(if v.b then "true" else "false")
    ensures v.Arr? || v.Undef? || v.Null? ==> r.None?
  {
    match v
    case Str(t) => Some(t)
    case Num(n) => Some(IntText(n))
    case Bool(b) => Some(if b then "true" else "false")
    case NaN => Some("NaN")
    case Obj(fields) =>
      var id := Get(v, "_id");
      if id.Str? && id.s != "" then Some(id.s) else None
    case _ => None
  }

  /** A password that is not a string escapes the length rule and is stored as its text: `true`
      passes the rule and becomes the four-character password "true". */
  lemma {:induction false} NonStringPasswordPasses()
    ensures !WeakPassword(Bool(true)) && StringCast(Bool(true)) == Some("true")
    ensures |StringCast(Bool(true)).value| < MinPasswordLength
    ensures !WeakPassword(Num(1234)) && StringCast(Num(1234)).Some?
  {
  }

  /** `POST /verify-email-otp`. `created` says whether `User.create` succeeds on a password it
      can cast (schema validation beyond the cast and the unique e-mail index are not
      modelled) and `newId` is the id it assigns. A failed insert throws before the OTP records
      are deleted. */
  function VerifyEmailOtp(db: Db, reg: Registration, newId: string, created: bool): (r: (Reply, Db))
    ensures WeakPassword(reg.password) ==> r == (Message(400, PasswordRule), db)
    ensures !WeakPassword(reg.password) && !HasOtp(db.otps, reg.email, reg.otp) ==> r == (Message(400, BadCode), db)
    ensures (!WeakPassword(reg.password) && HasOtp(db.otps, reg.email, reg.otp)
             && !(created && StringCast(reg.password).Some?)) ==>
      r == (Message(500, "Server error during registration."), db)
    ensures r.0.Code() == 201 <==>
      !WeakPassword(reg.password) && HasOtp(db.otps, reg.email, reg.otp) && created && StringCast(reg.password).Some?
    ensures r.0.Code() != 201 ==> r.1 == db
    ensures r.0.Code() == 201 ==>
      && r.0 == Message(201, "Registration successful! Please log in.")
      && r.1.users == db.users + [User(newId, reg.email, StringCast(reg.password).value,
                                       map["name" := reg.name, "mobile" := reg.mobile, "place" := reg.place])]
      && r.1.otps == DeleteOtps(db.otps, reg.email)
      && forall o :: o in r.1.otps ==> o.email != reg.email
    ensures NoPasswordField(db) ==> NoPasswordField(r.1)
  {
    if WeakPassword(reg.password) then (Message(400, PasswordRule), db)
    else if !HasOtp(db.otps, reg.email, reg.otp) then (Message(400, BadCode), db)
    else if !created || StringCast(reg.password).None? then (Message(500, "Server error during registration."), db)
    else
      var user := User(newId, reg.email, StringCast(reg.password).value,
                       map["name" := reg.name, "mobile" := reg.mobile, "place" := reg.place]);
      (Message(201, "Registration successful! Please log in."),
       Db(db.users + [user], DeleteOtps(db.otps, reg.email)))
  }

  // ---------------------------------------------------------------------------
  // login

  /** The user object of the login reply: id, name, e-mail and `photo || ''`. */
  function LoginView(u: User): (v: map<string, Value>)
    ensures v.Keys == {"id", "name", "email", "photo"}
    ensures v["id"] == Str(u.id) && v["email"] == Str(u.email)
    ensures v["name"] == Get(Obj(u.profile), "name")
    ensures v["photo"] == Or(Get(Obj(u.profile), "photo"), Str(""))
  {
    map["id" := Str(u.id), "name" := Get(Obj(u.profile), "name"), "email" := Str(u.email),
        "photo" := Or(Get(Obj(u.profile), "photo"), Str(""))]
  }

  const LoginFailed: string := "Invalid email or password"

  /** `POST /login`: `password` is the body's field as sent, and `matches(entered, stored)` is
      `bcrypt.compare` on two strings. `bcrypt.compare` rejects an entered password that is not
      a string (absent included), and the catch answers 500. Only the first user with the
      e-mail is tried. */
  function Login(db: Db, email: string, password: Value, matches: (string, string) -> bool): (r: Reply)
    ensures r.LoggedIn? <==> exists i ::
      FindByEmail(db.users, email) == Some(i) && password.Str? && matches(password.s, db.users[i].password)
    ensures r.LoggedIn? ==> r.user == LoginView(db.users[FindByEmail(db.users, email).value])
    ensures FindByEmail(db.users, email).None? ==> r == Message(401, LoginFailed)
    ensures FindByEmail(db.users, email).Some? && !password.Str? ==> r == Message(500, "Server error during login.")
    ensures FindByEmail(db.users, email).Some? && password.Str? && !r.LoggedIn? ==> r == Message(401, LoginFailed)
  {
    match FindByEmail(db.users, email)
    case Some(i) =>
      if !password.Str? then Message(500, "Server error during login.")
      else if matches(password.s, db.users[i].password) then LoggedIn(LoginView(db.users[i]))
      else Message(401, LoginFailed)
    case None => Message(401, LoginFailed)
  }

  // ---------------------------------------------------------------------------
  // password reset

  /** `POST /request-password-reset-otp`: an unknown e-mail gets the same 200 as a known one,
      without a record. */
  function RequestPasswordResetOtp(db: Db, email: string, otp: string, mailSent: bool): (r: (Reply, Db))
    ensures r.1.users == db.users
    ensures FindByEmail(db.users, email).None? ==>
      r == (Message(200, "If an account with this email exists, a verification code has been sent."), db)
    ensures FindByEmail(db.users, email).Some? ==> r.1.otps == db.otps + [OtpRecord(email, otp)]
    ensures r.0.Code() == 200 <==> FindByEmail(db.users, email).None? || mailSent
    ensures FindByEmail(db.users, email).Some? ==>
      r.0 == (if mailSent then Message(200, "A verification code has been sent to your email.") else Message(500, SendFailed))
  {
    if FindByEmail(db.users, email).None? then
      (Message(200, "If an account with this email exists, a verification code has been sent."), db)
    else
      var stored := db.(otps := db.otps + [OtpRecord(email, otp)]);
      if mailSent then (Message(200, "A verification code has been sent to your email."), stored)
      else (Message(500, SendFailed), stored)
  }

  /** `POST /verify-password-reset-otp`. When the code matches but no user has the e-mail,
      reading `user._id` throws: 500, and the records stay. */
  function VerifyPasswordResetOtp(db: Db, email: string, otp: string): (r: (Reply, Db))
    ensures !HasOtp(db.otps, email, otp) ==> r == (Message(400, BadCode), db)
    ensures r.0.ResetGranted? <==> HasOtp(db.otps, email, otp) && FindByEmail(db.users, email).Some?
    ensures r.0.ResetGranted? ==>
      && r.0.userId == db.users[FindByEmail(db.users, email).value].id
      && r.1 == db.(otps := DeleteOtps(db.otps, email))
      && forall o :: o in r.1.otps ==> o.email != email
    ensures !r.0.ResetGranted? ==> r.1 == db
    ensures HasOtp(db.otps, email, otp) && FindByEmail(db.users, email).None? ==>
      r == (Message(500, "Server error during OTP verification."), db)
  {
    if !HasOtp(db.otps, email, otp) then (Message(400, BadCode), db)
    else
      match FindByEmail(db.users, email)
      case None => (Message(500, "Server error during OTP verification."), db)
      case Some(i) => (ResetGranted(db.users[i].id), db.(otps := DeleteOtps(db.otps, email)))
  }

  /** `POST /reset-password`: `verify(token)` is the user id of a valid reset token. The new
      password is stored as Mongoose casts it (its hashing is not modelled); a value it cannot
      cast makes `save` throw, and the catch answers like a bad token. */
  function ResetPassword(db: Db, token: Option<string>, password: Value,
                         verify: string -> Option<string>): (r: (Reply, Db))
    ensures Blank(token) || !Truthy(password) ==> r == (Message(400, "Missing information."), db)
    ensures !Blank(token) && Truthy(password) && ShorterThan(password, MinPasswordLength) ==>
      r == (Message(400, PasswordRule), db)
    ensures !Blank(token) && !WeakPassword(password) && verify(token.value).None? ==>
      r == (Message(400, "Invalid or expired token."), db)
    ensures !Blank(token) && !WeakPassword(password) && verify(token.value).Some? ==>
      match FindById(db.users, verify(token.value).value)
      case None => r == (Message(404, "User not found."), db)
      case Some(i) =>
        if StringCast(password).None? then r == (Message(400, "Invalid or expired token."), db)
        else r.0 == Message(200, "Password has been reset successfully.")
    ensures r.0.Code() == 200 <==>
      && !Blank(token) && !WeakPassword(password) && StringCast(password).Some?
      && verify(token.value).Some? && FindById(db.users, verify(token.value).value).Some?
    ensures r.0.Code() != 200 ==> r.1 == db
    ensures r.0.Code() == 200 ==>
      var i := FindById(db.users, verify(token.value).value).value;
      && |r.1.users| == |db.users| && r.1.otps == db.otps
      && r.1.users[i] == db.users[i].(password := StringCast(password).value)
      && forall j :: 0 <= j < |db.users| && j != i ==> r.1.users[j] == db.users[j]
    ensures NoPasswordField(db) ==> NoPasswordField(r.1)
  {
    if Blank(token) || !Truthy(password) then (Message(400, "Missing information."), db)
    else if ShorterThan(password, MinPasswordLength) then (Message(400, PasswordRule), db)
    else
      match verify(token.value)
      case None => (Message(400, "Invalid or expired token."), db)
      case Some(id) =>
        match FindById(db.users, id)
        case None => (Message(404, "User not found."), db)
        case Some(i) =>
          match StringCast(password)
          case None => (Message(400, "Invalid or expired token."), db)
          case Some(stored) =>
            (Message(200, "Password has been reset successfully."),
             db.(users := db.users[i := db.users[i].(password := stored)]))
  }

  // ---------------------------------------------------------------------------
  // profile

  /** `typeof photo === 'string' ? photo : ''` */
  function PhotoString(v: Value): (r: Value)
    ensures r.Str?
    ensures v.Str? ==> r == v
    ensures !v.Str? ==> r == Str("")
  {
    if v.Str? then v else Str("")
  }

  /** No stored document keeps a password among its other fields: the password lives in its
      own field, so removing that field (`select('-password')`) leaves none in a reply. */
  predicate NoPasswordField(db: Db) {
    forall u :: u in db.users ==> "password" !in u.profile
  }

  /** `user.toObject()` without the password: the other fields, the id and the e-mail. */
  function UserObject(u: User): (o: map<string, Value>)
    ensures o.Keys == u.profile.Keys + {"_id", "email"}
    ensures o["_id"] == Str(u.id) && o["email"] == Str(u.email)
    ensures forall k :: k in u.profile && k != "_id" && k != "email" ==> o[k] == u.profile[k]
    ensures "password" in o <==> "password" in u.profile
  {
    u.profile["_id" := Str(u.id)]["email" := Str(u.email)]
  }

  /** `GET /me`: the user object with its photo made a string. */
  function GetMe(db: Db, header: Option<string>, verify: string -> Option<string>): (r: Reply)
    ensures Authorize(header).Err? ==> r == Message(401, "Unauthorized")
    ensures Authorize(header).Ok? && verify(Authorize(header).value).None? ==> r == Message(401, "Invalid token")
    ensures r.Body? <==>
      && Authorize(header).Ok? && verify(Authorize(header).value).Some?
      && FindById(db.users, verify(Authorize(header).value).value).Some?
    ensures (Authorize(header).Ok? && verify(Authorize(header).value).Some?
             && FindById(db.users, verify(Authorize(header).value).value).None?) ==> r == Message(404, "User not found")
    ensures r.Body? ==>
      var u := db.users[FindById(db.users, verify(Authorize(header).value).value).value];
      && r.body.Obj? && r.body.fields.Keys == UserObject(u).Keys + {"photo"}
      && r.Code() == 200 && r.body.Obj?
      && "photo" in r.body.fields && r.body.fields["photo"].Str?
      && r.body.fields["photo"] == PhotoString(Get(Obj(u.profile), "photo"))
      && (forall k :: k in r.body.fields && k != "photo" ==> k in UserObject(u) && r.body.fields[k] == UserObject(u)[k])
      && (NoPasswordField(db) ==> "password" !in r.body.fields)
  {
    match Authorize(header)
    case Err(e) => e
    case Ok(token) =>
      match verify(token)
      case None => Message(401, "Invalid token")
      case Some(id) =>
        match FindById(db.users, id)
        case None => Message(404, "User not found")
        case Some(i) =>
          var obj := UserObject(db.users[i]);
          Body(200, Obj(obj["photo" := PhotoString(Get(Obj(obj), "photo"))]))
  }

  /** The whitelisted updates `keys` takes from the body: each key whose value is not
      `undefined`, with that value. */
  function UpdatesOf(body: map<string, Value>, keys: seq<string>): map<string, Value> {
    if |keys| == 0 then map[]
    else
      var u := UpdatesOf(body, keys[..|keys| - 1]);
      var k := keys[|keys| - 1];
      if Get(Obj(body), k) != Undef then u[k := body[k]] else u
  }

  lemma {:induction false} UpdatesOfSpec(body: map<string, Value>, keys: seq<string>)
    ensures forall k :: k in UpdatesOf(body, keys) <==> k in keys && k in body && body[k] != Undef
    ensures forall k :: k in UpdatesOf(body, keys) ==> UpdatesOf(body, keys)[k] == body[k]
  {
    if |keys| > 0 {
      var init := keys[..|keys| - 1];
      assert keys == init + [keys[|keys| - 1]];
      UpdatesOfSpec(body, init);
    }
  }

  /** The `updates` object of `PUT /me`. */
  function Updates(body: map<string, Value>): map<string, Value> {
    UpdatesOf(body, AllowedFields)
  }

  /** The update keys are the allowed ones the body defines, and their values are copied
      unchanged: the password, the e-mail and the photo are never updated here. */
  lemma {:induction false} UpdatesWhitelist(body: map<string, Value>)
    ensures forall k :: k in Updates(body) <==> k in AllowedFields && k in body && body[k] != Undef
    ensures forall k :: k in Updates(body) ==> Updates(body)[k] == body[k]
    ensures "password" !in Updates(body) && "email" !in Updates(body) && "photo" !in Updates(body)
  {
    UpdatesOfSpec(body, AllowedFields);
  }

  /** The `forEach` that fills `updates`. */
  method ProfileUpdates(body: map<string, Value>) returns (updates: map<string, Value>)
    ensures updates == Updates(body)
  {
    updates := map[];
    var i := 0;
    while i < |AllowedFields|
      invariant 0 <= i <= |AllowedFields|
      invariant updates == UpdatesOf(body, AllowedFields[..i])
    {
      var k := AllowedFields[i];
      assert AllowedFields[..i + 1][..i] == AllowedFields[..i];
      if Get(Obj(body), k) != Undef {
        updates := updates[k := body[k]];
      }
      i := i + 1;
    }
    assert AllowedFields[..i] == AllowedFields;
  }

  /** The user at `i` with `profile` as its other fields. */
  function WithProfile(db: Db, i: nat, profile: map<string, Value>): (d: Db)
    requires i < |db.users|
    ensures d.otps == db.otps && |d.users| == |db.users| && d.users[i].profile == profile
    ensures d.users[i].id == db.users[i].id && d.users[i].email == db.users[i].email
    ensures d.users[i].password == db.users[i].password
    ensures forall j :: 0 <= j < |db.users| && j != i ==> d.users[j] == db.users[j]
  {
    db.(users := db.users[i := db.users[i].(profile := profile)])
  }

  /** `PUT /me`: the token's user has its fields overridden by the updates and the reply is
      the updated user object; JSON `null` when no user has the id. */
  function UpdateMe(db: Db, header: Option<string>, body: map<string, Value>,
                    verify: string -> Option<string>): (r: (Reply, Db))
    ensures Authorize(header).Err? ==> r == (Message(401, "Unauthorized"), db)
    ensures Authorize(header).Ok? && verify(Authorize(header).value).None? ==> r == (Message(400, "Unable to update profile"), db)
    ensures Authorize(header).Ok? && verify(Authorize(header).value).Some? ==>
      var id := verify(Authorize(header).value).value;
      match FindById(db.users, id)
      case None => r == (Body(200, Null), db)
      case Some(i) =>
        var d := WithProfile(db, i, db.users[i].profile + Updates(body));
        r == (Body(200, Obj(UserObject(d.users[i]))), d)
    ensures r.1.otps == db.otps && |r.1.users| == |db.users|
    ensures forall j :: 0 <= j < |db.users| ==>
      && r.1.users[j].id == db.users[j].id && r.1.users[j].email == db.users[j].email
      && r.1.users[j].password == db.users[j].password
    ensures NoPasswordField(db) ==> NoPasswordField(r.1)
    ensures NoPasswordField(db) && r.0.Body? && r.0.body.Obj? ==> "password" !in r.0.body.fields
  {
    match Authorize(header)
    case Err(e) => (e, db)
    case Ok(token) =>
      match verify(token)
      case None => (Message(400, "Unable to update profile"), db)
      case Some(id) =>
        match FindById(db.users, id)
        case None => (Body(200, Null), db)
        case Some(i) =>
          UpdatesWhitelist(body);
          var d := WithProfile(db, i, db.users[i].profile + Updates(body));
          assert forall u :: u in d.users ==> u in db.users || u == d.users[i];
          (Body(200, Obj(UserObject(d.users[i]))), d)
  }

  /** `POST /me/photo`: the stored file becomes the token's user's photo, under the avatar
      directory, and the reply holds the path and the updated user (`null` when no user has
      the id). A token that does not verify answers 401, an upload error or a missing file
      400. */
  function UploadPhoto(db: Db, header: Option<string>, verify: string -> Option<string>, upload: Upload): (r: (Reply, Db))
    ensures Authorize(header).Err? ==> r == (Message(401, "Unauthorized"), db)
    ensures Authorize(header).Ok? && verify(Authorize(header).value).None? ==>
      r == (Message(401, "Invalid or expired token"), db)
    ensures Authorize(header).Ok? && verify(Authorize(header).value).Some? ==>
      match upload
      case UploadError(reason) => r == (Message(400, if reason != "" then reason else "Upload failed"), db)
      case NoFile => r == (Message(400, "No file uploaded"), db)
      case Stored(filename) =>
        var id := verify(Authorize(header).value).value;
        var path := Str(AvatarDir + filename);
        match FindById(db.users, id)
        case None => r == (Body(200, Obj(map["photo" := path, "user" := Null])), db)
        case Some(i) =>
          var d := WithProfile(db, i, db.users[i].profile["photo" := path]);
          r == (Body(200, Obj(map["photo" := path, "user" := Obj(UserObject(d.users[i]))])), d)
    ensures r.1.otps == db.otps && |r.1.users| == |db.users|
    ensures r.1 != db ==> upload.Stored?
    ensures NoPasswordField(db) ==> NoPasswordField(r.1)
  {
    match Authorize(header)
    case Err(e) => (e, db)
    case Ok(token) =>
      match verify(token)
      case None => (Message(401, "Invalid or expired token"), db)
      case Some(id) =>
        match upload
        case UploadError(reason) => (Message(400, if reason != "" then reason else "Upload failed"), db)
        case NoFile => (Message(400, "No file uploaded"), db)
        case Stored(filename) =>
          var path := AvatarDir + filename;
          match FindById(db.users, id)
          case None => (Body(200, Obj(map["photo" := Str(path), "user" := Null])), db)
          case Some(i) =>
            var d := WithProfile(db, i, db.users[i].profile["photo" := Str(path)]);
            assert forall u :: u in d.users ==> u in db.users || u == d.users[i];
            (Body(200, Obj(map["photo" := Str(path), "user" := Obj(UserObject(d.users[i]))])), d)
  }
}

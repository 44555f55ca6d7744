/**
 * Credentials: the next-auth `authorize` check and its token and session
 * callbacks, the login and administrator-login routes, the registration
 * route and the registration form. Users are a map from e-mail address to
 * record; password hashing and comparison are parameters.
 */
module Auth {
  import opened Js

  /** A stored user; `password` is the stored hash, `None` when the user has none. */
  datatype User = User(
    id: string, email: string, name: Option<string>, role: string, image: Option<string>,
    password: Option<string>, lastName: Option<string>, firstName: Option<string>, phone: Option<string>)

  type Users = map<string, User>

  /** `bcrypt.compare(plain, hash)`. */
  type PasswordCheck = (string, string) -> bool

  /** A user record without its password field. */
  datatype PublicUser = PublicUser(
    id: string, email: string, name: Option<string>, role: string, image: Option<string>,
    lastName: Option<string>, firstName: Option<string>, phone: Option<string>)

  function WithoutPassword(u: User): (p: PublicUser)
    ensures p.id == u.id && p.email == u.email && p.name == u.name && p.role == u.role && p.image == u.image
    ensures p.lastName == u.lastName && p.firstName == u.firstName && p.phone == u.phone
  {
    PublicUser(u.id, u.email, u.name, u.role, u.image, u.lastName, u.firstName, u.phone)
  }

  const MissingCredentials := "メールアドレスとパスワードを入力してください"
  const BadCredentials := "メールアドレスまたはパスワードが正しくありません"
  const NoPasswordSet := "パスワードが設定されていません"

  // ---------------------------------------------------------------------
  // authorize and the callbacks
  // ---------------------------------------------------------------------

  /** The user handed to next-auth by `authorize`. */
  datatype AuthUser = AuthUser(id: string, email: string, name: Option<string>, role: string, image: Option<string>)

  datatype Authorization = Refused(message: string) | Authorized(user: AuthUser)

  /**
   * `authorize`: both credentials are required; then the user must exist,
   * have a password and match it. Unknown users and wrong passwords get
   * the same message.
   */
  function Authorize(email: Option<string>, password: Option<string>, users: Users, check: PasswordCheck): (r: Authorization)
    ensures !TruthyText(email) || !TruthyText(password) ==> r == Refused(MissingCredentials)
    ensures TruthyText(email) && TruthyText(password) && email.value !in users ==> r == Refused(BadCredentials)
    ensures r.Authorized? <==>
              && TruthyText(email) && TruthyText(password) && email.value in users
              && TruthyText(users[email.value].password)
              && check(password.value, users[email.value].password.value)
    ensures r.Authorized? ==>
              var u := users[email.value];
              r.user == AuthUser(u.id, u.email, u.name, u.role, u.image)
  {
    if !TruthyText(email) || !TruthyText(password) then Refused(MissingCredentials)
    else if email.value !in users then Refused(BadCredentials)
    else
      var u := users[email.value];
      if !TruthyText(u.password) then Refused(NoPasswordSet)
      else if !check(password.value, u.password.value) then Refused(BadCredentials)
      else Authorized(AuthUser(u.id, u.email, u.name, u.role, u.image))
  }

  /** An unknown e-mail and a wrong password cannot be told apart; a user without password can. */
  lemma AuthorizeMessages(email: string, password: string, users: Users, check: PasswordCheck)
    requires email != "" && password != ""
    ensures email !in users ==> Authorize(Some(email), Some(password), users, check) == Refused(BadCredentials)
    ensures email in users && TruthyText(users[email].password) && !check(password, users[email].password.value) ==>
              Authorize(Some(email), Some(password), users, check) == Refused(BadCredentials)
    ensures email in users && !TruthyText(users[email].password) ==>
              Authorize(Some(email), Some(password), users, check) == Refused(NoPasswordSet)
    ensures BadCredentials != NoPasswordSet
  {
    assert BadCredentials[0] != NoPasswordSet[0];
  }

  /** `authorize` never looks at the role: changing it changes only the role handed on. */
  lemma AuthorizeIgnoresRole(email: Option<string>, password: Option<string>, users: Users, check: PasswordCheck, role: string)
    requires email.Some? && email.value in users
    ensures var users' := users[email.value := users[email.value].(role := role)];
            && (Authorize(email, password, users, check).Authorized? <==> Authorize(email, password, users', check).Authorized?)
            && (Authorize(email, password, users, check).Authorized? ==>
                  Authorize(email, password, users', check).user == Authorize(email, password, users, check).user.(role := role))
  {
  }

  /** The JWT: role and id as copied from the signed-in user. */
  datatype Jwt = Jwt(role: Option<string>, id: Option<string>)

  /** The `jwt` callback: only a sign-in (a user present) writes role and id. */
  function JwtCallback(token: Jwt, user: Option<AuthUser>): (t: Jwt)
    ensures user.None? ==> t == token
    ensures user.Some? ==> t.role == Some(user.value.role) && t.id == Some(user.value.id)
  {
    match user
    case None => token
    case Some(u) => Jwt(Some(u.role), Some(u.id))
  }

  /** The user of a session as exposed to pages. */
  datatype SessionUser = SessionUser(email: Option<string>, name: Option<string>, id: Option<string>, role: Option<string>)

  /** The `session` callback: a session user receives the token's id and role. */
  function SessionCallback(user: Option<SessionUser>, token: Jwt): (s: Option<SessionUser>)
    ensures user.None? <==> s.None?
    ensures s.Some? ==> s.value.id == token.id && s.value.role == token.role
    ensures s.Some? ==> s.value.email == user.value.email && s.value.name == user.value.name
  {
    match user
    case None => None
    case Some(u) => Some(u.(id := token.id, role := token.role))
  }

  /** After a sign-in, the session carries the signed-in user's id and role, whatever later refreshes do. */
  lemma SessionCarriesSignedInUser(token: Jwt, u: AuthUser, refreshes: nat, su: SessionUser)
    ensures var t := Refresh(JwtCallback(token, Some(u)), refreshes);
            SessionCallback(Some(su), t) == Some(su.(id := Some(u.id), role := Some(u.role)))
  {
  }

  /** Later calls of the `jwt` callback, which carry no user. */
  function Refresh(token: Jwt, n: nat): (t: Jwt)
    ensures t == token
  {
    if n == 0 then token else Refresh(JwtCallback(token, None), n - 1)
  }

  // ---------------------------------------------------------------------
  // The login routes
  // ---------------------------------------------------------------------

  datatype LoginResponse =
    | LoginError(status: int, message: string)
    | LoggedIn(user: PublicUser)

  const LoginFailed := "ログインに失敗しました"

  /**
   * POST /api/auth/login. A user without a stored password makes the hash
   * comparison throw, which the route reports as a 500.
   */
  function Login(email: Option<string>, password: Option<string>, users: Users, check: PasswordCheck): (r: LoginResponse)
    ensures !TruthyText(email) || !TruthyText(password) ==> r == LoginError(400, MissingCredentials)
    ensures TruthyText(email) && TruthyText(password) && email.value !in users ==> r == LoginError(401, BadCredentials)
    ensures r.LoggedIn? <==>
              && TruthyText(email) && TruthyText(password) && email.value in users
              && users[email.value].password.Some?
              && check(password.value, users[email.value].password.value)
    ensures r.LoggedIn? ==> r.user == WithoutPassword(users[email.value])
    ensures r.LoginError? && r.status == 401 ==> r.message == BadCredentials
  {
    if !TruthyText(email) || !TruthyText(password) then LoginError(400, MissingCredentials)
    else if email.value !in users then LoginError(401, BadCredentials)
    else
      var u := users[email.value];
      if u.password.None? then LoginError(500, LoginFailed)
      else if !check(password.value, u.password.value) then LoginError(401, BadCredentials)
      else LoggedIn(WithoutPassword(u))
  }

  datatype AdminLoginResponse =
    | AdminLoginError(status: int, message: string)
    | AdminLoggedIn(admin: PublicUser)

  /** POST /api/auth/admin/login: like the login route, with the role checked before the password. */
  function AdminLogin(email: Option<string>, password: Option<string>, users: Users, check: PasswordCheck): (r: AdminLoginResponse)
    ensures !TruthyText(email) || !TruthyText(password) ==> r == AdminLoginError(400, MissingCredentials)
    ensures TruthyText(email) && TruthyText(password) && email.value !in users ==> r == AdminLoginError(401, BadCredentials)
    ensures TruthyText(email) && TruthyText(password) && email.value in users && users[email.value].role != "admin" ==>
              r == AdminLoginError(403, "管理者権限がありません")
    ensures r.AdminLoggedIn? <==>
              && TruthyText(email) && TruthyText(password) && email.value in users
              && users[email.value].role == "admin"
              && users[email.value].password.Some?
              && check(password.value, users[email.value].password.value)
    ensures r.AdminLoggedIn? ==> r.admin == WithoutPassword(users[email.value]) && r.admin.role == "admin"
  {
    if !TruthyText(email) || !TruthyText(password) then AdminLoginError(400, MissingCredentials)
    else if email.value !in users then AdminLoginError(401, BadCredentials)
    else
      var u := users[email.value];
      if u.role != "admin" then AdminLoginError(403, "管理者権限がありません")
      else if u.password.None? then AdminLoginError(500, LoginFailed)
      else if !check(password.value, u.password.value) then AdminLoginError(401, BadCredentials)
      else AdminLoggedIn(WithoutPassword(u))
  }

  /**
   * A non-admin gets 403 from the admin login whatever password is tried,
   * so the response tells that the account exists without checking the
   * password.
   */
  lemma AdminLoginRoleBeforePassword(email: string, p1: string, p2: string, users: Users, check: PasswordCheck)
    requires email != "" && p1 != "" && p2 != ""
    requires email in users && users[email].role != "admin"
    ensures AdminLogin(Some(email), Some(p1), users, check) == AdminLogin(Some(email), Some(p2), users, check)
    ensures AdminLogin(Some(email), Some(p1), users, check).status == 403
  {
  }

  /** Whoever the admin login lets in, the plain login lets in too. */
  lemma AdminLoginImpliesLogin(email: Option<string>, password: Option<string>, users: Users, check: PasswordCheck)
    requires AdminLogin(email, password, users, check).AdminLoggedIn?
    ensures Login(email, password, users, check) == LoggedIn(AdminLogin(email, password, users, check).admin)
  {
  }

  // ---------------------------------------------------------------------
  // Registration
  // ---------------------------------------------------------------------

  /** The fields of the registration body; `None` is absent. */
  datatype RegisterBody = RegisterBody(
    email: Option<string>, password: Option<string>, name: Option<string>,
    lastName: Option<string>, firstName: Option<string>, phone: Option<string>)

  /** The fields returned by the registration route: never the password. */
  datatype Registered = Registered(id: string, email: string, name: string,
                                   lastName: Option<string>, firstName: Option<string>, phone: Option<string>)

  datatype RegisterResponse =
    | RegisterError(status: int, message: string)
    | Created(user: Registered)

  const MinPasswordLength := 6

  /**
   * POST /api/auth/register, with the new user's id and the hash function
   * as parameters: required fields, then password length, then the
   * duplicate check; empty optional fields are stored as null.
   */
  function Register(body: RegisterBody, users: Users, newId: string, hash: string -> string): (r: (Users, RegisterResponse))
    ensures !TruthyText(body.email) || !TruthyText(body.password) || !TruthyText(body.name) ==>
              r == (users, RegisterError(400, "メールアドレス、パスワード、名前は必須です"))
    ensures TruthyText(body.email) && TruthyText(body.password) && TruthyText(body.name) && |body.password.value| < MinPasswordLength ==>
              r == (users, RegisterError(400, "パスワードは6文字以上である必要があります"))
    ensures TruthyText(body.email) && TruthyText(body.password) && TruthyText(body.name) && |body.password.value| >= MinPasswordLength &&
            body.email.value in users ==>
              r == (users, RegisterError(400, "このメールアドレスは既に登録されています"))
    ensures r.1.RegisterError? ==> r.0 == users
    ensures r.1.Created? <==>
              TruthyText(body.email) && TruthyText(body.password) && TruthyText(body.name) &&
              |body.password.value| >= MinPasswordLength && body.email.value !in users
    ensures r.1.Created? ==>
              && r.0.Keys == users.Keys + {body.email.value}
              && (forall e :: e in users ==> r.0[e] == users[e])
              && r.0[body.email.value].password == Some(hash(body.password.value))
              && r.0[body.email.value].role == "user"
              && r.0[body.email.value].lastName == NullableOrNull(body.lastName)
              && r.0[body.email.value].firstName == NullableOrNull(body.firstName)
              && r.0[body.email.value].phone == NullableOrNull(body.phone)
              && r.1.user == Registered(newId, body.email.value, body.name.value,
                                        NullableOrNull(body.lastName), NullableOrNull(body.firstName), NullableOrNull(body.phone))
  {
    if !TruthyText(body.email) || !TruthyText(body.password) || !TruthyText(body.name) then
      (users, RegisterError(400, "メールアドレス、パスワード、名前は必須です"))
    else if |body.password.value| < MinPasswordLength then
      (users, RegisterError(400, "パスワードは6文字以上である必要があります"))
    else if body.email.value in users then
      (users, RegisterError(400, "このメールアドレスは既に登録されています"))
    else
      var e := body.email.value;
      var u := User(newId, e, Some(body.name.value), "user", None, Some(hash(body.password.value)),
                    NullableOrNull(body.lastName), NullableOrNull(body.firstName), NullableOrNull(body.phone));
      (users[e := u], Created(Registered(newId, e, body.name.value, u.lastName, u.firstName, u.phone)))
  }

  /** A password of exactly six characters is long enough. */
  lemma SixCharactersAccepted(body: RegisterBody, users: Users, newId: string, hash: string -> string)
    requires TruthyText(body.email) && TruthyText(body.name) && body.password == Some("abcdef")
    requires body.email.value !in users
    ensures Register(body, users, newId, hash).1.Created?
  {
  }

  /**
   * A user who has just registered can log in with the same password,
   * through the login route and through `authorize`, as the registration
   * page does right after registering.
   */
  lemma RegisteredUserCanLogIn(body: RegisterBody, users: Users, newId: string, hash: string -> string, check: PasswordCheck)
    requires Register(body, users, newId, hash).1.Created?
    requires forall p :: check(p, hash(p)) && hash(p) != ""
    ensures Login(body.email, body.password, Register(body, users, newId, hash).0, check).LoggedIn?
    ensures Authorize(body.email, body.password, Register(body, users, newId, hash).0, check) ==
              Authorized(AuthUser(newId, body.email.value, body.name, "user", None))
  {
  }

  /** Registering twice with the same e-mail fails the second time and changes nothing. */
  lemma RegisterTwiceRejected(body: RegisterBody, users: Users, id1: string, id2: string, hash: string -> string)
    requires Register(body, users, id1, hash).1.Created?
    ensures var users1 := Register(body, users, id1, hash).0;
            Register(body, users1, id2, hash) == (users1, RegisterError(400, "このメールアドレスは既に登録されています"))
  {
  }

  // ---------------------------------------------------------------------
  // The registration form
  // ---------------------------------------------------------------------

  datatype Form = Form(email: string, password: string, confirmPassword: string, name: string,
                       lastName: string, firstName: string, phone: string)

  datatype FormOutcome = FormError(message: string) | Send(body: RegisterBody)

  /** `handleSubmit`: the passwords must match, then be six characters long; empty optional fields are left out. */
  function SubmitRegistration(f: Form): (r: FormOutcome)
    ensures f.password != f.confirmPassword ==> r == FormError("パスワードが一致しません")
    ensures f.password == f.confirmPassword && |f.password| < MinPasswordLength ==>
              r == FormError("パスワードは6文字以上である必要があります")
    ensures r.Send? <==> f.password == f.confirmPassword && |f.password| >= MinPasswordLength
    ensures r.Send? ==> r.body.email == Some(f.email) && r.body.password == Some(f.password) && r.body.name == Some(f.name)
    ensures r.Send? ==> r.body.lastName == OrNull(f.lastName) && r.body.firstName == OrNull(f.firstName) && r.body.phone == OrNull(f.phone)
  {
    if f.password != f.confirmPassword then FormError("パスワードが一致しません")
    else if |f.password| < MinPasswordLength then FormError("パスワードは6文字以上である必要があります")
    else Send(RegisterBody(Some(f.email), Some(f.password), Some(f.name), OrNull(f.lastName), OrNull(f.firstName), OrNull(f.phone)))
  }

  /** A form the page sends never fails the route's password-length check. */
  lemma FormPasswordPassesRoute(f: Form, users: Users, newId: string, hash: string -> string)
    requires SubmitRegistration(f).Send?
    requires f.email != "" && f.name != "" && f.email !in users
    ensures Register(SubmitRegistration(f).body, users, newId, hash).1.Created?
  {
  }

  /** The optional fields the page leaves out are stored as null, just as empty ones would be. */
  lemma OmittedFieldsStoredAsNull(f: Form, users: Users, newId: string, hash: string -> string)
    requires SubmitRegistration(f).Send?
    requires f.email != "" && f.name != "" && f.email !in users
    ensures var r := Register(SubmitRegistration(f).body, users, newId, hash);
            && r.1.user.lastName == OrNull(f.lastName)
            && r.1.user.firstName == OrNull(f.firstName)
            && r.1.user.phone == OrNull(f.phone)
  {
  }
}

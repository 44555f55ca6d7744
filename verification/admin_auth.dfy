/**
 * The administrator checks used by the admin API routes. The session
 * lookup is an input: it threw, found no signed-in user, or found one.
 */
module AdminAuth {
  import opened Js

  /** The user of a next-auth session; `None` fields were not set. */
  datatype SessionUser = SessionUser(id: string, email: Option<string>, name: Option<string>, role: Option<string>)

  /** The outcome of `getServerSession`. */
  datatype SessionLookup = LookupThrew | NoSessionUser | Session(user: SessionUser)

  datatype Admin = Admin(id: string, email: string, name: string, role: string)

  /** What `verifyAdmin` returns: an error response, or the admin with no error. */
  datatype Verified = VerifyError(status: int, message: string) | VerifiedAdmin(admin: Admin)

  predicate IsAdminUser(u: SessionUser) {
    u.role == Some("admin")
  }

  /** The admin record built from an admin's session: missing email and name become "". */
  function AdminOf(u: SessionUser): (a: Admin)
    requires IsAdminUser(u)
    ensures a.id == u.id && a.role == "admin"
    ensures a.email == (if TruthyText(u.email) then u.email.value else "")
    ensures a.name == (if TruthyText(u.name) then u.name.value else "")
  {
    Admin(u.id, if TruthyText(u.email) then u.email.value else "", if TruthyText(u.name) then u.name.value else "", "admin")
  }

  /** `verifyAdmin`: 401 without a user, 403 for any other role, 500 when the lookup throws. */
  function VerifyAdmin(s: SessionLookup): (r: Verified)
    ensures s.LookupThrew? ==> r == VerifyError(500, "認証エラーが発生しました")
    ensures s.NoSessionUser? ==> r == VerifyError(401, "認証が必要です。ログインしてください。")
    ensures s.Session? && !IsAdminUser(s.user) ==> r == VerifyError(403, "管理者権限が必要です")
    ensures r.VerifiedAdmin? <==> s.Session? && IsAdminUser(s.user)
    ensures r.VerifiedAdmin? ==> r.admin.id == s.user.id && r.admin.role == "admin"
  {
    match s
    case LookupThrew => VerifyError(500, "認証エラーが発生しました")
    case NoSessionUser => VerifyError(401, "認証が必要です。ログインしてください。")
    case Session(u) =>
      if !IsAdminUser(u) then VerifyError(403, "管理者権限が必要です")
      else VerifiedAdmin(AdminOf(u))
  }

  /** What `isAdminAuthenticated` returns. */
  datatype Authentication = NotAuthenticated(status: int, message: string) | Authenticated(admin: Admin)

  /** `isAdminAuthenticated`: like `verifyAdmin`, but a failed lookup is a 401. */
  function IsAdminAuthenticated(s: SessionLookup): (r: Authentication)
    ensures r.Authenticated? <==> s.Session? && IsAdminUser(s.user)
    ensures s.LookupThrew? ==> r == NotAuthenticated(401, "認証情報の解析に失敗しました")
    ensures s.NoSessionUser? ==> r == NotAuthenticated(401, "認証情報がありません")
    ensures s.Session? && !IsAdminUser(s.user) ==> r == NotAuthenticated(403, "管理者権限が必要です")
  {
    match s
    case LookupThrew => NotAuthenticated(401, "認証情報の解析に失敗しました")
    case NoSessionUser => NotAuthenticated(401, "認証情報がありません")
    case Session(u) =>
      if !IsAdminUser(u) then NotAuthenticated(403, "管理者権限が必要です")
      else Authenticated(AdminOf(u))
  }

  /**
   * The two checks accept the same sessions and build the same admin
   * record; they disagree only on the status of a failed lookup (500
   * versus 401).
   */
  lemma ChecksAgree(s: SessionLookup)
    ensures VerifyAdmin(s).VerifiedAdmin? <==> IsAdminAuthenticated(s).Authenticated?
    ensures VerifyAdmin(s).VerifiedAdmin? ==> VerifyAdmin(s).admin == IsAdminAuthenticated(s).admin
    ensures !s.LookupThrew? && VerifyAdmin(s).VerifyError? ==> VerifyAdmin(s).status == IsAdminAuthenticated(s).status
    ensures s.LookupThrew? ==> VerifyAdmin(s).status == 500 && IsAdminAuthenticated(s).status == 401
  {
  }
}

/**
 * The audit-log listing route: after the administrator check it clamps
 * `limit` and `offset`, validates the two e-mail filters, checks `action`
 * and `targetType` against whitelists and builds the filter handed to the
 * database. The query itself is not modelled; the route's answer is the
 * filter with the page bounds.
 */
module AuditLogQuery {
  import opened Js
  import AdminAuth
  import AuditLog

  /** The search parameters read; `None` is an absent parameter. */
  datatype Query = Query(
    action: Option<string>, targetType: Option<string>, targetEmail: Option<string>,
    performedByEmail: Option<string>, limit: Option<string>, offset: Option<string>)

  /** The filter: exact matches on action and type, substring matches on the e-mails. */
  datatype Filter = Filter(
    action: Option<string>, targetType: Option<string>,
    targetEmailContains: Option<string>, performedByEmailContains: Option<string>)

  datatype Response =
    | Rejected(status: int, message: string)
    | Listing(filter: Filter, limit: int, offset: int)

  const AllowedActions: seq<string> := ["delete", "suspend", "activate", "update"]
  const AllowedTargetTypes: seq<string> := ["user", "order", "product", "stylist"]
  const MaxEmailLength := 255

  /** The text read for a numeric parameter: the value when non-empty, else the default. */
  function ParamOr(raw: Option<string>, default: string): (s: string)
    ensures TruthyText(raw) ==> s == raw.value
    ensures !TruthyText(raw) ==> s == default
  {
    if TruthyText(raw) then raw.value else default
  }

  /**
   * `Math.min(Math.max(parseInt(limit || "100") || 100, 1), 1000)`: NaN and
   * 0 fall back to 100, anything else is clamped into 1..1000.
   */
  function Limit(raw: Option<string>): (n: int)
    ensures 1 <= n <= 1000
    ensures ParseInt(ParamOr(raw, "100"), true) in {None, Some(0)} ==> n == 100
    ensures ParseInt(ParamOr(raw, "100"), true).Some? && 1 <= ParseInt(ParamOr(raw, "100"), true).value <= 1000 ==>
              n == ParseInt(ParamOr(raw, "100"), true).value
    ensures ParseInt(ParamOr(raw, "100"), true).Some? && ParseInt(ParamOr(raw, "100"), true).value < 0 ==> n == 1
    ensures ParseInt(ParamOr(raw, "100"), true).Some? && ParseInt(ParamOr(raw, "100"), true).value > 1000 ==> n == 1000
  {
    var parsed := ParseInt(ParamOr(raw, "100"), true);
    var v := if parsed.None? || parsed.value == 0 then 100 else parsed.value;
    if v < 1 then 1 else if v > 1000 then 1000 else v
  }

  /** `Math.max(parseInt(offset || "0") || 0, 0)`: NaN and negative values become 0. */
  function Offset(raw: Option<string>): (n: int)
    ensures n >= 0
    ensures ParseInt(ParamOr(raw, "0"), true).None? ==> n == 0
    ensures ParseInt(ParamOr(raw, "0"), true).Some? ==>
              n == (if ParseInt(ParamOr(raw, "0"), true).value < 0 then 0 else ParseInt(ParamOr(raw, "0"), true).value)
  {
    var parsed := ParseInt(ParamOr(raw, "0"), true);
    var v := if parsed.None? then 0 else parsed.value;
    if v < 0 then 0 else v
  }

  /** A missing limit is 100. */
  lemma MissingLimitIsHundred()
    ensures Limit(None) == 100
    ensures Limit(Some("")) == 100
  {
    HundredParses();
    assert ParseInt(ParamOr(None, "100"), true) == Some(100);
    assert ParseInt(ParamOr(Some(""), "100"), true) == Some(100);
  }

  lemma HundredParses()
    ensures ParseInt("100", true) == Some(100)
  {
    ParseIntOfDigits("100", true);
    assert "10"[..1] == "1" && "100"[..2] == "10";
    assert DigitsValue("100", 10) == 100;
  }

  /** A missing offset is 0. */
  lemma MissingOffsetIsZero()
    ensures Offset(None) == 0
  {
    ParseIntZero(true);
    assert ParseInt(ParamOr(None, "0"), true) == Some(0);
  }

  /** A non-empty e-mail filter that, once trimmed, is too long or is not shaped like an address. */
  predicate BadEmail(raw: Option<string>) {
    TruthyText(raw) && (|Trim(raw.value)| > MaxEmailLength || !MatchesEmailPattern(Trim(raw.value)))
  }

  /** The substring filter for a non-empty e-mail parameter: its trimmed text. */
  function EmailFilter(raw: Option<string>): (f: Option<string>)
    ensures f.Some? <==> TruthyText(raw)
    ensures f.Some? ==> f.value == Trim(raw.value)
  {
    if TruthyText(raw) then Some(Trim(raw.value)) else None
  }

  /**
   * POST /api/admin/audit-logs with the outcome of the session lookup. The
   * checks run in order: administrator, target e-mail, performer e-mail,
   * action, target type.
   */
  function ListAuditLogs(session: AdminAuth.SessionLookup, q: Query): (r: Response)
    ensures AdminAuth.VerifyAdmin(session).VerifyError? ==>
              r == Rejected(AdminAuth.VerifyAdmin(session).status, AdminAuth.VerifyAdmin(session).message)
    ensures AdminAuth.VerifyAdmin(session).VerifiedAdmin? && (BadEmail(q.targetEmail) || BadEmail(q.performedByEmail)) ==>
              r == Rejected(400, "無効なメールアドレス形式です")
    ensures r.Listing? <==>
              && AdminAuth.VerifyAdmin(session).VerifiedAdmin?
              && !BadEmail(q.targetEmail) && !BadEmail(q.performedByEmail)
              && (!TruthyText(q.action) || q.action.value in AllowedActions)
              && (!TruthyText(q.targetType) || q.targetType.value in AllowedTargetTypes)
    ensures r.Rejected? && AdminAuth.VerifyAdmin(session).VerifiedAdmin? ==> r.status == 400
    ensures r.Listing? ==> 1 <= r.limit <= 1000 && r.offset >= 0
    ensures r.Listing? ==> (r.filter.action.Some? <==> TruthyText(q.action))
    ensures r.Listing? ==> (r.filter.targetType.Some? <==> TruthyText(q.targetType))
    ensures r.Listing? && r.filter.action.Some? ==> r.filter.action == q.action
    ensures r.Listing? && r.filter.targetType.Some? ==> r.filter.targetType == q.targetType
    ensures r.Listing? ==> r.filter.targetEmailContains == EmailFilter(q.targetEmail)
    ensures r.Listing? ==> r.filter.performedByEmailContains == EmailFilter(q.performedByEmail)
  {
    var auth := AdminAuth.VerifyAdmin(session);
    if auth.VerifyError? then Rejected(auth.status, auth.message)
    else if BadEmail(q.targetEmail) || BadEmail(q.performedByEmail) then Rejected(400, "無効なメールアドレス形式です")
    else if TruthyText(q.action) && q.action.value !in AllowedActions then Rejected(400, "無効な操作種別です")
    else if TruthyText(q.targetType) && q.targetType.value !in AllowedTargetTypes then Rejected(400, "無効な対象タイプです")
    else
      var action := if TruthyText(q.action) then q.action else None;
      var targetType := if TruthyText(q.targetType) then q.targetType else None;
      Listing(Filter(action, targetType, EmailFilter(q.targetEmail), EmailFilter(q.performedByEmail)),
              Limit(q.limit), Offset(q.offset))
  }

  /** The action whitelist is exactly the set of recorded actions. */
  lemma ActionWhitelistMatchesActions(n: string)
    ensures n in AllowedActions <==> exists a: AuditLog.AuditAction :: AuditLog.ActionName(a) == n
  {
    if n in AllowedActions {
      AuditLog.ActionNamesCovered(n);
    }
  }

  /**
   * The target-type whitelist lacks "inquiry", although the library records
   * it: a listing filtered by type "inquiry" is always refused.
   */
  lemma InquiryTypeRejected(session: AdminAuth.SessionLookup, q: Query)
    requires AdminAuth.VerifyAdmin(session).VerifiedAdmin?
    requires q.targetType == Some("inquiry")
    ensures "inquiry" == AuditLog.TargetTypeName(AuditLog.Inquiry)
    ensures ListAuditLogs(session, q).Rejected?
    ensures ListAuditLogs(session, q).status == 400
  {
    InquiryNotAllowed();
  }

  lemma InquiryNotAllowed()
    ensures "inquiry" !in AllowedTargetTypes
  {
    var w := AllowedTargetTypes;
    assert w[0][0] == 'u' && w[1][0] == 'o' && w[2][0] == 'p' && w[3][0] == 's';
    assert "inquiry"[0] == 'i';
  }

  /** Every other recorded target type passes the whitelist. */
  lemma OtherTargetTypesAllowed(t: AuditLog.TargetType)
    ensures AuditLog.TargetTypeName(t) in AllowedTargetTypes <==> t != AuditLog.Inquiry
  {
  }

  /** A bad e-mail is reported even when the action is not allowed either: e-mails are checked first. */
  lemma EmailCheckedBeforeWhitelists(session: AdminAuth.SessionLookup, q: Query)
    requires AdminAuth.VerifyAdmin(session).VerifiedAdmin?
    requires BadEmail(q.targetEmail)
    requires q.action == Some("drop")
    ensures ListAuditLogs(session, q) == Rejected(400, "無効なメールアドレス形式です")
  {
  }

  /** Without an administrator no parameter is looked at. */
  lemma AuthenticationFirst(session: AdminAuth.SessionLookup, q: Query, q': Query)
    requires AdminAuth.VerifyAdmin(session).VerifyError?
    ensures ListAuditLogs(session, q) == ListAuditLogs(session, q')
  {
  }
}

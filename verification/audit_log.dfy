/**
 * The audit-log library: the kinds of administrator action that are
 * recorded, the mapping from the caller's parameters to the stored record,
 * and the client address and user agent read from the request headers.
 */
module AuditLog {
  import opened Js
  import opened Json

  /** `AuditAction`. */
  datatype AuditAction = Delete | Suspend | Activate | Update

  /** `TargetType`. */
  datatype TargetType = User | Order | Product | Stylist | Inquiry

  function ActionName(a: AuditAction): (n: string) {
    match a
    case Delete => "delete"
    case Suspend => "suspend"
    case Activate => "activate"
    case Update => "update"
  }

  function TargetTypeName(t: TargetType): (n: string) {
    match t
    case User => "user"
    case Order => "order"
    case Product => "product"
    case Stylist => "stylist"
    case Inquiry => "inquiry"
  }

  /** The names of the actions, in declaration order. */
  const ActionNames: seq<string> := ["delete", "suspend", "activate", "update"]

  /** The names of the target types, in declaration order. */
  const TargetTypeNames: seq<string> := ["user", "order", "product", "stylist", "inquiry"]

  /** The action names are exactly the four listed, and no two actions share a name. */
  lemma ActionNamesExact(a: AuditAction, b: AuditAction)
    ensures ActionName(a) in ActionNames
    ensures ActionName(a) == ActionName(b) <==> a == b
  {
  }

  /** Every listed action name names exactly one action. */
  lemma ActionNamesCovered(n: string)
    requires n in ActionNames
    ensures exists a: AuditAction :: ActionName(a) == n
  {
    if n == "delete" { assert ActionName(Delete) == n; }
    else if n == "suspend" { assert ActionName(Suspend) == n; }
    else if n == "activate" { assert ActionName(Activate) == n; }
    else { assert ActionName(Update) == n; }
  }

  /** The target-type names are exactly the five listed, and no two types share a name. */
  lemma TargetTypeNamesExact(t: TargetType, u: TargetType)
    ensures TargetTypeName(t) in TargetTypeNames
    ensures TargetTypeName(t) == TargetTypeName(u) <==> t == u
  {
  }

  // ---------------------------------------------------------------------
  // getRequestInfo
  // ---------------------------------------------------------------------

  /** The three headers read; `None` is an absent header. */
  datatype Headers = Headers(forwardedFor: Option<string>, realIp: Option<string>, userAgent: Option<string>)

  datatype RequestInfo = RequestInfo(ipAddress: Option<string>, userAgent: Option<string>)

  /**
   * `getRequestInfo`: the address is the text before the first comma of
   * `x-forwarded-for` (untrimmed), else `x-real-ip`, else null; the user
   * agent is its header, with an empty one read as null.
   */
  function GetRequestInfo(h: Headers): (r: RequestInfo)
    ensures h.forwardedFor.Some? && Split(h.forwardedFor.value, ',')[0] != "" ==>
              r.ipAddress == Some(Split(h.forwardedFor.value, ',')[0])
    ensures (h.forwardedFor.None? || Split(h.forwardedFor.value, ',')[0] == "") ==>
              r.ipAddress == NullableOrNull(h.realIp)
    ensures r.ipAddress.Some? ==> r.ipAddress.value != ""
    ensures r.userAgent == NullableOrNull(h.userAgent)
  {
    var first := if h.forwardedFor.Some? then Split(h.forwardedFor.value, ',')[0] else "";
    var ip := if first != "" then Some(first) else NullableOrNull(h.realIp);
    RequestInfo(ip, NullableOrNull(h.userAgent))
  }

  /**
   * The forwarded address is a comma-free prefix of the header that stops
   * at its first comma.
   */
  lemma ForwardedAddressIsFirstSegment(h: Headers)
    requires h.forwardedFor.Some? && Split(h.forwardedFor.value, ',')[0] != ""
    ensures GetRequestInfo(h).ipAddress.Some?
    ensures var ff := h.forwardedFor.value;
            var ip := GetRequestInfo(h).ipAddress.value;
            && ',' !in ip
            && |ip| <= |ff|
            && ip == ff[..|ip|]
            && (|ip| < |ff| ==> ff[|ip|] == ',')
  {
    SplitHead(h.forwardedFor.value, ',');
  }

  /** The forwarded header wins over `x-real-ip` whenever its first segment is non-empty. */
  lemma ForwardedForWins(ff: string, realIp: Option<string>, ua: Option<string>)
    requires |ff| > 0 && ff[0] != ','
    ensures GetRequestInfo(Headers(Some(ff), realIp, ua)).ipAddress == Some(Split(ff, ',')[0])
  {
    SplitHead(ff, ',');
  }

  // ---------------------------------------------------------------------
  // createAuditLog
  // ---------------------------------------------------------------------

  /** `CreateAuditLogParams`; `details` is `Undefined` when not given. */
  datatype Params = Params(
    action: AuditAction, targetType: TargetType, targetId: string, targetEmail: Option<string>,
    reason: string, details: Json, performedBy: string, performedByEmail: string,
    ipAddress: Option<string>, userAgent: Option<string>)

  /** The stored audit-log record. */
  datatype Record = Record(
    action: string, targetType: string, targetId: string, targetEmail: Option<string>,
    reason: string, details: Json, performedBy: string, performedByEmail: string,
    ipAddress: Option<string>, userAgent: Option<string>)

  /**
   * `createAuditLog`: the record written. Optional strings that are absent
   * or empty are stored as null, falsy details are left out, everything
   * else is copied as given.
   */
  function CreateAuditLog(p: Params): (r: Record)
    ensures r.action == ActionName(p.action) && r.targetType == TargetTypeName(p.targetType)
    ensures r.targetId == p.targetId && r.reason == p.reason
    ensures r.performedBy == p.performedBy && r.performedByEmail == p.performedByEmail
    ensures r.targetEmail.None? <==> !TruthyText(p.targetEmail)
    ensures r.ipAddress.None? <==> !TruthyText(p.ipAddress)
    ensures r.userAgent.None? <==> !TruthyText(p.userAgent)
    ensures r.targetEmail.Some? ==> r.targetEmail == p.targetEmail
    ensures r.ipAddress.Some? ==> r.ipAddress == p.ipAddress
    ensures r.userAgent.Some? ==> r.userAgent == p.userAgent
    ensures Truthy(p.details) ==> r.details == p.details
    ensures !Truthy(p.details) ==> r.details == Undefined
  {
    Record(ActionName(p.action), TargetTypeName(p.targetType), p.targetId, NullableOrNull(p.targetEmail),
           p.reason, if Truthy(p.details) then p.details else Undefined,
           p.performedBy, p.performedByEmail, NullableOrNull(p.ipAddress), NullableOrNull(p.userAgent))
  }

  /** The request information of `getRequestInfo` is stored unchanged by `createAuditLog`. */
  lemma RequestInfoStoredAsIs(p: Params, h: Headers)
    requires p.ipAddress == GetRequestInfo(h).ipAddress && p.userAgent == GetRequestInfo(h).userAgent
    ensures CreateAuditLog(p).ipAddress == GetRequestInfo(h).ipAddress
    ensures CreateAuditLog(p).userAgent == GetRequestInfo(h).userAgent
  {
  }
}

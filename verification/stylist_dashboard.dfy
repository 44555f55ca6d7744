/**
 * The stylist's dashboard: the profile edit form (specialties shown joined
 * with ", " and parsed back on save), replying to an inquiry, changing an
 * inquiry's status, and the unread-reply badge.
 */
module StylistDashboard {
  import opened Js
  import opened Inquiries

  /** The stylist record kept by the page; `specialties` is `None` when it is not an array. */
  datatype Stylist = Stylist(id: string, name: string, nameEn: Option<string>, bio: string,
                             specialties: Option<seq<string>>, image: Option<string>, email: string)

  /** The edit form; every field is text. */
  datatype EditForm = EditForm(name: string, nameEn: string, email: string, bio: string,
                               specialties: string, image: string, password: string)

  /** The form's initial contents: absent values become "", specialties are joined with ", ". */
  function InitialForm(s: Stylist): (f: EditForm)
    ensures f.name == s.name && f.email == s.email && f.bio == s.bio && f.password == ""
    ensures f.nameEn == s.nameEn.GetOr("") && f.image == s.image.GetOr("")
    ensures s.specialties.None? ==> f.specialties == ""
    ensures s.specialties.Some? ==> f.specialties == Join(s.specialties.value, ", ")
  {
    EditForm(s.name, s.nameEn.GetOr(""), s.email, s.bio,
             if s.specialties.Some? then Join(s.specialties.value, ", ") else "",
             s.image.GetOr(""), "")
  }

  /** The body of the profile update; `password` is `None` when left out. */
  datatype Update = Update(stylistId: string, name: string, nameEn: Option<string>, email: string, bio: string,
                           specialties: seq<string>, image: Option<string>, password: Option<string>)

  /**
   * `handleEditSubmit`'s request body: specialties parsed from the text,
   * empty `nameEn` and `image` sent as null, an empty password left out.
   */
  function EditPayload(s: Stylist, f: EditForm): (u: Update)
    ensures u.stylistId == s.id && u.name == f.name && u.email == f.email && u.bio == f.bio
    ensures u.nameEn == OrNull(f.nameEn) && u.image == OrNull(f.image) && u.password == OrNull(f.password)
    ensures u.specialties == ParseCommaList(f.specialties)
    ensures f.specialties == "" ==> u.specialties == []
    ensures CleanListEntries(u.specialties)
  {
    Update(s.id, f.name, OrNull(f.nameEn), f.email, f.bio, ParseCommaList(f.specialties), OrNull(f.image), OrNull(f.password))
  }

  /**
   * Saving the form unedited sends back the stylist's specialties exactly,
   * provided each is non-empty, has no surrounding space and no comma.
   */
  lemma UneditedSpecialtiesRoundTrip(s: Stylist)
    requires s.specialties.Some? && CleanListEntries(s.specialties.value)
    ensures EditPayload(s, InitialForm(s)).specialties == s.specialties.value
  {
    SpecialtiesRoundTrip(s.specialties.value);
  }

  /** Saving the form unedited never sends a password, and keeps non-empty optional fields. */
  lemma UneditedFormKeepsProfile(s: Stylist)
    requires TruthyText(s.nameEn) && TruthyText(s.image)
    ensures var u := EditPayload(s, InitialForm(s));
            u.password.None? && u.nameEn == s.nameEn && u.image == s.image && u.name == s.name && u.email == s.email
  {
  }

  // ---------------------------------------------------------------------
  // Replies and status
  // ---------------------------------------------------------------------

  /** The dashboard's state: its inquiries and the replies fetched per inquiry. */
  datatype Board = Board(inquiries: seq<Inquiry>, replies: map<string, seq<Reply>>)

  /**
   * `handleReply` on the dashboard. A blank draft or a missing stylist
   * record is refused without a request. On success the reply is added
   * after the inquiry's known replies and the inquiry is set to
   * "in_progress", whatever its status was.
   */
  function HandleReply(b: Board, stylist: Option<Stylist>, inquiryId: string,
                       draft: Option<string>, response: ReplyResponse): (r: (Board, ReplyOutcome))
    ensures !TruthyText(draft) || AllSpace(draft.value) ==> r == (b, NotSent("メッセージを入力してください"))
    ensures TruthyText(draft) && !AllSpace(draft.value) && stylist.None? ==>
              r == (b, NotSent("スタイリスト情報が見つかりません。再度ログインしてください。"))
    ensures !r.1.NotSent? ==>
              r.1.request == ReplyRequest(Trim(draft.value), "stylist", stylist.value.email, stylist.value.name)
    ensures r.1.Replied? <==>
              TruthyText(draft) && !AllSpace(draft.value) && stylist.Some? && response.Ok? && response.reply.Some?
    ensures !r.1.Replied? ==> r.0 == b
    ensures r.1.SendFailed? && response.NotOk? ==> r.1.alert == FailureText(response.status, response.error)
    ensures r.1.SendFailed? && response.Threw? ==> r.1.alert == ThrownText(response.thrown)
    ensures r.1.Replied? ==>
              && r.0.replies == b.replies[inquiryId := (if inquiryId in b.replies then b.replies[inquiryId] else []) + [response.reply.value]]
              && |r.0.inquiries| == |b.inquiries|
              && (forall i :: 0 <= i < |b.inquiries| ==>
                    r.0.inquiries[i] == if b.inquiries[i].id == inquiryId then b.inquiries[i].(status := "in_progress") else b.inquiries[i])
  {
    TrimEmptyIffAllSpace(if draft.Some? then draft.value else "");
    if !TruthyText(draft) || Trim(draft.value) == "" then (b, NotSent("メッセージを入力してください"))
    else if stylist.None? then (b, NotSent("スタイリスト情報が見つかりません。再度ログインしてください。"))
    else
      var request := ReplyRequest(Trim(draft.value), "stylist", stylist.value.email, stylist.value.name);
      match response
      case NotOk(status, error) => (b, SendFailed(request, FailureText(status, error)))
      case Threw(thrown) => (b, SendFailed(request, ThrownText(thrown)))
      case Ok(reply) =>
        if reply.None? then (b, SendFailed(request, "返信データの取得に失敗しました"))
        else
          var known := if inquiryId in b.replies then b.replies[inquiryId] else [];
          (Board(SetStatus(b.inquiries, inquiryId, "in_progress"), b.replies[inquiryId := known + [reply.value]]), Replied(request))
  }

  /** The inquiries with the one named given a new status. */
  function SetStatus(inqs: seq<Inquiry>, inquiryId: string, status: string): (r: seq<Inquiry>)
    ensures |r| == |inqs|
    ensures forall i :: 0 <= i < |r| ==> r[i] == if inqs[i].id == inquiryId then inqs[i].(status := status) else inqs[i]
  {
    seq(|inqs|, i requires 0 <= i < |inqs| => if inqs[i].id == inquiryId then inqs[i].(status := status) else inqs[i])
  }

  /** `handleStatusUpdate`: the status changes on the page only when the server answered ok. */
  function HandleStatusUpdate(inqs: seq<Inquiry>, inquiryId: string, newStatus: string, ok: bool): (r: seq<Inquiry>)
    ensures !ok ==> r == inqs
    ensures |r| == |inqs|
    ensures forall i :: 0 <= i < |r| && inqs[i].id != inquiryId ==> r[i] == inqs[i]
    ensures ok ==> forall i :: 0 <= i < |r| && inqs[i].id == inquiryId ==> r[i] == inqs[i].(status := newStatus)
  {
    if ok then SetStatus(inqs, inquiryId, newStatus) else inqs
  }

  /** A status update is idempotent, and a second update to another status overrides the first. */
  lemma StatusUpdateOverrides(inqs: seq<Inquiry>, inquiryId: string, s1: string, s2: string)
    ensures HandleStatusUpdate(HandleStatusUpdate(inqs, inquiryId, s1, true), inquiryId, s2, true) ==
            HandleStatusUpdate(inqs, inquiryId, s2, true)
  {
  }

  /** Unlike the customer's page, the dashboard moves even a resolved inquiry back to "in_progress". */
  lemma ReplyReopensResolved(b: Board, stylist: Stylist, inquiryId: string, reply: Reply, i: nat)
    requires i < |b.inquiries| && b.inquiries[i].id == inquiryId && b.inquiries[i].status == "resolved"
    ensures var r := HandleReply(b, Some(stylist), inquiryId, Some("ok"), Ok(Some(reply)));
            r.1.Replied? && r.0.inquiries[i].status == "in_progress"
  {
    assert !IsSpace('o');
  }

  // ---------------------------------------------------------------------
  // The unread badge
  // ---------------------------------------------------------------------

  /** The badge: hidden for 0, the count up to 99, "99+" beyond. */
  function Badge(unreadCount: int): (t: Option<string>)
    ensures t.None? <==> unreadCount <= 0
    ensures unreadCount > 99 ==> t == Some("99+")
    ensures 0 < unreadCount <= 99 ==> t.Some? && ParseInt(t.value, false) == Some(unreadCount)
    ensures 0 < unreadCount <= 99 ==> t.Some? && 1 <= |t.value| <= 2 && AllDigits(t.value)
  {
    if unreadCount <= 0 then None
    else if unreadCount > 99 then Some("99+")
    else
      DecimalWidth(unreadCount);
      Some(IntToDecimal(unreadCount))
  }

  lemma DecimalWidth(n: nat)
    requires 0 < n <= 99
    ensures IntToDecimal(n) == NatToDecimal(n)
    ensures 1 <= |NatToDecimal(n)| <= 2
  {
    if n >= 10 {
      assert NatToDecimal(n) == NatToDecimal(n / 10) + [('0' as int + n % 10) as char];
    }
  }

  /** The badge never shows more than two digits: it reads the same for every count above 99. */
  lemma BadgeSaturates(m: int, n: int)
    requires m > 99 && n > 99
    ensures Badge(m) == Badge(n)
  {
  }
}

/**
 * Inquiries and their replies: the creation and listing route, the two
 * unread-reply counters, and the customer's inquiry page (unread count,
 * marking a reply as read, replying, choosing the e-mail to look up).
 */
module Inquiries {
  import opened Js

  /** A reply; `fromType` is "user" or "stylist". */
  datatype Reply = Reply(id: string, inquiryId: string, message: string, fromType: string,
                         fromEmail: Option<string>, fromName: Option<string>, isRead: bool)

  /** An inquiry; `status` is "new", "in_progress" or "resolved". */
  datatype Inquiry = Inquiry(
    id: string, name: string, email: string, inquiryType: string, message: string, status: string,
    userId: Option<string>, stylistId: Option<string>, replies: seq<Reply>)

  // ---------------------------------------------------------------------
  // POST /api/inquiries
  // ---------------------------------------------------------------------

  datatype InquiryBody = InquiryBody(
    name: Option<string>, email: Option<string>, inquiryType: Option<string>, message: Option<string>,
    userId: Option<string>, stylistId: Option<string>)

  datatype Created = CreateError(status: int, message: string) | Stored(inquiry: Inquiry)

  /**
   * The four text fields are required, then the e-mail must match the
   * pattern; `userId` and `stylistId` are stored only when non-empty. A new
   * inquiry starts as "new" with no replies.
   */
  function CreateInquiry(body: InquiryBody, store: seq<Inquiry>, newId: string): (r: (seq<Inquiry>, Created))
    ensures !TruthyText(body.name) || !TruthyText(body.email) || !TruthyText(body.inquiryType) || !TruthyText(body.message) ==>
              r == (store, CreateError(400, "すべての必須項目を入力してください"))
    ensures TruthyText(body.name) && TruthyText(body.email) && TruthyText(body.inquiryType) && TruthyText(body.message) &&
            !MatchesEmailPattern(body.email.value) ==>
              r == (store, CreateError(400, "有効なメールアドレスを入力してください"))
    ensures r.1.Stored? <==>
              TruthyText(body.name) && TruthyText(body.email) && TruthyText(body.inquiryType) && TruthyText(body.message) &&
              MatchesEmailPattern(body.email.value)
    ensures r.1.CreateError? ==> r.0 == store
    ensures r.1.Stored? ==>
              && r.0 == store + [r.1.inquiry]
              && r.1.inquiry.name == body.name.value && r.1.inquiry.email == body.email.value
              && r.1.inquiry.inquiryType == body.inquiryType.value && r.1.inquiry.message == body.message.value
              && r.1.inquiry.userId == NullableOrNull(body.userId)
              && r.1.inquiry.stylistId == NullableOrNull(body.stylistId)
              && r.1.inquiry.status == "new" && r.1.inquiry.replies == []
  {
    if !TruthyText(body.name) || !TruthyText(body.email) || !TruthyText(body.inquiryType) || !TruthyText(body.message) then
      (store, CreateError(400, "すべての必須項目を入力してください"))
    else if !MatchesEmailPattern(body.email.value) then
      (store, CreateError(400, "有効なメールアドレスを入力してください"))
    else
      var inq := Inquiry(newId, body.name.value, body.email.value, body.inquiryType.value, body.message.value, "new",
                         NullableOrNull(body.userId), NullableOrNull(body.stylistId), []);
      (store + [inq], Stored(inq))
  }

  /**
   * A stored inquiry is listed under its e-mail, and under its user and
   * stylist when it names them; having no replies yet, it changes neither
   * unread counter.
   */
  lemma CreatedInquiryIsListed(body: InquiryBody, store: seq<Inquiry>, newId: string,
                               email: Option<string>, stylistId: Option<string>)
    requires CreateInquiry(body, store, newId).1.Stored?
    ensures var (after, created) := CreateInquiry(body, store, newId);
            && created.inquiry in Select(after, ByEmail(body.email.value))
            && (TruthyText(body.userId) ==> created.inquiry in Select(after, ByUser(body.userId.value)))
            && (TruthyText(body.stylistId) ==> created.inquiry in Select(after, ByStylist(body.stylistId.value)))
            && UnreadForUser(after, email) == UnreadForUser(store, email)
            && UnreadForStylist(after, stylistId) == UnreadForStylist(store, stylistId)
  {
    var (after, created) := CreateInquiry(body, store, newId);
    assert after == store + [created.inquiry];
    if TruthyText(email) {
      UnreadWhereAppendUnreplied(store, created.inquiry, ByEmail(email.value), "stylist");
    }
    if TruthyText(stylistId) {
      UnreadWhereAppendUnreplied(store, created.inquiry, ByStylist(stylistId.value), "user");
    }
  }

  // ---------------------------------------------------------------------
  // GET /api/inquiries
  // ---------------------------------------------------------------------

  /** The signed-in user of the request, if any. */
  datatype Viewer = Viewer(id: Option<string>, role: Option<string>)

  /** A `where` clause on inquiries: by user, by stylist, by e-mail, or none. */
  datatype Where = ByUser(userId: string) | ByStylist(stylistId: string) | ByEmail(email: string) | Everything

  /**
   * The filter: a non-empty `userId` parameter wins; otherwise the stylist
   * id, which for a stylist's session is the session's own id and for
   * anyone else the `stylistId` parameter.
   */
  function InquiryFilter(viewer: Option<Viewer>, userId: Option<string>, stylistIdParam: Option<string>): (w: Where)
    ensures TruthyText(userId) ==> w == ByUser(userId.value)
    ensures !TruthyText(userId) && viewer.Some? && viewer.value.role == Some("stylist") ==>
              w == (if TruthyText(viewer.value.id) then ByStylist(viewer.value.id.value) else Everything)
    ensures !TruthyText(userId) && !(viewer.Some? && viewer.value.role == Some("stylist")) ==>
              w == (if TruthyText(stylistIdParam) then ByStylist(stylistIdParam.value) else Everything)
  {
    var stylistId := if viewer.Some? && viewer.value.role == Some("stylist") then viewer.value.id else stylistIdParam;
    if TruthyText(userId) then ByUser(userId.value)
    else if TruthyText(stylistId) then ByStylist(stylistId.value)
    else Everything
  }

  predicate Selected(w: Where, inq: Inquiry) {
    match w
    case ByUser(u) => inq.userId == Some(u)
    case ByStylist(s) => inq.stylistId == Some(s)
    case ByEmail(e) => inq.email == e
    case Everything => true
  }

  /** The inquiries the filter selects, in store order. */
  function Select(store: seq<Inquiry>, w: Where): (r: seq<Inquiry>)
    ensures |r| <= |store|
    ensures forall i :: 0 <= i < |r| ==> r[i] in store && Selected(w, r[i])
    ensures forall inq :: inq in store && Selected(w, inq) ==> inq in r
    ensures w.Everything? ==> r == store
  {
    if |store| == 0 then []
    else if Selected(w, store[0]) then [store[0]] + Select(store[1..], w)
    else Select(store[1..], w)
  }

  /** A stylist's session cannot be steered to another stylist's inquiries through the parameter. */
  lemma StylistSeesOwnInquiries(store: seq<Inquiry>, viewer: Viewer, param: Option<string>)
    requires viewer.role == Some("stylist") && TruthyText(viewer.id)
    ensures forall inq :: inq in Select(store, InquiryFilter(Some(viewer), None, param)) ==> inq.stylistId == viewer.id
  {
  }

  /** But the `userId` parameter still wins over the session, for stylists as for anyone. */
  lemma UserParameterWinsForStylists(store: seq<Inquiry>, viewer: Viewer, userId: string, param: Option<string>)
    requires viewer.role == Some("stylist") && userId != ""
    ensures Select(store, InquiryFilter(Some(viewer), Some(userId), param)) == Select(store, ByUser(userId))
  {
  }

  // ---------------------------------------------------------------------
  // Unread replies
  // ---------------------------------------------------------------------

  predicate Unread(r: Reply, from: string) {
    !r.isRead && r.fromType == from
  }

  /** The unread replies from `from` in one inquiry. */
  function UnreadIn(replies: seq<Reply>, from: string): (n: nat)
    ensures n <= |replies|
    ensures n == 0 <==> forall j :: 0 <= j < |replies| ==> !Unread(replies[j], from)
  {
    if |replies| == 0 then 0
    else (if Unread(replies[0], from) then 1 else 0) + UnreadIn(replies[1..], from)
  }

  /** The `reduce` of both the page and the routes: unread replies from `from` across inquiries. */
  function CountUnread(inqs: seq<Inquiry>, from: string): (n: nat)
    ensures n == 0 <==> forall i, j :: 0 <= i < |inqs| && 0 <= j < |inqs[i].replies| ==> !Unread(inqs[i].replies[j], from)
  {
    if |inqs| == 0 then 0
    else
      var n := UnreadIn(inqs[0].replies, from) + CountUnread(inqs[1..], from);
      assert forall i, j :: 1 <= i < |inqs| && 0 <= j < |inqs[i].replies| ==>
               inqs[i].replies[j] == inqs[1..][i - 1].replies[j];
      n
  }

  lemma {:induction false} CountUnreadAppend(a: seq<Inquiry>, b: seq<Inquiry>, from: string)
    ensures CountUnread(a + b, from) == CountUnread(a, from) + CountUnread(b, from)
  {
    if |a| > 0 {
      assert (a + b)[1..] == a[1..] + b;
      CountUnreadAppend(a[1..], b, from);
    } else {
      assert a + b == b;
    }
  }

  /**
   * The counting done by the two routes: the database selects the matching
   * inquiries' unread replies from `from`, and the route adds up how many
   * each inquiry has.
   */
  function UnreadWhere(store: seq<Inquiry>, w: Where, from: string): nat {
    if |store| == 0 then 0
    else (if Selected(w, store[0]) then UnreadIn(store[0].replies, from) else 0) + UnreadWhere(store[1..], w, from)
  }

  /** Appending an inquiry without replies adds nothing to the routes' count, whatever the filter. */
  lemma {:induction false} UnreadWhereAppendUnreplied(store: seq<Inquiry>, inq: Inquiry, w: Where, from: string)
    requires inq.replies == []
    ensures UnreadWhere(store + [inq], w, from) == UnreadWhere(store, w, from)
  {
    if |store| > 0 {
      assert (store + [inq])[1..] == store[1..] + [inq];
      UnreadWhereAppendUnreplied(store[1..], inq, w, from);
    } else {
      assert [inq][1..] == [];
    }
  }

  /** The routes' count is the count over the selected inquiries. */
  lemma {:induction false} UnreadWhereCountsSelection(store: seq<Inquiry>, w: Where, from: string)
    ensures UnreadWhere(store, w, from) == CountUnread(Select(store, w), from)
  {
    if |store| > 0 {
      UnreadWhereCountsSelection(store[1..], w, from);
      if Selected(w, store[0]) {
        assert ([store[0]] + Select(store[1..], w))[1..] == Select(store[1..], w);
      }
    }
  }

  datatype Count = CountError(status: int, message: string) | UnreadCount(count: nat)

  /** GET /api/inquiries/unread-count: unread stylist replies across the inquiries with exactly this e-mail. */
  function UnreadForUser(store: seq<Inquiry>, email: Option<string>): (r: Count)
    ensures !TruthyText(email) ==> r == CountError(400, "メールアドレスが必要です")
    ensures TruthyText(email) ==> r == UnreadCount(CountUnread(Select(store, ByEmail(email.value)), "stylist"))
  {
    if !TruthyText(email) then CountError(400, "メールアドレスが必要です")
    else
      UnreadWhereCountsSelection(store, ByEmail(email.value), "stylist");
      UnreadCount(UnreadWhere(store, ByEmail(email.value), "stylist"))
  }

  /** GET /api/stylists/unread-replies: unread user replies across the stylist's inquiries. */
  function UnreadForStylist(store: seq<Inquiry>, stylistId: Option<string>): (r: Count)
    ensures !TruthyText(stylistId) ==> r == CountError(400, "スタイリストIDが必要です")
    ensures TruthyText(stylistId) ==> r == UnreadCount(CountUnread(Select(store, ByStylist(stylistId.value)), "user"))
  {
    if !TruthyText(stylistId) then CountError(400, "スタイリストIDが必要です")
    else
      UnreadWhereCountsSelection(store, ByStylist(stylistId.value), "user");
      UnreadCount(UnreadWhere(store, ByStylist(stylistId.value), "user"))
  }

  // ---------------------------------------------------------------------
  // GET /api/inquiries/by-email
  // ---------------------------------------------------------------------

  datatype Listing = ListError(status: int, message: string) | Listed(inquiries: seq<Inquiry>)

  /**
   * The inquiries with exactly this e-mail, newest first (`orderBy
   * createdAt desc`); the store is kept in creation order, so newest first
   * is the store's order reversed. A missing or empty e-mail gives 400.
   */
  function ListByEmail(store: seq<Inquiry>, email: Option<string>): (r: Listing)
    ensures r.ListError? <==> !TruthyText(email)
    ensures r.ListError? ==> r == ListError(400, "メールアドレスを指定してください")
    ensures r.Listed? ==> forall inq :: inq in r.inquiries <==> inq in store && inq.email == email.value
    ensures r.Listed? ==> var sel := Select(store, ByEmail(email.value));
              |r.inquiries| == |sel| && forall i :: 0 <= i < |sel| ==> r.inquiries[i] == sel[|sel| - 1 - i]
  {
    if !TruthyText(email) then ListError(400, "メールアドレスを指定してください")
    else
      NewestFirstByEmail(store, email.value);
      Listed(Reverse(Select(store, ByEmail(email.value))))
  }

  lemma NewestFirstByEmail(store: seq<Inquiry>, email: string)
    ensures forall inq :: inq in Reverse(Select(store, ByEmail(email))) <==> inq in store && inq.email == email
  {
    ReverseSameElements(Select(store, ByEmail(email)));
  }

  /** The answer to the page's by-email request, or a request that threw. */
  datatype LoadResponse = Answered(listing: Listing) | LoadThrew

  /**
   * `fetchInquiries`: an empty address sends nothing; a listing replaces the
   * page's inquiries; an error answer or a thrown request keeps them.
   */
  function LoadInquiries(shown: seq<Inquiry>, address: string, response: LoadResponse): (r: seq<Inquiry>)
    ensures address == "" || response.LoadThrew? || (response.Answered? && response.listing.ListError?) ==> r == shown
    ensures address != "" && response.Answered? && response.listing.Listed? ==> r == response.listing.inquiries
  {
    if address == "" then shown
    else match response
      case LoadThrew => shown
      case Answered(ListError(_, _)) => shown
      case Answered(Listed(inqs)) => inqs
  }

  lemma {:induction false} CountUnreadReverse(inqs: seq<Inquiry>, from: string)
    ensures CountUnread(Reverse(inqs), from) == CountUnread(inqs, from)
  {
    if |inqs| > 0 {
      CountUnreadReverse(inqs[1..], from);
      CountUnreadAppend(Reverse(inqs[1..]), [inqs[0]], from);
      assert [inqs[0]][1..] == [];
    }
  }

  /**
   * The page's unread count, once it has loaded the by-email listing for an
   * address, equals the unread-count route's answer for that address.
   */
  lemma PageCountMatchesCounter(store: seq<Inquiry>, shown: seq<Inquiry>, email: string)
    requires email != ""
    ensures var page := LoadInquiries(shown, email, Answered(ListByEmail(store, Some(email))));
            UnreadForUser(store, Some(email)) == UnreadCount(CountUnread(page, "stylist"))
  {
    var sel := Select(store, ByEmail(email));
    CountUnreadReverse(sel, "stylist");
    assert ListByEmail(store, Some(email)).inquiries == Reverse(sel);
  }

  /**
   * Each counter counts only replies from the other side that are still
   * unread, and is 0 when nothing matches.
   */
  lemma CountersIgnoreOwnSideAndReadReplies(store: seq<Inquiry>, email: string, stylistId: string)
    requires email != "" && stylistId != ""
    ensures (forall inq, r :: inq in store && inq.email == email && r in inq.replies ==> !Unread(r, "stylist")) ==>
              UnreadForUser(store, Some(email)) == UnreadCount(0)
    ensures (forall inq, r :: inq in store && inq.stylistId == Some(stylistId) && r in inq.replies ==> !Unread(r, "user")) ==>
              UnreadForStylist(store, Some(stylistId)) == UnreadCount(0)
  {
  }

  // ---------------------------------------------------------------------
  // The customer's inquiry page
  // ---------------------------------------------------------------------

  /** `handleEmailSubmit`: a blank entry is ignored; otherwise its trimmed text is looked up. */
  function EmailToLookUp(input: string): (e: Option<string>)
    ensures e.None? <==> AllSpace(input)
    ensures e.Some? ==> e.value == Trim(input) && e.value != "" && IsTrimmed(e.value)
  {
    TrimEmptyIffAllSpace(input);
    if Trim(input) == "" then None else Some(Trim(input))
  }

  lemma TrimEmptyIffAllSpace(s: string)
    ensures Trim(s) == "" <==> AllSpace(s)
  {
    if AllSpace(s) {
      TrimOfAllSpace(s);
    }
  }

  lemma {:induction false} TrimOfAllSpace(s: string)
    requires AllSpace(s)
    ensures Trim(s) == ""
  {
    if |s| > 0 {
      TrimLeadingSpace(s[0], s[1..]);
      assert [s[0]] + s[1..] == s;
      TrimOfAllSpace(s[1..]);
    }
  }

  function MarkIn(replies: seq<Reply>, replyId: string): (r: seq<Reply>)
    ensures |r| == |replies|
    ensures forall j :: 0 <= j < |r| ==>
              r[j] == (if replies[j].id == replyId then replies[j].(isRead := true) else replies[j])
  {
    seq(|replies|, j requires 0 <= j < |replies| => if replies[j].id == replyId then replies[j].(isRead := true) else replies[j])
  }

  /** `markReplyAsRead`: the replies with this id become read; nothing else changes. */
  function MarkReplyAsRead(inqs: seq<Inquiry>, replyId: string): (r: seq<Inquiry>)
    ensures |r| == |inqs|
    ensures forall i :: 0 <= i < |r| ==> r[i] == inqs[i].(replies := r[i].replies)
    ensures forall i :: 0 <= i < |r| ==> |r[i].replies| == |inqs[i].replies|
    ensures forall i, j :: 0 <= i < |r| && 0 <= j < |r[i].replies| ==>
              r[i].replies[j] == (if inqs[i].replies[j].id == replyId then inqs[i].replies[j].(isRead := true) else inqs[i].replies[j])
  {
    seq(|inqs|, i requires 0 <= i < |inqs| => inqs[i].(replies := MarkIn(inqs[i].replies, replyId)))
  }

  /** Unread replies with a given id from a given side. */
  function UnreadWithId(replies: seq<Reply>, replyId: string, from: string): nat {
    if |replies| == 0 then 0
    else (if replies[0].id == replyId && Unread(replies[0], from) then 1 else 0) + UnreadWithId(replies[1..], replyId, from)
  }

  function CountUnreadWithId(inqs: seq<Inquiry>, replyId: string, from: string): nat {
    if |inqs| == 0 then 0 else UnreadWithId(inqs[0].replies, replyId, from) + CountUnreadWithId(inqs[1..], replyId, from)
  }

  lemma {:induction false} MarkInCount(replies: seq<Reply>, replyId: string, from: string)
    ensures UnreadIn(MarkIn(replies, replyId), from) + UnreadWithId(replies, replyId, from) == UnreadIn(replies, from)
  {
    if |replies| > 0 {
      assert MarkIn(replies, replyId)[1..] == MarkIn(replies[1..], replyId);
      MarkInCount(replies[1..], replyId, from);
    }
  }

  /**
   * Marking a reply as read lowers the page's unread count by exactly the
   * number of unread replies from that side carrying the id: by one when
   * the id names one unread reply, by nothing for a read reply or an
   * unknown id.
   */
  lemma {:induction false} MarkReplyAsReadCount(inqs: seq<Inquiry>, replyId: string, from: string)
    ensures CountUnread(MarkReplyAsRead(inqs, replyId), from) + CountUnreadWithId(inqs, replyId, from) == CountUnread(inqs, from)
  {
    if |inqs| > 0 {
      assert MarkReplyAsRead(inqs, replyId)[1..] == MarkReplyAsRead(inqs[1..], replyId);
      MarkInCount(inqs[0].replies, replyId, from);
      MarkReplyAsReadCount(inqs[1..], replyId, from);
    }
  }

  /**
   * The reply the server answers with, or its failure; `error` is the error
   * text of a failed response. `Threw` is a request that threw before any
   * answer, with the message of the thrown `Error`, or None when the thrown
   * value is not an `Error`.
   */
  datatype ReplyResponse =
    | NotOk(status: int, error: Option<string>)
    | Ok(reply: Option<Reply>)
    | Threw(thrown: Option<string>)

  /** The body of a reply request. */
  datatype ReplyRequest = ReplyRequest(message: string, fromType: string, fromEmail: string, fromName: string)

  datatype ReplyOutcome =
    | NotSent(alert: string)                           // refused before any request
    | SendFailed(request: ReplyRequest, alert: string)  // sent, but the reply was not added
    | Replied(request: ReplyRequest)                   // sent and appended

  /** The alert shown for a failed reply request. */
  function FailureText(status: int, error: Option<string>): (t: string)
    ensures TruthyText(error) ==> t == error.value
    ensures !TruthyText(error) ==> t == "返信の送信に失敗しました (" + IntToDecimal(status) + ")"
  {
    if TruthyText(error) then error.value else "返信の送信に失敗しました (" + IntToDecimal(status) + ")"
  }

  /** The alert for a request that threw: the `Error`'s message, even an empty one, else the fallback. */
  function ThrownText(thrown: Option<string>): (t: string)
    ensures thrown.Some? ==> t == thrown.value
    ensures thrown.None? ==> t == "返信の送信に失敗しました"
  {
    if thrown.Some? then thrown.value else "返信の送信に失敗しました"
  }

  function FindInquiry(inqs: seq<Inquiry>, id: string): (r: Option<Inquiry>)
    ensures r.Some? ==> r.value in inqs && r.value.id == id
    ensures r.None? ==> forall i :: 0 <= i < |inqs| ==> inqs[i].id != id
    ensures r.Some? ==> exists i :: 0 <= i < |inqs| && inqs[i] == r.value && forall k :: 0 <= k < i ==> inqs[k].id != id
  {
    if |inqs| == 0 then None
    else if inqs[0].id == id then Some(inqs[0])
    else
      var r := FindInquiry(inqs[1..], id);
      assert r.Some? ==> exists i :: 0 <= i < |inqs| && inqs[i] == r.value && forall k :: 0 <= k < i ==> inqs[k].id != id by {
        if r.Some? {
          var i :| 0 <= i < |inqs[1..]| && inqs[1..][i] == r.value && forall k :: 0 <= k < i ==> inqs[1..][k].id != id;
          assert inqs[i + 1] == r.value;
          assert forall k :: 0 <= k < i + 1 ==> inqs[k].id != id by {
            forall k | 0 <= k < i + 1 ensures inqs[k].id != id {
              if k > 0 { assert inqs[k] == inqs[1..][k - 1]; }
            }
          }
        }
      }
      r
  }

  /** The page's state change after the server accepted a reply: appended, and "new" moves on. */
  function AppendReply(inqs: seq<Inquiry>, inquiryId: string, reply: Reply): (r: seq<Inquiry>)
    ensures |r| == |inqs|
    ensures forall i :: 0 <= i < |r| && inqs[i].id != inquiryId ==> r[i] == inqs[i]
    ensures forall i :: 0 <= i < |r| && inqs[i].id == inquiryId ==>
              r[i] == inqs[i].(replies := inqs[i].replies + [reply],
                               status := if inqs[i].status == "new" then "in_progress" else inqs[i].status)
  {
    seq(|inqs|, i requires 0 <= i < |inqs| =>
      if inqs[i].id == inquiryId then
        inqs[i].(replies := inqs[i].replies + [reply], status := if inqs[i].status == "new" then "in_progress" else inqs[i].status)
      else inqs[i])
  }

  /**
   * `handleReply` on the customer's page, with the draft message and the
   * server's answer as inputs. A blank draft and a resolved inquiry are
   * refused without a request; the request carries the trimmed message.
   */
  function HandleReply(inqs: seq<Inquiry>, inquiryId: string, name: string, email: string,
                       draft: Option<string>, response: ReplyResponse): (r: (seq<Inquiry>, ReplyOutcome))
    ensures !TruthyText(draft) || AllSpace(draft.value) ==> r == (inqs, NotSent("メッセージを入力してください"))
    ensures TruthyText(draft) && !AllSpace(draft.value) && FindInquiry(inqs, inquiryId).Some? &&
            FindInquiry(inqs, inquiryId).value.status == "resolved" ==>
              r == (inqs, NotSent("完了済みのお問い合わせには返信できません"))
    ensures !r.1.NotSent? ==> r.1.request == ReplyRequest(Trim(draft.value), "user", email, name) && r.1.request.message != ""
    ensures r.1.Replied? <==>
              TruthyText(draft) && !AllSpace(draft.value) &&
              !(FindInquiry(inqs, inquiryId).Some? && FindInquiry(inqs, inquiryId).value.status == "resolved") &&
              response.Ok? && response.reply.Some?
    ensures r.1.Replied? ==> r.0 == AppendReply(inqs, inquiryId, response.reply.value)
    ensures !r.1.Replied? ==> r.0 == inqs
    ensures r.1.SendFailed? && response.NotOk? ==> r.1.alert == FailureText(response.status, response.error)
    ensures r.1.SendFailed? && response.Threw? ==> r.1.alert == ThrownText(response.thrown)
  {
    TrimEmptyIffAllSpace(if draft.Some? then draft.value else "");
    if !TruthyText(draft) || Trim(draft.value) == "" then (inqs, NotSent("メッセージを入力してください"))
    else
      var found := FindInquiry(inqs, inquiryId);
      if found.Some? && found.value.status == "resolved" then (inqs, NotSent("完了済みのお問い合わせには返信できません"))
      else
        var request := ReplyRequest(Trim(draft.value), "user", email, name);
        match response
        case NotOk(status, error) => (inqs, SendFailed(request, FailureText(status, error)))
        case Threw(thrown) => (inqs, SendFailed(request, ThrownText(thrown)))
        case Ok(reply) =>
          if reply.None? then (inqs, SendFailed(request, "返信データの取得に失敗しました"))
          else (AppendReply(inqs, inquiryId, reply.value), Replied(request))
  }

  /** A reply from the user never changes the page's count of unread stylist replies. */
  lemma {:induction false} UserReplyKeepsUnreadCount(inqs: seq<Inquiry>, inquiryId: string, reply: Reply)
    requires reply.fromType == "user"
    ensures CountUnread(AppendReply(inqs, inquiryId, reply), "stylist") == CountUnread(inqs, "stylist")
  {
    if |inqs| > 0 {
      assert AppendReply(inqs, inquiryId, reply)[1..] == AppendReply(inqs[1..], inquiryId, reply);
      UserReplyKeepsUnreadCount(inqs[1..], inquiryId, reply);
      if inqs[0].id == inquiryId {
        UnreadInAppend(inqs[0].replies, [reply], "stylist");
      }
    }
  }

  lemma {:induction false} UnreadInAppend(a: seq<Reply>, b: seq<Reply>, from: string)
    ensures UnreadIn(a + b, from) == UnreadIn(a, from) + UnreadIn(b, from)
  {
    if |a| > 0 {
      assert (a + b)[1..] == a[1..] + b;
      UnreadInAppend(a[1..], b, from);
    } else {
      assert a + b == b;
    }
  }

  /** After a successful reply, the inquiry's reply list ends with the new reply and is no longer "new". */
  lemma ReplyAppendedLast(inqs: seq<Inquiry>, inquiryId: string, name: string, email: string,
                          draft: Option<string>, response: ReplyResponse, i: nat)
    requires HandleReply(inqs, inquiryId, name, email, draft, response).1.Replied?
    requires i < |inqs| && inqs[i].id == inquiryId
    ensures var after := HandleReply(inqs, inquiryId, name, email, draft, response).0[i];
            && after.replies == inqs[i].replies + [response.reply.value]
            && after.status != "new"
            && (inqs[i].status != "new" ==> after.status == inqs[i].status)
  {
  }
}

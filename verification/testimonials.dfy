/**
 * Customer testimonials: posting one (held for approval) and the public
 * list of the newest approved ones.
 */
module Testimonials {
  import opened Js

  datatype Testimonial = Testimonial(
    id: string, name: string, role: Option<string>, comment: string, email: Option<string>,
    userId: Option<string>, isApproved: bool, createdAt: int)

  datatype Body = Body(name: Option<string>, role: Option<string>, comment: Option<string>, email: Option<string>)

  datatype Posted = PostError(status: int, message: string) | Posted(testimonial: Testimonial)

  const MinComment := 10
  const MaxComment := 500

  /** `x ? x.trim() : null`: absent and empty become null; anything else is trimmed, possibly to "". */
  function TrimOrNull(o: Option<string>): (r: Option<string>)
    ensures r.None? <==> !TruthyText(o)
    ensures r.Some? ==> r.value == Trim(o.value)
  {
    if TruthyText(o) then Some(Trim(o.value)) else None
  }

  /**
   * POST /api/testimonials with the signed-in user's id (from the session's
   * e-mail) as an input. The length limits apply to the comment as sent;
   * the stored fields are trimmed and a new testimonial awaits approval.
   */
  function Post(body: Body, sessionUserId: Option<string>, store: seq<Testimonial>, newId: string, now: int): (r: (seq<Testimonial>, Posted))
    ensures !TruthyText(body.name) || !TruthyText(body.comment) ==> r == (store, PostError(400, "名前とコメントは必須です"))
    ensures TruthyText(body.name) && TruthyText(body.comment) && |body.comment.value| < MinComment ==>
              r == (store, PostError(400, "コメントは10文字以上で入力してください"))
    ensures TruthyText(body.name) && TruthyText(body.comment) && |body.comment.value| > MaxComment ==>
              r == (store, PostError(400, "コメントは500文字以内で入力してください"))
    ensures r.1.Posted? <==>
              TruthyText(body.name) && TruthyText(body.comment) && MinComment <= |body.comment.value| <= MaxComment
    ensures r.1.PostError? ==> r.0 == store
    ensures r.1.Posted? ==>
              && r.0 == store + [r.1.testimonial]
              && !r.1.testimonial.isApproved
              && r.1.testimonial.name == Trim(body.name.value)
              && r.1.testimonial.comment == Trim(body.comment.value)
              && r.1.testimonial.role == TrimOrNull(body.role)
              && r.1.testimonial.email == TrimOrNull(body.email)
              && r.1.testimonial.userId == sessionUserId
              && |r.1.testimonial.comment| <= MaxComment
  {
    if !TruthyText(body.name) || !TruthyText(body.comment) then (store, PostError(400, "名前とコメントは必須です"))
    else if |body.comment.value| < MinComment then (store, PostError(400, "コメントは10文字以上で入力してください"))
    else if |body.comment.value| > MaxComment then (store, PostError(400, "コメントは500文字以内で入力してください"))
    else
      var t := Testimonial(newId, Trim(body.name.value), TrimOrNull(body.role), Trim(body.comment.value),
                           TrimOrNull(body.email), sessionUserId, false, now);
      (store + [t], Posted(t))
  }

  /** The bounds are inclusive: comments of exactly 10 and exactly 500 characters are accepted. */
  lemma CommentBoundsInclusive(body: Body, sessionUserId: Option<string>, store: seq<Testimonial>, newId: string, now: int)
    requires TruthyText(body.name) && body.comment.Some? && (|body.comment.value| == MinComment || |body.comment.value| == MaxComment)
    ensures Post(body, sessionUserId, store, newId, now).1.Posted?
  {
  }

  lemma {:induction false} TrimSpacePadded(p: string, s: string)
    requires AllSpace(p) && IsTrimmed(s)
    ensures Trim(p + s) == s
  {
    if |p| > 0 {
      assert p + s == [p[0]] + (p[1..] + s);
      TrimLeadingSpace(p[0], p[1..] + s);
      TrimSpacePadded(p[1..], s);
    }
  }

  /**
   * Padding passes the length check and is then trimmed away: nine spaces
   * and one letter are accepted and stored as a one-character comment.
   */
  lemma PaddedCommentStoredShort(body: Body, sessionUserId: Option<string>, store: seq<Testimonial>, newId: string, now: int)
    requires TruthyText(body.name)
    requires body.comment == Some("         a")
    ensures Post(body, sessionUserId, store, newId, now).1.Posted?
    ensures |Post(body, sessionUserId, store, newId, now).1.testimonial.comment| == 1
  {
    var p := "         ";
    assert body.comment.value == p + "a";
    TrimSpacePadded(p, "a");
  }

  /** A whitespace-only role is kept as an empty string rather than null. */
  lemma BlankRoleStoredEmpty(body: Body, sessionUserId: Option<string>, store: seq<Testimonial>, newId: string, now: int)
    requires Post(body, sessionUserId, store, newId, now).1.Posted?
    requires body.role == Some(" ")
    ensures Post(body, sessionUserId, store, newId, now).1.testimonial.role == Some("")
  {
    TrimOneSpace();
  }

  lemma TrimOneSpace()
    ensures Trim(" ") == ""
  {
    TrimSpacePadded(" ", "");
    assert " " + "" == " ";
  }

  // ---------------------------------------------------------------------
  // GET /api/testimonials
  // ---------------------------------------------------------------------

  const PageSize := 10

  function Approved(store: seq<Testimonial>): (r: seq<Testimonial>)
    ensures |r| <= |store|
    ensures forall i :: 0 <= i < |r| ==> r[i].isApproved && r[i] in store
    ensures forall t :: t in store && t.isApproved ==> t in r
  {
    if |store| == 0 then []
    else if store[0].isApproved then [store[0]] + Approved(store[1..])
    else Approved(store[1..])
  }

  /** Creation order: the store holds testimonials oldest first. */
  predicate Ascending(s: seq<Testimonial>) {
    forall i, j :: 0 <= i < j < |s| ==> s[i].createdAt <= s[j].createdAt
  }

  predicate Descending(s: seq<Testimonial>) {
    forall i, j :: 0 <= i < j < |s| ==> s[i].createdAt >= s[j].createdAt
  }

  /** The public list: approved testimonials, newest first, at most ten. */
  function ListApproved(store: seq<Testimonial>): (r: seq<Testimonial>)
    ensures |r| == if |Approved(store)| < PageSize then |Approved(store)| else PageSize
    ensures forall i :: 0 <= i < |r| ==> r[i].isApproved && r[i] in store
    ensures forall i :: 0 <= i < |r| ==> r[i] == Approved(store)[|Approved(store)| - 1 - i]
  {
    var newestFirst := Reverse(Approved(store));
    if |newestFirst| < PageSize then newestFirst else newestFirst[..PageSize]
  }

  lemma {:induction false} ApprovedAscending(store: seq<Testimonial>)
    requires Ascending(store)
    ensures Ascending(Approved(store))
  {
    if |store| > 0 {
      var rest := store[1..];
      assert Ascending(rest);
      ApprovedAscending(rest);
      if store[0].isApproved {
        var b := Approved(rest);
        forall j | 0 <= j < |b| ensures store[0].createdAt <= b[j].createdAt {
          assert b[j] in rest;
          var k :| 0 <= k < |rest| && rest[k] == b[j];
          assert store[k + 1] == b[j];
        }
        ConsAscending(store[0], b);
      }
    }
  }

  lemma ConsAscending(x: Testimonial, b: seq<Testimonial>)
    requires Ascending(b)
    requires forall j :: 0 <= j < |b| ==> x.createdAt <= b[j].createdAt
    ensures Ascending([x] + b)
  {
  }

  /**
   * Over a store kept in creation order, the list is newest first, and
   * every approved testimonial left out is no newer than any listed.
   */
  lemma {:induction false} ListIsNewestApproved(store: seq<Testimonial>)
    requires Ascending(store)
    ensures Descending(ListApproved(store))
    ensures var a := Approved(store);
            var r := ListApproved(store);
            forall j, i :: 0 <= j < |a| - |r| && 0 <= i < |r| ==> a[j].createdAt <= r[i].createdAt
  {
    ApprovedAscending(store);
  }

  /** A new testimonial does not appear in the public list until approved. */
  lemma {:induction false} PostedNotListed(body: Body, sessionUserId: Option<string>, store: seq<Testimonial>, newId: string, now: int)
    requires Post(body, sessionUserId, store, newId, now).1.Posted?
    ensures ListApproved(Post(body, sessionUserId, store, newId, now).0) == ListApproved(store)
  {
    var t := Post(body, sessionUserId, store, newId, now).1.testimonial;
    ApprovedSkipsUnapproved(store, t);
  }

  lemma {:induction false} ApprovedSkipsUnapproved(store: seq<Testimonial>, t: Testimonial)
    requires !t.isApproved
    ensures Approved(store + [t]) == Approved(store)
  {
    if |store| > 0 {
      assert (store + [t])[1..] == store[1..] + [t];
      ApprovedSkipsUnapproved(store[1..], t);
    } else {
      assert store + [t] == [t];
    }
  }
}

/**
 * Newsletter subscriptions, keyed by the trimmed, lower-cased e-mail of the
 * signed-in user: subscribing, unsubscribing and reading the status. A
 * subscription is absent, active or inactive.
 */
module Newsletter {
  import opened Js

  datatype Subscription = Subscription(userId: Option<string>, isActive: bool)

  type Subscriptions = map<string, Subscription>

  /** Users by e-mail: their ids. */
  type Users = map<string, string>

  /** The subscription key of an address. */
  function Key(email: string): (k: string)
    ensures IsTrimmed(k) && |k| <= |email|
    ensures forall i :: 0 <= i < |k| ==> !('A' <= k[i] <= 'Z')
  {
    LowerKeepsTrimmed(Trim(email));
    Lower(Trim(email))
  }

  /** Normalising a key again changes nothing. */
  lemma KeyIdempotent(email: string)
    ensures Key(Key(email)) == Key(email)
  {
    var t := Trim(email);
    LowerKeepsTrimmed(t);
    LowerIdempotent(t);
  }

  lemma LowerKeepsTrimmed(t: string)
    requires IsTrimmed(t)
    ensures IsTrimmed(Lower(t))
    ensures Trim(Lower(t)) == Lower(t)
  {
    if |t| > 0 {
      assert Lower(t)[0] == LowerChar(t[0]) && Lower(t)[|t| - 1] == LowerChar(t[|t| - 1]);
    }
  }

  datatype Response = Failed(status: int, message: string) | Done(message: string)

  /**
   * POST /api/newsletter/subscribe: no record creates an active one, an
   * inactive record is reactivated for this user, an active one is an error.
   */
  function Subscribe(sessionEmail: Option<string>, users: Users, subs: Subscriptions): (r: (Subscriptions, Response))
    ensures !TruthyText(sessionEmail) ==> r == (subs, Failed(401, "Newsletterに登録するにはログインが必要です"))
    ensures TruthyText(sessionEmail) && sessionEmail.value !in users ==> r == (subs, Failed(404, "ユーザー情報が見つかりません"))
    ensures TruthyText(sessionEmail) && sessionEmail.value in users && Key(sessionEmail.value) in subs &&
            subs[Key(sessionEmail.value)].isActive ==>
              r == (subs, Failed(400, "既にNewsletterに登録済みです"))
    ensures r.1.Failed? ==> r.0 == subs
    ensures r.1.Done? <==>
              TruthyText(sessionEmail) && sessionEmail.value in users &&
              !(Key(sessionEmail.value) in subs && subs[Key(sessionEmail.value)].isActive)
    ensures r.1.Done? ==>
              r.0 == subs[Key(sessionEmail.value) := Subscription(Some(users[sessionEmail.value]), true)]
    ensures r.1.Done? ==>
              r.1.message == (if Key(sessionEmail.value) in subs then "Newsletterの購読を再開しました" else "Newsletterの購読登録が完了しました")
  {
    if !TruthyText(sessionEmail) then (subs, Failed(401, "Newsletterに登録するにはログインが必要です"))
    else if sessionEmail.value !in users then (subs, Failed(404, "ユーザー情報が見つかりません"))
    else
      var key := Key(sessionEmail.value);
      var userId := users[sessionEmail.value];
      if key in subs then
        if subs[key].isActive then (subs, Failed(400, "既にNewsletterに登録済みです"))
        else (subs[key := subs[key].(isActive := true, userId := Some(userId))], Done("Newsletterの購読を再開しました"))
      else (subs[key := Subscription(Some(userId), true)], Done("Newsletterの購読登録が完了しました"))
  }

  /** POST /api/newsletter/unsubscribe: only an active record can be deactivated, and only `isActive` changes. */
  function Unsubscribe(sessionEmail: Option<string>, users: Users, subs: Subscriptions): (r: (Subscriptions, Response))
    ensures !TruthyText(sessionEmail) ==> r == (subs, Failed(401, "Newsletterの登録解除にはログインが必要です"))
    ensures TruthyText(sessionEmail) && sessionEmail.value !in users ==> r == (subs, Failed(404, "ユーザー情報が見つかりません"))
    ensures TruthyText(sessionEmail) && sessionEmail.value in users && Key(sessionEmail.value) !in subs ==>
              r == (subs, Failed(404, "Newsletterに登録されていません"))
    ensures TruthyText(sessionEmail) && sessionEmail.value in users && Key(sessionEmail.value) in subs &&
            !subs[Key(sessionEmail.value)].isActive ==>
              r == (subs, Failed(400, "既に配信停止されています"))
    ensures r.1.Failed? ==> r.0 == subs
    ensures r.1.Done? <==>
              TruthyText(sessionEmail) && sessionEmail.value in users &&
              Key(sessionEmail.value) in subs && subs[Key(sessionEmail.value)].isActive
    ensures r.1.Done? ==>
              r.0 == subs[Key(sessionEmail.value) := subs[Key(sessionEmail.value)].(isActive := false)]
  {
    if !TruthyText(sessionEmail) then (subs, Failed(401, "Newsletterの登録解除にはログインが必要です"))
    else if sessionEmail.value !in users then (subs, Failed(404, "ユーザー情報が見つかりません"))
    else
      var key := Key(sessionEmail.value);
      if key !in subs then (subs, Failed(404, "Newsletterに登録されていません"))
      else if !subs[key].isActive then (subs, Failed(400, "既に配信停止されています"))
      else (subs[key := subs[key].(isActive := false)], Done("Newsletterの配信を停止しました"))
  }

  datatype Status = Status(subscribed: bool, isActive: bool)

  /** GET /api/newsletter/status; `lookupFailed` stands for a throwing lookup, which reads as not subscribed. */
  function GetStatus(sessionEmail: Option<string>, subs: Subscriptions, lookupFailed: bool): (s: Status)
    ensures !TruthyText(sessionEmail) || lookupFailed ==> s == Status(false, false)
    ensures TruthyText(sessionEmail) && !lookupFailed ==>
              && (s.subscribed <==> Key(sessionEmail.value) in subs)
              && (s.isActive <==> Key(sessionEmail.value) in subs && subs[Key(sessionEmail.value)].isActive)
    ensures s.isActive ==> s.subscribed
  {
    if !TruthyText(sessionEmail) || lookupFailed then Status(false, false)
    else
      var key := Key(sessionEmail.value);
      Status(key in subs, key in subs && subs[key].isActive)
  }

  // ---------------------------------------------------------------------
  // Properties
  // ---------------------------------------------------------------------

  /** After a successful subscription the status reads subscribed and active. */
  lemma SubscribeThenActive(email: string, users: Users, subs: Subscriptions)
    requires Subscribe(Some(email), users, subs).1.Done?
    ensures GetStatus(Some(email), Subscribe(Some(email), users, subs).0, false) == Status(true, true)
  {
  }

  /** Unsubscribing right after a successful subscription always succeeds, and a second unsubscribe is refused. */
  lemma SubscribeUnsubscribe(email: string, users: Users, subs: Subscriptions)
    requires Subscribe(Some(email), users, subs).1.Done?
    ensures var s1 := Subscribe(Some(email), users, subs).0;
            var u := Unsubscribe(Some(email), users, s1);
            && u.1.Done?
            && GetStatus(Some(email), u.0, false) == Status(true, false)
            && Unsubscribe(Some(email), users, u.0) == (u.0, Failed(400, "既に配信停止されています"))
  {
  }

  /** Unsubscribing then subscribing again restores an active record for this user. */
  lemma UnsubscribeResubscribe(email: string, users: Users, subs: Subscriptions)
    requires Unsubscribe(Some(email), users, subs).1.Done?
    ensures var s1 := Unsubscribe(Some(email), users, subs).0;
            var s2 := Subscribe(Some(email), users, s1);
            && s2.1 == Done("Newsletterの購読を再開しました")
            && s2.0[Key(email)] == Subscription(Some(users[email]), true)
  {
  }

  /** Subscribing changes only the caller's record. */
  lemma SubscribeOnlyOwnRecord(email: string, users: Users, subs: Subscriptions, other: string)
    requires other != Key(email)
    ensures var s' := Subscribe(Some(email), users, subs).0;
            (other in s' <==> other in subs) && (other in subs ==> s'[other] == subs[other])
  {
  }

  /** Unsubscribing changes only the caller's record. */
  lemma UnsubscribeOnlyOwnRecord(email: string, users: Users, subs: Subscriptions, other: string)
    requires other != Key(email)
    ensures var s' := Unsubscribe(Some(email), users, subs).0;
            (other in s' <==> other in subs) && (other in subs ==> s'[other] == subs[other])
  {
  }

  /** Addresses differing only in case or surrounding space share one subscription. */
  lemma SpellingsShareStatus(a: string, b: string, subs: Subscriptions)
    requires a != "" && b != "" && Key(a) == Key(b)
    ensures GetStatus(Some(a), subs, false) == GetStatus(Some(b), subs, false)
  {
  }
}

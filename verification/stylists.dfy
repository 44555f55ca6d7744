/**
 * Stylists: applying to become one (form and route), an administrator
 * creating one (form and route), the public list with rating summaries,
 * and the list of stylists a user has consulted.
 */
module Stylists {
  import opened Js
  import Inquiries

  /** A `specialties` value as received or stored: an array, a string holding JSON, or anything else. */
  datatype SpecialtiesValue = ArrayOf(items: seq<string>) | Text(json: string) | OtherValue

  /** `JSON.parse` of a specialties string: `None` when it throws. */
  type JsonList = string -> Option<seq<string>>

  /**
   * The normalisation used when a stylist is created by an administrator
   * and whenever stylists are listed: arrays are kept, strings are parsed,
   * anything else is []. `None` when parsing throws.
   */
  function NormaliseSpecialties(v: SpecialtiesValue, parse: JsonList): (r: Option<seq<string>>)
    ensures v.ArrayOf? ==> r == Some(v.items)
    ensures v.Text? ==> r == parse(v.json)
    ensures v.OtherValue? ==> r == Some([])
  {
    match v
    case ArrayOf(items) => Some(items)
    case Text(json) => parse(json)
    case OtherValue => Some([])
  }

  datatype Stylist = Stylist(
    id: string, name: string, nameEn: Option<string>, bio: string, specialties: SpecialtiesValue,
    image: Option<string>, email: string, password: Option<string>, isActive: bool, createdAt: int)

  datatype Application = Application(
    id: string, name: string, nameEn: Option<string>, bio: string, specialties: seq<string>,
    image: Option<string>, email: string, password: Option<string>, status: string)

  predicate EmailTaken(stylists: seq<Stylist>, email: string) {
    exists i :: 0 <= i < |stylists| && stylists[i].email == email
  }

  predicate PendingApplication(apps: seq<Application>, email: string) {
    exists i :: 0 <= i < |apps| && apps[i].email == email && apps[i].status == "pending"
  }

  /** `password ? hash(password) : null`. */
  function HashOrNull(password: Option<string>, hash: string -> string): (r: Option<string>)
    ensures r.None? <==> !TruthyText(password)
    ensures r.Some? ==> r.value == hash(password.value)
  {
    if TruthyText(password) then Some(hash(password.value)) else None
  }

  // ---------------------------------------------------------------------
  // POST /api/stylists/apply
  // ---------------------------------------------------------------------

  datatype ApplyBody = ApplyBody(
    name: Option<string>, nameEn: Option<string>, bio: Option<string>, specialties: SpecialtiesValue,
    image: Option<string>, email: Option<string>, password: Option<string>)

  datatype ApplyResponse = ApplyError(status: int, message: string) | Applied(application: Application)

  /**
   * An application needs name, bio and e-mail; the e-mail must belong to
   * no stylist and to no pending application. A new application is
   * "pending"; a non-array `specialties` is stored as [].
   */
  function Apply(body: ApplyBody, stylists: seq<Stylist>, apps: seq<Application>, newId: string, hash: string -> string): (r: (seq<Application>, ApplyResponse))
    ensures !TruthyText(body.name) || !TruthyText(body.bio) || !TruthyText(body.email) ==>
              r == (apps, ApplyError(400, "名前、自己紹介、メールアドレスは必須です"))
    ensures TruthyText(body.name) && TruthyText(body.bio) && TruthyText(body.email) && EmailTaken(stylists, body.email.value) ==>
              r == (apps, ApplyError(400, "このメールアドレスは既に登録されています"))
    ensures TruthyText(body.name) && TruthyText(body.bio) && TruthyText(body.email) && !EmailTaken(stylists, body.email.value) &&
            PendingApplication(apps, body.email.value) ==>
              r == (apps, ApplyError(400, "このメールアドレスで既に申請が送信されています。審査をお待ちください。"))
    ensures r.1.Applied? <==>
              TruthyText(body.name) && TruthyText(body.bio) && TruthyText(body.email) &&
              !EmailTaken(stylists, body.email.value) && !PendingApplication(apps, body.email.value)
    ensures r.1.ApplyError? ==> r.0 == apps
    ensures r.1.Applied? ==>
              && r.0 == apps + [r.1.application]
              && r.1.application == Application(newId, body.name.value, NullableOrNull(body.nameEn), body.bio.value,
                                                if body.specialties.ArrayOf? then body.specialties.items else [],
                                                NullableOrNull(body.image), body.email.value, HashOrNull(body.password, hash), "pending")
  {
    if !TruthyText(body.name) || !TruthyText(body.bio) || !TruthyText(body.email) then
      (apps, ApplyError(400, "名前、自己紹介、メールアドレスは必須です"))
    else if EmailTaken(stylists, body.email.value) then
      (apps, ApplyError(400, "このメールアドレスは既に登録されています"))
    else if PendingApplication(apps, body.email.value) then
      (apps, ApplyError(400, "このメールアドレスで既に申請が送信されています。審査をお待ちください。"))
    else
      var a := Application(newId, body.name.value, NullableOrNull(body.nameEn), body.bio.value,
                           if body.specialties.ArrayOf? then body.specialties.items else [],
                           NullableOrNull(body.image), body.email.value, HashOrNull(body.password, hash), "pending");
      (apps + [a], Applied(a))
  }

  /** A second application with the same e-mail is refused while the first is pending. */
  lemma ApplyTwiceRefused(body: ApplyBody, stylists: seq<Stylist>, apps: seq<Application>, id1: string, id2: string, hash: string -> string)
    requires Apply(body, stylists, apps, id1, hash).1.Applied?
    ensures var apps1 := Apply(body, stylists, apps, id1, hash).0;
            Apply(body, stylists, apps1, id2, hash).1 == ApplyError(400, "このメールアドレスで既に申請が送信されています。審査をお待ちください。")
  {
    var apps1 := Apply(body, stylists, apps, id1, hash).0;
    assert apps1[|apps|].email == body.email.value && apps1[|apps|].status == "pending";
  }

  /** Approved and rejected applications do not block a new one. */
  lemma DecidedApplicationsDoNotBlock(body: ApplyBody, stylists: seq<Stylist>, apps: seq<Application>, newId: string, hash: string -> string)
    requires TruthyText(body.name) && TruthyText(body.bio) && TruthyText(body.email) && !EmailTaken(stylists, body.email.value)
    requires forall i :: 0 <= i < |apps| && apps[i].email == body.email.value ==> apps[i].status in {"approved", "rejected"}
    ensures Apply(body, stylists, apps, newId, hash).1.Applied?
  {
  }

  // ---------------------------------------------------------------------
  // The application form
  // ---------------------------------------------------------------------

  datatype ApplyForm = ApplyForm(name: string, nameEn: string, bio: string, specialties: string,
                                 image: string, email: string, password: string)

  const EmptyApplyForm := ApplyForm("", "", "", "", "", "", "")

  /** The request body the form sends: specialties parsed, empty optional fields as null. */
  function ApplyPayload(f: ApplyForm): (b: ApplyBody)
    ensures b.name == Some(f.name) && b.bio == Some(f.bio) && b.email == Some(f.email)
    ensures b.specialties == ArrayOf(ParseCommaList(f.specialties))
    ensures b.nameEn == OrNull(f.nameEn) && b.image == OrNull(f.image) && b.password == OrNull(f.password)
  {
    ApplyBody(Some(f.name), OrNull(f.nameEn), Some(f.bio), ArrayOf(ParseCommaList(f.specialties)),
              OrNull(f.image), Some(f.email), OrNull(f.password))
  }

  /** The page's state around a submission. */
  datatype ApplyPage = ApplyPage(form: ApplyForm, error: string, submitting: bool, success: bool)

  /** The response as seen by the page: ok, or not ok with the error text of its body. */
  datatype PageResponse = ResponseOk | ResponseNotOk(error: Option<string>) | RequestThrew

  /** `handleSubmit`'s outcome: reset on success, the error shown otherwise. */
  function AfterApply(p: ApplyPage, response: PageResponse): (q: ApplyPage)
    ensures response.ResponseOk? ==> q.success && q.form == EmptyApplyForm
    ensures !response.ResponseOk? ==> q.form == p.form && !q.submitting && !q.success
    ensures response.ResponseNotOk? ==> q.error == (if TruthyText(response.error) then response.error.value else "申請の送信に失敗しました")
    ensures response.RequestThrew? ==> q.error == "申請の送信に失敗しました"
  {
    match response
    case ResponseOk => ApplyPage(EmptyApplyForm, "", true, true)
    case ResponseNotOk(error) => ApplyPage(p.form, if TruthyText(error) then error.value else "申請の送信に失敗しました", false, false)
    case RequestThrew => ApplyPage(p.form, "申請の送信に失敗しました", false, false)
  }

  /**
   * A form that the route accepts stores exactly the specialties the page
   * parsed, and a blank password as no password.
   */
  lemma FormApplicationStored(f: ApplyForm, stylists: seq<Stylist>, apps: seq<Application>, newId: string, hash: string -> string)
    requires Apply(ApplyPayload(f), stylists, apps, newId, hash).1.Applied?
    ensures var a := Apply(ApplyPayload(f), stylists, apps, newId, hash).1.application;
            a.specialties == ParseCommaList(f.specialties) && (f.password == "" ==> a.password.None?) &&
            a.nameEn == OrNull(f.nameEn) && a.image == OrNull(f.image)
  {
  }

  // ---------------------------------------------------------------------
  // POST /api/admin/stylists
  // ---------------------------------------------------------------------

  /** The body; `isActive` is `None` when undefined. */
  datatype StylistBody = StylistBody(
    name: Option<string>, nameEn: Option<string>, bio: Option<string>, specialties: SpecialtiesValue,
    image: Option<string>, email: Option<string>, password: Option<string>, isActive: Option<bool>)

  datatype CreateResponse = CreateError(status: int, message: string) | CreatedStylist(stylist: Stylist)

  /**
   * Creating a stylist: name, e-mail and bio are required and the e-mail
   * must be new. `isActive` defaults to true only when undefined. The route
   * itself performs no administrator check.
   */
  function CreateStylist(body: StylistBody, stylists: seq<Stylist>, newId: string, now: int,
                         hash: string -> string, parse: JsonList): (r: (seq<Stylist>, CreateResponse))
    ensures !TruthyText(body.name) || !TruthyText(body.email) || !TruthyText(body.bio) ==>
              r == (stylists, CreateError(400, "名前、メールアドレス、自己紹介は必須です"))
    ensures TruthyText(body.name) && TruthyText(body.email) && TruthyText(body.bio) && EmailTaken(stylists, body.email.value) ==>
              r == (stylists, CreateError(400, "このメールアドレスは既に登録されています"))
    ensures r.1.CreateError? ==> r.0 == stylists
    ensures r.1.CreatedStylist? <==>
              TruthyText(body.name) && TruthyText(body.email) && TruthyText(body.bio) && !EmailTaken(stylists, body.email.value) &&
              NormaliseSpecialties(body.specialties, parse).Some?
    ensures r.1.CreatedStylist? ==>
              && r.0 == stylists + [r.1.stylist]
              && r.1.stylist.email == body.email.value && r.1.stylist.name == body.name.value && r.1.stylist.bio == body.bio.value
              && r.1.stylist.isActive == body.isActive.GetOr(true)
              && r.1.stylist.specialties == ArrayOf(NormaliseSpecialties(body.specialties, parse).value)
              && r.1.stylist.nameEn == NullableOrNull(body.nameEn) && r.1.stylist.image == NullableOrNull(body.image)
              && r.1.stylist.password == HashOrNull(body.password, hash)
  {
    if !TruthyText(body.name) || !TruthyText(body.email) || !TruthyText(body.bio) then
      (stylists, CreateError(400, "名前、メールアドレス、自己紹介は必須です"))
    else if EmailTaken(stylists, body.email.value) then
      (stylists, CreateError(400, "このメールアドレスは既に登録されています"))
    else
      var specialties := NormaliseSpecialties(body.specialties, parse);
      if specialties.None? then (stylists, CreateError(500, "スタイリストの登録に失敗しました"))
      else
        var s := Stylist(newId, body.name.value, NullableOrNull(body.nameEn), body.bio.value, ArrayOf(specialties.value),
                         NullableOrNull(body.image), body.email.value, HashOrNull(body.password, hash),
                         body.isActive.GetOr(true), now);
        (stylists + [s], CreatedStylist(s))
  }

  /** Creation keeps e-mails unique among stylists. */
  lemma CreateKeepsEmailsUnique(body: StylistBody, stylists: seq<Stylist>, newId: string, now: int, hash: string -> string, parse: JsonList)
    requires forall i, j :: 0 <= i < j < |stylists| ==> stylists[i].email != stylists[j].email
    ensures var s' := CreateStylist(body, stylists, newId, now, hash, parse).0;
            forall i, j :: 0 <= i < j < |s'| ==> s'[i].email != s'[j].email
  {
  }

  // ---------------------------------------------------------------------
  // The administrator's new-stylist form
  // ---------------------------------------------------------------------

  datatype StylistForm = StylistForm(name: string, nameEn: string, bio: string, specialties: string,
                                     image: string, email: string, password: string, isActive: bool)

  /** The form starts empty and active. */
  const InitialStylistForm := StylistForm("", "", "", "", "", "", "", true)

  datatype TextField = NameField | NameEnField | BioField | SpecialtiesField | ImageField | EmailField | PasswordField

  /** A text input stores its string value in its field. */
  function SetText(f: StylistForm, field: TextField, value: string): (g: StylistForm)
    ensures g.isActive == f.isActive
    ensures g.name == (if field == NameField then value else f.name)
    ensures g.nameEn == (if field == NameEnField then value else f.nameEn)
    ensures g.bio == (if field == BioField then value else f.bio)
    ensures g.specialties == (if field == SpecialtiesField then value else f.specialties)
    ensures g.image == (if field == ImageField then value else f.image)
    ensures g.email == (if field == EmailField then value else f.email)
    ensures g.password == (if field == PasswordField then value else f.password)
  {
    match field
    case NameField => f.(name := value)
    case NameEnField => f.(nameEn := value)
    case BioField => f.(bio := value)
    case SpecialtiesField => f.(specialties := value)
    case ImageField => f.(image := value)
    case EmailField => f.(email := value)
    case PasswordField => f.(password := value)
  }

  /** The checkbox stores its checked state, and nothing else changes. */
  function SetChecked(f: StylistForm, checked: bool): (g: StylistForm)
    ensures g.isActive == checked
    ensures g.(isActive := f.isActive) == f
  {
    f.(isActive := checked)
  }

  /** The request body of the form: as for an application, plus `isActive` as set. */
  function StylistPayload(f: StylistForm): (b: StylistBody)
    ensures b.name == Some(f.name) && b.bio == Some(f.bio) && b.email == Some(f.email)
    ensures b.specialties == ArrayOf(ParseCommaList(f.specialties))
    ensures b.nameEn == OrNull(f.nameEn) && b.image == OrNull(f.image) && b.password == OrNull(f.password)
    ensures b.isActive == Some(f.isActive)
  {
    StylistBody(Some(f.name), OrNull(f.nameEn), Some(f.bio), ArrayOf(ParseCommaList(f.specialties)),
                OrNull(f.image), Some(f.email), OrNull(f.password), Some(f.isActive))
  }

  /** An unticked checkbox creates an inactive stylist: the explicit false is not replaced by the default. */
  lemma UntickedCreatesInactive(f: StylistForm, stylists: seq<Stylist>, newId: string, now: int, hash: string -> string, parse: JsonList)
    requires CreateStylist(StylistPayload(SetChecked(f, false)), stylists, newId, now, hash, parse).1.CreatedStylist?
    ensures !CreateStylist(StylistPayload(SetChecked(f, false)), stylists, newId, now, hash, parse).1.stylist.isActive
  {
  }

  /** A form the page sends never needs `JSON.parse`: its specialties arrive as an array. */
  lemma FormSpecialtiesStoredAsParsed(f: StylistForm, stylists: seq<Stylist>, newId: string, now: int, hash: string -> string, parse: JsonList)
    requires f.name != "" && f.email != "" && f.bio != "" && !EmailTaken(stylists, f.email)
    ensures var r := CreateStylist(StylistPayload(f), stylists, newId, now, hash, parse);
            r.1.CreatedStylist? && r.1.stylist.specialties == ArrayOf(ParseCommaList(f.specialties))
  {
  }

  // ---------------------------------------------------------------------
  // GET /api/stylists
  // ---------------------------------------------------------------------

  /** The rating aggregate of one stylist: its count and average, or a failed lookup. */
  datatype Aggregate = AggregateFailed | Aggregate(count: nat, average: Option<real>)

  datatype Listed = Listed(stylist: Stylist, specialties: seq<string>, averageRating: Option<real>, ratingCount: nat)

  /** The rating summary: the average only when there is at least one rating; nothing after a failed lookup. */
  function Summary(a: Aggregate): (r: (Option<real>, nat))
    ensures r.0.Some? ==> r.1 > 0
    ensures a.AggregateFailed? ==> r == (None, 0)
    ensures a.Aggregate? ==> r.1 == a.count && (r.0.Some? <==> a.count > 0 && a.average.Some?)
    ensures r.0.Some? ==> r.0 == a.average
  {
    match a
    case AggregateFailed => (None, 0)
    case Aggregate(count, average) => (if count > 0 && average.Some? then average else None, count)
  }

  /** The stylists listed: all of them with `all=true`, otherwise the active ones, in store order. */
  function Visible(stylists: seq<Stylist>, all: Option<string>): (r: seq<Stylist>)
    ensures |r| <= |stylists|
    ensures all == Some("true") ==> r == stylists
    ensures forall i :: 0 <= i < |r| ==> r[i] in stylists && (all == Some("true") || r[i].isActive)
    ensures forall s :: s in stylists && (all == Some("true") || s.isActive) ==> s in r
  {
    if |stylists| == 0 then []
    else if all == Some("true") || stylists[0].isActive then [stylists[0]] + Visible(stylists[1..], all)
    else Visible(stylists[1..], all)
  }

  /** Each stylist with its normalised specialties and rating summary; `None` when a specialties string fails to parse. */
  function Annotate(ss: seq<Stylist>, aggregate: string -> Aggregate, parse: JsonList): (r: Option<seq<Listed>>)
    ensures r.None? <==> exists i :: 0 <= i < |ss| && NormaliseSpecialties(ss[i].specialties, parse).None?
    ensures r.Some? ==> |r.value| == |ss|
    ensures r.Some? ==> forall i :: 0 <= i < |ss| ==>
              && r.value[i].stylist == ss[i]
              && Some(r.value[i].specialties) == NormaliseSpecialties(ss[i].specialties, parse)
              && (r.value[i].averageRating, r.value[i].ratingCount) == Summary(aggregate(ss[i].id))
  {
    if |ss| == 0 then Some([])
    else
      var rest := Annotate(ss[1..], aggregate, parse);
      var specialties := NormaliseSpecialties(ss[0].specialties, parse);
      assert forall i :: 1 <= i < |ss| ==> ss[i] == ss[1..][i - 1];
      if specialties.None? then None
      else if rest.None? then None
      else
        var summary := Summary(aggregate(ss[0].id));
        Some([Listed(ss[0], specialties.value, summary.0, summary.1)] + rest.value)
  }

  /** GET /api/stylists; `None` stands for the 500 answer when a specialties string fails to parse. */
  function ListStylists(stylists: seq<Stylist>, all: Option<string>, aggregate: string -> Aggregate, parse: JsonList): (r: Option<seq<Listed>>)
    ensures r.None? <==> exists i :: 0 <= i < |Visible(stylists, all)| && NormaliseSpecialties(Visible(stylists, all)[i].specialties, parse).None?
    ensures r.Some? ==> |r.value| == |Visible(stylists, all)|
    ensures r.Some? ==> forall i :: 0 <= i < |r.value| ==> r.value[i].stylist == Visible(stylists, all)[i]
    ensures r.Some? && all == Some("true") ==> |r.value| == |stylists|
    ensures r.Some? && all != Some("true") ==> forall i :: 0 <= i < |r.value| ==> r.value[i].stylist.isActive
    ensures r.Some? ==> forall i :: 0 <= i < |r.value| ==>
              && r.value[i].stylist in stylists
              && Some(r.value[i].specialties) == NormaliseSpecialties(r.value[i].stylist.specialties, parse)
              && (r.value[i].averageRating, r.value[i].ratingCount) == Summary(aggregate(r.value[i].stylist.id))
    ensures r.Some? ==> forall i :: 0 <= i < |r.value| ==> r.value[i].averageRating.Some? ==> r.value[i].ratingCount > 0
  {
    Annotate(Visible(stylists, all), aggregate, parse)
  }

  // ---------------------------------------------------------------------
  // GET /api/users/stylists
  // ---------------------------------------------------------------------

  /** The fields of a stylist returned to the user. */
  datatype Consulted = Consulted(id: string, name: string, nameEn: Option<string>, image: Option<string>,
                                 bio: string, specialties: SpecialtiesValue)

  function Project(s: Stylist): Consulted {
    Consulted(s.id, s.name, s.nameEn, s.image, s.bio, s.specialties)
  }

  /** `prisma.stylist` lookup by id: the first stylist with it. */
  function StylistById(stylists: seq<Stylist>, id: string): (r: Option<Stylist>)
    ensures r.Some? ==> r.value in stylists && r.value.id == id
    ensures r.None? ==> forall i :: 0 <= i < |stylists| ==> stylists[i].id != id
  {
    if |stylists| == 0 then None
    else if stylists[0].id == id then Some(stylists[0])
    else StylistById(stylists[1..], id)
  }

  /** The user's "styling" inquiries that name a stylist, in the order of `inqs` (newest first, as the query sorts them). */
  function StylingInquiries(inqs: seq<Inquiries.Inquiry>, userId: string): (r: seq<Inquiries.Inquiry>)
    ensures forall i :: 0 <= i < |r| ==>
              r[i] in inqs && r[i].userId == Some(userId) && r[i].stylistId.Some? && r[i].inquiryType == "styling"
  {
    if |inqs| == 0 then []
    else
      var rest := StylingInquiries(inqs[1..], userId);
      var q := inqs[0];
      if q.userId == Some(userId) && q.stylistId.Some? && q.inquiryType == "styling" then [q] + rest else rest
  }

  /** The stylist joined to each inquiry; `None` when the id names no stylist. */
  function Joined(inqs: seq<Inquiries.Inquiry>, stylists: seq<Stylist>): (r: seq<Option<Consulted>>)
    requires forall i :: 0 <= i < |inqs| ==> inqs[i].stylistId.Some?
    ensures |r| == |inqs|
    ensures forall i :: 0 <= i < |r| ==>
              r[i] == (var s := StylistById(stylists, inqs[i].stylistId.value); if s.Some? then Some(Project(s.value)) else None)
  {
    seq(|inqs|, i requires 0 <= i < |inqs| =>
      var s := StylistById(stylists, inqs[i].stylistId.value); if s.Some? then Some(Project(s.value)) else None)
  }

  /** The ids among the first `n` joined stylists. */
  function SeenIds(xs: seq<Option<Consulted>>): (ids: set<string>)
    ensures forall id :: id in ids <==> exists k :: 0 <= k < |xs| && xs[k].Some? && xs[k].value.id == id
  {
    if |xs| == 0 then {}
    else
      var last := xs[|xs| - 1];
      var front := SeenIds(xs[..|xs| - 1]);
      assert forall k :: 0 <= k < |xs| - 1 ==> xs[..|xs| - 1][k] == xs[k];
      if last.Some? then front + {last.value.id} else front
  }

  /** The reference de-duplication: a stylist is kept where its id first occurs. */
  function KeepFirst(xs: seq<Option<Consulted>>): (r: seq<Consulted>)
  {
    if |xs| == 0 then []
    else
      var front := xs[..|xs| - 1];
      var last := xs[|xs| - 1];
      if last.Some? && last.value.id !in SeenIds(front) then KeepFirst(front) + [last.value] else KeepFirst(front)
  }

  /** Every kept stylist comes from the input. */
  lemma {:induction false} KeepFirstFromInput(xs: seq<Option<Consulted>>)
    ensures forall i :: 0 <= i < |KeepFirst(xs)| ==> Some(KeepFirst(xs)[i]) in xs && KeepFirst(xs)[i].id in SeenIds(xs)
  {
    if |xs| > 0 {
      var front := xs[..|xs| - 1];
      KeepFirstFromInput(front);
      assert forall k :: 0 <= k < |front| ==> front[k] == xs[k];
    }
  }

  /** No id is kept twice. */
  lemma {:induction false} KeepFirstDistinct(xs: seq<Option<Consulted>>)
    ensures forall i, j :: 0 <= i < j < |KeepFirst(xs)| ==> KeepFirst(xs)[i].id != KeepFirst(xs)[j].id
  {
    if |xs| > 0 {
      var front := xs[..|xs| - 1];
      KeepFirstDistinct(front);
      KeepFirstFromInput(front);
    }
  }

  predicate HasId(r: seq<Consulted>, id: string) {
    exists i :: 0 <= i < |r| && r[i].id == id
  }

  /** Every id of the input is kept. */
  lemma {:induction false} KeepFirstCovers(xs: seq<Option<Consulted>>)
    ensures forall k :: 0 <= k < |xs| && xs[k].Some? ==> HasId(KeepFirst(xs), xs[k].value.id)
  {
    if |xs| > 0 {
      var front := xs[..|xs| - 1];
      var r := KeepFirst(xs);
      var f := KeepFirst(front);
      KeepFirstCovers(front);
      assert f <= r;
      assert forall id :: HasId(f, id) ==> HasId(r, id) by {
        forall id | HasId(f, id) ensures HasId(r, id) {
          var i :| 0 <= i < |f| && f[i].id == id;
          assert r[i] == f[i];
        }
      }
      forall k | 0 <= k < |xs| && xs[k].Some? ensures HasId(r, xs[k].value.id) {
        var id := xs[k].value.id;
        if k < |front| {
          assert front[k] == xs[k];
        } else if id in SeenIds(front) {
          var k' :| 0 <= k' < |front| && front[k'].Some? && front[k'].value.id == id;
        } else {
          assert r[|r| - 1].id == id;
        }
      }
    }
  }

  /**
   * The loop of the route: walk the joined stylists in order, skip missing
   * ones and ids already seen, collect the rest.
   */
  method Dedupe(xs: seq<Option<Consulted>>) returns (unique: seq<Consulted>)
    ensures unique == KeepFirst(xs)
    ensures forall i, j :: 0 <= i < j < |unique| ==> unique[i].id != unique[j].id
    ensures forall i :: 0 <= i < |unique| ==> Some(unique[i]) in xs
    ensures forall k :: 0 <= k < |xs| && xs[k].Some? ==> HasId(unique, xs[k].value.id)
  {
    var seen: set<string> := {};
    unique := [];
    var n := 0;
    while n < |xs|
      invariant 0 <= n <= |xs|
      invariant seen == SeenIds(xs[..n])
      invariant unique == KeepFirst(xs[..n])
    {
      var x := xs[n];
      assert xs[..n + 1][..n] == xs[..n];
      if x.Some? && x.value.id !in seen {
        seen := seen + {x.value.id};
        unique := unique + [x.value];
      }
      n := n + 1;
    }
    assert xs[..n] == xs;
    KeepFirstFromInput(xs);
    KeepFirstDistinct(xs);
    KeepFirstCovers(xs);
  }

  datatype WithRating = WithRating(stylist: Consulted, specialties: seq<string>, averageRating: real, ratingCount: nat)

  datatype ConsultedResponse = NotSignedIn | ConsultedList(stylists: seq<WithRating>) | ConsultedFailed

  /** `avg || 0` and `count || 0` on an aggregate that was read: no ratings read as 0. */
  function RatingOrZero(a: Aggregate): (r: (real, nat))
    requires a.Aggregate?
    ensures a.average.None? ==> r.0 == 0.0
    ensures a.average.Some? ==> r.0 == a.average.value
    ensures r.1 == a.count
    ensures a.count == 0 && a.average.None? ==> r == (0.0, 0)
  {
    (a.average.GetOr(0.0), a.count)
  }

  /** The stylists the route rates: those of the user's styling inquiries, each once, at its first occurrence. */
  function ConsultedUnique(userId: string, inqs: seq<Inquiries.Inquiry>, stylists: seq<Stylist>): seq<Consulted> {
    KeepFirst(Joined(StylingInquiries(inqs, userId), stylists))
  }

  /** Some stylist to be rated has a failing rating lookup or a specialties string that does not parse. */
  predicate SomeRatingFails(unique: seq<Consulted>, aggregate: string -> Aggregate, parse: JsonList) {
    exists i :: 0 <= i < |unique| && (aggregate(unique[i].id).AggregateFailed? || NormaliseSpecialties(unique[i].specialties, parse).None?)
  }

  /**
   * The `Promise.all` over the unique stylists: each gets its normalised
   * specialties and its rating, 0 when there is none; one failing lookup or
   * parse fails the whole answer.
   */
  method RateAll(unique: seq<Consulted>, aggregate: string -> Aggregate, parse: JsonList) returns (r: Option<seq<WithRating>>)
    ensures r.None? <==> SomeRatingFails(unique, aggregate, parse)
    ensures r.Some? ==> |r.value| == |unique|
    ensures r.Some? ==> forall i :: 0 <= i < |unique| ==>
              && r.value[i].stylist == unique[i]
              && aggregate(unique[i].id).Aggregate?
              && (r.value[i].averageRating, r.value[i].ratingCount) == RatingOrZero(aggregate(unique[i].id))
              && Some(r.value[i].specialties) == NormaliseSpecialties(unique[i].specialties, parse)
  {
    var out: seq<WithRating> := [];
    var n := 0;
    while n < |unique|
      invariant 0 <= n <= |unique|
      invariant |out| == n
      invariant forall i :: 0 <= i < n ==>
                  && out[i].stylist == unique[i]
                  && aggregate(unique[i].id).Aggregate?
                  && (out[i].averageRating, out[i].ratingCount) == RatingOrZero(aggregate(unique[i].id))
                  && Some(out[i].specialties) == NormaliseSpecialties(unique[i].specialties, parse)
    {
      var specialties := NormaliseSpecialties(unique[n].specialties, parse);
      if aggregate(unique[n].id).AggregateFailed? || specialties.None? {
        return None;
      }
      var rating := RatingOrZero(aggregate(unique[n].id));
      out := out + [WithRating(unique[n], specialties.value, rating.0, rating.1)];
      n := n + 1;
    }
    r := Some(out);
  }

  /** Every stylist kept from the joined inquiries is named by one of the user's styling inquiries. */
  lemma ConsultedFromInquiries(userId: string, inqs: seq<Inquiries.Inquiry>, stylists: seq<Stylist>)
    ensures var unique := ConsultedUnique(userId, inqs, stylists);
            forall i :: 0 <= i < |unique| ==>
              exists q :: q in inqs && q.userId == Some(userId) && q.inquiryType == "styling" && q.stylistId == Some(unique[i].id)
  {
    var styling := StylingInquiries(inqs, userId);
    var joined := Joined(styling, stylists);
    var unique := KeepFirst(joined);
    KeepFirstFromInput(joined);
    forall i | 0 <= i < |unique|
      ensures exists q :: q in inqs && q.userId == Some(userId) && q.inquiryType == "styling" && q.stylistId == Some(unique[i].id)
    {
      var k :| 0 <= k < |joined| && joined[k] == Some(unique[i]);
      assert styling[k] in inqs;
    }
  }

  /**
   * GET /api/users/stylists: 401 without a signed-in user; otherwise the
   * distinct stylists of the user's "styling" inquiries, first occurrence
   * first, each with its rating (0 when there is none). A failing rating
   * lookup or specialties parse fails the whole answer.
   *
   * `inqs` is the inquiry table as the query reads it, `createdAt` newest
   * first. The `Inquiries` store keeps creation order, so a caller holding
   * that store passes `Js.Reverse(store)`; "first occurrence" then means
   * the most recent inquiry with that stylist.
   */
  method ConsultedStylists(userId: Option<string>, inqs: seq<Inquiries.Inquiry>, stylists: seq<Stylist>,
                           aggregate: string -> Aggregate, parse: JsonList) returns (r: ConsultedResponse)
    ensures !TruthyText(userId) <==> r.NotSignedIn?
    ensures TruthyText(userId) ==>
              (r.ConsultedFailed? <==> SomeRatingFails(ConsultedUnique(userId.value, inqs, stylists), aggregate, parse))
    ensures r.ConsultedList? ==>
              var unique := ConsultedUnique(userId.value, inqs, stylists);
              |r.stylists| == |unique| && forall i :: 0 <= i < |unique| ==> r.stylists[i].stylist == unique[i]
    ensures r.ConsultedList? ==> forall i, j :: 0 <= i < j < |r.stylists| ==> r.stylists[i].stylist.id != r.stylists[j].stylist.id
    ensures r.ConsultedList? ==> forall i :: 0 <= i < |r.stylists| ==>
              exists q :: q in inqs && q.userId == userId && q.inquiryType == "styling" && q.stylistId == Some(r.stylists[i].stylist.id)
    ensures r.ConsultedList? ==> forall i :: 0 <= i < |r.stylists| ==>
              && aggregate(r.stylists[i].stylist.id).Aggregate?
              && (r.stylists[i].averageRating, r.stylists[i].ratingCount) == RatingOrZero(aggregate(r.stylists[i].stylist.id))
              && Some(r.stylists[i].specialties) == NormaliseSpecialties(r.stylists[i].stylist.specialties, parse)
  {
    if !TruthyText(userId) {
      return NotSignedIn;
    }
    var joined := Joined(StylingInquiries(inqs, userId.value), stylists);
    var unique := Dedupe(joined);
    var rated := RateAll(unique, aggregate, parse);
    if rated.None? {
      return ConsultedFailed;
    }
    ConsultedFromInquiries(userId.value, inqs, stylists);
    r := ConsultedList(rated.value);
  }
}

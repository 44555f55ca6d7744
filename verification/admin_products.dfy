/**
 * Adding and listing products in the admin area: the create route, the two
 * new-product forms that post to it, and the product list page with its
 * delete action.
 */
module AdminProducts {
  import opened Js
  import opened Json
  import AdminAuth
  import Base64

  datatype Product = Product(
    id: string, slug: string, name: string, price: string, tagline: string, description: string,
    image: string, stock: Json, shipping: string, care: string,
    badges: Json, features: Json, specs: Json, images: Json)

  /** The products by slug; the slug is unique. */
  type Products = map<string, Product>

  /** The fields read from the request body; `Undefined` when absent. */
  datatype ProductBody = ProductBody(
    slug: Json, name: Json, price: Json, tagline: Json, description: Json, image: Json, stock: Json,
    shipping: Json, care: Json, badges: Json, features: Json, specs: Json, images: Json)

  /** `const { slug, … } = body`: `None` when destructuring throws, i.e. for `null` and `undefined`. */
  function Destructure(body: Json): (r: Option<ProductBody>)
    ensures r.None? <==> body.Null? || body.Undefined?
    ensures r.Some? && !body.Obj? ==> r.value.slug == Undefined && r.value.specs == Undefined
  {
    if body.Null? || body.Undefined? then None
    else Some(ProductBody(Get(body, "slug"), Get(body, "name"), Get(body, "price"), Get(body, "tagline"),
                          Get(body, "description"), Get(body, "image"), Get(body, "stock"), Get(body, "shipping"),
                          Get(body, "care"), Get(body, "badges"), Get(body, "features"), Get(body, "specs"),
                          Get(body, "images")))
  }

  datatype ProductResponse = Rejected(status: int, message: string) | Created(product: Product)

  /** The 500 response's text: the thrown error's message, or the fallback when it has none. */
  function ServerErrorText(thrown: string): (m: string)
    ensures m != ""
    ensures thrown != "" ==> m == thrown
  {
    if thrown != "" then thrown else "商品の作成に失敗しました"
  }

  /** `x.trim()` on a required field: `None` when `x` is not a string and `trim` throws. */
  function TrimRequired(j: Json): (r: Option<string>)
    ensures r.Some? <==> j.Str?
    ensures r.Some? ==> r.value == Trim(j.s)
  {
    if j.Str? then Some(Trim(j.s)) else None
  }

  /** `(x || "").trim()`: "" for a falsy value, `None` when a truthy non-string makes `trim` throw. */
  function TrimOptional(j: Json): (r: Option<string>)
    ensures !Truthy(j) ==> r == Some("")
    ensures Truthy(j) ==> (r.Some? <==> j.Str?)
    ensures Truthy(j) && j.Str? ==> r == Some(Trim(j.s))
  {
    if !Truthy(j) then Some("") else TrimRequired(j)
  }

  function ArrayOrEmpty(j: Json): (r: Json)
    ensures j.Arr? ==> r == j
    ensures !j.Arr? ==> r == Arr([])
  {
    if j.Arr? then j else Arr([])
  }

  /** `specs && typeof specs === "object" ? specs : {}`: arrays pass too. */
  function ObjectOrEmpty(j: Json): (r: Json)
    ensures j.Obj? || j.Arr? ==> r == j
    ensures !(j.Obj? || j.Arr?) ==> r == Obj([])
  {
    if Truthy(j) && IsObjectType(j) then j else Obj([])
  }

  predicate MissingRequired(b: ProductBody) {
    !Truthy(b.slug) || !Truthy(b.name) || !Truthy(b.price) || !Truthy(b.description) || !Truthy(b.image)
  }

  /** Every string the new record needs can be read: the required fields are strings, the optional ones strings or falsy. */
  predicate Readable(b: ProductBody) {
    && b.slug.Str? && b.name.Str? && b.price.Str? && b.description.Str? && b.image.Str?
    && TrimOptional(b.tagline).Some? && TrimOptional(b.shipping).Some? && TrimOptional(b.care).Some?
  }

  /** The record `prisma.product.create` receives. */
  function NewProduct(b: ProductBody, newId: string): (p: Product)
    requires Readable(b)
    ensures p.slug == Trim(b.slug.s) && p.name == Trim(b.name.s) && p.price == Trim(b.price.s)
    ensures p.description == Trim(b.description.s) && p.image == Trim(b.image.s)
  {
    Product(newId, Trim(b.slug.s), Trim(b.name.s), Trim(b.price.s), TrimOptional(b.tagline).value,
            Trim(b.description.s), Trim(b.image.s), if Truthy(b.stock) then b.stock else Num(0.0),
            TrimOptional(b.shipping).value, TrimOptional(b.care).value,
            ArrayOrEmpty(b.badges), ArrayOrEmpty(b.features), ObjectOrEmpty(b.specs), ArrayOrEmpty(b.images))
  }

  /**
   * POST /api/admin/products. `body` is `None` when the request body could
   * not be read or destructured; `thrown` is the message of whatever error
   * the body reading, a `trim` or the database raised. The slug is looked
   * up as sent but stored trimmed, so a padded copy of an existing slug
   * passes the check and then fails on the unique constraint.
   */
  function Create(session: AdminAuth.SessionLookup, body: Option<ProductBody>, products: Products,
                  newId: string, thrown: string): (r: (Products, ProductResponse))
    ensures !AdminAuth.IsAdminAuthenticated(session).Authenticated? ==>
              r == (products, Rejected(AdminAuth.IsAdminAuthenticated(session).status, AdminAuth.IsAdminAuthenticated(session).message))
    ensures r.1.Rejected? ==> r.0 == products
    ensures AdminAuth.IsAdminAuthenticated(session).Authenticated? && body.Some? && MissingRequired(body.value) ==>
              r.1 == Rejected(400, "必須項目を入力してください")
    ensures AdminAuth.IsAdminAuthenticated(session).Authenticated? && body.Some? && !MissingRequired(body.value) &&
            body.value.slug.Str? && body.value.slug.s in products ==>
              r.1 == Rejected(400, "このslugは既に使用されています")
    ensures r.1.Created? <==>
              && AdminAuth.IsAdminAuthenticated(session).Authenticated? && body.Some?
              && !MissingRequired(body.value) && Readable(body.value)
              && body.value.slug.s !in products && Trim(body.value.slug.s) !in products
    ensures r.1.Created? ==>
              && r.1.product == NewProduct(body.value, newId)
              && r.0 == products[r.1.product.slug := r.1.product]
              && r.1.product.slug !in products
  {
    var auth := AdminAuth.IsAdminAuthenticated(session);
    if !auth.Authenticated? then (products, Rejected(auth.status, auth.message))
    else if body.None? then (products, Rejected(500, ServerErrorText(thrown)))
    else
      var b := body.value;
      if MissingRequired(b) then (products, Rejected(400, "必須項目を入力してください"))
      else if !b.slug.Str? then (products, Rejected(500, ServerErrorText(thrown)))
      else if b.slug.s in products then (products, Rejected(400, "このslugは既に使用されています"))
      else if !Readable(b) then (products, Rejected(500, ServerErrorText(thrown)))
      else
        var p := NewProduct(b, newId);
        if p.slug in products then (products, Rejected(500, ServerErrorText(thrown)))
        else (products[p.slug := p], Created(p))
  }

  /** Every product sits under its own slug. */
  predicate KeyedBySlug(products: Products) {
    forall s :: s in products ==> products[s].slug == s
  }

  /** Creating keeps the store keyed by slug and never replaces an existing product. */
  lemma CreateKeepsSlugsUnique(session: AdminAuth.SessionLookup, body: Option<ProductBody>, products: Products,
                               newId: string, thrown: string)
    requires KeyedBySlug(products)
    ensures var (p', _) := Create(session, body, products, newId, thrown);
            KeyedBySlug(p') && products.Keys <= p'.Keys && (forall s :: s in products ==> p'[s] == products[s])
  {
  }

  /** A padded copy of an existing slug passes the duplicate check and fails as a server error instead. */
  lemma PaddedDuplicateSlugIsServerError(admin: AdminAuth.SessionUser, b: ProductBody, products: Products,
                                         newId: string, thrown: string)
    requires AdminAuth.IsAdminUser(admin)
    requires !MissingRequired(b) && Readable(b)
    requires b.slug.s == " " + Trim(b.slug.s) && b.slug.s !in products && Trim(b.slug.s) in products
    ensures Create(AdminAuth.Session(admin), Some(b), products, newId, thrown) ==
            (products, Rejected(500, ServerErrorText(thrown)))
  {
    assert b.slug.s != Trim(b.slug.s);
  }

  // ---------------------------------------------------------------------
  // The new-product form
  // ---------------------------------------------------------------------

  datatype ProductForm = ProductForm(
    slug: string, name: string, price: string, tagline: string, description: string, image: string,
    stock: string, shipping: string, care: string, badges: string, features: string, specs: string, images: string)

  /** The empty form; stock starts as "0". */
  const InitialProductForm := ProductForm("", "", "", "", "", "", "0", "", "", "", "", "", "")

  /** The request body the form sends. */
  datatype Payload = Payload(
    slug: string, name: string, price: string, tagline: string, description: string, image: string,
    stock: int, shipping: string, care: string, badges: seq<string>, features: seq<string>,
    images: seq<string>, specs: Json)

  /** The payload, or the specs text that `JSON.parse` rejected. */
  datatype Built = BadSpecs | Ready(payload: Payload)

  const SpecsError := "仕様（specs）のJSON形式が正しくありません。例: {\"size\": \"M\", \"color\": \"Black\"}"

  /**
   * The payload built by `handleSubmit`: the scalar fields trimmed, badges
   * and images split on commas, trimmed and emptied entries dropped, the
   * features split on newlines with empty lines dropped but not trimmed,
   * the stock as `parseInt(…, 10) || 0`, and the specs parsed as JSON
   * unless blank. `parseJson` is `JSON.parse`, `None` where it throws.
   */
  function BuildPayload(f: ProductForm, parseJson: string -> Option<Json>): (r: Built)
    ensures r.BadSpecs? <==> Trim(f.specs) != "" && parseJson(f.specs).None?
    ensures r.Ready? ==>
              && r.payload.slug == Trim(f.slug) && r.payload.name == Trim(f.name) && r.payload.price == Trim(f.price)
              && r.payload.tagline == Trim(f.tagline) && r.payload.description == Trim(f.description)
              && r.payload.image == Trim(f.image) && r.payload.shipping == Trim(f.shipping) && r.payload.care == Trim(f.care)
              && r.payload.stock == IntOrZero(f.stock)
              && r.payload.badges == ParseCommaList(f.badges) && r.payload.images == ParseCommaList(f.images)
              && r.payload.features == ParseLines(f.features)
              && r.payload.specs == (if Trim(f.specs) == "" then Obj([]) else parseJson(f.specs).value)
  {
    var specs: Option<Json> :=
      if f.specs != "" && Trim(f.specs) != "" then parseJson(f.specs) else Some(Obj([]));
    match specs
    case None => BadSpecs
    case Some(j) =>
      Ready(Payload(Trim(f.slug), Trim(f.name), Trim(f.price), Trim(f.tagline), Trim(f.description), Trim(f.image),
                      IntOrZero(f.stock), Trim(f.shipping), Trim(f.care),
                      ParseCommaList(f.badges), ParseLines(f.features), ParseCommaList(f.images), j))
  }

  /** The fields as the route reads them from the JSON the form sends. */
  function ToBody(p: Payload): (b: ProductBody)
    ensures b.slug == Str(p.slug) && b.stock == Num(p.stock as real) && b.badges.Arr? && b.specs == p.specs
  {
    ProductBody(Str(p.slug), Str(p.name), Str(p.price), Str(p.tagline), Str(p.description), Str(p.image),
                Num(p.stock as real), Str(p.shipping), Str(p.care), Strings(p.badges), Strings(p.features),
                p.specs, Strings(p.images))
  }

  function Strings(xs: seq<string>): (j: Json)
    ensures j.Arr? && |j.items| == |xs| && forall i :: 0 <= i < |xs| ==> j.items[i] == Str(xs[i])
  {
    Arr(seq(|xs|, i requires 0 <= i < |xs| => Str(xs[i])))
  }

  /**
   * The server's answer as the form sees it: ok, an error with an optional
   * message, or a thrown request or body read (`thrown` is the `Error`'s
   * message, `None` for a thrown value that is not an `Error`).
   */
  datatype ApiResponse = ApiOk | ApiError(error: Option<string>) | ApiThrew(thrown: Option<string>)

  datatype SubmitOutcome = NotSent(error: string) | SendFailed(payload: Payload, error: string) | Saved(payload: Payload)

  /**
   * `handleSubmit` of the new-product form: a specs error sends nothing; a
   * failed request shows the server's error, and a thrown one its message.
   */
  function SubmitProduct(f: ProductForm, parseJson: string -> Option<Json>, response: ApiResponse): (r: SubmitOutcome)
    ensures r.NotSent? <==> BuildPayload(f, parseJson).BadSpecs?
    ensures r.NotSent? ==> r.error == SpecsError
    ensures !r.NotSent? ==> r.payload == BuildPayload(f, parseJson).payload
    ensures r.Saved? <==> BuildPayload(f, parseJson).Ready? && response.ApiOk?
    ensures r.SendFailed? <==> BuildPayload(f, parseJson).Ready? && !response.ApiOk?
    ensures r.SendFailed? && response.ApiError? ==>
              r.error == (if TruthyText(response.error) then response.error.value else "商品の追加に失敗しました")
    ensures r.SendFailed? && response.ApiThrew? ==>
              r.error == (if response.thrown.Some? then response.thrown.value else "商品の追加に失敗しました")
  {
    match BuildPayload(f, parseJson)
    case BadSpecs => NotSent(SpecsError)
    case Ready(p) =>
      match response
      case ApiOk => Saved(p)
      case ApiError(e) => SendFailed(p, if TruthyText(e) then e.value else "商品の追加に失敗しました")
      case ApiThrew(t) => SendFailed(p, if t.Some? then t.value else "商品の追加に失敗しました")
  }

  /**
   * What the form sends is what the route stores: for a filled-in form
   * whose slug is new, the product carries the trimmed text fields, the
   * parsed lists and the stock as sent.
   */
  lemma {:induction false} FormPayloadStored(admin: AdminAuth.SessionUser, f: ProductForm, parseJson: string -> Option<Json>,
                          products: Products, newId: string, thrown: string)
    requires AdminAuth.IsAdminUser(admin)
    requires BuildPayload(f, parseJson).Ready?
    requires Trim(f.slug) != "" && Trim(f.name) != "" && Trim(f.price) != "" && Trim(f.description) != "" && Trim(f.image) != ""
    requires Trim(f.slug) !in products
    ensures var p := BuildPayload(f, parseJson).payload;
            var r := Create(AdminAuth.Session(admin), Some(ToBody(p)), products, newId, thrown);
            && r.1.Created?
            && r.1.product.slug == Trim(f.slug) && r.1.product.name == Trim(f.name) && r.1.product.price == Trim(f.price)
            && r.1.product.tagline == Trim(f.tagline) && r.1.product.shipping == Trim(f.shipping)
            && r.1.product.badges == Strings(ParseCommaList(f.badges))
            && r.1.product.features == Strings(ParseLines(f.features))
            && r.1.product.images == Strings(ParseCommaList(f.images))
            && r.1.product.stock == (if IntOrZero(f.stock) == 0 then Num(0.0) else Num(IntOrZero(f.stock) as real))
  {
    var p := BuildPayload(f, parseJson).payload;
    assert Trimmed(p);
    PayloadCreates(admin, p, products, newId, thrown);
  }

  /** The text fields of a payload as the form builds them: trimmed. */
  predicate Trimmed(p: Payload) {
    && IsTrimmed(p.slug) && IsTrimmed(p.name) && IsTrimmed(p.price) && IsTrimmed(p.tagline)
    && IsTrimmed(p.description) && IsTrimmed(p.image) && IsTrimmed(p.shipping) && IsTrimmed(p.care)
  }

  /** The route stores a trimmed payload with a new slug as it is, with a zero stock written as `0`. */
  lemma PayloadCreates(admin: AdminAuth.SessionUser, p: Payload, products: Products, newId: string, thrown: string)
    requires AdminAuth.IsAdminUser(admin)
    requires Trimmed(p)
    requires p.slug != "" && p.name != "" && p.price != "" && p.description != "" && p.image != ""
    requires p.slug !in products
    ensures Create(AdminAuth.Session(admin), Some(ToBody(p)), products, newId, thrown).1 ==
            Created(Product(newId, p.slug, p.name, p.price, p.tagline, p.description, p.image,
                            if p.stock == 0 then Num(0.0) else Num(p.stock as real), p.shipping, p.care,
                            Strings(p.badges), Strings(p.features), ObjectOrEmpty(p.specs), Strings(p.images)))
  {
    var b := ToBody(p);
    assert !MissingRequired(b);
    assert Readable(b);
    assert Trim(p.slug) == p.slug;
    StoredAsSent(p, newId);
  }

  lemma StoredAsSent(p: Payload, newId: string)
    requires Trimmed(p)
    requires p.slug != "" && p.name != "" && p.price != "" && p.description != "" && p.image != ""
    ensures NewProduct(ToBody(p), newId) ==
            Product(newId, p.slug, p.name, p.price, p.tagline, p.description, p.image,
                    if p.stock == 0 then Num(0.0) else Num(p.stock as real), p.shipping, p.care,
                    Strings(p.badges), Strings(p.features), ObjectOrEmpty(p.specs), Strings(p.images))
  {
    TrimOptionalOfTrimmed(p.tagline);
    TrimOptionalOfTrimmed(p.shipping);
    TrimOptionalOfTrimmed(p.care);
    var b := ToBody(p);
    assert b.stock == Num(p.stock as real);
    var q := NewProduct(b, newId);
    assert q.stock == if p.stock == 0 then Num(0.0) else Num(p.stock as real);
    assert q.badges == Strings(p.badges) && q.features == Strings(p.features) && q.images == Strings(p.images);
  }

  lemma TrimOptionalOfTrimmed(t: string)
    requires IsTrimmed(t)
    ensures TrimOptional(Str(t)) == Some(t)
  {
  }

  /** A blank specs field sends `{}` whatever the parser would say, and the untouched form sends stock 0. */
  lemma BlankSpecsAndDefaultStock(parseJson: string -> Option<Json>)
    ensures BuildPayload(InitialProductForm, parseJson) ==
            Ready(Payload("", "", "", "", "", "", 0, "", "", [], [], [], Obj([])))
  {
    ParseIntZero(false);
    var r := BuildPayload(InitialProductForm, parseJson);
    assert r.Ready?;
  }

  // ---------------------------------------------------------------------
  // The new-product page: the same form with the admin-data header
  // ---------------------------------------------------------------------

  datatype PageOutcome =
    | PageNotSent(error: string)
    | PageSendFailed(header: string, payload: Payload, error: string)
    | PageSaved(header: string, payload: Payload)

  const NoAdminData := "認証情報がありません。再度ログインしてください。"

  /**
   * `handleSubmit` on the new-product page: without stored admin data
   * nothing is sent; otherwise the payload is built as on the form and the
   * admin data goes along base64-encoded in `x-admin-data`.
   */
  function SubmitOnPage(f: ProductForm, adminData: Option<string>, parseJson: string -> Option<Json>,
                        response: ApiResponse): (r: PageOutcome)
    ensures !TruthyText(adminData) ==> r == PageNotSent(NoAdminData)
    ensures !r.PageNotSent? ==> TruthyText(adminData) && r.header == Base64.EncodeToBase64(adminData.value)
  {
    if !TruthyText(adminData) then PageNotSent(NoAdminData)
    else
      var header := Base64.EncodeToBase64(adminData.value);
      match SubmitProduct(f, parseJson, response)
      case NotSent(e) => PageNotSent(e)
      case SendFailed(p, e) => PageSendFailed(header, p, e)
      case Saved(p) => PageSaved(header, p)
  }

  /**
   * With admin data present the page behaves as the form does, and the
   * header decodes back to the stored admin data.
   */
  lemma {:induction false} PageMatchesForm(f: ProductForm, adminData: string, parseJson: string -> Option<Json>, response: ApiResponse)
    requires adminData != ""
    ensures var page := SubmitOnPage(f, Some(adminData), parseJson, response);
            var form := SubmitProduct(f, parseJson, response);
            && (page.PageNotSent? <==> form.NotSent?)
            && (page.PageSaved? <==> form.Saved?)
            && (!page.PageNotSent? ==> page.payload == form.payload && Base64.DecodeText(page.header) == Some(adminData))
            && (page.PageSendFailed? ==> page.error == form.error)
  {
    Base64.EncodeToBase64RoundTrip(adminData);
  }

  // ---------------------------------------------------------------------
  // The product list page
  // ---------------------------------------------------------------------

  /** One line of the list: the six fields kept from each product. */
  datatype Row = Row(id: Json, slug: Json, name: Json, price: Json, stock: Json, image: Json)

  function Project(item: Json): (row: Row)
    ensures !item.Obj? ==> row == Row(Undefined, Undefined, Undefined, Undefined, Undefined, Undefined)
    ensures row.id != Undefined ==> item.Obj? && Entry("id", row.id) in item.entries
    ensures row.slug != Undefined ==> item.Obj? && Entry("slug", row.slug) in item.entries
    ensures row.name != Undefined ==> item.Obj? && Entry("name", row.name) in item.entries
    ensures row.price != Undefined ==> item.Obj? && Entry("price", row.price) in item.entries
    ensures row.stock != Undefined ==> item.Obj? && Entry("stock", row.stock) in item.entries
    ensures row.image != Undefined ==> item.Obj? && Entry("image", row.image) in item.entries
  {
    Row(Get(item, "id"), Get(item, "slug"), Get(item, "name"), Get(item, "price"), Get(item, "stock"), Get(item, "image"))
  }

  /** The page's list state; `error` is shown above the list. */
  datatype ListState = ListState(products: seq<Row>, error: string, isLoading: bool)

  /** The outcome of `fetch("/api/products")` and `response.json()`. */
  datatype FetchResult = FetchThrew(message: string) | Fetched(ok: bool, data: Json)

  /**
   * `fetchProducts`. An array response replaces the list with the projected
   * rows and leaves `error` as it was; a non-array response, a failed
   * status or a thrown error empties the list and sets the error. A `null`
   * or `undefined` element makes the projection throw, with `typeError` as
   * the message.
   */
  function FetchProducts(s: ListState, result: FetchResult, typeError: string): (s': ListState)
    ensures !s'.isLoading
    ensures result.Fetched? && result.ok && result.data.Arr? &&
            (forall i :: 0 <= i < |result.data.items| ==> !(result.data.items[i].Null? || result.data.items[i].Undefined?)) ==>
              && s'.error == s.error
              && |s'.products| == |result.data.items|
              && (forall i :: 0 <= i < |s'.products| ==> s'.products[i] == Project(result.data.items[i]))
    ensures result.Fetched? && result.ok && !result.data.Arr? ==> s' == ListState([], "商品データの取得に失敗しました", false)
    ensures result.Fetched? && !result.ok ==> s' == ListState([], "商品の取得に失敗しました", false)
    ensures result.FetchThrew? ==> s' == ListState([], result.message, false)
    ensures result.Fetched? && result.ok && result.data.Arr? &&
            (exists i :: 0 <= i < |result.data.items| && (result.data.items[i].Null? || result.data.items[i].Undefined?)) ==>
              s' == ListState([], typeError, false)
  {
    match result
    case FetchThrew(m) => ListState([], m, false)
    case Fetched(ok, data) =>
      if !ok then ListState([], "商品の取得に失敗しました", false)
      else if Truthy(data) && !Truthy(Get(data, "error")) && data.Arr? then
        if exists i :: 0 <= i < |data.items| && (data.items[i].Null? || data.items[i].Undefined?) then
          ListState([], typeError, false)
        else
          ListState(seq(|data.items|, i requires 0 <= i < |data.items| => Project(data.items[i])), s.error, false)
      else ListState([], "商品データの取得に失敗しました", false)
  }

  /** The projection ignores every field but the six it keeps. */
  lemma ProjectKeepsSixFields(entries: seq<Entry>, extra: Entry)
    requires extra.key !in {"id", "slug", "name", "price", "stock", "image"}
    ensures Project(Obj(entries + [extra])) == Project(Obj(entries))
  {
    assert (entries + [extra])[..|entries|] == entries;
  }

  /** An error from an earlier fetch stays on screen after a later successful one. */
  lemma ErrorSurvivesSuccess(items: seq<Json>, typeError: string)
    requires forall i :: 0 <= i < |items| ==> !(items[i].Null? || items[i].Undefined?)
    ensures var failed := FetchProducts(ListState([], "", true), Fetched(false, Null), typeError);
            var again := FetchProducts(failed, Fetched(true, Arr(items)), typeError);
            again.error == "商品の取得に失敗しました" && |again.products| == |items|
  {
  }

  // ---------------------------------------------------------------------
  // Deleting from the list
  // ---------------------------------------------------------------------

  datatype DeleteRequest = DeleteRequest(path: string, adminHeader: string)

  /** What the DELETE call gave back: a thrown error, or a response with its `error` text. */
  datatype DeleteResult = DeleteThrew | DeleteResponse(ok: bool, error: Option<string>)

  datatype DeleteOutcome = Cancelled | Deleted(request: DeleteRequest) | DeleteFailed(request: DeleteRequest, alert: string)

  /** The confirmation question for a product. */
  function ConfirmText(name: string): (t: string)
    ensures |t| == |name| + 18
    ensures t[..3] == "商品「" && t[3..3 + |name|] == name && t[3 + |name|..] == "」を削除してもよろしいですか？"
  {
    "商品「" + name + "」を削除してもよろしいですか？"
  }

  /**
   * `handleDelete`: nothing happens unless the user confirms; the stored
   * admin data, or "" when there is none, goes base64-encoded in the
   * header; a successful delete reloads the list, a failure alerts.
   */
  function HandleDelete(confirmed: bool, id: string, adminData: Option<string>, result: DeleteResult): (r: DeleteOutcome)
    ensures !confirmed <==> r.Cancelled?
    ensures !r.Cancelled? ==> r.request.path == "/api/admin/products/" + id
    ensures !r.Cancelled? && !TruthyText(adminData) ==> r.request.adminHeader == ""
    ensures !r.Cancelled? && TruthyText(adminData) ==>
              Base64.DecodeText(r.request.adminHeader) == Some(adminData.value)
    ensures r.Deleted? <==> confirmed && result.DeleteResponse? && result.ok
    ensures r.DeleteFailed? && result.DeleteThrew? ==> r.alert == "削除に失敗しました"
    ensures r.DeleteFailed? && result.DeleteResponse? ==>
              r.alert == (if TruthyText(result.error) then result.error.value else "削除に失敗しました")
  {
    if !confirmed then Cancelled
    else
      var stored := if TruthyText(adminData) then adminData.value else "";
      Base64.EncodeToBase64RoundTrip(stored);
      var request := DeleteRequest("/api/admin/products/" + id, if stored != "" then Base64.EncodeToBase64(stored) else "");
      match result
      case DeleteThrew => DeleteFailed(request, "削除に失敗しました")
      case DeleteResponse(ok, error) =>
        if ok then Deleted(request)
        else DeleteFailed(request, if TruthyText(error) then error.value else "削除に失敗しました")
  }

  /**
   * Deleting and saving send the same admin header for the same stored
   * admin data, and it decodes back to that data.
   */
  lemma DeleteAndSaveShareHeader(id: string, adminData: string, result: DeleteResult,
                                 f: ProductForm, parseJson: string -> Option<Json>, response: ApiResponse)
    requires adminData != ""
    ensures var deleted := HandleDelete(true, id, Some(adminData), result);
            var page := SubmitOnPage(f, Some(adminData), parseJson, response);
            && Base64.DecodeText(deleted.request.adminHeader) == Some(adminData)
            && (!page.PageNotSent? ==> deleted.request.adminHeader == page.header)
  {
  }
}

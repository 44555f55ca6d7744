# Intercambio shop core in Dafny

A model of the statable logic of the Intercambio shop: a Next.js storefront for clothes and stylists. The shop has a cart, favourites and stock, a checkout with orders, and audit logging for the admin area. It also has access control, sign-up and log-in, inquiries with replies, stylist pages and applications, ratings, testimonials, the newsletter and admin product creation. One Python script generates a workbook of unit-test cases, and it is modelled too.

The model treats each piece in one of three ways:

- A client state container (cart, favourites, inventory, the inquiry and stylist pages) is a pure function over an immutable value.
- An API route is a pure transition over an in-memory store. The stores are maps keyed by id, slug or e-mail, or ordered sequences. The transition returns the new store and the response.
- Anything the program does not compute itself is an input: the database's answers, bcrypt's password check, the session, `fetch` results, `JSON.parse` and the clock.

Each module follows one area of the program:

| module | area |
|---|---|
| `Js`, `Json` | JavaScript string semantics (`trim`, `split`/`join`, `parseInt`, `toLowerCase`, the e-mail regex) and JSON-like values with JavaScript truthiness |
| `Cart`, `Favorites`, `Inventory`, `AddToCart` | the client contexts and the add-to-cart guard |
| `Checkout`, `Orders` | checkout arithmetic, the card field, order submission, the completion page, and the order route |
| `Masking`, `AuditLog`, `AuditLogQuery` | audit-log masking, request-info parsing and record mapping, and the listing's parameter checks |
| `Middleware`, `AdminAuth`, `Auth` | routing by path and token role, the admin checks, credentials, log-in, admin log-in and registration |
| `Inquiries`, `StylistDashboard`, `Testimonials`, `Stylists`, `Ratings`, `Newsletter` | the inquiry routes and page, the stylist page, testimonials, stylist applications, creation and listing, ratings, and the newsletter |
| `AdminProducts`, `Base64`, `Gallery` | admin product creation, its forms and list page, base64 over UTF-8 (section 4 of RFC 4648, section 3 of RFC 3629), and the product image gallery |
| `TestCaseSheets` | the test-case workbook as an abstract grid of cells |

## Model

| member | source | states |
|---|---|---|
| Js.Trim | app/api/admin/products/route.ts:60-68 | `trim` removes exactly the leading and trailing whitespace: the result is a trimmed infix of the input with only whitespace around it, and a trimmed input is returned unchanged |
| Js.ParseCommaList | app/stylist/apply/page.tsx:37-39 | every entry of a parsed comma list is non-empty, trimmed and free of commas |
| Js.ParseLines | components/AdminProductsNewClient.tsx:60-62 | the parsed feature lines are exactly the non-empty pieces of the text between newlines; none holds a newline |
| Js.DropEmpty | components/AdminProductsNewClient.tsx:60-62 | `.filter(Boolean)` keeps exactly the non-empty entries, and leaves a list without empty entries unchanged |
| Js.LinesRoundTrip | components/AdminProductsNewClient.tsx:60-62 | non-empty, newline-free lines joined one per row parse back to the same list |
| Js.ParseInt | contexts/CartContext.tsx:80 | base-10 `parseInt` of text that starts with a digit after leading whitespace is a non-negative number |
| Js.ParseIntDefined | contexts/CartContext.tsx:80 | base-10 `parseInt` gives a number exactly when a digit follows the leading whitespace and at most one "+" or "-", and NaN otherwise |
| Js.EmailPatternOfParts | app/api/inquiries/route.ts:19-20 | an address local@host.tld whose three parts are non-empty and hold no whitespace and no "@" matches the address pattern |
| Js.EmailPatternExamples | app/api/inquiries/route.ts:19-20 | Example only: "a@b.c" matches; "a@b", "@b.c", "a@@b.c" and "a b@c.d" do not |
| Js.SpecialtiesRoundTrip | app/stylist/page.tsx:246-248 | a list shown joined with ", " (line 77) parses back to the same list when its entries are non-empty, trimmed and comma-free |
| Js.IntOrZero | components/AdminProductsNewClient.tsx:89 | the stock is the parsed base-10 integer, or 0 when the text holds no number |
| Js.IntToDecimal | components/AddToCartButton.tsx:39 | the decimal text of an integer parses back to that integer |
| Cart.AddToCart | contexts/CartContext.tsx:48-58 | a product already in the cart gets one more unit on its line and nothing else changes; a new product is appended with quantity 1 |
| Cart.RemoveFromCart | contexts/CartContext.tsx:70-72 | no line with the id is left, every line with another id stays, and removing an absent id changes nothing |
| Cart.UpdateQuantity | contexts/CartContext.tsx:60-68 | a quantity of 0 or less removes the line; otherwise only the matching line takes the new quantity |
| Cart.ClearCart | contexts/CartContext.tsx:74-76 | the cart is empty and counts no items |
| Cart.TotalPrice | contexts/CartContext.tsx:78-83 | the total is a number exactly when every line's price parses once "¥" and "," are removed, and 0 for an empty cart; Cart.TotalPriceAppend fixes its value |
| Cart.TotalPriceAppend | contexts/CartContext.tsx:78-83 | a line added at the end adds its unit price times its quantity to a numeric total; an unparsable price or a NaN total gives NaN |
| Cart.GetTotalPrice | contexts/CartContext.tsx:78-83 | the left-to-right `reduce` computes exactly the total, a number exactly when every price parses |
| Cart.UnitPrice | contexts/CartContext.tsx:80 | once "¥" and "," are removed, text starting with a digit after whitespace gives a non-negative unit price; NaN only for text without such a digit (a leading sign is accepted, as `Cart.UnitPriceDefined` states) |
| Cart.UnitPriceDefined | contexts/CartContext.tsx:80 | a price reads as a number exactly when, once "¥" and "," are removed, a digit follows the leading whitespace and at most one "+" or "-"; anything else is NaN |
| Cart.UnitPriceOfInt | contexts/CartContext.tsx:80 | a price that is the decimal form of any integer once "¥" and "," are removed, negative ones included, reads as that integer |
| Cart.UnitPriceOfDecimal | contexts/CartContext.tsx:80 | a price that is the decimal form of n once "¥" and "," are removed reads as n |
| Cart.TotalItems | contexts/CartContext.tsx:85-87 | with no negative quantity the item count is non-negative and at least each line's quantity |
| Cart.AddNewProductTotalPrice | contexts/CartContext.tsx:48-83 | adding a product not in the cart adds one line at its unit price to the total, NaN when that price does not parse |
| Cart.AddExistingProductTotalPrice | contexts/CartContext.tsx:48-83 | adding a product already in a cart with one line per id raises a numeric total by exactly that line's unit price |
| Cart.AddToCartTotalItems | contexts/CartContext.tsx:48-58 | adding a product raises the item count by exactly one |
| Cart.AddToCartKeepsUniqueIds | contexts/CartContext.tsx:48-58 | adding keeps one line per product id |
| Cart.RemoveFromCartKeepsUniqueIds | contexts/CartContext.tsx:70-72 | removing keeps one line per product id |
| Cart.UpdateQuantityKeepsUniqueIds | contexts/CartContext.tsx:60-72 | changing a quantity keeps one line per product id |
| Cart.RemoveFromCartAppend | contexts/CartContext.tsx:70-72 | removal distributes over a split of the cart |
| Cart.UpdateQuantityAbsent | contexts/CartContext.tsx:60-68 | updating an id that is not in the cart leaves the cart as it is |
| Cart.UnitPriceExample | contexts/CartContext.tsx:80 | Example only: "¥28,000" reads as 28000 |
| Favorites.Add | contexts/FavoritesContext.tsx:50-60 | a product already in the list leaves it unchanged; otherwise the product is appended; either way it is then a favourite |
| Favorites.Remove | contexts/FavoritesContext.tsx:62-65 | the id is no longer a favourite and exactly the entries with other ids remain |
| Favorites.Toggle | contexts/FavoritesContext.tsx:72-81 | the product's favourite status flips and every other product's status is unchanged |
| Favorites.AddIdempotent | contexts/FavoritesContext.tsx:50-60 | adding twice is the same as adding once |
| Favorites.RemoveAbsent | contexts/FavoritesContext.tsx:62-65 | removing a product that is not a favourite changes nothing |
| Favorites.ToggleTwice | contexts/FavoritesContext.tsx:72-81 | toggling a non-favourite twice restores the list |
| Favorites.RemoveAppendLast | contexts/FavoritesContext.tsx:50-65 | removing what was just appended restores the list |
| Favorites.RemoveAppend | contexts/FavoritesContext.tsx:62-65 | removal distributes over a split of the list |
| Favorites.AddKeepsNoDuplicates | contexts/FavoritesContext.tsx:50-60 | adding keeps one entry per id |
| Favorites.RemoveKeepsNoDuplicates | contexts/FavoritesContext.tsx:62-65 | removing keeps one entry per id |
| Favorites.ToggleKeepsNoDuplicates | contexts/FavoritesContext.tsx:72-81 | toggling keeps one entry per id |
| Inventory.GetStock | contexts/InventoryContext.tsx:73-75 | an unfetched product has stock 0, a fetched one its recorded stock |
| Inventory.CheckStock | contexts/InventoryContext.tsx:83-86 | the check passes exactly when the quantity is at most the recorded stock, or at most 0 for a product never fetched |
| Inventory.FetchedValue | contexts/InventoryContext.tsx:27-40 | a failed or throwing request and a missing or zero stock read as 0; otherwise the returned stock |
| Inventory.RefreshStock | contexts/InventoryContext.tsx:100-106 | the product counts as fetched with the fetched value, and every other product's entry is unchanged |
| Inventory.UpdateStock | contexts/InventoryContext.tsx:43-70 | reports success exactly when the request succeeded, and only then records the new stock (the context wrapper at lines 89-97 passes this on) |
| Inventory.CheckStockDownwardClosed | contexts/InventoryContext.tsx:83-86 | a quantity that fits the stock makes every smaller quantity fit too |
| Inventory.CheckStockUnfetched | contexts/InventoryContext.tsx:73-86 | before a fetch, only quantities of 0 or less pass the stock check |
| Inventory.RefreshFailureRecordsZero | contexts/InventoryContext.tsx:27-40 | a failed refresh records the product as fetched with stock 0 |
| AddToCart.BannerText | components/AddToCartButton.tsx:33-42 | the banner is empty exactly when there is no error to show |
| AddToCart.FindLine | components/AddToCartButton.tsx:27 | finds a line exactly when the cart holds the product, and it is that product's line |
| AddToCart.CartQuantity | components/AddToCartButton.tsx:27-28 | 0 when the product is not in the cart, otherwise its line's quantity |
| AddToCart.HandleAddToCart | components/AddToCartButton.tsx:26-57 | out of stock or not enough stock shows an error and leaves the cart alone; the cart changes only when one more unit is within stock; an accepted click adds the shown product to the cart and marks the button busy |
| AddToCart.ShownProduct | components/AddToCartButton.tsx:45-51 | the product handed to `addToCart` carries the shown product's id, name, price, image and slug |
| AddToCart.Label | components/AddToCartButton.tsx:63-68 | the button reads 在庫切れ, 在庫不足 or 追加中... in that priority, and reads カートに入れる exactly when it is enabled |
| AddToCart.ClickKeepsWithinStock | components/AddToCartButton.tsx:26-57 | a click never takes a cart line beyond the stock and keeps one line per product |
| AddToCart.ClickAddsOneUnit | components/AddToCartButton.tsx:30-51 | an accepted click adds exactly one unit to the cart |
| AddToCart.ClickAddsNewLine | components/AddToCartButton.tsx:30-51 | an accepted click for a product not in the cart appends one line of the shown product with its price at quantity 1, and the total gains that line's price (NaN for an unreadable price) |
| AddToCart.ClickBumpsLine | components/AddToCartButton.tsx:30-51 | an accepted click for a product already on a line adds one unit to that line, leaves every other line unchanged, and raises a numeric total by the line's unit price |
| Checkout.ShippingFee | app/checkout/page.tsx:58 | shipping is 0 or 500, and 0 exactly when the subtotal is a number of at least 15000 |
| Checkout.FinalTotal | app/checkout/page.tsx:59 | the total is a number exactly when the subtotal is, and is the subtotal plus the shipping fee, never less than the subtotal |
| Checkout.RemoveSpace | app/checkout/page.tsx:510 | the result holds no whitespace and is no longer than the input |
| Checkout.Chunks4 | app/checkout/page.tsx:511 | no pieces for an empty string; every piece 1 to 4 long and all but the last exactly 4 |
| Checkout.FormatCardNumber | app/checkout/page.tsx:508-512 | the field holds only digits and spaces, its digits are exactly the digits typed, and it is empty exactly when no digit was typed |
| Checkout.CvvInput | app/checkout/page.tsx:569-572 | the field holds only digits, and a digit-only input is kept as typed |
| Checkout.CardGroups | app/checkout/page.tsx:508-512 | the field splits on spaces into groups of four digits, the last group 1 to 4 long |
| Checkout.FormatIdempotent | app/checkout/page.tsx:508-512 | formatting the formatted text again changes nothing |
| Checkout.FormatKeepsDigits | app/checkout/page.tsx:508-512 | the digits of the formatted field are the digits typed, in order |
| Checkout.Submit | app/checkout/page.tsx:68-127 | as written: by card with any card field empty the form alerts and sends nothing; otherwise it sends every cart line, the total with shipping, card data only for card payment with last4 the last four characters of the card field, and the user id only when signed in |
| Checkout.ToOrderItem | app/checkout/page.tsx:83-88 | an order item carries the cart line's id, name, price text and quantity unchanged, so its unit price is the line's |
| Checkout.SubmitWith | app/checkout/page.tsx:68-127 | the alert and the order body for a chosen last4: every line as an order item, shipping, notes, method and total with shipping, card data exactly for card payment, the user id only when signed in |
| Checkout.SubmitCorrected | app/checkout/page.tsx:108 | the corrected submission alerts exactly when the page does, and by card sends a last4 of only digits, the last four digits of the card |
| Checkout.SubmitCorrectionAgrees | app/checkout/page.tsx:108 | the page as written and the corrected one send the same order for a card typed with 16 digits, and different orders for "12345" |
| Checkout.Last4OfSixteenDigits | app/checkout/page.tsx:108 | for a 16-digit card the last4 sent is the card's last four digits |
| Checkout.Last4PicksUpSpace | app/checkout/page.tsx:108 | Counterexample: five digits "12345" are shown as "1234 5" and sent as last4 "34 5" |
| Checkout.CardLast4 | app/checkout/page.tsx:108 | the corrected last4: only digits, the last four digits of the card (fewer when the card is shorter) |
| Checkout.CardLast4OfFormatted | app/checkout/page.tsx:108 | the corrected last4 of the field as formatted by the input handler (lines 508-512) is the last four digits typed, for every digit count |
| Checkout.CorrectionKeepsSixteenDigits | app/checkout/page.tsx:108 | for a 16-digit card the corrected last4 equals the four characters the page sends as written |
| Checkout.LineUnitPrice | app/checkout/complete/page.tsx:86-92 | a numeric price is used as it is; a text price is stripped of "¥" and "," and parsed as on the cart |
| Checkout.CompletedSubtotal | app/checkout/complete/page.tsx:85-93 | the subtotal is a number exactly when every line's price is, and an order without lines has subtotal 0 |
| Checkout.CompletedSubtotalAppend | app/checkout/complete/page.tsx:85-93 | the subtotal is the `reduce` from 0, left to right: a further line adds its unit price times its quantity to a numeric subtotal, and NaN on either side stays NaN; with the empty case this fixes the value for every order |
| Checkout.SubtotalOfCartOrder | app/checkout/complete/page.tsx:85-93 | for an order whose lines carry the cart's price texts and quantities, the page's subtotal equals the cart's total |
| Checkout.MethodLabel | app/checkout/complete/page.tsx:204-206 | a label is shown exactly for "credit", "bank" and "convenience" |
| Checkout.CompletePage | app/checkout/complete/page.tsx:69-95 | the not-found view shows exactly when the order id or the loaded order is missing; otherwise the subtotal, shipping and total follow the checkout rules |
| Checkout.TextAndNumberPricesAgree | app/checkout/complete/page.tsx:86-92 | a price stored as decimal text and the same price stored as a number give the same subtotal |
| Orders.FirstFailure | app/api/orders/route.ts:16-35 | no failure exactly when every line's product exists and its stock covers that line's quantity; otherwise the answer comes from the first line that fails, every earlier line passing: 404 "商品「name」が見つかりません" with the line's name when its product is missing, else 400 "商品「name」の在庫が不足しています（残りN点）" with the product's name and remaining stock |
| Orders.FailsFirstAtUnique | app/api/orders/route.ts:15-35 | only one line can be the first to fail, so the error answered is determined |
| Orders.Decrement | app/api/orders/route.ts:95-104 | the product table keeps its keys and names, and every product's stock drops by the total quantity of the lines that name it |
| Orders.StoredShippingFee | app/api/orders/route.ts:45 | the stored fee is 0 or 500, and 0 exactly when the paid total is at least 15000 |
| Orders.MakeOrder | app/api/orders/route.ts:41-70 | the user id, building, notes and the three card fields are stored as null exactly when absent or empty; the total, lines and order number are kept |
| Orders.OrderNumber | app/api/orders/route.ts:38 | the order number starts with "ORD-" |
| Orders.PlaceOrder | app/api/orders/route.ts:4-106 | the order is created exactly when every line's product exists with stock for that line; an error is the first failing line's 404 or 400 and changes nothing; on success the answer carries "ORD-" and the time, one order is appended, and each stock drops by its product's total ordered quantity |
| Orders.PlaceOrderWithFault | app/api/orders/route.ts:37-114 | with no failing write the route is as above; a failing order create answers 500 "注文の作成に失敗しました" and changes nothing; a stock update failing at line k answers the same 500 yet leaves the order stored and only the lines before k taken off the stock |
| Orders.DuplicateLinesOversell | app/api/orders/route.ts:16-35 | Counterexample: two lines of quantity 1 for a product with stock 1 both pass the per-line check and leave the stock at -1 |
| Orders.FirstShortfall | app/api/orders/route.ts:16-35 | no failure exactly when every line's product exists and its stock covers the total quantity ordered for it across all lines; otherwise the answer is the first such failing line's 404 or 400, with the same messages as the route |
| Orders.PlaceOrderChecked | app/api/orders/route.ts:15-104 | the corrected route accepts exactly when every line's product exists and its stock covers the product's total over all lines; an error is the first failing line's 404 or 400 and changes nothing; on success one order is appended and each stock drops by its product's ordered total |
| Orders.CheckedOrderKeepsStockNonNegative | app/api/orders/route.ts:95-104 | with the corrected check, non-negative stock stays non-negative after any order |
| Orders.NotOrderedIsZero | app/api/orders/route.ts:95-104 | a product on no line loses no stock |
| Orders.SingleLineQuantity | app/api/orders/route.ts:95-104 | when no product appears on two lines, a product's ordered total is its line's quantity |
| Orders.DistinctLinesAgree | app/api/orders/route.ts:16-104 | when no product appears on two lines, the route as written and the corrected route give the same store and response |
| Masking.MaskString | lib/audit-log-masking.example.ts:76-92 | a string with a card-like run of four groups of four digits and 13 to 19 digits in all becomes the card mask with its last four digits; otherwise a bcrypt-prefixed string becomes the password mask; any other string is kept |
| Masking.EntryRule | lib/audit-log-masking.example.ts:26-66 | a password-like key always gives "********" whatever its value; every rule that fires stores a string; a value that is not a string is masked by a key rule exactly when the key is password-like or a security-code key |
| Masking.Mask | lib/audit-log-masking.example.ts:11-93 | null, undefined, booleans and numbers are returned unchanged; strings go through the bare-string rule; arrays stay arrays of the same length, masked element by element; objects stay objects with exactly the same keys |
| Masking.MaskItems | lib/audit-log-masking.example.ts:17-19 | element-wise masking keeps the length and order |
| Masking.MaskEntries | lib/audit-log-masking.example.ts:22-71 | every key is kept in place; its value is the first key rule that fires, or else the recursively masked value |
| Masking.MaskAuditLogDetails | lib/audit-log-masking.example.ts:104-110 | undefined details stay undefined; object details are masked |
| Masking.MaskHidesPasswords | lib/audit-log-masking.example.ts:11-93 | after masking, every password-like key at any depth holds "********" |
| Masking.MaskEntriesHidePasswords | lib/audit-log-masking.example.ts:25-32 | every entry list after masking has "********" under each password-like key, including inside nested values |
| Masking.AuditLogDetailsAlwaysMasked | lib/audit-log-masking.example.ts:104-110 | the short cut for falsy details gives the same result as masking them, so details are always masked alike |
| Masking.PasswordKeyExample | lib/audit-log-masking.example.ts:29-32 | Example only: a key "newPassword" holding a number is masked as "********" |
| Masking.CvvKeyExample | lib/audit-log-masking.example.ts:44-47 | Example only: a "cvv" key is masked as "***" |
| Masking.NumericIdExample | lib/audit-log-masking.example.ts:61-66 | Example only: an "ssn" key holding a number fires no key rule and falls through to recursive masking |
| Masking.CardRunExample | lib/audit-log-masking.example.ts:78-79 | Example only: "1234-5678-9012-3456" matches the card pattern |
| Masking.CardDigitsExample | lib/audit-log-masking.example.ts:80 | Example only: the digits of "1234-5678-9012-3456" are "1234567890123456" |
| AuditLog.ActionNamesExact | lib/audit-log.ts:4 | Constant table only: the four action names are distinct and are the listed ones |
| AuditLog.ActionNamesCovered | lib/audit-log.ts:4 | Constant table only: every listed action name is the name of some action |
| AuditLog.TargetTypeNamesExact | lib/audit-log.ts:6 | Constant table only: the five target-type names, "inquiry" among them, are distinct and are the listed ones |
| AuditLog.GetRequestInfo | lib/audit-log.ts:54-62 | the address is the first comma-separated segment of x-forwarded-for when that segment is non-empty, else x-real-ip, else null; a stored address is never empty; the user agent is its header or null when absent or empty |
| AuditLog.ForwardedAddressIsFirstSegment | lib/audit-log.ts:56 | the forwarded address is a comma-free prefix of the header that stops at the header's first comma, untrimmed |
| AuditLog.ForwardedForWins | lib/audit-log.ts:55-58 | a forwarded header not starting with a comma wins over x-real-ip |
| AuditLog.CreateAuditLog | lib/audit-log.ts:25-40 | action, target type, target id, reason and performer fields are copied; target e-mail, address and user agent are null exactly when absent or empty and otherwise copied; falsy details are dropped |
| AuditLog.RequestInfoStoredAsIs | lib/audit-log.ts:37-38 | what the header reader returns is stored unchanged |
| AuditLogQuery.ParamOr | app/api/admin/audit-logs/route.ts:25-26 | an empty or absent parameter reads as the default, any other as itself |
| AuditLogQuery.Limit | app/api/admin/audit-logs/route.ts:25 | the limit is always within 1 to 1000; an unparsable or zero value gives 100; a parsed value within range is kept, one below is 1 and one above is 1000 |
| AuditLogQuery.Offset | app/api/admin/audit-logs/route.ts:26 | the offset is never negative; an unparsable value gives 0 and a negative one 0; others are kept |
| AuditLogQuery.MissingLimitIsHundred | app/api/admin/audit-logs/route.ts:25 | Example only, the default: an absent or empty limit is 100 |
| AuditLogQuery.MissingOffsetIsZero | app/api/admin/audit-logs/route.ts:26 | Example only, the default: an absent offset is 0 |
| AuditLogQuery.EmailFilter | app/api/admin/audit-logs/route.ts:70-75 | an e-mail filter exists exactly when the parameter is non-empty, and is its trimmed text |
| AuditLogQuery.ListAuditLogs | app/api/admin/audit-logs/route.ts:6-92 | an administrator failure is passed through; then a bad e-mail gives 400; a listing happens exactly when both e-mails are acceptable and a given action or target type is on its whitelist; a listing's limit is in 1..1000, its offset non-negative and its filters the given action, type and trimmed e-mails |
| AuditLogQuery.ActionWhitelistMatchesActions | app/api/admin/audit-logs/route.ts:16 | the action whitelist is exactly the names of the recorded actions |
| AuditLogQuery.InquiryTypeRejected | app/api/admin/audit-logs/route.ts:61-68 | a listing by target type "inquiry", a type the library records, is always refused with 400 |
| AuditLogQuery.OtherTargetTypesAllowed | app/api/admin/audit-logs/route.ts:17 | every recorded target type other than "inquiry" is on the whitelist |
| AuditLogQuery.EmailCheckedBeforeWhitelists | app/api/admin/audit-logs/route.ts:28-59 | a bad e-mail is reported even when the action is not allowed either |
| AuditLogQuery.AuthenticationFirst | app/api/admin/audit-logs/route.ts:8-11 | without an administrator the answer does not depend on any query parameter |
| Middleware.Inner | middleware.ts:6-18 | the inner middleware only passes or redirects to "/", and redirects exactly on an admin page other than the login page without an admin token |
| Middleware.Matched | middleware.ts:62 | only admin and stylist paths, "/checkout" and "/cart" are matched; paths below "/checkout/" or "/cart/", such as the order-complete page, are not |
| Middleware.Authorized | middleware.ts:21-27 | the admin login page is always authorised, other "/admin" paths exactly with an admin token, every other path exactly with some token |
| Middleware.WithAuth | middleware.ts:5-33 | the request is sent to sign in exactly when the authorized callback refuses it; otherwise the inner middleware decides |
| Middleware.Route | middleware.ts:35-59 | the stylist login and application pages pass; any other path starting with "/stylist" passes exactly with the stylist role and is otherwise redirected to "/stylist/login"; every other path goes through the next-auth chain |
| Middleware.Handle | middleware.ts:61-63 | paths outside the matcher pass untouched; matched paths are routed |
| Middleware.AdminLoginAlwaysPasses | middleware.ts:8-10 | the admin login page passes with or without a token |
| Middleware.AdminPagesNeedAdmin | middleware.ts:21-25 | any other admin page passes exactly with an admin token and otherwise goes to sign-in |
| Middleware.InnerRedirectUnreachable | middleware.ts:13-17 | the inner redirect to "/" never happens, because the callback has already refused every non-admin |
| Middleware.CheckoutAndCartNeedToken | middleware.ts:26 | checkout and cart pass exactly with a token of any role and otherwise go to sign-in |
| Middleware.StylistPublicPages | middleware.ts:42-44 | the stylist login and application pages pass without a token |
| Middleware.StylistPagesNeedStylist | middleware.ts:47-56 | other stylist pages pass only with the stylist role, so an admin token is redirected too |
| AdminAuth.AdminOf | lib/admin-auth.ts:33-41 | the admin record keeps the user id and role, and a missing or empty e-mail or name becomes "" |
| AdminAuth.VerifyAdmin | lib/admin-auth.ts:9-52 | no session user gives 401, a non-admin 403 and a throwing lookup 500; an admin is returned exactly for a session user with role "admin" |
| AdminAuth.IsAdminAuthenticated | lib/admin-auth.ts:58-92 | authenticated exactly for a session user with role "admin"; no user and a throwing lookup both give 401, a non-admin 403 |
| AdminAuth.ChecksAgree | lib/admin-auth.ts:9-92 | the two checks accept the same sessions with the same admin record and differ only on a throwing lookup, 500 against 401 |
| Auth.WithoutPassword | app/api/auth/login/route.ts:40 | the returned user keeps every field of the stored user except the password |
| Auth.Authorize | lib/auth.ts:16-53 | missing credentials are refused before any lookup; an unknown e-mail is refused; sign-in succeeds exactly for a known user with a stored password that matches, and hands on exactly id, e-mail, name, role and image |
| Auth.AuthorizeMessages | lib/auth.ts:25-40 | an unknown e-mail and a wrong password get the same message; a user without a stored password gets a different one |
| Auth.AuthorizeIgnoresRole | lib/auth.ts:21-52 | changing a user's role changes neither whether sign-in succeeds nor anything handed on but the role |
| Auth.JwtCallback | lib/auth.ts:57-63 | without a user the token is unchanged; with one, the token receives its role and id |
| Auth.SessionCallback | lib/auth.ts:64-70 | a session with a user gets the token's id and role and keeps its e-mail and name; one without stays without |
| Auth.SessionCarriesSignedInUser | lib/auth.ts:57-70 | after a sign-in, however many later token refreshes, the session user carries the signed-in user's id and role |
| Auth.Refresh | lib/auth.ts:58-62 | any number of later token refreshes, which carry no user, leave the token unchanged |
| Auth.Login | app/api/auth/login/route.ts:5-56 | missing credentials give 400; an unknown user gives 401; success exactly for a known user whose stored password matches, returning the user without its password; every 401 carries the same message |
| Auth.AdminLogin | app/api/auth/admin/login/route.ts:5-56 | missing credentials give 400; an unknown user 401; a non-admin 403; success exactly for an admin whose stored password matches, returning the admin without its password |
| Auth.AdminLoginRoleBeforePassword | app/api/auth/admin/login/route.ts:27-37 | for a non-admin account the answer is 403 whatever password is tried |
| Auth.AdminLoginImpliesLogin | app/api/auth/admin/login/route.ts:5-48 | whoever the admin login lets in, the plain login lets in with the same record |
| Auth.Register | app/api/auth/register/route.ts:5-71 | a missing e-mail, password or name gives 400, then a password under six characters, then a known e-mail, each leaving the users unchanged; otherwise exactly one user is added with the hashed password, role "user" and empty optional fields as null, and the response omits the password |
| Auth.SixCharactersAccepted | app/api/auth/register/route.ts:17-22 | a password of exactly six characters is long enough |
| Auth.RegisteredUserCanLogIn | app/api/auth/register/route.ts:36-48 | a newly registered user can log in with the same password, by the login route and by next-auth sign-in |
| Auth.RegisterTwiceRejected | app/api/auth/register/route.ts:24-34 | registering the same e-mail again fails with 400 and changes nothing |
| Auth.SubmitRegistration | app/register/page.tsx:29-60 | mismatched passwords are refused first, then a password under six characters; otherwise the body carries e-mail, password and name as typed, with empty optional fields left out |
| Auth.FormPasswordPassesRoute | app/register/page.tsx:34-42 | a form the page sends never fails the route's password-length check |
| Auth.OmittedFieldsStoredAsNull | app/register/page.tsx:57-59 | optional fields the page leaves out come back from the route as null |
| Inquiries.CreateInquiry | app/api/inquiries/route.ts:6-48 | a missing name, e-mail, type or message gives 400, then an e-mail not matching the address pattern 400, each storing nothing; otherwise exactly one inquiry is appended with the given fields, status "new", no replies, and user and stylist ids only when non-empty |
| Inquiries.CreatedInquiryIsListed | app/api/inquiries/route.ts:6-48 | a stored inquiry is listed under its e-mail, and under its user and its stylist when it names them; it leaves both unread counters unchanged |
| Inquiries.InquiryFilter | app/api/inquiries/route.ts:67-82 | a non-empty userId parameter wins; otherwise a stylist's session uses its own id and anyone else the stylistId parameter; with neither, everything is listed |
| Inquiries.Select | app/api/inquiries/route.ts:77-82 | the listing holds exactly the stored inquiries the filter selects, and all of them when there is no filter |
| Inquiries.StylistSeesOwnInquiries | app/api/inquiries/route.ts:73-75 | a stylist's session lists only that stylist's inquiries, whatever stylistId parameter is sent |
| Inquiries.UserParameterWinsForStylists | app/api/inquiries/route.ts:78-82 | a userId parameter selects by user even for a stylist's session |
| Inquiries.UnreadIn | app/inquiries/page.tsx:166-170 | the count of unread replies from one side in an inquiry is at most its reply count, and 0 exactly when none is unread from that side |
| Inquiries.CountUnread | app/inquiries/page.tsx:166-170 | the unread count over inquiries is 0 exactly when no reply from that side is unread |
| Inquiries.CountUnreadAppend | app/inquiries/page.tsx:166-170 | the unread count over two lists of inquiries is the sum of their counts |
| Inquiries.UnreadWhereCountsSelection | app/api/inquiries/unread-count/route.ts:18-38 | the routes' per-inquiry sum equals the unread count over the selected inquiries |
| Inquiries.UnreadWhereAppendUnreplied | app/api/inquiries/unread-count/route.ts:18-38 | an added inquiry without replies adds nothing to a counter, whatever the filter |
| Inquiries.UnreadForUser | app/api/inquiries/unread-count/route.ts:5-40 | a missing e-mail gives 400; otherwise the count is the unread stylist replies over the inquiries with exactly that e-mail |
| Inquiries.UnreadForStylist | app/api/stylists/unread-replies/route.ts:5-40 | a missing stylist id gives 400; otherwise the count is the unread user replies over that stylist's inquiries |
| Inquiries.ListByEmail | app/api/inquiries/by-email/route.ts:5-46 | a missing or empty e-mail gives 400; otherwise exactly the inquiries with that e-mail, newest first |
| Inquiries.LoadInquiries | app/inquiries/page.tsx:53-67 | an empty address, an error answer or a thrown request keeps the inquiries shown; a listing replaces them |
| Inquiries.CountUnreadReverse | app/inquiries/page.tsx:166-170 | the unread count does not depend on the order of the list |
| Inquiries.CountersIgnoreOwnSideAndReadReplies | app/api/stylists/unread-replies/route.ts:22-38 | when no matching inquiry has an unread reply from the other side, in particular when nothing matches, each counter is 0 |
| Inquiries.EmailToLookUp | app/inquiries/page.tsx:70-76 | a blank entry is ignored; otherwise its trimmed, non-empty text is looked up |
| Inquiries.TrimEmptyIffAllSpace | app/inquiries/page.tsx:72 | trimming gives "" exactly for text made only of whitespace |
| Inquiries.MarkReplyAsRead | app/inquiries/page.tsx:78-97 | every reply with the id becomes read; nothing else in any inquiry changes |
| Inquiries.MarkReplyAsReadCount | app/inquiries/page.tsx:78-97 | marking a reply read lowers the unread count by exactly the number of unread replies with that id: one for an unread reply, none for a read or unknown one |
| Inquiries.PageCountMatchesCounter | app/inquiries/page.tsx:53-170 | once the page has loaded the by-email listing for an address, its unread count equals the unread-count route's answer for that address |
| Inquiries.FailureText | app/inquiries/page.tsx:129-132 | a failed request alerts with the server's error text, or the fallback naming the status |
| Inquiries.ThrownText | app/inquiries/page.tsx:156-159 | a thrown `Error` alerts its message, even an empty one; anything else thrown alerts the fallback text |
| Inquiries.FindInquiry | app/inquiries/page.tsx:107 | the found inquiry is the first with the id; none is found exactly when no inquiry has it |
| Inquiries.AppendReply | app/inquiries/page.tsx:141-151 | the target inquiry gets the reply at the end and moves from "new" to "in_progress", any other status kept; other inquiries are unchanged |
| Inquiries.HandleReply | app/inquiries/page.tsx:99-164 | a blank draft, then a resolved inquiry, are refused without a request; a sent request carries the trimmed message from the user; the page changes exactly when the server returns a reply; a failed answer alerts its error text and a thrown request the thrown message |
| Inquiries.UserReplyKeepsUnreadCount | app/inquiries/page.tsx:141-170 | appending the user's own reply leaves the unread count unchanged |
| Inquiries.ReplyAppendedLast | app/inquiries/page.tsx:141-151 | after a successful reply the inquiry's replies end with it and its status is no longer "new" |
| StylistDashboard.InitialForm | app/stylist/page.tsx:72-80 | the edit form shows the stylist's fields, absent optional ones as "", specialties joined with ", " when they are a list and "" otherwise, and an empty password |
| StylistDashboard.EditPayload | app/stylist/page.tsx:245-264 | the update sends the specialties parsed from the text (none for empty text, every entry trimmed and non-empty), empty nameEn and image as null and an empty password left out |
| StylistDashboard.UneditedSpecialtiesRoundTrip | app/stylist/page.tsx:77 | saving the form unedited sends back exactly the stylist's specialties when each is non-empty, trimmed and comma-free |
| StylistDashboard.UneditedFormKeepsProfile | app/stylist/page.tsx:72-80 | saving the form unedited sends no password and keeps the name, e-mail and non-empty optional fields |
| StylistDashboard.HandleReply | app/stylist/page.tsx:137-206 | a blank draft, then a missing stylist, are refused without a request; a sent request carries the trimmed message from the stylist; on success the reply is added after the inquiry's known replies and the inquiry becomes "in_progress", and otherwise nothing changes; a failed answer alerts its error text and a thrown request the thrown message |
| StylistDashboard.SetStatus | app/stylist/page.tsx:228-232 | only the inquiries with the id get the new status |
| StylistDashboard.HandleStatusUpdate | app/stylist/page.tsx:217-237 | without an ok answer nothing changes; with one only the target inquiry's status changes |
| StylistDashboard.StatusUpdateOverrides | app/stylist/page.tsx:227-232 | a second successful update overrides the first, so updates are idempotent |
| StylistDashboard.ReplyReopensResolved | app/stylist/page.tsx:187-191 | a reply on a resolved inquiry moves it back to "in_progress" |
| StylistDashboard.Badge | app/stylist/page.tsx:317-328 | the badge is hidden exactly for a count of 0 or less, shows "99+" above 99, and otherwise one or two digits that read back as the count |
| StylistDashboard.BadgeSaturates | app/stylist/page.tsx:328 | every count above 99 shows the same badge |
| Testimonials.TrimOrNull | app/api/testimonials/route.ts:80-82 | an absent or empty role or e-mail is null, anything else is trimmed |
| Testimonials.Post | app/api/testimonials/route.ts:37-94 | a missing name or comment gives 400, then a comment shorter than 10 or longer than 500, each storing nothing; otherwise exactly one unapproved testimonial is appended with trimmed name and comment, the session's user id, and role and e-mail trimmed or null |
| Testimonials.CommentBoundsInclusive | app/api/testimonials/route.ts:50-62 | comments of exactly 10 and exactly 500 characters are accepted |
| Testimonials.PaddedCommentStoredShort | app/api/testimonials/route.ts:50-81 | nine spaces and one letter pass the length check and are stored as a one-character comment |
| Testimonials.BlankRoleStoredEmpty | app/api/testimonials/route.ts:80 | a role of one space is stored as "" rather than null |
| Testimonials.Approved | app/api/testimonials/route.ts:9-12 | the approved testimonials, each from the store, and every approved one of the store among them |
| Testimonials.ListApproved | app/api/testimonials/route.ts:7-26 | at most ten testimonials, all approved, the newest approved ones in reverse creation order |
| Testimonials.ApprovedAscending | app/api/testimonials/route.ts:9-21 | filtering a store kept in creation order keeps creation order |
| Testimonials.ListIsNewestApproved | app/api/testimonials/route.ts:20-23 | over a store in creation order the list is newest first and no approved testimonial left out is newer than one listed |
| Testimonials.PostedNotListed | app/api/testimonials/route.ts:84 | a new testimonial leaves the public list unchanged until it is approved |
| Testimonials.ApprovedSkipsUnapproved | app/api/testimonials/route.ts:11 | appending an unapproved testimonial leaves the approved ones unchanged |
| Stylists.NormaliseSpecialties | app/api/stylists/route.ts:46-50 | array specialties are kept, a string is handed to the JSON parser (failing when it throws), and anything else is [] |
| Stylists.HashOrNull | app/api/stylists/apply/route.ts:56-60 | no password is stored for an absent or empty one; otherwise its hash |
| Stylists.Apply | app/api/stylists/apply/route.ts:5-84 | a missing name, bio or e-mail gives 400, then an e-mail of an existing stylist, then one with a pending application, each storing nothing; otherwise exactly one "pending" application is appended, with non-array specialties as [], empty nameEn and image as null and an absent password as null |
| Stylists.ApplyTwiceRefused | app/api/stylists/apply/route.ts:41-54 | a second application with the same e-mail is refused while the first is pending |
| Stylists.DecidedApplicationsDoNotBlock | app/api/stylists/apply/route.ts:42-47 | approved and rejected applications with the e-mail do not block a new one |
| Stylists.ApplyPayload | app/stylist/apply/page.tsx:36-54 | the application form sends the specialties split on commas, trimmed and without empties, and empty nameEn, image and password as null |
| Stylists.AfterApply | app/stylist/apply/page.tsx:57-81 | on success every form field is reset to ""; on a failed response or a thrown request the form is kept, submission ends and the server's error or the fallback text is shown |
| Stylists.FormApplicationStored | app/stylist/apply/page.tsx:36-54 | an accepted application stores exactly the specialties the page parsed, and a blank password as none |
| Stylists.CreateStylist | app/api/admin/stylists/route.ts:5-62 | a missing name, e-mail or bio gives 400, then a known e-mail 400, each storing nothing; otherwise one stylist is appended with isActive defaulting to true only when undefined, specialties normalised, empty nameEn and image as null |
| Stylists.CreateKeepsEmailsUnique | app/api/admin/stylists/route.ts:17-27 | creation keeps stylist e-mails unique |
| Stylists.SetText | app/admin/stylists/new/page.tsx:42-50 | a text input stores its value in its own field and changes nothing else |
| Stylists.SetChecked | app/admin/stylists/new/page.tsx:45-49 | the checkbox stores its checked state and changes nothing else |
| Stylists.StylistPayload | app/admin/stylists/new/page.tsx:58-77 | the form sends specialties split on commas, trimmed and without empties, empty nameEn, image and password as null, and isActive as set |
| Stylists.UntickedCreatesInactive | app/admin/stylists/new/page.tsx:76 | an unticked checkbox creates an inactive stylist: the explicit false is kept |
| Stylists.FormSpecialtiesStoredAsParsed | app/admin/stylists/new/page.tsx:58-72 | a form the route accepts stores exactly the specialties the page parsed, with no JSON parse needed |
| Stylists.Summary | app/api/stylists/route.ts:23-41 | the average is set only when there is at least one rating and an average; a failed lookup leaves no average and a count of 0 |
| Stylists.Visible | app/api/stylists/route.ts:7-18 | with all=true every stylist is listed; otherwise exactly the active ones, in creation order |
| Stylists.Annotate | app/api/stylists/route.ts:21-55 | each stylist gets its normalised specialties and rating summary; the answer fails exactly when some specialties string fails to parse |
| Stylists.ListStylists | app/api/stylists/route.ts:4-57 | the answer fails exactly when some visible stylist's specialties fail to parse; otherwise entry i is visible stylist i (only active ones unless all=true), with normalised specialties and an average only alongside a positive count |
| Stylists.StylistById | app/api/users/stylists/route.ts:24-34 | the stylist found has the id; none is found exactly when no stylist has it |
| Stylists.StylingInquiries | app/api/users/stylists/route.ts:18-23 | only the user's "styling" inquiries that name a stylist are considered |
| Stylists.Joined | app/api/users/stylists/route.ts:24-34 | each considered inquiry is joined to its stylist's returned fields, or to none |
| Stylists.SeenIds | app/api/users/stylists/route.ts:40-45 | the ids seen are exactly those of the joined stylists so far |
| Stylists.KeepFirstFromInput | app/api/users/stylists/route.ts:43-48 | every kept stylist comes from an inquiry |
| Stylists.KeepFirstDistinct | app/api/users/stylists/route.ts:43-48 | no stylist id is kept twice |
| Stylists.KeepFirstCovers | app/api/users/stylists/route.ts:43-48 | every stylist of an inquiry is kept |
| Stylists.Dedupe | app/api/users/stylists/route.ts:39-48 | the loop keeps each stylist at its first occurrence in inquiry order, skips inquiries without a stylist, and keeps no id twice |
| Stylists.RatingOrZero | app/api/users/stylists/route.ts:68-69 | no average reads as 0, and the count is the number of ratings |
| Stylists.ConsultedStylists | app/api/users/stylists/route.ts:6-74 | without a session user id the answer is 401; otherwise the answer fails exactly when a rating lookup or a specialties parse fails for a kept stylist, and the list is, in order, the first-kept stylists of the user's joined "styling" inquiries, each with its rating or 0 and its normalised specialties |
| Stylists.RateAll | app/api/users/stylists/route.ts:50-71 | fails exactly when some stylist's rating lookup or specialties parse fails; otherwise entry i is stylist i with its rating or 0 and its normalised specialties |
| Stylists.ConsultedFromInquiries | app/api/users/stylists/route.ts:18-48 | every kept stylist is the stylist of one of the user's "styling" inquiries |
| Ratings.PostRating | app/api/stylists/ratings/route.ts:6-93 | without a session user id 401 before any validation; then a missing stylist id 400, a missing, zero or out-of-range rating 400 and an unknown stylist 404, each changing nothing; otherwise the rating under (stylist, user) is updated in place, replacing rating, comment and inquiry id with empty ones as null, or created when absent |
| Ratings.PostKeepsOnePerPair | app/api/stylists/ratings/route.ts:47-92 | posting keeps every rating under its own (stylist, user) pair, adds at most one rating and changes no other pair's rating |
| Ratings.SizeAfterUpdate | app/api/stylists/ratings/route.ts:57-88 | writing one pair adds at most one entry |
| Ratings.RepostIsIdempotent | app/api/stylists/ratings/route.ts:57-77 | posting the same rating twice leaves the store as posting it once |
| Ratings.FractionalRatingAccepted | app/api/stylists/ratings/route.ts:28-33 | Example only: a rating of 2.5 is accepted as it is: integrality is not checked |
| Newsletter.Key | app/api/newsletter/subscribe/route.ts:33 | the subscription key is trimmed, holds no upper-case ASCII letter and is no longer than the address |
| Newsletter.KeyIdempotent | app/api/newsletter/status/route.ts:19 | normalising a key again changes nothing |
| Newsletter.LowerKeepsTrimmed | app/api/newsletter/subscribe/route.ts:33 | lower-casing a trimmed address leaves it trimmed |
| Newsletter.Subscribe | app/api/newsletter/subscribe/route.ts:6-72 | without a session e-mail 401, for an unknown user 404 and for an active record 400, each changing nothing; otherwise exactly the caller's key becomes an active record linked to the user, reactivated when it existed and created when not |
| Newsletter.Unsubscribe | app/api/newsletter/unsubscribe/route.ts:6-64 | without a session e-mail 401, for an unknown user 404, with no record 404 and for an inactive record 400, each changing nothing; otherwise only the caller's record has isActive set to false |
| Newsletter.GetStatus | app/api/newsletter/status/route.ts:6-38 | without a session e-mail or after a failing lookup both flags are false; otherwise subscribed holds exactly when a record exists for the normalised e-mail and isActive exactly when it is active |
| Newsletter.SubscribeThenActive | app/api/newsletter/subscribe/route.ts:46-72 | after any successful subscription the status reads subscribed and active |
| Newsletter.SubscribeUnsubscribe | app/api/newsletter/unsubscribe/route.ts:55-60 | unsubscribing right after a successful subscription always succeeds, leaves the record subscribed but inactive, and a second unsubscribe is refused with 400 |
| Newsletter.UnsubscribeResubscribe | app/api/newsletter/subscribe/route.ts:46-58 | subscribing after unsubscribing reactivates the record for this user |
| Newsletter.SubscribeOnlyOwnRecord | app/api/newsletter/subscribe/route.ts:46-68 | subscribing leaves every other key's record unchanged |
| Newsletter.UnsubscribeOnlyOwnRecord | app/api/newsletter/unsubscribe/route.ts:55-60 | unsubscribing leaves every other key's record unchanged |
| Newsletter.SpellingsShareStatus | app/api/newsletter/status/route.ts:19-29 | addresses differing only in surrounding space or letter case read the same status |
| AdminProducts.Destructure | app/api/admin/products/route.ts:20-35 | destructuring the body fails exactly for `null` and `undefined`; any other non-object yields only absent fields |
| AdminProducts.Create | app/api/admin/products/route.ts:14-84 | an unauthenticated caller gets the admin check's own status and message; a falsy required field gives 400 and an existing slug (as sent) gives 400; a product is created exactly when the caller is an admin, the required fields are present and readable and neither the slug as sent nor its trimmed form is taken; the new product is stored under its trimmed slug and nothing changes on any rejection |
| AdminProducts.CreateKeepsSlugsUnique | app/api/admin/products/route.ts:46-74 | a store keyed by slug stays keyed by slug, and no existing product is replaced or removed |
| AdminProducts.PaddedDuplicateSlugIsServerError | app/api/admin/products/route.ts:46-60 | a space-padded copy of an existing slug passes the duplicate check (which compares the untrimmed slug) and ends as a 500 from the unique constraint |
| AdminProducts.BuildPayload | components/AdminProductsNewClient.tsx:56-96 | the payload is built exactly when the specs are blank or parse; the scalar fields are trimmed, badges and images split on commas with entries trimmed and blanks dropped, features split into non-empty lines, the stock read as a base-10 integer or 0, the specs `{}` when blank |
| AdminProducts.SubmitProduct | components/AdminProductsNewClient.tsx:50-113 | a specs parse failure sends nothing and shows the specs message; otherwise the built payload is sent and it is saved exactly when the answer is ok; a failed response shows the server's error text or the fallback, and a thrown request the `Error`'s message or the fallback |
| AdminProducts.FormPayloadStored | app/api/admin/products/route.ts:58-74 | a filled-in form with a new slug is created by the route with the form's trimmed fields, its parsed badge, feature and image lists and its stock |
| AdminProducts.PayloadCreates | app/api/admin/products/route.ts:58-74 | the route stores a trimmed payload with a new slug field for field as sent, with a zero stock written as 0 |
| AdminProducts.BlankSpecsAndDefaultStock | components/AdminProductsNewClient.tsx:27-41 | the untouched form builds an all-empty payload with stock 0 and specs `{}`, whatever the JSON parser would say |
| AdminProducts.SubmitOnPage | app/admin/products/new/page.tsx:72-143 | without stored admin data nothing is sent and the re-login message is shown; whenever a request goes out it carries the base64 of the admin data in `x-admin-data` |
| AdminProducts.PageMatchesForm | app/admin/products/new/page.tsx:84-134 | with admin data present the page sends, saves and fails exactly as the form does, with the same payload and error, and its header decodes back to the admin data |
| AdminProducts.FetchProducts | app/admin/products/page.tsx:34-67 | an array of products replaces the list with the six projected fields per product and keeps the earlier error text; a non-array answer, a failed status or a thrown error empties the list and sets the matching error; a `null` or `undefined` element empties the list and shows the TypeError's message; loading always ends |
| AdminProducts.ProjectKeepsSixFields | app/admin/products/page.tsx:46-53 | a field other than the six kept ones does not affect a list row |
| AdminProducts.Project | app/admin/products/page.tsx:46-53 | a non-object gives a row of undefined fields; each defined field of a row is the value of the same key in the product |
| AdminProducts.ConfirmText | app/admin/products/page.tsx:101 | the question names the product between "商品「" and "」を削除してもよろしいですか？" |
| AdminProducts.ErrorSurvivesSuccess | app/admin/products/page.tsx:38-60 | an error from a failed fetch stays on screen after a later successful fetch |
| AdminProducts.HandleDelete | app/admin/products/page.tsx:100-127 | nothing happens exactly when the user does not confirm; a confirmed delete targets the product's path with the admin data base64-encoded (or an empty header when there is none); it succeeds exactly on an ok response and otherwise alerts the server's error or the fallback |
| AdminProducts.DeleteAndSaveShareHeader | app/admin/products/page.tsx:100-127 | deleting sends the same admin header as saving a product for the same stored admin data, and it decodes back to that data |
| Base64.CharBytes | app/admin/products/new/page.tsx:40-41 | a character takes one UTF-8 byte below U+0080, two below U+0800, three below U+10000 and four above |
| Base64.Utf8 | app/admin/products/new/page.tsx:40-41 | the UTF-8 bytes of a string are the characters' byte groups in order, between one and four bytes per character |
| Base64.Utf8RoundTrip | app/admin/products/new/page.tsx:40-41 | decoding the UTF-8 bytes of a string gives the string back |
| Base64.AsciiIsOneBytePerChar | app/admin/products/new/page.tsx:40-46 | an ASCII string encodes to one byte per character, equal to the character's code |
| Base64.Encode | app/admin/products/new/page.tsx:43-47 | the base64 text of n bytes has 4·⌈n/3⌉ characters |
| Base64.EncodeUsesAlphabet | app/admin/products/new/page.tsx:47 | base64 output uses only the alphabet with `=` padding at the end, and no padding at all when the byte count is a multiple of three |
| Base64.EncodeRoundTrip | app/admin/products/new/page.tsx:47 | base64 decoding gives back the encoded bytes |
| Base64.EncodeToBase64 | app/admin/products/new/page.tsx:35-63 | the header is empty exactly for the empty string, is well-formed base64 and has 4·⌈n/3⌉ characters for n UTF-8 bytes |
| Base64.EncodeToBase64RoundTrip | app/admin/products/page.tsx:70-98 | every header written by the encoder decodes back, through base64 and then UTF-8, to the original text |
| Base64.EmptyMatchesGeneralPath | app/admin/products/new/page.tsx:36 | the early return for the empty string agrees with what the general path would give |
| Base64.AsciiLength | app/admin/products/new/page.tsx:40-47 | an ASCII string of n characters encodes to 4·⌈n/3⌉ characters |
| Base64.RfcTestVectors | app/admin/products/new/page.tsx:40-47 | Example only: "f", "fo" and "foo" encode to "Zg==", "Zm8=" and "Zm9v" as in section 10 of RFC 4648 |
| Base64.HiraganaExample | app/admin/products/new/page.tsx:40-47 | Example only: the Japanese character "あ" (E3 81 82 in UTF-8) encodes to "44GC" |
| Gallery.FirstOccurrences | components/ProductImageGallery.tsx:21 | removing duplicates keeps exactly the same set of images and never lengthens the list |
| Gallery.FirstOccurrencesDistinct | components/ProductImageGallery.tsx:21 | after removing duplicates no image appears twice |
| Gallery.FirstOccurrencesOrdered | components/ProductImageGallery.tsx:21 | the kept images come in the order of their first occurrence in the input |
| Gallery.Without | components/ProductImageGallery.tsx:22 | filtering out the main image keeps exactly the other images |
| Gallery.AllImagesShape | components/ProductImageGallery.tsx:21-23 | the main image comes first and nowhere else; the images are distinct; after the first, exactly the product's images other than the main one appear |
| Gallery.OthersInFirstOccurrenceOrder | components/ProductImageGallery.tsx:21-23 | after the main image, the images keep the order of their first occurrence in the product's list |
| Gallery.BuildAllImages | components/ProductImageGallery.tsx:21-23 | building the list with a set of seen images and a filter gives exactly the reference list |
| Gallery.Thumbnails | components/ProductImageGallery.tsx:40-42 | with one image there is no strip; otherwise the strip is the first min(n, 4) images, at least two |
| Gallery.ThumbnailsShownIff | components/ProductImageGallery.tsx:40 | the strip is shown exactly when the product has an image other than the main one |
| Gallery.Open | components/ProductImageGallery.tsx:17 | the gallery opens on the main image, which is also the first of its images |
| Gallery.Click | components/ProductImageGallery.tsx:45 | clicking the k-th thumbnail shows that image and keeps the images |
| Gallery.OneThumbnailHighlighted | components/ProductImageGallery.tsx:46-50 | after a click exactly the clicked thumbnail is highlighted |
| TestCaseSheets.HeaderRow | generate_test_cases.py:83-92 | row 1 holds the seven titles in columns 1 to 7, each in the header style, and nothing else |
| TestCaseSheets.WriteRow | generate_test_cases.py:119-126 | field j of a test case lands in column j of its row with a thin border, centred in columns 1 and 3 and left/top elsewhere; no other row changes |
| TestCaseSheets.BuildSheet | generate_test_cases.py:81-135 | a feature sheet has the header row, test case k in row k + 1 field by field, nothing outside those cells and the fixed column widths |
| TestCaseSheets.RowsReadBack | generate_test_cases.py:118-121 | every test case reads back verbatim from its row, and row 1 reads back as the titles |
| TestCaseSheets.NothingOutsideTheRows | generate_test_cases.py:118-126 | no cell is written below the last test case or to the right of a row's last field |
| TestCaseSheets.RemoveDefault | generate_test_cases.py:20-22 | a workbook without a sheet named "Sheet" is unchanged; otherwise exactly the first sheet named "Sheet" is removed and the others keep their order |
| TestCaseSheets.CreateWorkbook | generate_test_cases.py:16-74 | the new workbook ends with exactly the ten feature sheets in order, each named as listed and laid out with its feature's test cases |
| TestCaseSheets.SheetNamesDistinct | generate_test_cases.py:36-74 | Constant table only: the ten sheet names are distinct and none is the default "Sheet" |

## Left out

- Database access is replaced by stores passed in and returned. Prisma's error-code branches (P2002, P2021, P2025) and the "model not generated" fallbacks are not modelled. An error the database raises appears only as a `thrown` message or a failure flag.
- Database ordering (`orderBy: createdAt`) is represented by the order of the stored sequence. `take`, `skip` and `count` of the audit-log listing are not modelled, since that query's meaning lives in the database. Only the parameter checks and the filter the route builds are modelled.
- The GET handler of app/api/orders/route.ts (lines 116-157) is a database query only and is not modelled.
- The field selection (`select`) of the testimonials GET is not modelled; the listing returns whole records.
- bcrypt hashing and comparison are a function parameter: a password check, and a hash given with the stored data.
- next-auth internals (`getServerSession`, `getToken`, the redirect mechanics of `withAuth`, JWT encoding) are not modelled. The session and the token are inputs.
- `fetch`, the network, `localStorage`, timers and polling, window events and `console` output are not modelled. Their results are inputs: a response status and body, or a thrown error.
- `JSON.parse` is a partial function passed in, `None` where it throws.
- `Date.now` is a parameter, so an order number is "ORD-" followed by a given number. Locale formatting of prices and dates is not modelled.
- String lengths count Unicode scalar values. JavaScript's `.length` counts UTF-16 units, so the two differ for characters outside the Basic Multilingual Plane. That affects the testimonial comment bounds and the 255-character e-mail bound of the audit-log listing.
- `toLowerCase` lower-cases ASCII letters only. Addresses with non-ASCII capitals normalise differently in the newsletter key.
- The `maxLength` attributes of the form inputs are not modelled. Any input string is allowed.
- The page-level network failure of `markReplyAsRead` in the inquiry page is not modelled. The state update is modelled for a successful request only.
- `handleInputChange` of the stylist application page is not modelled. It is a generic field setter; only the admin stylist form's checkbox handling is modelled.
- The two fallbacks of `encodeToBase64` (the `encodeURIComponent` path and the final ""), at app/admin/products/new/page.tsx:48-62, are not modelled. `TextEncoder` cannot throw on a string of scalar values, so they are unreachable.
- The literal test-case texts of generate_test_cases.py are an input: one list of rows per feature. `wb.save`, the file name, the printed messages and the import check are not modelled.
- Ratings.PostRating: a rating sent as text, such as "3" or even "abc", passes `!rating || rating < 1 || rating > 5` through JavaScript's coercion. What the database then does with it depends on the column type, which is not part of this model, so the body's rating is a number or absent.
- A malformed order body (invalid JSON, or `items`, `shipping` or `payment` missing) makes the order route throw before any write and answer 500; the model takes the body as already parsed. A failing database read during the stock check is not modelled either.
- Inquiries.ListByEmail: the `hasRating` flag and the joined stylist fields of the by-email listing are not modelled, because ratings are not part of the inquiry record here. The route's 500 answer on a database failure is not modelled.
- Js.ParseInt and Js.IntToDecimal: integers are unbounded, whereas JavaScript's `parseInt` and number-to-text conversion work on doubles, so values above 2^53 lose precision in the source and not in the model.
- Js.ParseInt: its contract states only that text starting with a digit, after leading whitespace, parses to a number. When it is a number is stated by Js.ParseIntDefined. The value itself is stated by Js.ParseNatToDecimal and Js.IntToDecimal for decimal text.

## Findings

| source | as written | input that shows it | evidently intended | confidence | as-written member | corrected member |
|---|---|---|---|---|---|---|
| app/api/orders/route.ts:16-35 | each line's quantity is checked against the product's stock before the order, line by line, and the stock is then decremented once per line | two lines of quantity 1 for a product with stock 1: both pass, and the stock ends at -1 | the total quantity ordered for a product is checked against its stock, so stock never goes negative | not executed | Orders.DuplicateLinesOversell | Orders.PlaceOrderChecked |
| app/checkout/page.tsx:108 | `last4` is the last four characters of the card field, which is grouped in fours with spaces | the digits "12345" are shown as "1234 5" and sent with last4 "34 5" | the last four digits of the card number | not executed | Checkout.Submit | Checkout.SubmitCorrected |

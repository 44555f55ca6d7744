/**
 * The checkout page and the order-complete page: shipping fee and totals,
 * the card-number and CVV input filters, the credit-card field check and
 * the order payload sent to the order API.
 */
module Checkout {
  import opened Js
  import Cart

  // ---------------------------------------------------------------------
  // Shipping fee and totals
  // ---------------------------------------------------------------------

  /** Subtotal from which shipping is free. */
  const FreeShippingFrom: int := 15000

  /** Shipping charged below that subtotal. */
  const ShippingCharge: int := 500

  /**
   * `totalPrice >= 15000 ? 0 : 500`, where a NaN subtotal (`None`) fails the
   * comparison and pays shipping.
   */
  function ShippingFee(subtotal: Option<int>): (fee: int)
    ensures fee == 0 || fee == ShippingCharge
    ensures fee == 0 <==> subtotal.Some? && subtotal.value >= FreeShippingFrom
  {
    match subtotal
    case Some(t) => if t >= FreeShippingFrom then 0 else ShippingCharge
    case None => ShippingCharge
  }

  /** `totalPrice + shippingFee`; NaN stays NaN. */
  function FinalTotal(subtotal: Option<int>): (r: Option<int>)
    ensures r.Some? <==> subtotal.Some?
    ensures r.Some? ==> r.value == subtotal.value + ShippingFee(subtotal)
    ensures r.Some? ==> r.value >= subtotal.value
  {
    match subtotal
    case Some(t) => Some(t + ShippingFee(subtotal))
    case None => None
  }

  // ---------------------------------------------------------------------
  // Card-number input: digits only, in groups of four
  // ---------------------------------------------------------------------

  /** `s.replace(/\s/g, "")`. */
  function RemoveSpace(s: string): (r: string)
    ensures NoSpace(r)
    ensures |r| <= |s|
  {
    if |s| == 0 then ""
    else if IsSpace(s[0]) then RemoveSpace(s[1..])
    else [s[0]] + RemoveSpace(s[1..])
  }

  /** `value.match(/.{1,4}/g)` on a digit string: consecutive pieces of four, the last one shorter. */
  function Chunks4(v: string): (r: seq<string>)
    ensures |v| == 0 <==> |r| == 0
    ensures forall i :: 0 <= i < |r| ==> 1 <= |r[i]| <= 4
    ensures forall i :: 0 <= i < |r| - 1 ==> |r[i]| == 4
    decreases |v|
  {
    if |v| == 0 then []
    else if |v| <= 4 then [v]
    else [v[..4]] + Chunks4(v[4..])
  }

  /**
   * The card-number `onChange` filter: drop whitespace, drop every other
   * non-digit, then join the groups of four with single spaces (`|| value`
   * turns the `null` match of an empty string into "").
   */
  function FormatCardNumber(input: string): (r: string)
    ensures forall i :: 0 <= i < |r| ==> IsDigit(r[i]) || r[i] == ' '
    ensures RemoveSpace(r) == Digits(input)
    ensures Digits(input) == "" <==> r == ""
  {
    var value := Digits(RemoveSpace(input));
    DigitsRemoveSpace(input);
    if value == "" then value
    else
      JoinChunksShape(value);
      RemoveSpaceJoinChunks(value);
      Join(Chunks4(value), " ")
  }

  /** The CVV `onChange` filter `replace(/\D/g, "")`. */
  function CvvInput(input: string): (r: string)
    ensures AllDigits(r)
    ensures RemoveSpace(r) == r
    ensures AllDigits(input) ==> r == input
  {
    var r := Digits(input);
    NoSpaceRemoveSpace(r);
    r
  }

  // Helper facts about the filters

  lemma {:induction false} RemoveSpaceAppend(a: string, b: string)
    ensures RemoveSpace(a + b) == RemoveSpace(a) + RemoveSpace(b)
  {
    if |a| == 0 {
      assert a + b == b;
    } else {
      assert (a + b)[1..] == a[1..] + b;
      RemoveSpaceAppend(a[1..], b);
    }
  }

  lemma {:induction false} NoSpaceRemoveSpace(s: string)
    requires NoSpace(s)
    ensures RemoveSpace(s) == s
  {
    if |s| > 0 {
      NoSpaceRemoveSpace(s[1..]);
    }
  }

  lemma {:induction false} DigitsRemoveSpace(s: string)
    ensures Digits(RemoveSpace(s)) == Digits(s)
  {
    if |s| > 0 {
      DigitsRemoveSpace(s[1..]);
      if !IsSpace(s[0]) {
        assert (([s[0]] + RemoveSpace(s[1..])))[1..] == RemoveSpace(s[1..]);
      }
    }
  }

  lemma {:induction false} Chunks4Concat(v: string)
    ensures forall i :: 0 <= i < |Chunks4(v)| ==> forall k :: 0 <= k < |Chunks4(v)[i]| ==> Chunks4(v)[i][k] in v
    decreases |v|
  {
    if |v| > 4 {
      Chunks4Concat(v[4..]);
      var r := Chunks4(v);
      forall i | 0 <= i < |r| ensures forall k :: 0 <= k < |r[i]| ==> r[i][k] in v {
        if i > 0 {
          assert r[i] == Chunks4(v[4..])[i - 1];
          forall k | 0 <= k < |r[i]| ensures r[i][k] in v {
            assert r[i][k] in v[4..];
          }
        } else {
          forall k | 0 <= k < |r[i]| ensures r[i][k] in v {
            assert r[i][k] == v[k];
          }
        }
      }
    }
  }

  /** Joining the groups of a digit string with spaces gives digits and single spaces. */
  lemma {:induction false} JoinChunksShape(v: string)
    requires AllDigits(v)
    ensures forall i :: 0 <= i < |Join(Chunks4(v), " ")| ==> IsDigit(Join(Chunks4(v), " ")[i]) || Join(Chunks4(v), " ")[i] == ' '
    decreases |v|
  {
    if |v| > 4 {
      JoinChunksShape(v[4..]);
      assert Chunks4(v)[1..] == Chunks4(v[4..]);
    }
  }

  /** Removing the spaces from the grouped form gives the digit string back. */
  lemma {:induction false} RemoveSpaceJoinChunks(v: string)
    requires AllDigits(v)
    ensures RemoveSpace(Join(Chunks4(v), " ")) == v
    decreases |v|
  {
    if |v| == 0 {
    } else if |v| <= 4 {
      NoSpaceRemoveSpace(v);
    } else {
      RemoveSpaceJoinChunks(v[4..]);
      var rest := Join(Chunks4(v[4..]), " ");
      assert Chunks4(v)[1..] == Chunks4(v[4..]);
      assert Join(Chunks4(v), " ") == v[..4] + " " + rest;
      RemoveSpaceAppend(v[..4] + " ", rest);
      RemoveSpaceAppend(v[..4], " ");
      NoSpaceRemoveSpace(v[..4]);
      assert v[..4] + v[4..] == v;
    }
  }

  // ---------------------------------------------------------------------
  // Properties of the card-number filter
  // ---------------------------------------------------------------------

  /** The grouped form splits on spaces into the groups of four, the last one 1 to 4 long. */
  lemma CardGroups(input: string)
    requires Digits(input) != ""
    ensures Split(FormatCardNumber(input), ' ') == Chunks4(Digits(input))
    ensures forall i :: 0 <= i < |Split(FormatCardNumber(input), ' ')| - 1 ==>
              |Split(FormatCardNumber(input), ' ')[i]| == 4
    ensures |Split(FormatCardNumber(input), ' ')[|Split(FormatCardNumber(input), ' ')| - 1]| in {1, 2, 3, 4}
  {
    var v := Digits(input);
    DigitsRemoveSpace(input);
    var parts := Chunks4(v);
    Chunks4Concat(v);
    assert forall i :: 0 <= i < |parts| ==> ' ' !in parts[i];
    SplitJoin(parts, ' ');
  }

  /** Formatting the formatted text again changes nothing. */
  lemma FormatIdempotent(input: string)
    ensures FormatCardNumber(FormatCardNumber(input)) == FormatCardNumber(input)
  {
    var r := FormatCardNumber(input);
    DigitsRemoveSpace(r);
    DigitsRemoveSpace(input);
    assert Digits(r) == Digits(RemoveSpace(r));
    assert Digits(RemoveSpace(r)) == Digits(Digits(input));
  }

  /** The digits of a formatted number are exactly the digits typed, in order. */
  lemma FormatKeepsDigits(input: string)
    ensures Digits(FormatCardNumber(input)) == Digits(input)
  {
    var r := FormatCardNumber(input);
    DigitsRemoveSpace(r);
  }

  // ---------------------------------------------------------------------
  // Submitting the checkout form
  // ---------------------------------------------------------------------

  datatype PaymentMethod = Credit | Bank | Convenience

  function MethodName(m: PaymentMethod): string {
    match m
    case Credit => "credit"
    case Bank => "bank"
    case Convenience => "convenience"
  }

  /** The card fields of the form, "" when left empty. */
  datatype CardForm = CardForm(number: string, expiryMonth: string, expiryYear: string, cvv: string, name: string)

  /** The shipping block of the form and of the order. */
  datatype Shipping = Shipping(
    lastName: string, firstName: string, lastNameKana: string, firstNameKana: string,
    postalCode: string, prefecture: string, city: string, address: string,
    building: string, phone: string, email: string)

  datatype CardInfo = CardInfo(last4: string, expiryMonth: string, expiryYear: string)

  datatype OrderItem = OrderItem(id: string, name: string, price: string, quantity: int)

  datatype Payment = Payment(payMethod: PaymentMethod, total: Option<int>, cardInfo: Option<CardInfo>)

  /** The JSON body POSTed to the order API. */
  datatype OrderRequest = OrderRequest(items: seq<OrderItem>, shipping: Shipping, payment: Payment, notes: string, userId: Option<string>)

  datatype Submission =
    | Alert(message: string)   // the card check failed; nothing is sent
    | Send(body: OrderRequest)

  /** Every card field is filled in. */
  predicate CardComplete(c: CardForm) {
    c.number != "" && c.expiryMonth != "" && c.expiryYear != "" && c.cvv != "" && c.name != ""
  }

  /** A cart line as sent with the order: id, name, price text and quantity unchanged. */
  function ToOrderItem(l: Cart.Line): (r: OrderItem)
    ensures r.id == l.id && r.name == l.name && r.quantity == l.quantity
    ensures r.price == l.price && Cart.UnitPrice(r.price) == Cart.UnitPrice(l.price)
  {
    OrderItem(l.id, l.name, l.price, l.quantity)
  }

  /**
   * The submission once the card's `last4` is chosen: with payment by card,
   * any empty card field stops it; otherwise the order body is built from
   * the cart, the form and the session user (`user?.id || undefined`).
   */
  function SubmitWith(items: seq<Cart.Line>, shipping: Shipping, payMethod: PaymentMethod, card: CardForm,
                      notes: string, sessionUserId: Option<string>, last4: string): (r: Submission)
    ensures payMethod == Credit && !CardComplete(card) <==> r.Alert?
    ensures r.Alert? ==> r.message == "クレジットカード情報をすべて入力してください。"
    ensures r.Send? ==> |r.body.items| == |items|
    ensures r.Send? ==> forall i :: 0 <= i < |items| ==> r.body.items[i] == ToOrderItem(items[i])
    ensures r.Send? ==> r.body.shipping == shipping && r.body.notes == notes && r.body.payment.payMethod == payMethod
    ensures r.Send? ==> r.body.payment.total == FinalTotal(Cart.TotalPrice(items))
    ensures r.Send? ==> (r.body.payment.cardInfo.Some? <==> payMethod == Credit)
    ensures r.Send? && payMethod == Credit ==>
              r.body.payment.cardInfo.value == CardInfo(last4, card.expiryMonth, card.expiryYear)
    ensures r.Send? ==> (r.body.userId.Some? <==> TruthyText(sessionUserId))
    ensures r.Send? && r.body.userId.Some? ==> r.body.userId == sessionUserId
  {
    if payMethod == Credit && !CardComplete(card) then
      Alert("クレジットカード情報をすべて入力してください。")
    else
      var cardInfo := if payMethod == Credit then Some(CardInfo(last4, card.expiryMonth, card.expiryYear)) else None;
      var orderItems := seq(|items|, i requires 0 <= i < |items| => ToOrderItem(items[i]));
      Send(OrderRequest(orderItems, shipping, Payment(payMethod, FinalTotal(Cart.TotalPrice(items)), cardInfo),
                        notes, NullableOrNull(sessionUserId)))
  }

  /**
   * `handleSubmit` up to the request, as written: the card's `last4` is
   * `cardNumber.slice(-4)`, the last four characters of the grouped field.
   */
  function Submit(items: seq<Cart.Line>, shipping: Shipping, payMethod: PaymentMethod, card: CardForm,
                  notes: string, sessionUserId: Option<string>): (r: Submission)
    ensures payMethod == Credit && !CardComplete(card) <==> r.Alert?
    ensures r.Send? ==> |r.body.items| == |items|
    ensures r.Send? ==> forall i :: 0 <= i < |items| ==>
              r.body.items[i].id == items[i].id && r.body.items[i].quantity == items[i].quantity &&
              r.body.items[i].price == items[i].price
    ensures r.Send? ==> r.body.payment.total == FinalTotal(Cart.TotalPrice(items))
    ensures r.Send? ==> (r.body.payment.cardInfo.Some? <==> payMethod == Credit)
    ensures r.Send? && payMethod == Credit ==>
              |r.body.payment.cardInfo.value.last4| <= 4 && r.body.payment.cardInfo.value.last4 == Last(card.number, 4)
    ensures r.Send? ==> (r.body.userId.Some? <==> TruthyText(sessionUserId))
  {
    SubmitWith(items, shipping, payMethod, card, notes, sessionUserId, Last(card.number, 4))
  }

  /** The submission with the evidently intended `last4`: the last four digits of the card. */
  function SubmitCorrected(items: seq<Cart.Line>, shipping: Shipping, payMethod: PaymentMethod, card: CardForm,
                           notes: string, sessionUserId: Option<string>): (r: Submission)
    ensures payMethod == Credit && !CardComplete(card) <==> r.Alert?
    ensures r.Send? ==> (r.body.payment.cardInfo.Some? <==> payMethod == Credit)
    ensures r.Send? && payMethod == Credit ==>
              AllDigits(r.body.payment.cardInfo.value.last4) && r.body.payment.cardInfo.value.last4 == Last(Digits(card.number), 4)
  {
    SubmitWith(items, shipping, payMethod, card, notes, sessionUserId, CardLast4(card.number))
  }

  /**
   * `cardNumber.slice(-4)` takes the last four characters of the grouped
   * form. For a number whose digit count is a multiple of four these are its
   * last four digits.
   */
  lemma {:induction false} LastFourOfGroups(v: string)
    requires AllDigits(v) && |v| >= 4 && |v| % 4 == 0
    ensures Last(Join(Chunks4(v), " "), 4) == Last(v, 4)
    decreases |v|
  {
    if |v| > 4 {
      var rest := Join(Chunks4(v[4..]), " ");
      assert Chunks4(v)[1..] == Chunks4(v[4..]);
      assert Join(Chunks4(v), " ") == v[..4] + " " + rest;
      LastFourOfGroups(v[4..]);
      assert v[4..][|v| - 8..] == v[|v| - 4..];
    }
  }

  /** A 16-digit number: the `last4` sent with the order is its last four digits. */
  lemma Last4OfSixteenDigits(typed: string)
    requires |Digits(typed)| == 16
    ensures Last(FormatCardNumber(typed), 4) == Last(Digits(typed), 4)
  {
    DigitsRemoveSpace(typed);
    LastFourOfGroups(Digits(typed));
  }

  /**
   * With a digit count that is not a multiple of four the last group is
   * short, and `slice(-4)` picks up the separating space: five digits
   * "12345" are shown as "1234 5" and sent as last4 "34 5".
   */
  lemma Last4PicksUpSpace()
    ensures FormatCardNumber("12345") == "1234 5"
    ensures Last(FormatCardNumber("12345"), 4) == "34 5"
  {
    FormatFiveDigits("12345");
    assert "1234 5"[2..] == "34 5";
  }

  lemma FormatFiveDigits(v: string)
    requires v == "12345"
    ensures FormatCardNumber(v) == "1234 5"
  {
    assert AllDigits(v) && NoSpace(v);
    NoSpaceRemoveSpace(v);
    assert v[..4] == "1234" && v[4..] == "5";
    assert Chunks4(v) == ["1234", "5"];
    assert Join(["1234", "5"], " ") == "1234 5";
  }

  /** The last four digits of the card number, whatever the grouping. */
  function CardLast4(number: string): (r: string)
    ensures AllDigits(r)
    ensures |r| == if |Digits(number)| < 4 then |Digits(number)| else 4
    ensures r == Last(Digits(number), 4)
  {
    Last(Digits(number), 4)
  }

  /** The corrected `last4` agrees with the formatted form's last four digits in every case. */
  lemma {:induction false} CardLast4OfFormatted(typed: string)
    ensures CardLast4(FormatCardNumber(typed)) == Last(Digits(typed), 4)
  {
    FormatKeepsDigits(typed);
  }

  /**
   * The page as written and the corrected page send the same order for a
   * card number typed with 16 digits, and different ones for "12345".
   */
  lemma SubmitCorrectionAgrees(items: seq<Cart.Line>, shipping: Shipping, payMethod: PaymentMethod, card: CardForm,
                               notes: string, sessionUserId: Option<string>, typed: string)
    requires card.number == FormatCardNumber(typed)
    ensures |Digits(typed)| == 16 ==>
              (SubmitCorrected(items, shipping, payMethod, card, notes, sessionUserId)
               == Submit(items, shipping, payMethod, card, notes, sessionUserId))
    ensures typed == "12345" && payMethod == Credit && CardComplete(card) ==>
              (SubmitCorrected(items, shipping, payMethod, card, notes, sessionUserId)
               != Submit(items, shipping, payMethod, card, notes, sessionUserId))
  {
    if |Digits(typed)| == 16 {
      CorrectionKeepsSixteenDigits(typed);
    }
    if typed == "12345" && payMethod == Credit && CardComplete(card) {
      Last4PicksUpSpace();
      var corrected := SubmitCorrected(items, shipping, payMethod, card, notes, sessionUserId);
      var written := Submit(items, shipping, payMethod, card, notes, sessionUserId);
      assert written.body.payment.cardInfo.value.last4 == "34 5";
      assert !IsDigit("34 5"[2]);
      assert corrected.body.payment.cardInfo.value.last4 != written.body.payment.cardInfo.value.last4;
    }
  }

  /** For a 16-digit card the corrected last4 is what the page sends as written. */
  lemma CorrectionKeepsSixteenDigits(typed: string)
    requires |Digits(typed)| == 16
    ensures CardLast4(FormatCardNumber(typed)) == Last(FormatCardNumber(typed), 4)
  {
    CardLast4OfFormatted(typed);
    Last4OfSixteenDigits(typed);
  }

  // ---------------------------------------------------------------------
  // The order-complete page
  // ---------------------------------------------------------------------

  /** A price as loaded back from the order: text such as "¥28,000", or a number. */
  datatype Price = PText(text: string) | PNumber(amount: int)

  datatype CompletedLine = CompletedLine(price: Price, quantity: int)

  datatype CompletedOrder = CompletedOrder(items: seq<CompletedLine>, payMethod: string, total: int)

  /** What the page shows once loading has finished. */
  datatype CompleteView =
    | NotFound
    | Summary(subtotal: Option<int>, shippingFee: int, finalTotal: Option<int>, methodLabel: Option<string>)

  /** The unit price of a loaded line, for a given reading of price text: numbers are used as they are. */
  function PriceBy(p: Price, text: string -> Option<int>): (r: Option<int>)
    ensures p.PNumber? ==> r == Some(p.amount)
    ensures p.PText? ==> r == text(p.text)
  {
    match p
    case PText(t) => text(t)
    case PNumber(n) => Some(n)
  }

  /** The unit price of a loaded line: text is stripped of '¥' and ',' and parsed, numbers are used as they are. */
  function LineUnitPrice(p: Price): (r: Option<int>)
    ensures p.PNumber? ==> r == Some(p.amount)
    ensures p.PText? ==> r == Cart.UnitPrice(p.text)
  {
    PriceBy(p, Cart.UnitPrice)
  }

  /** The `reduce` over the loaded lines for a given reading of price text; one NaN price makes the subtotal NaN. */
  function SubtotalBy(items: seq<CompletedLine>, text: string -> Option<int>): (r: Option<int>)
    ensures r.Some? <==> forall i :: 0 <= i < |items| ==> PriceBy(items[i].price, text).Some?
  {
    if |items| == 0 then Some(0)
    else
      var rest := SubtotalBy(items[1..], text);
      assert forall i :: 1 <= i < |items| ==> items[i] == items[1..][i - 1];
      match PriceBy(items[0].price, text)
      case None => None
      case Some(p) => if rest.None? then None else Some(p * items[0].quantity + rest.value)
  }

  /** The subtotal the complete page shows: the `reduce` of unit price times quantity over the loaded lines. */
  function CompletedSubtotal(items: seq<CompletedLine>): (r: Option<int>)
    ensures r.Some? <==> forall i :: 0 <= i < |items| ==> LineUnitPrice(items[i].price).Some?
    ensures |items| == 0 ==> r == Some(0)
  {
    SubtotalBy(items, Cart.UnitPrice)
  }

  /** One step of the `reduce`: the line's unit price times its quantity is added, and NaN on either side stays NaN. */
  function AddCompletedBy(total: Option<int>, l: CompletedLine, text: string -> Option<int>): Option<int> {
    match PriceBy(l.price, text)
    case None => None
    case Some(p) => if total.None? then None else Some(total.value + p * l.quantity)
  }

  function AddCompleted(total: Option<int>, l: CompletedLine): Option<int> {
    AddCompletedBy(total, l, Cart.UnitPrice)
  }

  lemma {:induction false} SubtotalByAppend(items: seq<CompletedLine>, l: CompletedLine, text: string -> Option<int>)
    ensures SubtotalBy(items + [l], text) == AddCompletedBy(SubtotalBy(items, text), l, text)
  {
    if |items| == 0 {
      assert items + [l] == [l] && [l][1..] == [];
    } else {
      assert (items + [l])[1..] == items[1..] + [l];
      SubtotalByAppend(items[1..], l, text);
    }
  }

  /**
   * The subtotal is the `reduce` from 0 taken left to right: appending a
   * line adds its unit price times its quantity to a numeric subtotal.
   */
  lemma CompletedSubtotalAppend(items: seq<CompletedLine>, l: CompletedLine)
    ensures CompletedSubtotal(items + [l]) == AddCompleted(CompletedSubtotal(items), l)
  {
    SubtotalByAppend(items, l, Cart.UnitPrice);
  }

  /** The cart's lines as they are loaded back from the stored order: the price text and the quantity. */
  function FromCart(items: seq<Cart.Line>): (r: seq<CompletedLine>)
    ensures |r| == |items|
    ensures forall i :: 0 <= i < |items| ==> r[i] == CompletedLine(PText(items[i].price), items[i].quantity)
  {
    seq(|items|, i requires 0 <= i < |items| => CompletedLine(PText(items[i].price), items[i].quantity))
  }

  lemma {:induction false} SubtotalByOfCart(items: seq<Cart.Line>, text: string -> Option<int>)
    ensures SubtotalBy(FromCart(items), text) == Cart.SumBy(items, text)
  {
    if |items| > 0 {
      assert FromCart(items)[1..] == FromCart(items[1..]);
      SubtotalByOfCart(items[1..], text);
    }
  }

  /** For an order placed from a cart, the page's subtotal is the cart's total. */
  lemma SubtotalOfCartOrder(items: seq<Cart.Line>)
    ensures CompletedSubtotal(FromCart(items)) == Cart.TotalPrice(items)
  {
    SubtotalByOfCart(items, Cart.UnitPrice);
  }

  /** The label under お支払い方法: one of three methods, nothing for any other value. */
  function MethodLabel(payMethod: string): (r: Option<string>)
    ensures r.Some? <==> payMethod in {"credit", "bank", "convenience"}
  {
    if payMethod == "credit" then Some("クレジットカード")
    else if payMethod == "bank" then Some("銀行振込")
    else if payMethod == "convenience" then Some("コンビニ決済")
    else None
  }

  /** The page after loading: without an order id or a loaded order it is the not-found view. */
  function CompletePage(orderId: Option<string>, order: Option<CompletedOrder>): (v: CompleteView)
    ensures v.NotFound? <==> !TruthyText(orderId) || order.None?
    ensures v.Summary? ==> v.subtotal == CompletedSubtotal(order.value.items)
    ensures v.Summary? ==> v.shippingFee == ShippingFee(v.subtotal) && v.finalTotal == FinalTotal(v.subtotal)
  {
    if !TruthyText(orderId) || order.None? then NotFound
    else
      var sub := CompletedSubtotal(order.value.items);
      Summary(sub, ShippingFee(sub), FinalTotal(sub), MethodLabel(order.value.payMethod))
  }

  /** Numeric and textual prices of the same amount give the same subtotal. */
  lemma {:induction false} TextAndNumberPricesAgree(n: nat, q: int)
    ensures CompletedSubtotal([CompletedLine(PText(NatToDecimal(n)), q)])
         == CompletedSubtotal([CompletedLine(PNumber(n), q)])
  {
    var t := NatToDecimal(n);
    assert forall i :: 0 <= i < |t| ==> t[i] !in {'¥', ','};
    assert RemoveChars(t, {'¥', ','}) == t;
    ParseNatToDecimal(n);
    assert LineUnitPrice(PText(t)) == Some(n as int);
    var a := [CompletedLine(PText(t), q)];
    var b := [CompletedLine(PNumber(n), q)];
    assert a[1..] == [] && b[1..] == [];
  }
}

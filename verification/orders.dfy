/**
 * The order API (POST): every line is checked against the product table
 * before anything is written; then the order is stored and each line's
 * quantity is taken off its product's stock.
 */
module Orders {
  import opened Js

  datatype ProductRow = ProductRow(name: string, stock: int)

  type Products = map<string, ProductRow>

  datatype Line = Line(id: string, name: string, price: string, quantity: int)

  datatype CardInfo = CardInfo(last4: string, expiryMonth: string, expiryYear: string)

  datatype Shipping = Shipping(
    lastName: string, firstName: string, lastNameKana: string, firstNameKana: string,
    postalCode: string, prefecture: string, city: string, address: string,
    building: string, phone: string, email: string)

  /** The request body; "" stands for an absent or empty string field. */
  datatype Request = Request(items: seq<Line>, shipping: Shipping, total: int, paymentMethod: string,
                             cardInfo: Option<CardInfo>, notes: string, userId: string)

  /** The stored order. */
  datatype Order = Order(
    orderNumber: string, total: int, shippingFee: int, paymentMethod: string, userId: Option<string>,
    lastName: string, firstName: string, lastNameKana: string, firstNameKana: string,
    postalCode: string, prefecture: string, city: string, address: string, building: Option<string>,
    phone: string, email: string, notes: Option<string>,
    cardLast4: Option<string>, cardExpiryMonth: Option<string>, cardExpiryYear: Option<string>,
    items: seq<Line>)

  datatype Store = Store(products: Products, orders: seq<Order>)

  datatype Response =
    | Created(orderNumber: string)
    | Error(status: int, message: string)

  /** The 404 for a line whose product is not in the table. */
  function NotFoundError(name: string): (r: Response)
    ensures r.Error? && r.status == 404
  {
    Error(404, "商品「" + name + "」が見つかりません")
  }

  /** The 400 for a product whose stock is short, naming the stock that remains. */
  function ShortageError(row: ProductRow): (r: Response)
    ensures r.Error? && r.status == 400
  {
    Error(400, "商品「" + row.name + "」の在庫が不足しています（残り" + IntToDecimal(row.stock) + "点）")
  }

  /** The answer a failing line causes: 404 when its product is missing, otherwise the shortage 400. */
  function LineError(ps: Products, it: Line): (r: Response)
    ensures it.id !in ps ==> r == NotFoundError(it.name)
    ensures it.id in ps ==> r == ShortageError(ps[it.id])
  {
    if it.id !in ps then NotFoundError(it.name) else ShortageError(ps[it.id])
  }

  /** A line passes the check as written when its product exists and its stock covers the line's own quantity. */
  predicate LinePasses(ps: Products, it: Line) {
    it.id in ps && ps[it.id].stock >= it.quantity
  }

  /** Line `k` is the first to fail the check as written, and `v` is its answer. */
  predicate FailsFirstAt(ps: Products, items: seq<Line>, k: int, v: Response) {
    && 0 <= k < |items| && !LinePasses(ps, items[k])
    && (forall j :: 0 <= j < k ==> LinePasses(ps, items[j]))
    && v == LineError(ps, items[k])
  }

  lemma FailsFirstAtShift(ps: Products, items: seq<Line>, v: Response)
    requires |items| > 0 && LinePasses(ps, items[0])
    requires exists k :: FailsFirstAt(ps, items[1..], k, v)
    ensures exists k :: FailsFirstAt(ps, items, k, v)
  {
    var k :| FailsFirstAt(ps, items[1..], k, v);
    assert forall j :: 1 <= j < |items| ==> items[j] == items[1..][j - 1];
    assert FailsFirstAt(ps, items, k + 1, v);
  }

  /** At most one line is the first to fail, so the answer it causes is determined. */
  lemma FailsFirstAtUnique(ps: Products, items: seq<Line>, k1: int, v1: Response, k2: int, v2: Response)
    requires FailsFirstAt(ps, items, k1, v1) && FailsFirstAt(ps, items, k2, v2)
    ensures k1 == k2 && v1 == v2
  {
  }

  /**
   * The first line that fails the stock check, as the response it causes:
   * every line before it passes, and the answer is that line's 404 or 400.
   */
  function FirstFailure(ps: Products, items: seq<Line>): (r: Option<Response>)
    ensures r.None? <==> forall i :: 0 <= i < |items| ==> LinePasses(ps, items[i])
    ensures r.Some? ==> exists k :: FailsFirstAt(ps, items, k, r.value)
  {
    if |items| == 0 then None
    else
      var it := items[0];
      if it.id !in ps then
        assert FailsFirstAt(ps, items, 0, NotFoundError(it.name));
        Some(NotFoundError(it.name))
      else if ps[it.id].stock < it.quantity then
        assert FailsFirstAt(ps, items, 0, ShortageError(ps[it.id]));
        Some(ShortageError(ps[it.id]))
      else
        var r := FirstFailure(ps, items[1..]);
        assert forall i :: 1 <= i < |items| ==> items[i] == items[1..][i - 1];
        if r.Some? then FailsFirstAtShift(ps, items, r.value); r else r
  }

  /** The total quantity ordered for one product across all lines. */
  function OrderedQuantity(items: seq<Line>, id: string): int {
    if |items| == 0 then 0
    else (if items[0].id == id then items[0].quantity else 0) + OrderedQuantity(items[1..], id)
  }

  /** The decrement loop: each line takes its quantity off its product's stock. */
  function Decrement(ps: Products, items: seq<Line>): (r: Products)
    requires forall i :: 0 <= i < |items| ==> items[i].id in ps
    ensures r.Keys == ps.Keys
    ensures forall id :: id in ps ==> r[id].name == ps[id].name
    ensures forall id :: id in ps ==> r[id].stock == ps[id].stock - OrderedQuantity(items, id)
  {
    if |items| == 0 then ps
    else
      var it := items[0];
      var ps' := ps[it.id := ps[it.id].(stock := ps[it.id].stock - it.quantity)];
      Decrement(ps', items[1..])
  }

  /** `payment.total >= 15000 ? 0 : 500`. */
  function StoredShippingFee(total: int): (fee: int)
    ensures fee == 0 <==> total >= 15000
    ensures fee == 0 || fee == 500
  {
    if total >= 15000 then 0 else 500
  }

  /** The record written by `prisma.order.create`, with `|| null` on the optional fields. */
  function MakeOrder(req: Request, orderNumber: string): (o: Order)
    ensures o.userId.None? <==> req.userId == ""
    ensures o.building.None? <==> req.shipping.building == ""
    ensures o.notes.None? <==> req.notes == ""
    ensures o.cardLast4.None? <==> req.cardInfo.None? || req.cardInfo.value.last4 == ""
    ensures o.cardExpiryMonth.None? <==> req.cardInfo.None? || req.cardInfo.value.expiryMonth == ""
    ensures o.cardExpiryYear.None? <==> req.cardInfo.None? || req.cardInfo.value.expiryYear == ""
    ensures o.shippingFee == 0 <==> req.total >= 15000
    ensures o.total == req.total && o.items == req.items && o.orderNumber == orderNumber
  {
    var s := req.shipping;
    var card := req.cardInfo;
    Order(orderNumber, req.total, StoredShippingFee(req.total), req.paymentMethod, OrNull(req.userId),
          s.lastName, s.firstName, s.lastNameKana, s.firstNameKana, s.postalCode, s.prefecture, s.city,
          s.address, OrNull(s.building), s.phone, s.email, OrNull(req.notes),
          if card.Some? then OrNull(card.value.last4) else None,
          if card.Some? then OrNull(card.value.expiryMonth) else None,
          if card.Some? then OrNull(card.value.expiryYear) else None,
          req.items)
  }

  /** `ORD-${Date.now()}`; the clock reading is a parameter. */
  function OrderNumber(now: nat): (n: string)
    ensures StartsWith(n, "ORD-")
  {
    "ORD-" + NatToDecimal(now)
  }

  /**
   * POST /api/orders as written: each line is checked on its own against
   * the stock before the order, and every line is then decremented.
   */
  function PlaceOrder(st: Store, req: Request, now: nat): (r: (Store, Response))
    ensures r.1.Created? <==> forall i :: 0 <= i < |req.items| ==> LinePasses(st.products, req.items[i])
    ensures r.1.Error? ==> r.0 == st
    ensures r.1.Error? ==> exists k :: FailsFirstAt(st.products, req.items, k, r.1)
    ensures r.1.Created? ==> r.1.orderNumber == OrderNumber(now)
    ensures r.1.Created? ==> r.0.orders == st.orders + [MakeOrder(req, OrderNumber(now))]
    ensures r.1.Created? ==> r.0.products.Keys == st.products.Keys
    ensures r.1.Created? ==> forall id :: id in st.products ==>
              r.0.products[id].stock == st.products[id].stock - OrderedQuantity(req.items, id)
  {
    match FirstFailure(st.products, req.items)
    case Some(err) => (st, err)
    case None =>
      var num := OrderNumber(now);
      (Store(Decrement(st.products, req.items), st.orders + [MakeOrder(req, num)]), Created(num))
  }

  /**
   * A database failure after the stock check: the order create throws, or
   * the stock update of line `at` throws after the updates before it were
   * written. `NoFault` is the run in which every write succeeds.
   */
  datatype Fault = NoFault | CreateFails | UpdateFails(at: nat)

  const CreateFailedMessage := "注文の作成に失敗しました"

  /**
   * POST /api/orders with its catch-all: a write that throws answers 500,
   * and what was written before it stays written, so an update failing at
   * line `at` leaves the order stored and only the lines before `at`
   * taken off the stock.
   */
  function PlaceOrderWithFault(st: Store, req: Request, now: nat, fault: Fault): (r: (Store, Response))
    ensures fault.NoFault? || (fault.UpdateFails? && fault.at >= |req.items|) ==> r == PlaceOrder(st, req, now)
    ensures FirstFailure(st.products, req.items).Some? ==> r == PlaceOrder(st, req, now)
    ensures FirstFailure(st.products, req.items).None? && fault.CreateFails? ==> r == (st, Error(500, CreateFailedMessage))
    ensures FirstFailure(st.products, req.items).None? && fault.UpdateFails? && fault.at < |req.items| ==>
              && r.1 == Error(500, CreateFailedMessage)
              && r.0.orders == st.orders + [MakeOrder(req, OrderNumber(now))]
              && r.0.products.Keys == st.products.Keys
              && forall id :: id in st.products ==>
                   r.0.products[id].stock == st.products[id].stock - OrderedQuantity(req.items[..fault.at], id)
  {
    match FirstFailure(st.products, req.items)
    case Some(err) => (st, err)
    case None =>
      var num := OrderNumber(now);
      match fault
      case NoFault => PlaceOrder(st, req, now)
      case CreateFails => (st, Error(500, CreateFailedMessage))
      case UpdateFails(at) =>
        if at >= |req.items| then PlaceOrder(st, req, now)
        else
          var done := req.items[..at];
          assert forall i :: 0 <= i < |done| ==> done[i] == req.items[i];
          (Store(Decrement(st.products, done), st.orders + [MakeOrder(req, num)]), Error(500, CreateFailedMessage))
  }

  /**
   * Two lines for the same product each pass the per-line check, yet
   * together take the stock below zero.
   */
  lemma DuplicateLinesOversell()
    ensures var st := Store(map["p" := ProductRow("Coat", 1)], []);
            var line := Line("p", "Coat", "¥28,000", 1);
            var req := Request([line, line], Shipping("", "", "", "", "", "", "", "", "", "", ""), 28000, "bank", None, "", "");
            var r := PlaceOrder(st, req, 0);
            r.1.Created? && r.0.products["p"].stock == -1
  {
    var line := Line("p", "Coat", "¥28,000", 1);
    var items := [line, line];
    assert items[1..] == [line] && [line][1..] == [];
    assert OrderedQuantity([line], "p") == 1;
    assert OrderedQuantity(items, "p") == 2;
  }

  // ---------------------------------------------------------------------
  // The corrected stock check
  // ---------------------------------------------------------------------

  /** The corrected check: a line passes when its product's stock covers every line of `all` that orders it. */
  predicate LineCovered(ps: Products, it: Line, all: seq<Line>) {
    it.id in ps && ps[it.id].stock >= OrderedQuantity(all, it.id)
  }

  /** Line `k` is the first to fail the corrected check, and `v` is its answer. */
  predicate ShortFirstAt(ps: Products, items: seq<Line>, all: seq<Line>, k: int, v: Response) {
    && 0 <= k < |items| && !LineCovered(ps, items[k], all)
    && (forall j :: 0 <= j < k ==> LineCovered(ps, items[j], all))
    && v == LineError(ps, items[k])
  }

  lemma ShortFirstAtShift(ps: Products, items: seq<Line>, all: seq<Line>, v: Response)
    requires |items| > 0 && LineCovered(ps, items[0], all)
    requires exists k :: ShortFirstAt(ps, items[1..], all, k, v)
    ensures exists k :: ShortFirstAt(ps, items, all, k, v)
  {
    var k :| ShortFirstAt(ps, items[1..], all, k, v);
    assert forall j :: 1 <= j < |items| ==> items[j] == items[1..][j - 1];
    assert ShortFirstAt(ps, items, all, k + 1, v);
  }

  /** The first line whose product's stock cannot cover all the lines ordering it, as the response it causes. */
  function FirstShortfall(ps: Products, items: seq<Line>, all: seq<Line>): (r: Option<Response>)
    ensures r.None? <==> forall i :: 0 <= i < |items| ==> LineCovered(ps, items[i], all)
    ensures r.Some? ==> exists k :: ShortFirstAt(ps, items, all, k, r.value)
  {
    if |items| == 0 then None
    else
      var it := items[0];
      if it.id !in ps then
        assert ShortFirstAt(ps, items, all, 0, NotFoundError(it.name));
        Some(NotFoundError(it.name))
      else if ps[it.id].stock < OrderedQuantity(all, it.id) then
        assert ShortFirstAt(ps, items, all, 0, ShortageError(ps[it.id]));
        Some(ShortageError(ps[it.id]))
      else
        var r := FirstShortfall(ps, items[1..], all);
        assert forall i :: 1 <= i < |items| ==> items[i] == items[1..][i - 1];
        if r.Some? then ShortFirstAtShift(ps, items, all, r.value); r else r
  }

  /**
   * The order API with the stock check made against the total quantity of
   * each product over all lines: it accepts exactly when every line's
   * product exists and its stock covers the total ordered, and a success
   * never leaves a stock below zero.
   */
  function PlaceOrderChecked(st: Store, req: Request, now: nat): (r: (Store, Response))
    ensures r.1.Created? <==> forall i :: 0 <= i < |req.items| ==> LineCovered(st.products, req.items[i], req.items)
    ensures r.1.Error? ==> r.0 == st
    ensures r.1.Error? ==> exists k :: ShortFirstAt(st.products, req.items, req.items, k, r.1)
    ensures r.1.Created? ==> r.1.orderNumber == OrderNumber(now)
    ensures r.1.Created? ==> r.0.orders == st.orders + [MakeOrder(req, OrderNumber(now))]
    ensures r.1.Created? ==> r.0.products.Keys == st.products.Keys
    ensures r.1.Created? ==> forall id :: id in st.products ==>
              r.0.products[id].stock == st.products[id].stock - OrderedQuantity(req.items, id)
  {
    match FirstShortfall(st.products, req.items, req.items)
    case Some(err) => (st, err)
    case None =>
      var num := OrderNumber(now);
      (Store(Decrement(st.products, req.items), st.orders + [MakeOrder(req, num)]), Created(num))
  }

  /** A product that no line orders has an ordered quantity of zero. */
  lemma {:induction false} NotOrderedIsZero(items: seq<Line>, id: string)
    requires forall i :: 0 <= i < |items| ==> items[i].id != id
    ensures OrderedQuantity(items, id) == 0
  {
    if |items| > 0 {
      NotOrderedIsZero(items[1..], id);
    }
  }

  /** With non-negative stock and quantities, the corrected check keeps every stock non-negative. */
  lemma CheckedOrderKeepsStockNonNegative(st: Store, req: Request, now: nat)
    requires forall id :: id in st.products ==> st.products[id].stock >= 0
    ensures var r := PlaceOrderChecked(st, req, now);
            forall id :: id in r.0.products ==> r.0.products[id].stock >= 0
  {
    var r := PlaceOrderChecked(st, req, now);
    if r.1.Created? {
      forall id | id in r.0.products ensures r.0.products[id].stock >= 0 {
        if exists i :: 0 <= i < |req.items| && req.items[i].id == id {
          var i :| 0 <= i < |req.items| && req.items[i].id == id;
          assert st.products[id].stock >= OrderedQuantity(req.items, id);
        } else {
          NotOrderedIsZero(req.items, id);
        }
      }
    }
  }

  /** Where every product appears on at most one line, a line's quantity is its product's total. */
  lemma {:induction false} SingleLineQuantity(items: seq<Line>, k: nat)
    requires k < |items|
    requires forall i, j :: 0 <= i < j < |items| ==> items[i].id != items[j].id
    ensures OrderedQuantity(items, items[k].id) == items[k].quantity
  {
    if k == 0 {
      NotOrderedIsZero(items[1..], items[0].id);
    } else {
      SingleLineQuantity(items[1..], k - 1);
    }
  }

  lemma {:induction false} ChecksAgree(ps: Products, items: seq<Line>, all: seq<Line>)
    requires forall i :: 0 <= i < |items| ==> OrderedQuantity(all, items[i].id) == items[i].quantity
    ensures FirstFailure(ps, items) == FirstShortfall(ps, items, all)
  {
    if |items| > 0 {
      ChecksAgree(ps, items[1..], all);
    }
  }

  /** Where every product appears on at most one line, the route as written and the corrected one agree. */
  lemma {:induction false} DistinctLinesAgree(st: Store, req: Request, now: nat)
    requires forall i, j :: 0 <= i < j < |req.items| ==> req.items[i].id != req.items[j].id
    ensures PlaceOrder(st, req, now) == PlaceOrderChecked(st, req, now)
  {
    forall k | 0 <= k < |req.items| ensures OrderedQuantity(req.items, req.items[k].id) == req.items[k].quantity {
      SingleLineQuantity(req.items, k);
    }
    ChecksAgree(st.products, req.items, req.items);
  }
}

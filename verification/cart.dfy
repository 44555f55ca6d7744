/**
 * The shopping cart kept by the cart context: a sequence of lines, one per
 * product id, each with a quantity, plus the two totals shown in the header
 * and on the cart page.
 */
module Cart {
  import opened Js

  /** A product as handed to `addToCart` (a cart line without its quantity). */
  datatype Product = Product(id: string, name: string, price: string, image: string, slug: Option<string>)

  /** One cart line. */
  datatype Line = Line(id: string, name: string, price: string, image: string, slug: Option<string>, quantity: int)

  function NewLine(p: Product): (l: Line)
    ensures l.id == p.id && l.quantity == 1
  {
    Line(p.id, p.name, p.price, p.image, p.slug, 1)
  }

  predicate HasId(items: seq<Line>, id: string) {
    exists i :: 0 <= i < |items| && items[i].id == id
  }

  /** No two lines share an id. */
  predicate UniqueIds(items: seq<Line>) {
    forall i, j :: 0 <= i < j < |items| ==> items[i].id != items[j].id
  }

  /** `line` with its quantity replaced, every other field kept. */
  predicate SameLineExceptQuantity(a: Line, b: Line) {
    a.id == b.id && a.name == b.name && a.price == b.price && a.image == b.image && a.slug == b.slug
  }

  /**
   * `addToCart`: an id already in the cart gets one more unit on its line;
   * a new id is appended as a line of quantity 1.
   */
  function AddToCart(items: seq<Line>, p: Product): (r: seq<Line>)
    ensures HasId(items, p.id) ==> |r| == |items|
    ensures HasId(items, p.id) ==> forall i :: 0 <= i < |items| && items[i].id == p.id ==>
              SameLineExceptQuantity(r[i], items[i]) && r[i].quantity == items[i].quantity + 1
    ensures HasId(items, p.id) ==> forall i :: 0 <= i < |items| && items[i].id != p.id ==> r[i] == items[i]
    ensures !HasId(items, p.id) ==> |r| == |items| + 1 && r[..|items|] == items
    ensures !HasId(items, p.id) ==> r[|items|] == NewLine(p)
  {
    if HasId(items, p.id) then
      seq(|items|, i requires 0 <= i < |items| =>
        if items[i].id == p.id then items[i].(quantity := items[i].quantity + 1) else items[i])
    else items + [NewLine(p)]
  }

  /** `removeFromCart`: drop every line with this id. */
  function RemoveFromCart(items: seq<Line>, id: string): (r: seq<Line>)
    ensures |r| <= |items|
    ensures !HasId(r, id)
    ensures forall x :: x in r <==> x in items && x.id != id
    ensures !HasId(items, id) ==> r == items
  {
    if |items| == 0 then []
    else if items[0].id == id then RemoveFromCart(items[1..], id)
    else
      var rest := RemoveFromCart(items[1..], id);
      assert items == [items[0]] + items[1..];
      [items[0]] + rest
  }

  /**
   * `updateQuantity`: a quantity of zero or less removes the line;
   * otherwise every line with that id gets the new quantity.
   */
  function UpdateQuantity(items: seq<Line>, id: string, q: int): (r: seq<Line>)
    ensures q <= 0 ==> r == RemoveFromCart(items, id)
    ensures q > 0 ==> |r| == |items|
    ensures q > 0 ==> forall i :: 0 <= i < |items| && items[i].id == id ==>
              SameLineExceptQuantity(r[i], items[i]) && r[i].quantity == q
    ensures q > 0 ==> forall i :: 0 <= i < |items| && items[i].id != id ==> r[i] == items[i]
  {
    if q <= 0 then RemoveFromCart(items, id)
    else seq(|items|, i requires 0 <= i < |items| =>
           if items[i].id == id then items[i].(quantity := q) else items[i])
  }

  /** `clearCart`. */
  function ClearCart(): (r: seq<Line>)
    ensures |r| == 0 && TotalItems(r) == 0
  {
    []
  }

  /** `getTotalItems`: the sum of the line quantities; with no negative quantity, no line holds more than the total. */
  function TotalItems(items: seq<Line>): (t: int)
    ensures (forall i :: 0 <= i < |items| ==> items[i].quantity >= 0) ==>
              t >= 0 && forall i :: 0 <= i < |items| ==> items[i].quantity <= t
  {
    if |items| == 0 then 0
    else
      var rest := TotalItems(items[1..]);
      assert forall i :: 1 <= i < |items| ==> items[i] == items[1..][i - 1];
      items[0].quantity + rest
  }

  /**
   * The price string of a line with every '¥' and ',' removed, read by
   * `parseInt(_, 10)`: a number whenever the stripped text starts with a
   * digit after its leading whitespace, never negative then.
   */
  function UnitPrice(price: string): (r: Option<int>)
    ensures StartsWithDigitAfterSpace(RemoveChars(price, {'¥', ','})) ==> r.Some? && r.value >= 0
    ensures r.None? ==> !StartsWithDigitAfterSpace(RemoveChars(price, {'¥', ','}))
  {
    ParseInt(RemoveChars(price, {'¥', ','}), false)
  }

  /** A price reads as a number exactly when, once '¥' and ',' are removed, a digit follows the leading whitespace and at most one sign. */
  lemma UnitPriceDefined(price: string)
    ensures UnitPrice(price).Some? <==> NumberAfterSpace(RemoveChars(price, {'¥', ','}))
  {
    ParseIntDefined(RemoveChars(price, {'¥', ','}));
  }

  /** A price that is the decimal form of any integer once '¥' and ',' are removed, a negative one included, reads as that integer. */
  lemma UnitPriceOfInt(price: string, n: int)
    requires RemoveChars(price, {'¥', ','}) == IntToDecimal(n)
    ensures UnitPrice(price) == Some(n)
  {
  }

  /** A price whose digits, once '¥' and ',' are removed, write `n` costs `n`. */
  lemma UnitPriceOfDecimal(price: string, n: nat)
    requires RemoveChars(price, {'¥', ','}) == NatToDecimal(n)
    ensures UnitPrice(price) == Some(n)
  {
    ParseNatToDecimal(n);
  }

  /** One step of the `reduce`, for a given reading of the price strings: the running total plus price times quantity, NaN staying NaN. */
  function AddBy(total: Option<int>, l: Line, unit: string -> Option<int>): Option<int> {
    if total.Some? && unit(l.price).Some? then Some(total.value + unit(l.price).value * l.quantity) else None
  }

  function AddLine(total: Option<int>, l: Line): Option<int> {
    AddBy(total, l, UnitPrice)
  }

  /** The sum of unit price times quantity, for a given reading of the price strings; one unreadable price gives NaN. */
  function SumBy(items: seq<Line>, unit: string -> Option<int>): (r: Option<int>)
    ensures r.Some? <==> forall i :: 0 <= i < |items| ==> unit(items[i].price).Some?
  {
    if |items| == 0 then Some(0)
    else
      var rest := SumBy(items[1..], unit);
      assert forall i :: 1 <= i < |items| ==> items[i] == items[1..][i - 1];
      match unit(items[0].price)
      case None => None
      case Some(p) =>
        if rest.None? then None else Some(p * items[0].quantity + rest.value)
  }

  /**
   * `getTotalPrice`: the sum of unit price times quantity. A price that
   * does not parse is NaN, and NaN swallows the whole sum (`None`).
   */
  function TotalPrice(items: seq<Line>): (r: Option<int>)
    ensures r.Some? <==> forall i :: 0 <= i < |items| ==> UnitPrice(items[i].price).Some?
    ensures |items| == 0 ==> r == Some(0)
  {
    SumBy(items, UnitPrice)
  }

  lemma {:induction false} SumByAppend(items: seq<Line>, l: Line, unit: string -> Option<int>)
    ensures SumBy(items + [l], unit) == AddBy(SumBy(items, unit), l, unit)
  {
    if |items| == 0 {
      assert items + [l] == [l] && [l][1..] == [];
    } else {
      assert (items + [l])[1..] == items[1..] + [l];
      SumByAppend(items[1..], l, unit);
    }
  }

  /**
   * The total is the `reduce` from 0 taken left to right: appending a line
   * adds its unit price times its quantity, and NaN on either side stays NaN.
   */
  lemma TotalPriceAppend(items: seq<Line>, l: Line)
    ensures TotalPrice(items + [l]) == AddLine(TotalPrice(items), l)
  {
    SumByAppend(items, l, UnitPrice);
  }

  /** The `reduce` loop of the cart context, for a given reading of the price strings. */
  method SumLoop(items: seq<Line>, unit: string -> Option<int>) returns (total: Option<int>)
    ensures total == SumBy(items, unit)
  {
    total := Some(0);
    var i := 0;
    while i < |items|
      invariant 0 <= i <= |items|
      invariant total == SumBy(items[..i], unit)
    {
      SumByAppend(items[..i], items[i], unit);
      assert items[..i + 1] == items[..i] + [items[i]];
      total := AddBy(total, items[i], unit);
      i := i + 1;
    }
    assert items[..i] == items;
  }

  /** `getTotalPrice` as the cart context runs it: the `reduce` loop over the parsed prices. */
  method GetTotalPrice(items: seq<Line>) returns (total: Option<int>)
    ensures total == TotalPrice(items)
    ensures total.Some? <==> forall i :: 0 <= i < |items| ==> UnitPrice(items[i].price).Some?
  {
    total := SumLoop(items, UnitPrice);
  }

  // ---------------------------------------------------------------------
  // Properties
  // ---------------------------------------------------------------------

  lemma {:induction false} TotalItemsAppend(items: seq<Line>, l: Line)
    ensures TotalItems(items + [l]) == TotalItems(items) + l.quantity
  {
    if |items| > 0 {
      assert (items + [l])[1..] == items[1..] + [l];
      TotalItemsAppend(items[1..], l);
    }
  }

  /** Two carts that differ only in the quantity of line `k`, by one unit. */
  lemma {:induction false} TotalItemsBump(a: seq<Line>, b: seq<Line>, k: nat)
    requires |a| == |b| && k < |a|
    requires forall i :: 0 <= i < |a| && i != k ==> a[i].quantity == b[i].quantity
    requires b[k].quantity == a[k].quantity + 1
    ensures TotalItems(b) == TotalItems(a) + 1
  {
    if k == 0 {
      TotalItemsSame(a[1..], b[1..]);
    } else {
      TotalItemsBump(a[1..], b[1..], k - 1);
    }
  }

  lemma {:induction false} TotalItemsSame(a: seq<Line>, b: seq<Line>)
    requires |a| == |b|
    requires forall i :: 0 <= i < |a| ==> a[i].quantity == b[i].quantity
    ensures TotalItems(b) == TotalItems(a)
  {
    if |a| > 0 {
      TotalItemsSame(a[1..], b[1..]);
    }
  }

  /** Adding a product to a cart with unique ids raises the item count by exactly one. */
  lemma AddToCartTotalItems(items: seq<Line>, p: Product)
    requires UniqueIds(items)
    ensures TotalItems(AddToCart(items, p)) == TotalItems(items) + 1
  {
    var r := AddToCart(items, p);
    if HasId(items, p.id) {
      var k :| 0 <= k < |items| && items[k].id == p.id;
      TotalItemsBump(items, r, k);
    } else {
      assert r == items + [NewLine(p)];
      TotalItemsAppend(items, NewLine(p));
    }
  }

  lemma {:induction false} SumBySame(a: seq<Line>, b: seq<Line>, unit: string -> Option<int>)
    requires |a| == |b|
    requires forall i :: 0 <= i < |a| ==> a[i].price == b[i].price && a[i].quantity == b[i].quantity
    ensures SumBy(b, unit) == SumBy(a, unit)
  {
    if |a| > 0 {
      SumBySame(a[1..], b[1..], unit);
    }
  }

  /** Two carts that differ only in the quantity of line `k`, by one unit: the sum differs by that line's unit price. */
  lemma {:induction false} SumByBump(a: seq<Line>, b: seq<Line>, k: nat, unit: string -> Option<int>)
    requires |a| == |b| && k < |a| && SumBy(a, unit).Some?
    requires forall i :: 0 <= i < |a| ==> b[i].price == a[i].price
    requires forall i :: 0 <= i < |a| && i != k ==> a[i].quantity == b[i].quantity
    requires b[k].quantity == a[k].quantity + 1
    ensures unit(a[k].price).Some?
    ensures SumBy(b, unit) == Some(SumBy(a, unit).value + unit(a[k].price).value)
  {
    if k == 0 {
      SumBySame(a[1..], b[1..], unit);
    } else {
      SumByBump(a[1..], b[1..], k - 1, unit);
    }
  }

  /** Adding a product that is not in the cart adds its unit price to a numeric total; an unparsable price makes it NaN. */
  lemma AddNewProductTotalPrice(items: seq<Line>, p: Product)
    requires !HasId(items, p.id)
    ensures TotalPrice(AddToCart(items, p)) == AddLine(TotalPrice(items), NewLine(p))
  {
    assert AddToCart(items, p) == items + [NewLine(p)];
    SumByAppend(items, NewLine(p), UnitPrice);
  }

  /** Adding a product already in a cart with unique ids raises a numeric total by the unit price of its line. */
  lemma AddExistingProductTotalPrice(items: seq<Line>, p: Product, k: nat)
    requires UniqueIds(items) && TotalPrice(items).Some?
    requires k < |items| && items[k].id == p.id
    ensures UnitPrice(items[k].price).Some? && TotalPrice(AddToCart(items, p)).Some?
    ensures TotalPrice(AddToCart(items, p)).value == TotalPrice(items).value + UnitPrice(items[k].price).value
  {
    AddExistingSumBy(items, p, k, UnitPrice);
  }

  lemma AddExistingSumBy(items: seq<Line>, p: Product, k: nat, unit: string -> Option<int>)
    requires UniqueIds(items) && SumBy(items, unit).Some?
    requires k < |items| && items[k].id == p.id
    ensures unit(items[k].price).Some?
    ensures SumBy(AddToCart(items, p), unit) == Some(SumBy(items, unit).value + unit(items[k].price).value)
  {
    SumByBump(items, AddToCart(items, p), k, unit);
  }

  /** Every cart operation keeps line ids unique. */
  lemma AddToCartKeepsUniqueIds(items: seq<Line>, p: Product)
    requires UniqueIds(items)
    ensures UniqueIds(AddToCart(items, p))
  {
  }

  lemma {:induction false} RemoveFromCartKeepsUniqueIds(items: seq<Line>, id: string)
    requires UniqueIds(items)
    ensures UniqueIds(RemoveFromCart(items, id))
  {
    if |items| > 0 {
      RemoveFromCartKeepsUniqueIds(items[1..], id);
      var rest := RemoveFromCart(items[1..], id);
      if items[0].id != id {
        var r := [items[0]] + rest;
        forall i, j | 0 <= i < j < |r| ensures r[i].id != r[j].id {
          if i == 0 {
            assert r[j] in rest;
            var k :| 0 <= k < |items[1..]| && items[1..][k] == r[j];
            assert items[k + 1] == r[j];
          }
        }
      }
    }
  }

  lemma {:induction false} UpdateQuantityKeepsUniqueIds(items: seq<Line>, id: string, q: int)
    requires UniqueIds(items)
    ensures UniqueIds(UpdateQuantity(items, id, q))
  {
    if q <= 0 {
      RemoveFromCartKeepsUniqueIds(items, id);
    }
  }

  /** Removal commutes with concatenation, so the surviving lines keep their relative order. */
  lemma {:induction false} RemoveFromCartAppend(a: seq<Line>, b: seq<Line>, id: string)
    ensures RemoveFromCart(a + b, id) == RemoveFromCart(a, id) + RemoveFromCart(b, id)
  {
    if |a| == 0 {
      assert a + b == b;
    } else {
      assert (a + b)[1..] == a[1..] + b;
      RemoveFromCartAppend(a[1..], b, id);
    }
  }

  /** Setting the quantity of an absent id changes nothing. */
  lemma UpdateQuantityAbsent(items: seq<Line>, id: string, q: int)
    requires !HasId(items, id)
    ensures UpdateQuantity(items, id, q) == items
  {
  }

  /** Example: "¥28,000" reads as 28000. */
  lemma UnitPriceExample()
    ensures UnitPrice("¥28,000") == Some(28000)
  {
    StripExample();
    DigitsParse();
  }

  lemma DigitsParse()
    ensures ParseInt("28000", false) == Some(28000)
  {
    ParseIntOfDigits("28000", false);
    DigitsExample();
  }

  lemma StripExample()
    ensures RemoveChars("¥28,000", {'¥', ','}) == "28000"
  {
    StripAfterYen();
    assert "¥28,000"[1..] == "28,000";
  }

  lemma StripAfterYen()
    ensures RemoveChars("28,000", {'¥', ','}) == "28000"
  {
    StripAfterTwo();
    assert "28,000"[1..] == "8,000";
  }

  lemma StripAfterTwo()
    ensures RemoveChars("8,000", {'¥', ','}) == "8000"
  {
    StripComma();
    assert "8,000"[1..] == ",000";
  }

  lemma StripComma()
    ensures RemoveChars(",000", {'¥', ','}) == "000"
  {
    var cs := {'¥', ','};
    assert forall i :: 0 <= i < |"000"| ==> "000"[i] !in cs;
    assert ",000"[1..] == "000";
  }

  lemma DigitsExample()
    ensures DigitsValue("28000", 10) == 28000
  {
    assert "28"[..1] == "2" && "280"[..2] == "28" && "2800"[..3] == "280" && "28000"[..4] == "2800";
    assert DigitsValue("2", 10) == 2;
    assert DigitsValue("28", 10) == 28;
    assert DigitsValue("280", 10) == 280;
    assert DigitsValue("2800", 10) == 2800;
  }
}

/**
 * The add-to-cart button: it reads the product's known stock and the
 * quantity already in the cart, refuses to add when the stock is gone or
 * would be exceeded, and otherwise adds one unit.
 */
module AddToCart {
  import opened Js
  import opened Cart
  import opened Inventory

  /** The product shown by the button. */
  datatype ButtonProduct = ButtonProduct(id: string, name: string, price: string, image: string, slug: Option<string>)

  /** The error banner of the button. */
  datatype Banner = NoError | OutOfStock | Insufficient(remaining: int)

  /** What a click leaves behind: the cart, the banner and whether the button is now busy. */
  datatype ClickResult = ClickResult(cart: seq<Line>, banner: Banner, isAdding: bool)

  /** The text of the banner. */
  function BannerText(b: Banner): (t: string)
    ensures b.NoError? <==> t == ""
  {
    match b
    case NoError => ""
    case OutOfStock => "在庫切れです"
    case Insufficient(n) => "在庫が不足しています（残り" + IntToDecimal(n) + "点）"
  }

  /** The first cart line with this id (`items.find`). */
  function FindLine(items: seq<Line>, id: string): (r: Option<Line>)
    ensures r.None? <==> !HasId(items, id)
    ensures r.Some? ==> r.value in items && r.value.id == id
    ensures r.Some? && UniqueIds(items) ==> forall i :: 0 <= i < |items| && items[i].id == id ==> items[i] == r.value
  {
    if |items| == 0 then None
    else if items[0].id == id then Some(items[0])
    else
      var r := FindLine(items[1..], id);
      assert HasId(items, id) ==> HasId(items[1..], id) by {
        if HasId(items, id) {
          var i :| 0 <= i < |items| && items[i].id == id;
          assert items[1..][i - 1] == items[i];
        }
      }
      r
  }

  /** `cartQuantity`: the quantity on the product's line, 0 when it has none. */
  function CartQuantity(items: seq<Line>, id: string): (q: int)
    ensures !HasId(items, id) ==> q == 0
    ensures UniqueIds(items) ==> forall i :: 0 <= i < |items| && items[i].id == id ==> q == items[i].quantity
  {
    match FindLine(items, id)
    case None => 0
    case Some(l) => l.quantity
  }

  predicate IsOutOfStock(inv: Stock, id: string) {
    GetStock(inv, id) <= 0
  }

  /** `canAddMore`: one more unit is still covered by the stock. */
  predicate CanAddMore(items: seq<Line>, inv: Stock, id: string) {
    CheckStock(inv, id, CartQuantity(items, id) + 1)
  }

  /** The product handed to `addToCart`: the shown product's id, name, price, image and slug. */
  function ShownProduct(p: ButtonProduct): (prod: Product)
    ensures prod.id == p.id && prod.name == p.name && prod.price == p.price
    ensures prod.image == p.image && prod.slug == p.slug
  {
    Product(p.id, p.name, p.price, p.image, p.slug)
  }

  /** `handleAddToCart`. */
  function HandleAddToCart(items: seq<Line>, inv: Stock, p: ButtonProduct): (r: ClickResult)
    ensures IsOutOfStock(inv, p.id) ==> r == ClickResult(items, OutOfStock, false)
    ensures !IsOutOfStock(inv, p.id) && !CanAddMore(items, inv, p.id) ==>
              r == ClickResult(items, Insufficient(GetStock(inv, p.id)), false)
    ensures r.cart != items ==> CartQuantity(items, p.id) + 1 <= GetStock(inv, p.id)
    ensures r.banner.NoError? <==> !IsOutOfStock(inv, p.id) && CanAddMore(items, inv, p.id)
    ensures r.banner.NoError? ==> r.cart == AddToCart(items, ShownProduct(p)) && r.isAdding
  {
    if IsOutOfStock(inv, p.id) then ClickResult(items, OutOfStock, false)
    else if !CanAddMore(items, inv, p.id) then ClickResult(items, Insufficient(GetStock(inv, p.id)), false)
    else ClickResult(AddToCart(items, ShownProduct(p)), NoError, true)
  }

  /** `disabled={isAdding || isOutOfStock || !canAddMore}`. */
  predicate Disabled(items: seq<Line>, inv: Stock, id: string, isAdding: bool) {
    isAdding || IsOutOfStock(inv, id) || !CanAddMore(items, inv, id)
  }

  /** The button label, by precedence: out of stock, insufficient, adding, default. */
  function Label(items: seq<Line>, inv: Stock, id: string, isAdding: bool): (t: string)
    ensures IsOutOfStock(inv, id) ==> t == "在庫切れ"
    ensures !IsOutOfStock(inv, id) && !CanAddMore(items, inv, id) ==> t == "在庫不足"
    ensures !IsOutOfStock(inv, id) && CanAddMore(items, inv, id) && isAdding ==> t == "追加中..."
    ensures t == "カートに入れる" <==> !Disabled(items, inv, id, isAdding)
  {
    if IsOutOfStock(inv, id) then "在庫切れ"
    else if !CanAddMore(items, inv, id) then "在庫不足"
    else if isAdding then "追加中..."
    else "カートに入れる"
  }

  // ---------------------------------------------------------------------
  // Properties
  // ---------------------------------------------------------------------

  /** Every cart line is covered by the known stock of its product. */
  predicate WithinStock(items: seq<Line>, inv: Stock) {
    forall i :: 0 <= i < |items| ==> items[i].quantity <= GetStock(inv, items[i].id)
  }

  /**
   * Clicks on the button never push a cart line above the known stock: the
   * invariant survives any click, as long as line ids are unique.
   */
  lemma ClickKeepsWithinStock(items: seq<Line>, inv: Stock, p: ButtonProduct)
    requires UniqueIds(items) && WithinStock(items, inv)
    ensures WithinStock(HandleAddToCart(items, inv, p).cart, inv)
    ensures UniqueIds(HandleAddToCart(items, inv, p).cart)
  {
    var r := HandleAddToCart(items, inv, p);
    if r.cart != items {
      var prod := ShownProduct(p);
      AddToCartKeepsUniqueIds(items, prod);
      if !HasId(items, p.id) {
        assert r.cart == items + [NewLine(prod)];
        assert CartQuantity(items, p.id) == 0;
      }
    }
  }

  /** A click that gets through adds exactly one unit to the item count. */
  lemma ClickAddsOneUnit(items: seq<Line>, inv: Stock, p: ButtonProduct)
    requires UniqueIds(items)
    requires !IsOutOfStock(inv, p.id) && CanAddMore(items, inv, p.id)
    ensures TotalItems(HandleAddToCart(items, inv, p).cart) == TotalItems(items) + 1
  {
    AddToCartTotalItems(items, ShownProduct(p));
  }

  /**
   * An accepted click for a product not yet in the cart appends one line of
   * the shown product, with its price, at quantity 1, and the total gains
   * that line's price (NaN when the price does not parse).
   */
  lemma ClickAddsNewLine(items: seq<Line>, inv: Stock, p: ButtonProduct)
    requires !HasId(items, p.id)
    requires !IsOutOfStock(inv, p.id) && CanAddMore(items, inv, p.id)
    ensures HandleAddToCart(items, inv, p).cart == items + [Line(p.id, p.name, p.price, p.image, p.slug, 1)]
    ensures TotalPrice(HandleAddToCart(items, inv, p).cart) == AddLine(TotalPrice(items), Line(p.id, p.name, p.price, p.image, p.slug, 1))
  {
    AddNewProductTotalPrice(items, ShownProduct(p));
  }

  /**
   * An accepted click for a product already on line `k` of a cart with
   * unique ids adds one unit to that line and leaves every other line as
   * it was; a numeric total rises by the line's unit price.
   */
  lemma ClickBumpsLine(items: seq<Line>, inv: Stock, p: ButtonProduct, k: nat)
    requires UniqueIds(items) && k < |items| && items[k].id == p.id
    requires !IsOutOfStock(inv, p.id) && CanAddMore(items, inv, p.id)
    ensures var c := HandleAddToCart(items, inv, p).cart;
            && |c| == |items|
            && c[k] == items[k].(quantity := items[k].quantity + 1)
            && forall i :: 0 <= i < |items| && i != k ==> c[i] == items[i]
    ensures TotalPrice(items).Some? ==>
              && UnitPrice(items[k].price).Some? && TotalPrice(HandleAddToCart(items, inv, p).cart).Some?
              && TotalPrice(HandleAddToCart(items, inv, p).cart).value == TotalPrice(items).value + UnitPrice(items[k].price).value
  {
    assert HasId(items, p.id);
    if TotalPrice(items).Some? {
      AddExistingProductTotalPrice(items, ShownProduct(p), k);
    }
  }
}

/** The product page's logic (src/pages/ProductDetail.tsx): tiered retail/wholesale pricing,
    the quantity stepper and the add-to-cart loop. The cart store is outside this model:
    `addToCart` is an opaque call whose invocations are recorded. */
module ProductDetail {
  import opened Wrappers
  import opened Catalog

  /** Quantity from which the wholesale tier applies. */
  const WholesaleMinQty: int := 10
  /** Wholesale discount, in percent. */
  const WholesaleDiscountPercent: int := 15

  /** `Math.round(retail * (1 - 0.15))` over exact arithmetic: 85% of the retail price, to the
      nearest whole unit, halves rounded up. */
  function WholesaleUnitPrice(retail: int): (w: int)
    ensures 100 * w - 50 <= (100 - WholesaleDiscountPercent) * retail < 100 * w + 50
  {
    ((100 - WholesaleDiscountPercent) * retail + 50) / 100
  }

  /** What the page shows for the chosen quantity. A missing product has no retail or
      wholesale figure. */
  datatype Pricing = Pricing(
    unitPrice: int,
    total: int,
    isWholesale: bool,
    savings: int,
    retailPrice: Option<int>,
    wholesalePrice: Option<int>)

  function ComputePricing(product: Option<Product>, quantity: int): Pricing
  {
    match product
    case None => Pricing(0, 0, false, 0, None, None)
    case Some(p) =>
      var retail := p.price;
      var wholesale := WholesaleUnitPrice(retail);
      var isWholesale := quantity >= WholesaleMinQty;
      var unit := if isWholesale then wholesale else retail;
      var total := unit * quantity;
      var regularTotal := retail * quantity;
      Pricing(unit, total, isWholesale, if isWholesale then regularTotal - total else 0,
              Some(retail), Some(wholesale))
  }

  /** The tier applies exactly from ten units on; the unit price is then the rounded 85% price,
      otherwise the retail price; the total is unit price times quantity; savings are what the
      tier takes off the retail total, and nothing without it. */
  lemma PricingRules(p: Product, quantity: int)
    ensures var r := ComputePricing(Some(p), quantity);
            && (r.isWholesale <==> quantity >= 10)
            && r.unitPrice == (if quantity >= 10 then WholesaleUnitPrice(p.price) else p.price)
            && r.total == r.unitPrice * quantity
            && r.savings == (if r.isWholesale then p.price * quantity - r.total else 0)
            && r.retailPrice == Some(p.price)
            && r.wholesalePrice == Some(WholesaleUnitPrice(p.price))
            && (r.isWholesale ==> r.savings == quantity * (p.price - WholesaleUnitPrice(p.price)))
  {
    var r := ComputePricing(Some(p), quantity);
    if r.isWholesale {
      assert p.price * quantity - WholesaleUnitPrice(p.price) * quantity
             == quantity * (p.price - WholesaleUnitPrice(p.price));
    }
  }

  /** The wholesale price never exceeds the retail price, and for non-negative prices and
      quantities the savings are never negative. */
  lemma SavingsNonNegative(p: Product, quantity: int)
    requires p.price >= 0 && quantity >= 0
    ensures WholesaleUnitPrice(p.price) <= p.price
    ensures ComputePricing(Some(p), quantity).savings >= 0
  {
    var w := WholesaleUnitPrice(p.price);
    assert w <= p.price;
    assert (p.price - w) * quantity >= 0;
  }

  /** The product's own `wholesalePrice` and `minWholesaleQty` fields play no part. */
  lemma PricingIgnoresProductTierFields(p: Product, quantity: int, wholesalePrice: int, minQty: Option<int>)
    ensures ComputePricing(Some(p.(wholesalePrice := wholesalePrice, minWholesaleQty := minQty)), quantity)
            == ComputePricing(Some(p), quantity)
  {
  }

  /** A missing product costs nothing and is never wholesale. */
  lemma MissingProductPricing(quantity: int)
    ensures var r := ComputePricing(None, quantity);
            r.unitPrice == 0 && r.total == 0 && !r.isWholesale && r.savings == 0
  {
  }

  /** Classic Vanilla (149): 9 tubs at retail, 10 tubs at 127 each. */
  lemma VanillaTiers()
    ensures var p := Products()[0];
            && ComputePricing(Some(p), 9) == Pricing(149, 1341, false, 0, Some(149), Some(127))
            && ComputePricing(Some(p), 10) == Pricing(127, 1270, true, 220, Some(149), Some(127))
  {
  }

  /** `updateQuantity(delta)`: the new quantity is taken only when it stays in [1, stock]. */
  function Stepped(quantity: int, delta: int, stock: int): (q: int)
    ensures 1 <= quantity + delta <= stock ==> q == quantity + delta
    ensures !(1 <= quantity + delta <= stock) ==> q == quantity
    ensures 1 <= quantity <= stock ==> 1 <= q <= stock
  {
    var next := quantity + delta;
    if next >= 1 && next <= stock then next else quantity
  }

  /** The quantity after a run of stepper clicks. */
  function SteppedAll(quantity: int, deltas: seq<int>, stock: int): (q: int)
    decreases |deltas|
  {
    if deltas == [] then quantity else SteppedAll(Stepped(quantity, deltas[0], stock), deltas[1..], stock)
  }

  /** Starting in [1, stock], no run of clicks leaves that range. */
  lemma {:induction false} SteppedAllInRange(quantity: int, deltas: seq<int>, stock: int)
    requires 1 <= quantity <= stock
    ensures 1 <= SteppedAll(quantity, deltas, stock) <= stock
    decreases |deltas|
  {
    if deltas != [] {
      SteppedAllInRange(Stepped(quantity, deltas[0], stock), deltas[1..], stock);
    }
  }

  /** The page's quantity state for one product. */
  class QuantitySelector {
    var quantity: int
    const stock: int

    ghost predicate Valid()
      reads this
    {
      1 <= quantity <= stock
    }

    constructor (stock: int)
      ensures quantity == 1 && this.stock == stock
      ensures stock >= 1 ==> Valid()
    {
      this.stock := stock;
      quantity := 1;
    }

    method UpdateQuantity(delta: int)
      modifies this
      ensures quantity == Stepped(old(quantity), delta, stock)
      ensures old(Valid()) ==> Valid()
    {
      var newQty := quantity + delta;
      if newQty >= 1 && newQty <= stock {
        quantity := newQty;
      }
    }
  }

  /** `n` copies of `p`, or none when `n` is not positive. */
  function Repeat(p: Product, n: int): (r: seq<Product>)
    ensures |r| == if n > 0 then n else 0
    ensures forall i :: 0 <= i < |r| ==> r[i] == p
  {
    if n <= 0 then [] else Repeat(p, n - 1) + [p]
  }

  /** The cart's `addToCart`, seen from outside: each call is recorded, its effect is not modelled. */
  class CartCalls {
    var added: seq<Product>

    constructor ()
      ensures added == []
    {
      added := [];
    }

    method AddToCart(p: Product)
      modifies this
      ensures added == old(added) + [p]
    {
      added := added + [p];
    }
  }

  /** `handleAddToCart`: `addToCart(product)` once per unit of the chosen quantity. */
  method HandleAddToCart(cart: CartCalls, product: Product, quantity: int)
    modifies cart
    ensures cart.added == old(cart.added) + Repeat(product, quantity)
  {
    var i := 0;
    while i < quantity
      invariant if quantity > 0 then 0 <= i <= quantity else i == 0
      invariant cart.added == old(cart.added) + Repeat(product, i)
    {
      cart.AddToCart(product);
      i := i + 1;
    }
  }
}

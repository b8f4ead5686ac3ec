/**
 * Price and discount presentation on the home page: the whole-percent
 * discount badge, the price each product card shows and when it strikes
 * the original price through, and the best-seller strip.
 */
module Pricing {

  import opened Wrappers
  import opened Seqs

  /**
   * A catalog product as far as prices and ratings go. `rating` is the
   * product's rating string as `parseFloat` reads it: None when it is not
   * a number.
   */
  datatype Product = Product(
    productId: string,
    productName: string,
    originalPrice: real,
    finalPrice: real,
    rating: Option<real>,
    inStock: bool,
    featured: bool)

  /** `Math.round`: the nearest integer, halves rounded up. */
  function Round(x: real): (r: int)
    ensures r as real - 0.5 <= x < r as real + 0.5
  {
    (x + 0.5).Floor
  }

  /** The exact discount, in percent of the original price. */
  function ExactDiscount(original: real, final: real): real
    requires original != 0.0
  {
    (original - final) / original * 100.0
  }

  /** The whole-percent discount shown on a product badge. */
  function DiscountPercentage(original: real, final: real): (r: int)
    ensures original <= 0.0 || final >= original ==> r == 0
    ensures original > 0.0 && final < original ==>
              r as real - 0.5 <= ExactDiscount(original, final) < r as real + 0.5
  {
    if original <= 0.0 || final >= original then 0
    else Round(ExactDiscount(original, final))
  }

  /** For a non-negative final price the discount is a percentage: between 0 and 100. */
  lemma DiscountInRange(original: real, final: real)
    requires 0.0 <= final
    ensures 0 <= DiscountPercentage(original, final) <= 100
  {
    if original > 0.0 && final < original {
      assert (original - final) / original <= 1.0;
    }
  }

  /** A lower final price never shows a smaller discount. */
  lemma DiscountMonotone(original: real, final1: real, final2: real)
    requires final1 <= final2
    ensures DiscountPercentage(original, final2) <= DiscountPercentage(original, final1)
  {
    if original > 0.0 && final2 < original {
      var x1 := ExactDiscount(original, final1);
      var x2 := ExactDiscount(original, final2);
      assert original - final2 <= original - final1;
      assert (original - final2) / original <= (original - final1) / original;
      assert x2 <= x1;
      FloorMonotone(x2 + 0.5, x1 + 0.5);
    }
  }

  lemma FloorMonotone(a: real, b: real)
    requires a <= b
    ensures a.Floor <= b.Floor
  {
  }

  /** Worked values: 100 down to 80 is 20 percent off; a higher final price or a zero original shows none. */
  lemma DiscountExamples()
    ensures DiscountPercentage(100.0, 80.0) == 20
    ensures DiscountPercentage(100.0, 120.0) == 0
    ensures DiscountPercentage(0.0, 50.0) == 0
  {
    assert ExactDiscount(100.0, 80.0) == 20.0;
  }

  /** A discount badge is rendered only for a positive percentage. */
  predicate ShowsBadge(p: Product)
  {
    DiscountPercentage(p.originalPrice, p.finalPrice) > 0
  }

  /** The price a featured-grid card shows: the final price when it is positive, the original otherwise. */
  function GridPrice(p: Product): (r: real)
    ensures r == p.finalPrice || r == p.originalPrice
    ensures r > 0.0 <==> p.finalPrice > 0.0 || p.originalPrice > 0.0
    ensures StrikesOriginal(p) ==> r < p.originalPrice
  {
    if p.finalPrice > 0.0 then p.finalPrice else p.originalPrice
  }

  /** Both cards strike the original price through beside a positive, lower final price. */
  predicate StrikesOriginal(p: Product)
  {
    p.finalPrice > 0.0 && p.originalPrice > p.finalPrice
  }

  /** The price a best-seller card shows: `finalPrice || originalPrice`, so any non-zero final price. */
  function StripPrice(p: Product): (r: real)
    ensures r == p.finalPrice || r == p.originalPrice
    ensures r != 0.0 <==> p.finalPrice != 0.0 || p.originalPrice != 0.0
    ensures StrikesOriginal(p) ==> r < p.originalPrice
  {
    if p.finalPrice != 0.0 then p.finalPrice else p.originalPrice
  }

  /** The two kinds of card show the same price unless the final price is negative (and differs from the original). */
  lemma GridAndStripAgree(p: Product)
    ensures GridPrice(p) == StripPrice(p) <==> p.finalPrice >= 0.0 || p.finalPrice == p.originalPrice
  {
  }

  /** When the original is struck through, the price beside it is the final price and lower than the original. */
  lemma StrikeShowsLowerPrice(p: Product)
    requires StrikesOriginal(p)
    ensures GridPrice(p) == StripPrice(p) == p.finalPrice < p.originalPrice
  {
  }

  /**
   * With a positive final price, a badge appears exactly when the original
   * is struck through and the exact discount is at least half a percent.
   */
  lemma BadgeIffStrikeAndHalfPercent(p: Product)
    requires p.finalPrice > 0.0
    ensures ShowsBadge(p) <==>
              StrikesOriginal(p) && ExactDiscount(p.originalPrice, p.finalPrice) >= 0.5
  {
  }

  /** A badge appears only for a positive original price above the final price. */
  lemma BadgeMeansReduction(p: Product)
    requires ShowsBadge(p)
    ensures p.originalPrice > 0.0 && p.finalPrice < p.originalPrice
  {
  }

  /** "Simulated" best seller: a rating that parses to at least 4.0. */
  predicate IsBestSeller(p: Product)
  {
    p.rating.Some? && p.rating.value >= 4.0
  }

  /** The first six products rated 4.0 or better, in catalog order. */
  function BestSellers(products: seq<Product>): (r: seq<Product>)
    ensures |r| <= 6
    ensures forall i :: 0 <= i < |r| ==> IsBestSeller(r[i])
    ensures IsSubsequence(r, products)
    ensures |r| == Min(6, |Filter(products, IsBestSeller)|)
    ensures r == Filter(products, IsBestSeller)[..|r|]
  {
    var rated := Filter(products, IsBestSeller);
    SubsequencePrefix(rated, products, Min(6, |rated|));
    JsSlice(rated, 0, 6)
  }

  /** Fewer than six qualifying products: the strip lists every one of them. */
  lemma BestSellersAll(products: seq<Product>)
    requires |Filter(products, IsBestSeller)| < 6
    ensures forall i :: 0 <= i < |products| && IsBestSeller(products[i]) ==> products[i] in BestSellers(products)
  {
  }

  /** The featured grid shows the first eight featured products. */
  function FeaturedGrid(products: seq<Product>): (r: seq<Product>)
    ensures |r| == Min(8, |products|)
    ensures r == products[..|r|]
  {
    JsSlice(products, 0, 8)
  }
}

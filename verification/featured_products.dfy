/** The home page's bestseller strip (src/components/home/FeaturedProducts.tsx): the featured
    products, at most four of them, in catalogue order. */
module FeaturedProducts {
  import opened Catalog
  import Seqs

  const MaxFeatured: nat := 4

  predicate IsFeatured(p: Product)
  {
    p.featured
  }

  /** `featuredProducts`: filter to the featured products, then take the first four. */
  function FeaturedProducts(ps: seq<Product>): (r: seq<Product>)
    ensures |r| <= MaxFeatured
    ensures forall i :: 0 <= i < |r| ==> r[i].featured
  {
    Seqs.Take(Seqs.Filter(ps, IsFeatured), MaxFeatured)
  }

  /** The strip starts the featured-only list and keeps catalogue order; when no more than four
      products are featured it shows all of them, otherwise exactly four. */
  lemma FeaturedSelection(ps: seq<Product>)
    ensures FeaturedProducts(ps) <= Seqs.Filter(ps, IsFeatured)
    ensures Seqs.IsSubsequence(FeaturedProducts(ps), ps)
    ensures |Seqs.Filter(ps, IsFeatured)| <= MaxFeatured ==> FeaturedProducts(ps) == Seqs.Filter(ps, IsFeatured)
    ensures |Seqs.Filter(ps, IsFeatured)| > MaxFeatured ==> |FeaturedProducts(ps)| == MaxFeatured
  {
    var f := Seqs.Filter(ps, IsFeatured);
    Seqs.PrefixOfSubsequence(f, ps, Seqs.Min(MaxFeatured, |f|));
  }

  /** Every product of the seed catalogue is featured, so the strip shows all four, in order. */
  lemma SeedStrip()
    ensures FeaturedProducts(Products()) == Products()
  {
    Seqs.FilterAll(Products(), IsFeatured);
  }
}

/** The admin product table (src/pages/admin/AdminProducts.tsx): the search over name and
    category, the low-stock highlight and the featured badge. */
module AdminProducts {
  import opened Catalog
  import Text
  import Seqs
  import SearchFilter

  /** The fields a product is searched by: its name, then its category. */
  function ProductKey(p: Product): (string, string)
  {
    (p.name, p.category)
  }

  predicate MatchesProduct(p: Product, term: string)
  {
    Text.IncludesIgnoringCase(p.name, term) || Text.IncludesIgnoringCase(p.category, term)
  }

  /** `filteredProducts`. */
  function FilteredProducts(ps: seq<Product>, term: string): (r: seq<Product>)
    ensures Seqs.IsSubsequence(r, ps)
    ensures forall i :: 0 <= i < |r| ==> MatchesProduct(r[i], term)
  {
    SearchFilter.Search(ps, ProductKey, term)
  }

  /** A product is listed exactly when its name or category contains the term, as often as it
      occurs; one matching neither is never listed. */
  lemma FilteredProductsExactly(ps: seq<Product>, term: string, p: Product)
    ensures p in FilteredProducts(ps, term) <==> p in ps && MatchesProduct(p, term)
    ensures multiset(FilteredProducts(ps, term))[p] == if MatchesProduct(p, term) then multiset(ps)[p] else 0
  {
    SearchFilter.SearchExactly(ps, ProductKey, term, p);
  }

  /** An empty search box lists every product. */
  lemma EmptySearchListsAllProducts(ps: seq<Product>)
    ensures FilteredProducts(ps, "") == ps
  {
    SearchFilter.SearchEmptyTerm(ps, ProductKey);
  }

  /** The letter case of the term does not matter. */
  lemma ProductSearchIgnoresCase(ps: seq<Product>, t1: string, t2: string)
    requires Text.Lower(t1) == Text.Lower(t2)
    ensures FilteredProducts(ps, t1) == FilteredProducts(ps, t2)
  {
    SearchFilter.SearchIgnoresTermCase(ps, ProductKey, t1, t2);
  }

  /** The table's empty state. */
  predicate ShowsNoProductsFound(filtered: seq<Product>)
  {
    |filtered| == 0
  }

  /** "No products found" appears exactly when no product matches the term. */
  lemma NoProductsFound(ps: seq<Product>, term: string)
    ensures ShowsNoProductsFound(FilteredProducts(ps, term))
            <==> forall i :: 0 <= i < |ps| ==> !MatchesProduct(ps[i], term)
  {
    SearchFilter.SearchEmpty(ps, ProductKey, term);
  }

  /** The stock cell's class. */
  function StockClass(stock: int): string
  {
    if stock < 20 then "text-red-500" else ""
  }

  /** The badge's label and class. */
  function FeaturedBadge(featured: bool): (string, string)
  {
    if featured then ("Featured", "bg-primary") else ("Regular", "bg-secondary text-secondary-foreground")
  }

  /** Stock is shown in red exactly below 20 units; the badge reads "Featured" exactly for
      featured products and "Regular" otherwise. */
  lemma Labelling(stock: int, featured: bool)
    ensures StockClass(stock) == "text-red-500" <==> stock < 20
    ensures StockClass(stock) == "" <==> stock >= 20
    ensures FeaturedBadge(featured).0 == "Featured" <==> featured
    ensures FeaturedBadge(featured).0 == "Regular" <==> !featured
  {
  }

  /** In the seed catalogue no stock is highlighted and every product carries the "Featured" badge. */
  lemma SeedCatalogLabels()
    ensures forall i :: 0 <= i < |Products()| ==>
              StockClass(Products()[i].stock) == "" && FeaturedBadge(Products()[i].featured).0 == "Featured"
  {
  }
}

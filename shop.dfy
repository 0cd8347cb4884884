/** The customer-facing shop (ShopController): the same catalog query as the
    admin listing, rendered for shoppers. */
module Shop {

  import opened Base
  import opened Seqs
  import opened Catalog
  import Products

  /** ShopController::index: the products of one page, the number of all
      matching products, and every category once. */
  function Index(ps: seq<Product>, search: Option<string>, category: Option<string>, page: Option<int>): (v: CatalogPage)
    ensures v.products == ListingPage(ps, search, category, page)
    ensures |v.products| <= PerPage && v.total == |Filtered(ps, search, category)|
    ensures forall p :: p in v.products ==> p in ps && Matches(p, search, category)
    ensures SortedDesc(v.products, CreatedAt)
    ensures NoDuplicates(v.categories)
    ensures forall c :: c in v.categories <==> exists p :: p in ps && p.category == c
    ensures v.search == search && v.category == category
  {
    CatalogView(ps, search, category, page)
  }

  /** A shopper and an administrator who send the same filters see the same
      page of products. */
  lemma SameAsAdminListing(ps: seq<Product>, search: Option<string>, category: Option<string>, page: Option<int>)
    ensures Index(ps, search, category, page).products == Products.Index(ps, search, category, page).products
    ensures Index(ps, search, category, page).categories == Products.Index(ps, search, category, page).categories
  {
  }

  /** A product appears in the shop under a filter exactly when it matches
      that filter. */
  lemma {:induction false} ShownIffMatches(ps: seq<Product>, search: Option<string>, category: Option<string>, p: Product)
    ensures (p in ps && Matches(p, search, category)) <==> exists n :: n >= 1 && p in Index(ps, search, category, Some(n)).products
  {
    MatchIffListed(ps, search, category, p);
  }
}

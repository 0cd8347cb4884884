/** The product table and the catalog query that the admin listing
    (ProductController::index) and the shop (ShopController::index) both run:
    an optional search on name or description, an optional exact category,
    newest first, twelve to a page. */
module Catalog {

  import opened Base
  import opened Seqs

  /** A row of the `products` table. `createdAt` is the `created_at`
      timestamp, as a number of clock ticks. */
  datatype Product = Product(
    id: int,
    name: string,
    description: Option<string>,
    category: string,
    price: real,
    originalPrice: Option<real>,
    stock: int,
    rating: real,
    imageUrl: string,
    createdAt: int)

  function CreatedAt(p: Product): int { p.createdAt }

  function CategoryOf(p: Product): string { p.category }

  /** The page size of both catalog listings. */
  const PerPage: nat := 12

  /** `products.id` is the primary key: rows are distinct and no two share
      an id. */
  predicate UniqueIds(ps: seq<Product>) {
    && NoDuplicates(ps)
    && forall p, q :: p in ps && q in ps && p.id == q.id ==> p == q
  }

  /** `Product::find(id)`. */
  function FindProduct(ps: seq<Product>, id: int): (r: Option<Product>)
    ensures r.Some? ==> r.value in ps && r.value.id == id
    ensures r.None? <==> forall p :: p in ps ==> p.id != id
  {
    if ps == [] then None
    else if ps[0].id == id then Some(ps[0])
    else FindProduct(ps[1..], id)
  }

  /** `name LIKE %term% OR description LIKE %term%`; a null description
      matches nothing. */
  predicate MatchesSearch(p: Product, term: string) {
    Contains(p.name, term) || (p.description.Some? && Contains(p.description.value, term))
  }

  /** Which rows the listing shows, as one condition: each filter applies only
      when its input is truthy, and the two are ANDed. */
  predicate Matches(p: Product, search: Option<string>, category: Option<string>) {
    && (Falsy(search) || MatchesSearch(p, search.value))
    && (Falsy(category) || p.category == category.value)
  }

  /** The query as the controllers build it: `when(search, ...)` then
      `when(category, ...)`, each attaching a `where` only for a truthy input. */
  function Filtered(ps: seq<Product>, search: Option<string>, category: Option<string>): (r: seq<Product>)
    ensures forall p :: p in r ==> p in ps && Matches(p, search, category)
    ensures forall p :: p in ps && Matches(p, search, category) ==> p in r
  {
    var bySearch := if Falsy(search) then ps else Filter(ps, (p: Product) => MatchesSearch(p, search.value));
    if Falsy(category) then bySearch else Filter(bySearch, (p: Product) => p.category == category.value)
  }

  /** With neither a search term nor a category, every product is listed,
      in table order. */
  lemma NoFilterKeepsAll(ps: seq<Product>, search: Option<string>, category: Option<string>)
    requires Falsy(search) && Falsy(category)
    ensures Filtered(ps, search, category) == ps
  {
  }

  /** A product whose description but not name contains the term is still
      found (OR); a category that differs excludes it again (AND). */
  lemma {:induction false} SearchIsOrCategoryIsAnd(ps: seq<Product>, p: Product, term: string, category: string)
    requires p in ps && !Contains(p.name, term)
    requires p.description.Some? && Contains(p.description.value, term)
    requires term != "" && term != "0"
    ensures p in Filtered(ps, Some(term), None)
    ensures category != "" && category != "0" && p.category != category ==> p !in Filtered(ps, Some(term), Some(category))
  {
  }

  /** The full listing: every matching product, newest first. */
  function Listing(ps: seq<Product>, search: Option<string>, category: Option<string>): (r: seq<Product>)
    ensures SortedDesc(r, CreatedAt)
    ensures multiset(r) == multiset(Filtered(ps, search, category))
  {
    SortDesc(Filtered(ps, search, category), CreatedAt)
  }

  /** One page of the listing (`latest()->paginate(12)`). */
  function ListingPage(ps: seq<Product>, search: Option<string>, category: Option<string>, page: Option<int>): (r: seq<Product>)
    ensures |r| <= PerPage
    ensures forall k :: 0 <= k < |r| ==>
              var i := PageStart(CurrentPage(page), PerPage) + k;
              i < |Listing(ps, search, category)| && r[k] == Listing(ps, search, category)[i]
    ensures var lo := PageStart(CurrentPage(page), PerPage); var n := |Listing(ps, search, category)|;
            |r| == if lo >= n then 0 else if lo + PerPage <= n then PerPage else n - lo
    ensures forall p :: p in r ==> p in ps && Matches(p, search, category)
    ensures SortedDesc(r, CreatedAt)
  {
    var all := Listing(ps, search, category);
    assert forall p :: p in all ==> p in multiset(Filtered(ps, search, category));
    PageWithin(all, CurrentPage(page), PerPage);
    PageSorted(all, CurrentPage(page), PerPage, CreatedAt);
    PageOf(all, CurrentPage(page), PerPage)
  }

  /** Every matching product is shown on some page, and no page shows a
      product that does not match. */
  lemma {:induction false} MatchIffListed(ps: seq<Product>, search: Option<string>, category: Option<string>, p: Product)
    ensures (p in ps && Matches(p, search, category)) <==> exists n :: n >= 1 && p in ListingPage(ps, search, category, Some(n))
  {
    if p in ps && Matches(p, search, category) {
      var all := Listing(ps, search, category);
      assert p in multiset(all);
      var k :| 0 <= k < |all| && all[k] == p;
      PageHolds(all, PerPage, k);
      var n := k / PerPage + 1;
      var r := ListingPage(ps, search, category, Some(n));
      assert CurrentPage(Some(n)) == n;
      assert r == PageOf(all, n, PerPage);
      assert r[k % PerPage] == p;
    }
  }

  /** The categories offered as filters (`select('category')->distinct()`):
      each category of some product, once. */
  function Categories(ps: seq<Product>): (r: seq<string>)
    ensures NoDuplicates(r)
    ensures forall c :: c in r ==> exists p :: p in ps && p.category == c
    ensures forall p :: p in ps ==> p.category in r
  {
    var all := Map(ps, CategoryOf);
    assert forall p :: p in ps ==> p.category in all by {
      forall p | p in ps ensures p.category in all {
        var k :| 0 <= k < |ps| && ps[k] == p;
        assert all[k] == p.category;
      }
    }
    Distinct(all)
  }

  /** What a catalog page receives: one page of products, the category list
      and the filters echoed back (`$request->only(['search', 'category'])`). */
  datatype CatalogPage = CatalogPage(
    products: seq<Product>,
    total: nat,
    categories: seq<string>,
    search: Option<string>,
    category: Option<string>)

  /** The catalog page both controllers render. */
  function CatalogView(ps: seq<Product>, search: Option<string>, category: Option<string>, page: Option<int>): (v: CatalogPage)
    ensures v.products == ListingPage(ps, search, category, page)
    ensures |v.products| <= PerPage && v.total == |Filtered(ps, search, category)|
    ensures forall p :: p in v.products ==> p in ps && Matches(p, search, category)
    ensures SortedDesc(v.products, CreatedAt)
    ensures NoDuplicates(v.categories)
    ensures forall c :: c in v.categories <==> exists p :: p in ps && p.category == c
    ensures v.search == search && v.category == category
  {
    CatalogPage(ListingPage(ps, search, category, page), |Filtered(ps, search, category)|,
                Categories(ps), search, category)
  }
}

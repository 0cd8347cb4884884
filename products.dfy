/** The admin side of the catalog (ProductController): the dashboard
    aggregates, the listing, and creating, editing and deleting products. */
module Products {

  import opened Base
  import opened Seqs
  import opened Catalog

  // ---------------------------------------------------------------------
  // index: the admin listing is the shared catalog query

  /** ProductController::index. */
  function Index(ps: seq<Product>, search: Option<string>, category: Option<string>, page: Option<int>): (v: CatalogPage)
    ensures v.products == ListingPage(ps, search, category, page)
    ensures |v.products| <= PerPage && v.total == |Filtered(ps, search, category)|
    ensures forall p :: p in v.products ==> p in ps && Matches(p, search, category)
    ensures SortedDesc(v.products, CreatedAt)
    ensures NoDuplicates(v.categories)
    ensures forall c :: c in v.categories <==> exists p :: p in ps && p.category == c
    ensures v.search == search && v.category == category
  {
    CatalogView(ps, search, category, page)
  }

  // ---------------------------------------------------------------------
  // home: dashboard aggregates

  /** Stock below this counts towards the "active carts" card. */
  const LowStockBelow: int := 20

  predicate LowStock(p: Product) { p.stock < LowStockBelow }

  /** `price * stock` of one row. */
  function StockValue(p: Product): real { p.price * p.stock as real }

  /** Number of products in category `c`. */
  function CountIn(ps: seq<Product>, c: string): nat {
    |Filter(ps, (p: Product) => p.category == c)|
  }

  /** One row of `select category, count(*) ... group by category`. */
  datatype CategoryCount = CategoryCount(category: string, count: nat)

  function CountOf(g: CategoryCount): int { g.count }

  /** One slice of the pie chart. */
  datatype Slice = Slice(name: string, value: nat)

  function SliceOf(g: CategoryCount): Slice { Slice(g.category, g.count) }

  /** The group-by over the categories `cs`, in their order. */
  function Tally(ps: seq<Product>, cs: seq<string>): (r: seq<CategoryCount>)
    ensures |r| == |cs|
    ensures forall k :: 0 <= k < |cs| ==> r[k] == CategoryCount(cs[k], CountIn(ps, cs[k]))
  {
    if cs == [] then [] else [CategoryCount(cs[0], CountIn(ps, cs[0]))] + Tally(ps, cs[1..])
  }

  /** `productsByCategory`: the group-by, largest count first. Each row
      counts the products of its category, and every category of a product
      has its row. */
  function ProductsByCategory(ps: seq<Product>): (r: seq<CategoryCount>)
    ensures SortedDesc(r, CountOf)
    ensures multiset(r) == multiset(Tally(ps, Categories(ps)))
    ensures forall g :: g in r ==> g.count == CountIn(ps, g.category) && g.count >= 1
    ensures forall p :: p in ps ==> exists g :: g in r && g.category == p.category
  {
    var tally := Tally(ps, Categories(ps));
    var r := SortDesc(tally, CountOf);
    GroupsFacts(ps, tally, r);
    r
  }

  lemma GroupsFacts(ps: seq<Product>, tally: seq<CategoryCount>, r: seq<CategoryCount>)
    requires tally == Tally(ps, Categories(ps)) && multiset(r) == multiset(tally)
    ensures forall g :: g in r ==> g.count == CountIn(ps, g.category) && g.count >= 1
    ensures forall p :: p in ps ==> exists g :: g in r && g.category == p.category
  {
    var cs := Categories(ps);
    forall g | g in r ensures g.count == CountIn(ps, g.category) && g.count >= 1 {
      assert g in multiset(tally);
      var k :| 0 <= k < |tally| && tally[k] == g;
      assert g == CategoryCount(cs[k], CountIn(ps, cs[k]));
      assert cs[k] in cs;
      var p :| p in ps && p.category == cs[k];
      CountInPositive(ps, p);
    }
    forall p | p in ps ensures exists g :: g in r && g.category == p.category {
      var k :| 0 <= k < |cs| && cs[k] == p.category;
      assert tally[k].category == p.category;
      assert tally[k] in multiset(r);
    }
  }

  /** A product's own category has at least one product. */
  lemma CountInPositive(ps: seq<Product>, p: Product)
    requires p in ps
    ensures CountIn(ps, p.category) >= 1
  {
    var f := Filter(ps, (q: Product) => q.category == p.category);
    assert p in f;
  }

  /** The four statistics cards. */
  datatype Stats = Stats(totalProducts: nat, totalUsers: nat, activeCarts: nat, totalRevenue: real)

  /** The cards of ProductController::home. The users table is not part of
      this model: its row count is a parameter. */
  function StatCards(ps: seq<Product>, userCount: nat): (s: Stats)
    ensures s.totalProducts == |ps| && s.totalUsers == userCount
    ensures s.activeCarts <= s.totalProducts
    ensures s.activeCarts == |Filter(ps, LowStock)|
    ensures forall p :: p in Filter(ps, LowStock) ==> p.stock < 20
    ensures forall p :: p in ps && p.stock < 20 ==> p in Filter(ps, LowStock)
    ensures s.totalRevenue == Sum(ps, StockValue)
    ensures (forall p :: p in ps ==> p.price >= 0.0 && p.stock >= 0) ==> s.totalRevenue >= 0.0
  {
    RevenueNonNegative(ps);
    Stats(|ps|, userCount, |Filter(ps, LowStock)|, Sum(ps, StockValue))
  }

  datatype Dashboard = Dashboard(
    stats: Stats,
    productsByCategory: seq<CategoryCount>,
    categoryDistribution: seq<Slice>)

  /** ProductController::home: the cards, the per-category counts largest
      first, and the same counts as pie slices in the same order. */
  function Home(ps: seq<Product>, userCount: nat): (d: Dashboard)
    ensures d.stats == StatCards(ps, userCount)
    ensures SortedDesc(d.productsByCategory, CountOf)
    ensures forall g :: g in d.productsByCategory ==> g.count == CountIn(ps, g.category) && g.count >= 1
    ensures forall p :: p in ps ==> exists g :: g in d.productsByCategory && g.category == p.category
    ensures |d.categoryDistribution| == |d.productsByCategory|
    ensures forall k :: 0 <= k < |d.categoryDistribution| ==>
              d.categoryDistribution[k].name == d.productsByCategory[k].category &&
              d.categoryDistribution[k].value == d.productsByCategory[k].count
  {
    var groups := ProductsByCategory(ps);
    Dashboard(StatCards(ps, userCount), groups, Map(groups, SliceOf))
  }

  lemma RevenueNonNegative(ps: seq<Product>)
    ensures (forall p :: p in ps ==> p.price >= 0.0 && p.stock >= 0) ==> Sum(ps, StockValue) >= 0.0
  {
    if forall p :: p in ps ==> p.price >= 0.0 && p.stock >= 0 {
      forall p | p in ps ensures StockValue(p) >= 0.0 {
        assert p.price >= 0.0 && p.stock as real >= 0.0;
      }
      SumNonNegative(ps, StockValue);
    }
  }

  /** One more product adds its `price * stock` to the revenue card and
      nothing else. */
  lemma RevenueAddsUp(ps: seq<Product>, p: Product, userCount: nat)
    ensures StatCards(ps + [p], userCount).totalRevenue == StatCards(ps, userCount).totalRevenue + p.price * p.stock as real
  {
    SumAppend(ps, [p], StockValue);
    assert [p][1..] == [];
  }

  /** Sum of the `count` column. */
  function TotalCount(gs: seq<CategoryCount>): nat {
    if gs == [] then 0 else gs[0].count + TotalCount(gs[1..])
  }

  lemma {:induction false} TotalCountInsert(g: CategoryCount, gs: seq<CategoryCount>)
    requires SortedDesc(gs, CountOf)
    ensures TotalCount(Insert(g, gs, CountOf)) == g.count + TotalCount(gs)
  {
    if gs != [] && gs[0].count > g.count {
      TotalCountInsert(g, gs[1..]);
    }
  }

  lemma {:induction false} TotalCountSorted(gs: seq<CategoryCount>)
    ensures TotalCount(SortDesc(gs, CountOf)) == TotalCount(gs)
  {
    if gs != [] {
      TotalCountSorted(gs[1..]);
      TotalCountInsert(gs[0], SortDesc(gs[1..], CountOf));
    }
  }

  /** Number of products whose category is one of `cs`. */
  function CountInAny(ps: seq<Product>, cs: seq<string>): nat {
    |Filter(ps, (p: Product) => p.category in cs)|
  }

  lemma {:induction false} CountInAnySplit(ps: seq<Product>, c: string, cs: seq<string>)
    requires c !in cs
    ensures CountInAny(ps, [c] + cs) == CountIn(ps, c) + CountInAny(ps, cs)
  {
    if ps != [] {
      CountInAnySplit(ps[1..], c, cs);
    }
  }

  lemma {:induction false} TallyCounts(ps: seq<Product>, cs: seq<string>)
    requires NoDuplicates(cs)
    ensures TotalCount(Tally(ps, cs)) == CountInAny(ps, cs)
  {
    if cs != [] {
      assert NoDuplicates(cs[1..]) by {
        forall i, j | 0 <= i < j < |cs[1..]| ensures cs[1..][i] != cs[1..][j] {
          assert cs[1..][i] == cs[i + 1] && cs[1..][j] == cs[j + 1];
        }
      }
      TallyCounts(ps, cs[1..]);
      var t := Tally(ps, cs);
      assert t[1..] == Tally(ps, cs[1..]);
      assert TotalCount(t) == CountIn(ps, cs[0]) + TotalCount(Tally(ps, cs[1..]));
      assert cs == [cs[0]] + cs[1..];
      assert cs[0] !in cs[1..] by {
        forall j | 0 <= j < |cs[1..]| ensures cs[1..][j] != cs[0] {
          assert cs[1..][j] == cs[j + 1];
        }
      }
      CountInAnySplit(ps, cs[0], cs[1..]);
    } else {
      var none := Filter(ps, (p: Product) => p.category in cs);
      assert |none| > 0 ==> none[0] in none;
    }
  }

  lemma {:induction false} CountInAnyCovering(ps: seq<Product>, cs: seq<string>)
    requires forall p :: p in ps ==> p.category in cs
    ensures CountInAny(ps, cs) == |ps|
  {
    if ps != [] {
      CountInAnyCovering(ps[1..], cs);
    }
  }

  /** The per-category counts of the dashboard add up to the number of
      products. */
  lemma CategoryCountsSumToTotal(ps: seq<Product>, userCount: nat)
    ensures TotalCount(Home(ps, userCount).productsByCategory) == Home(ps, userCount).stats.totalProducts
  {
    var cs := Categories(ps);
    TotalCountSorted(Tally(ps, cs));
    TallyCounts(ps, cs);
    CountInAnyCovering(ps, cs);
  }

  // ---------------------------------------------------------------------
  // store / update / destroy: validation and writes

  /** What the validation rules guarantee of a stored product. */
  predicate WellFormed(p: Product) {
    p.price >= 0.0 && p.stock >= 0 && |p.name| <= 255 && |p.category| <= 255
  }

  /** The rules shared by store and update; the fields that break them. */
  function ProductErrors(req: Request): (errs: set<string>)
    ensures errs <= {"name", "description", "price", "stock", "category"}
    ensures "name" in errs <==> !RequiredText(Input(req, "name"), 255)
    ensures "description" in errs <==> !NullableText(Input(req, "description"))
    ensures "price" in errs <==> !RequiredNumber(Input(req, "price"), 0.0)
    ensures "stock" in errs <==> !RequiredInteger(Input(req, "stock"), 0)
    ensures "category" in errs <==> !RequiredText(Input(req, "category"), 255)
  {
    (if RequiredText(Input(req, "name"), 255) then {} else {"name"})
    + (if NullableText(Input(req, "description")) then {} else {"description"})
    + (if RequiredNumber(Input(req, "price"), 0.0) then {} else {"price"})
    + (if RequiredInteger(Input(req, "stock"), 0) then {} else {"stock"})
    + (if RequiredText(Input(req, "category"), 255) then {} else {"category"})
  }

  /** The `rating` written on create: the one sent, or `mt_rand(350, 500) /
      100` drawn as `roll`. A text that is not numeric cannot be stored in
      the decimal column: no rating (the insert fails). */
  function RatingFor(v: Value, roll: int): (r: Option<real>)
    requires 350 <= roll <= 500
    ensures v.Null? ==> r.Some? && 3.5 <= r.value <= 5.0 && r.value * 100.0 == roll as real
    ensures IsNumeric(v) ==> r == Some(NumericValue(v))
    ensures r.None? <==> v.Text? && !NumericText(v.s)
  {
    match v
    case Null => Some(roll as real / 100.0)
    case Number(n) => Some(n)
    case Text(s) => if NumericText(s) then Some(NumberOf(s)) else None
  }

  /** The nullable `description` column. */
  function DescriptionOf(v: Value): Option<string> {
    if v.Text? then Some(v.s) else None
  }

  /** The row `Product::create` inserts for a request that passed validation. */
  function NewProduct(id: int, req: Request, rating: real, imageUrl: string, now: int): (p: Product)
    requires ProductErrors(req) == {}
    ensures WellFormed(p)
    ensures p.id == id && p.createdAt == now && p.rating == rating && p.imageUrl == imageUrl
    ensures p.originalPrice.None?
    ensures p.name == Input(req, "name").s && p.category == Input(req, "category").s
    ensures p.description == DescriptionOf(Input(req, "description"))
    ensures p.price == NumericValue(Input(req, "price")) && p.stock == IntegerValue(Input(req, "stock"))
  {
    Product(id, Input(req, "name").s, DescriptionOf(Input(req, "description")), Input(req, "category").s,
            NumericValue(Input(req, "price")), None, IntegerValue(Input(req, "stock")), rating, imageUrl, now)
  }

  /** A name made of digits is still a name, and a price sent as the form
      text "19.99" is the number 19.99. */
  lemma DigitTextAccepted(req: Request)
    requires Input(req, "name") == Text("1984") && Input(req, "price") == Text("19.99")
    ensures "name" !in ProductErrors(req) && "price" !in ProductErrors(req)
    ensures NumericValue(Input(req, "price")) == 19.99
  {
    assert !Trimmable("1984"[0]);
    DecimalTextIsNumber();
  }

  /** A stock of twenty or more digits is beyond PHP's integer range and is
      reported, though it is numeric. */
  lemma LongStockRefused(req: Request, s: string)
    requires Input(req, "stock") == Text(s) && |s| >= 20 && AllDigits(s) && s[0] != '0'
    ensures "stock" in ProductErrors(req)
  {
    LongDigitTextRefused(s);
  }

  /** `$product->update([...])`: the five edited columns take the request's
      values; every other column keeps its value. */
  function Edited(p: Product, req: Request): (q: Product)
    requires ProductErrors(req) == {}
    ensures WellFormed(q)
    ensures q.name == Input(req, "name").s && q.category == Input(req, "category").s
    ensures q.price == NumericValue(Input(req, "price")) && q.stock == IntegerValue(Input(req, "stock"))
    ensures q.description == DescriptionOf(Input(req, "description"))
    ensures q.id == p.id && q.rating == p.rating && q.imageUrl == p.imageUrl
    ensures q.originalPrice == p.originalPrice && q.createdAt == p.createdAt
  {
    p.(name := Input(req, "name").s, description := DescriptionOf(Input(req, "description")),
       price := NumericValue(Input(req, "price")), stock := IntegerValue(Input(req, "stock")),
       category := Input(req, "category").s)
  }

  /** Index of the row with id `id`, if any (route-model binding). */
  function IndexOf(ps: seq<Product>, id: int): (r: Option<nat>)
    ensures r.Some? ==> r.value < |ps| && ps[r.value].id == id
    ensures r.None? <==> forall p :: p in ps ==> p.id != id
  {
    if ps == [] then None
    else if ps[0].id == id then Some(0)
    else var r := IndexOf(ps[1..], id); if r.Some? then Some(r.value + 1) else None
  }

  /** The `products` table. */
  class ProductTable {
    var rows: seq<Product>
    var nextId: int

    ghost predicate Valid()
      reads this
    {
      && UniqueIds(rows)
      && (forall p :: p in rows ==> p.id < nextId && WellFormed(p))
    }

    constructor ()
      ensures Valid() && rows == [] && nextId == 1
    {
      rows := [];
      nextId := 1;
    }

    /** ProductController::store. `roll` is the random rating draw and
        `defaultImage` the random placeholder URL. */
    method Create(req: Request, now: int, roll: int, defaultImage: string) returns (outcome: Outcome)
      requires Valid() && 350 <= roll <= 500
      modifies this
      ensures Valid()
      ensures ProductErrors(req) != {} ==> outcome == Invalid(ProductErrors(req))
      ensures ProductErrors(req) == {} && RatingFor(Input(req, "rating"), roll).None? ==> outcome == ServerError
      ensures outcome != Done ==> rows == old(rows) && nextId == old(nextId)
      ensures outcome == Done <==> ProductErrors(req) == {} && RatingFor(Input(req, "rating"), roll).Some?
      ensures outcome == Done ==>
                var image := if Input(req, "image_url").Text? then Input(req, "image_url").s else defaultImage;
                rows == old(rows) + [NewProduct(old(nextId), req, RatingFor(Input(req, "rating"), roll).value, image, now)] &&
                nextId == old(nextId) + 1
    {
      var errs := ProductErrors(req);
      if errs != {} {
        return Invalid(errs);
      }
      var rating := RatingFor(Input(req, "rating"), roll);
      if rating.None? {
        return ServerError;
      }
      var image := if Input(req, "image_url").Text? then Input(req, "image_url").s else defaultImage;
      rows := rows + [NewProduct(nextId, req, rating.value, image, now)];
      nextId := nextId + 1;
      outcome := Done;
    }

    /** ProductController::update. `saved` is false when the write reports
        failure or throws; both end in an error redirect. */
    method Update(id: int, req: Request, saved: bool) returns (outcome: Outcome)
      requires Valid()
      modifies this
      ensures Valid() && nextId == old(nextId)
      ensures IndexOf(old(rows), id).None? ==> outcome == NotFound
      ensures IndexOf(old(rows), id).Some? && ProductErrors(req) != {} ==> outcome == Invalid(ProductErrors(req))
      ensures outcome == Done <==> IndexOf(old(rows), id).Some? && ProductErrors(req) == {} && saved
      ensures IndexOf(old(rows), id).Some? && ProductErrors(req) == {} && !saved ==> outcome == Failed
      ensures outcome != Done ==> rows == old(rows)
      ensures outcome == Done ==>
                var i := IndexOf(old(rows), id).value;
                rows == old(rows)[i := Edited(old(rows)[i], req)]
    {
      var i := IndexOf(rows, id);
      if i.None? {
        return NotFound;
      }
      var errs := ProductErrors(req);
      if errs != {} {
        return Invalid(errs);
      }
      if !saved {
        return Failed;
      }
      var updated := Edited(rows[i.value], req);
      rows := rows[i.value := updated];
      outcome := Done;
    }

    /** ProductController::destroy. `deleted` is false when the delete
        throws. */
    method Destroy(id: int, deleted: bool) returns (outcome: Outcome)
      requires Valid()
      modifies this
      ensures Valid() && nextId == old(nextId)
      ensures IndexOf(old(rows), id).None? ==> outcome == NotFound && rows == old(rows)
      ensures outcome == Done <==> IndexOf(old(rows), id).Some? && deleted
      ensures IndexOf(old(rows), id).Some? && !deleted ==> outcome == Failed
      ensures outcome != Done ==> rows == old(rows)
      ensures outcome == Done ==> rows == Filter(old(rows), (p: Product) => p.id != id)
    {
      var i := IndexOf(rows, id);
      if i.None? {
        return NotFound;
      }
      if !deleted {
        return Failed;
      }
      FilterNoDuplicates(rows, (p: Product) => p.id != id);
      rows := Filter(rows, (p: Product) => p.id != id);
      outcome := Done;
    }
  }
}

/**
 * The read-only product routes of server.js: the list with search, category
 * and stock filters and page/limit slicing, the `q` search, and the look-up
 * by id. Each reads the store and builds a response from a filtered copy.
 */
module Queries {
  import opened JsValues
  import opened JsStrings
  import opened JsArrays
  import opened Errors
  import opened Products

  /** The query string of `GET /api/products`; `None` is a parameter that was not sent. */
  datatype ListQuery = ListQuery(
    search: Option<string>,
    category: Option<string>,
    inStock: Option<string>,
    page: Option<string>,
    limit: Option<string>)

  /** The lower-cased term occurs in the lower-cased name or description. */
  predicate SearchMatch(p: Product, term: string) {
    Includes(Lower(p.name), Lower(term)) || Includes(Lower(p.description), Lower(term))
  }

  /** The category equals the requested one, ignoring case. */
  predicate CategoryMatch(p: Product, category: string) {
    Lower(p.category) == Lower(category)
  }

  /** `product.inStock === (inStock === 'true')`: any other text selects what is out of stock. */
  predicate StockMatch(p: Product, inStock: string) {
    p.inStock == (inStock == "true")
  }

  function Searching(term: string): Product -> bool {
    p => SearchMatch(p, term)
  }

  function InCategory(category: string): Product -> bool {
    p => CategoryMatch(p, category)
  }

  function WithStock(inStock: string): Product -> bool {
    p => StockMatch(p, inStock)
  }

  /** The list route's three filter steps, each applied only when its parameter is given (server.js:59-83). */
  function Filtered(ps: seq<Product>, q: ListQuery): seq<Product> {
    var afterSearch := if PresentNonEmpty(q.search) then Filter(ps, Searching(q.search.value)) else ps;
    var afterCategory :=
      if PresentNonEmpty(q.category) then Filter(afterSearch, InCategory(q.category.value)) else afterSearch;
    if q.inStock.Some? then Filter(afterCategory, WithStock(q.inStock.value)) else afterCategory
  }

  /** A product passes every filter the query supplies. */
  predicate ListMatch(q: ListQuery, p: Product) {
    && (PresentNonEmpty(q.search) ==> SearchMatch(p, q.search.value))
    && (PresentNonEmpty(q.category) ==> CategoryMatch(p, q.category.value))
    && (q.inStock.Some? ==> StockMatch(p, q.inStock.value))
  }

  function Matching(q: ListQuery): Product -> bool {
    p => ListMatch(q, p)
  }

  /** A filter applied only when `on` is the same as one whose condition holds trivially when `on` is false. */
  function Unless<T>(on: bool, p: T -> bool): T -> bool {
    x => !on || p(x)
  }

  lemma OptionalFilter<T>(s: seq<T>, on: bool, p: T -> bool)
    ensures (if on then Filter(s, p) else s) == Filter(s, Unless(on, p))
  {
    if on {
      FilterSame(s, p, Unless(on, p));
    } else {
      FilterAll(s, Unless(on, p));
    }
  }

  /** The three filter steps together keep exactly the products that match the whole query. */
  lemma FilteredIsOneFilter(ps: seq<Product>, q: ListQuery)
    ensures Filtered(ps, q) == Filter(ps, Matching(q))
  {
    var onS, onC, onK := PresentNonEmpty(q.search), PresentNonEmpty(q.category), q.inStock.Some?;
    var s := if onS then q.search.value else "";
    var c := if onC then q.category.value else "";
    var k := if onK then q.inStock.value else "";
    var m1, m2, m3 := Unless(onS, Searching(s)), Unless(onC, InCategory(c)), Unless(onK, WithStock(k));
    var afterSearch := if onS then Filter(ps, Searching(s)) else ps;
    assert afterSearch == Filter(ps, m1) by {
      OptionalFilter(ps, onS, Searching(s));
    }
    var afterCategory := if onC then Filter(afterSearch, InCategory(c)) else afterSearch;
    assert afterCategory == Filter(afterSearch, m2) by {
      OptionalFilter(afterSearch, onC, InCategory(c));
    }
    var last := if onK then Filter(afterCategory, WithStock(k)) else afterCategory;
    assert last == Filter(afterCategory, m3) by {
      OptionalFilter(afterCategory, onK, WithStock(k));
    }
    assert Filtered(ps, q) == last;
    FilterFilter(ps, m1, m2);
    FilterFilter(ps, Both(m1, m2), m3);
    forall x | x in ps
      ensures Both(Both(m1, m2), m3)(x) == Matching(q)(x)
    {
      assert Both(Both(m1, m2), m3)(x) == (Both(m1, m2)(x) && m3(x));
      assert Both(m1, m2)(x) == (m1(x) && m2(x));
      assert m1(x) == (!onS || SearchMatch(x, s));
      assert m2(x) == (!onC || CategoryMatch(x, c));
      assert m3(x) == (!onK || StockMatch(x, k));
      assert Matching(q)(x) == ListMatch(q, x);
    }
    FilterSame(ps, Both(Both(m1, m2), m3), Matching(q));
  }

  /**
   * Before pagination the list keeps the products matching every supplied
   * filter, each as often as in the store, and nothing else, in store order.
   */
  lemma ListKeepsExactlyMatches(ps: seq<Product>, q: ListQuery)
    ensures IsSubsequence(Filtered(ps, q), ps)
    ensures forall p :: multiset(Filtered(ps, q))[p] == if ListMatch(q, p) then multiset(ps)[p] else 0
  {
    FilteredIsOneFilter(ps, q);
    FilterExactly(ps, Matching(q));
  }

  /** `parseInt(v) || fallback`: a missing parameter, NaN and 0 all give the fallback. */
  function PageParam(v: Option<string>, fallback: int): (n: int)
    ensures v.None? || ParseInt(v.value).None? || ParseInt(v.value) == Some(0) ==> n == fallback
    ensures v.Some? && ParseInt(v.value).Some? && ParseInt(v.value).value != 0 ==> n == ParseInt(v.value).value
    ensures fallback != 0 ==> n != 0
  {
    match v
    case None => fallback
    case Some(s) =>
      match ParseInt(s)
      case None => fallback
      case Some(k) => if k == 0 then fallback else k
  }

  /** `Math.ceil(n / d)` for a non-zero integer divisor. */
  function CeilDiv(n: nat, d: int): (r: int)
    requires d != 0
    ensures d > 0 ==> (r - 1) * d < n <= r * d
  {
    if d > 0 then (n + d - 1) / d else -(n / -d)
  }

  datatype Pagination = Pagination(
    currentPage: int,
    totalPages: int,
    totalProducts: nat,
    hasNext: bool,
    hasPrev: bool)

  datatype ListResponse = ListResponse(products: seq<Product>, pagination: Pagination)

  /** Slicing one page of `filtered` and describing it (server.js:88-101). */
  function Paginate(filtered: seq<Product>, page: int, limit: int): ListResponse
    requires limit != 0
  {
    var startIndex := (page - 1) * limit;
    var endIndex := startIndex + limit;
    ListResponse(
      Slice(filtered, startIndex, endIndex),
      Pagination(page, CeilDiv(|filtered|, limit), |filtered|, endIndex < |filtered|, page > 1))
  }

  /** `GET /api/products` (server.js:58-103). */
  function ListProducts(ps: seq<Product>, q: ListQuery): ListResponse {
    Paginate(Filtered(ps, q), PageParam(q.page, 1), PageParam(q.limit, 10))
  }

  /**
   * For a positive page and limit the page is the window
   * `filtered[(page-1)*limit .. min(page*limit, n))`, at most `limit` long,
   * and the metadata describe it.
   */
  lemma PageWindow(filtered: seq<Product>, page: int, limit: int)
    requires page >= 1 && limit >= 1
    ensures var r := Paginate(filtered, page, limit);
      && (page * limit - limit < |filtered| ==>
            r.products == filtered[page * limit - limit..if page * limit < |filtered| then page * limit else |filtered|])
      && (page * limit - limit >= |filtered| ==> r.products == [])
      && |r.products| <= limit
      && r.pagination.currentPage == page
      && r.pagination.totalProducts == |filtered|
      && (r.pagination.totalPages - 1) * limit < |filtered| <= r.pagination.totalPages * limit
      && (r.pagination.hasNext <==> page * limit < |filtered|)
      && (r.pagination.hasPrev <==> page > 1)
  {
    var start := (page - 1) * limit;
    assert start == page * limit - limit && start >= 0;
    SliceWindow(filtered, start, limit);
  }

  /** `"2"` is read as 2. */
  lemma ParseTwo()
    ensures ParseInt("2") == Some(2)
  {
    assert Decimal(2) == "2";
    ParseIntDecimal(2, "");
    assert Decimal(2) + "" == "2";
  }

  /** Page 2 of three matches, two per page: the last match alone, no next page, a previous one, two pages. */
  lemma SecondOfTwoPages(ps: seq<Product>, q: ListQuery)
    requires |Filtered(ps, q)| == 3 && q.page == Some("2") && q.limit == Some("2")
    ensures ListProducts(ps, q).products == [Filtered(ps, q)[2]]
    ensures ListProducts(ps, q).pagination == Pagination(2, 2, 3, false, true)
  {
    ParseTwo();
    assert PageParam(q.page, 1) == 2 && PageParam(q.limit, 10) == 2;
    PageWindow(Filtered(ps, q), 2, 2);
  }

  /** Without page or limit the first ten matches are returned as page 1. */
  lemma DefaultFirstPage(ps: seq<Product>, q: ListQuery)
    requires q.page.None? && q.limit.None?
    ensures ListProducts(ps, q).products
      == Filtered(ps, q)[..if |Filtered(ps, q)| < 10 then |Filtered(ps, q)| else 10]
    ensures ListProducts(ps, q).pagination.currentPage == 1
    ensures !ListProducts(ps, q).pagination.hasPrev
  {
    PageWindow(Filtered(ps, q), 1, 10);
  }

  /** `parseInt("abc")` is NaN and `parseInt("0")` is 0: neither is a usable page number. */
  lemma UnusablePageTexts()
    ensures ParseInt("abc") == None
    ensures ParseInt("0") == Some(0)
  {
    assert TrimStart("abc") == "abc";
    assert DigitPrefix("abc", 10) == [];
    ParseIntDecimal(0, "");
    assert Decimal(0) + "" == "0";
  }

  /** A page that is missing, or parses to NaN or 0, is page 1 with no previous page, whatever the limit. */
  lemma FallbackFirstPage(ps: seq<Product>, q: ListQuery)
    requires q.page.None? || ParseInt(q.page.value).None? || ParseInt(q.page.value) == Some(0)
    ensures ListProducts(ps, q).pagination.currentPage == 1
    ensures !ListProducts(ps, q).pagination.hasPrev
    ensures ListProducts(ps, q).products == ListProducts(ps, q.(page := None)).products
  {
    assert PageParam(q.page, 1) == 1;
  }

  const QueryRequiredText := "Search query parameter \"q\" is required"

  datatype SearchResponse = SearchResponse(query: string, results: seq<Product>, count: nat)

  /** `GET /api/products/search` (server.js:106-123). */
  function SearchProducts(ps: seq<Product>, q: Option<string>): Result<SearchResponse> {
    if !PresentNonEmpty(q) then Err(Validation(QueryRequiredText))
    else
      var results := Filter(ps, Searching(q.value));
      Ok(SearchResponse(q.value, results, |results|))
  }

  /**
   * Search fails with a validation error exactly when `q` is missing or empty;
   * otherwise it returns what the list route's search filter keeps, echoes the
   * query, and counts the results.
   */
  lemma SearchAgreesWithList(ps: seq<Product>, q: Option<string>)
    ensures SearchProducts(ps, q).Err? <==> !PresentNonEmpty(q)
    ensures SearchProducts(ps, q).Err? ==>
      SearchProducts(ps, q).error == Validation(QueryRequiredText) && SearchProducts(ps, q).error.Status() == 400
    ensures SearchProducts(ps, q).Ok? ==>
      var r := SearchProducts(ps, q).value;
      && r.query == q.value
      && r.results == Filtered(ps, ListQuery(q, None, None, None, None))
      && r.count == |r.results|
      && forall p :: p in r.results <==> p in ps && SearchMatch(p, q.value)
  {
    if PresentNonEmpty(q) {
      forall p ensures p in Filter(ps, Searching(q.value)) <==> p in ps && SearchMatch(p, q.value) {
        FilterContains(ps, Searching(q.value), p);
      }
    }
  }

  /** Search ignores case: a term and its lower-cased form find the same products. */
  lemma SearchIgnoresCase(ps: seq<Product>, term: string)
    requires term != ""
    ensures Lower(term) != ""
    ensures SearchProducts(ps, Some(term)).value.results == SearchProducts(ps, Some(Lower(term))).value.results
  {
    LowerProperties(term);
    FilterSame(ps, Searching(term), Searching(Lower(term)));
  }

  const ProductNotFoundText := "Product not found"

  /** `GET /api/products/:id` (server.js:150-158). */
  function GetProduct(ps: seq<Product>, id: string): Result<Product> {
    match IndexOf(ps, id)
    case None => Err(NotFound(ProductNotFoundText))
    case Some(k) => Ok(ps[k])
  }

  /** The look-up returns the first product with the id, and fails with a 404 when there is none. */
  lemma GetFindsFirst(ps: seq<Product>, id: string)
    ensures GetProduct(ps, id).Ok? <==> exists k :: 0 <= k < |ps| && ps[k].id == id
    ensures GetProduct(ps, id).Ok? ==>
      exists k :: 0 <= k < |ps| && ps[k] == GetProduct(ps, id).value && ps[k].id == id
        && forall j :: 0 <= j < k ==> ps[j].id != id
    ensures GetProduct(ps, id).Err? ==>
      GetProduct(ps, id).error == NotFound(ProductNotFoundText) && GetProduct(ps, id).error.Status() == 404
  {
    if GetProduct(ps, id).Ok? {
      var k := IndexOf(ps, id).value;
      assert ps[k] == GetProduct(ps, id).value;
    }
  }
}

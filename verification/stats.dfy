/**
 * `GET /api/products/stats` (server.js:126-147): how many products there are,
 * how many are in and out of stock, how many fall in each category, and their
 * average price rounded to cents.
 */
module Stats {
  import opened JsArrays
  import opened Products

  function InStock(): Product -> bool {
    (p: Product) => p.inStock
  }

  function OfCategory(category: string): Product -> bool {
    (p: Product) => p.category == category
  }

  /** The number of products in `category`; 0 for one no product has. */
  function CategoryCount(ps: seq<Product>, category: string): nat {
    |Filter(ps, OfCategory(category))|
  }

  /**
   * The category map the `forEach` builds (server.js:136-138), with each look-up
   * reading the map's own entries: a category seen for the first time counts 1,
   * a known one one more.
   */
  function Tally(ps: seq<Product>): map<string, nat>
    decreases |ps|
  {
    if ps == [] then map[]
    else
      var m, c := Tally(ps[..|ps| - 1]), ps[|ps| - 1].category;
      m[c := (if c in m then m[c] else 0) + 1]
  }

  /** Counting one more product adds one to its own category and nothing to any other. */
  lemma CategoryCountStep(ps: seq<Product>, c: string)
    requires ps != []
    ensures CategoryCount(ps, c)
      == CategoryCount(ps[..|ps| - 1], c) + (if ps[|ps| - 1].category == c then 1 else 0)
  {
  }

  /** The map has an entry for a category exactly when some product has it, and the entry is its count. */
  lemma {:induction false} TallyCount(ps: seq<Product>, c: string)
    ensures c in Tally(ps) <==> CategoryCount(ps, c) > 0
    ensures c in Tally(ps) ==> Tally(ps)[c] == CategoryCount(ps, c)
    decreases |ps|
  {
    if ps != [] {
      TallyCount(ps[..|ps| - 1], c);
      CategoryCountStep(ps, c);
    }
  }

  /** A category has products exactly when some product of the store has it. */
  lemma CategoryOccurs(ps: seq<Product>, c: string)
    ensures CategoryCount(ps, c) > 0 <==> exists i :: 0 <= i < |ps| && ps[i].category == c
  {
    FilterEmpty(ps, OfCategory(c));
    if exists i :: 0 <= i < |ps| && ps[i].category == c {
      var i :| 0 <= i < |ps| && ps[i].category == c;
      assert ps[i] in ps && OfCategory(c)(ps[i]);
    }
  }

  /** The map holds exactly the categories that occur, each with the number of its products. */
  lemma TallyCounts(ps: seq<Product>)
    ensures forall c :: c in Tally(ps) <==> exists i :: 0 <= i < |ps| && ps[i].category == c
    ensures forall c :: c in Tally(ps) ==> Tally(ps)[c] == CategoryCount(ps, c)
    ensures forall c :: c !in Tally(ps) ==> CategoryCount(ps, c) == 0
  {
    forall c
      ensures (c in Tally(ps) <==> exists i :: 0 <= i < |ps| && ps[i].category == c)
      ensures c in Tally(ps) ==> Tally(ps)[c] == CategoryCount(ps, c)
      ensures c !in Tally(ps) ==> CategoryCount(ps, c) == 0
    {
      TallyCount(ps, c);
      CategoryOccurs(ps, c);
    }
  }

  /** The sum of the counts in a category map. */
  ghost function SumCounts(m: map<string, nat>): nat
    decreases |m|
  {
    if m == map[] then 0
    else
      var k :| k in m;
      m[k] + SumCounts(m - {k})
  }

  /** The sum does not depend on which key is taken out first. */
  lemma {:induction false} SumCountsRemove(m: map<string, nat>, k: string)
    requires k in m
    ensures SumCounts(m) == m[k] + SumCounts(m - {k})
    decreases |m|
  {
    assert m != map[];
    var j :| j in m && SumCounts(m) == m[j] + SumCounts(m - {j});
    if j != k {
      var mj, mk := m - {j}, m - {k};
      assert k in mj && j in mk;
      assert |mj| == |m| - 1 && |mk| == |m| - 1 by {
        assert mj.Keys == m.Keys - {j} && mk.Keys == m.Keys - {k};
      }
      SumCountsRemove(mj, k);
      SumCountsRemove(mk, j);
      assert mj - {k} == mk - {j};
    }
  }

  /** The category counts add up to the number of products. */
  lemma {:induction false} TallySum(ps: seq<Product>)
    ensures SumCounts(Tally(ps)) == |ps|
    decreases |ps|
  {
    if ps != [] {
      var init, c := ps[..|ps| - 1], ps[|ps| - 1].category;
      var m := Tally(init);
      TallySum(init);
      var m' := m[c := (if c in m then m[c] else 0) + 1];
      SumCountsRemove(m', c);
      if c in m {
        SumCountsRemove(m, c);
        assert m' - {c} == m - {c};
      } else {
        assert m' - {c} == m;
      }
    }
  }

  /** `products.reduce((sum, p) => sum + p.price, 0)`. */
  function PriceSum(ps: seq<Product>): real
    decreases |ps|
  {
    if ps == [] then 0.0 else PriceSum(ps[..|ps| - 1]) + ps[|ps| - 1].price
  }

  /** `Math.round(x * 100) / 100` on exact reals: halves round up. */
  function RoundToCents(x: real): real {
    ((x * 100.0 + 0.5).Floor as real) / 100.0
  }

  /** The average price, rounded to cents; 0 for an empty store (server.js:140-144). */
  function AveragePrice(ps: seq<Product>): real {
    if |ps| > 0 then RoundToCents(PriceSum(ps) / (|ps| as real)) else 0.0
  }

  /** The reported average is 0 for no products and otherwise within half a cent of the mean. */
  lemma AveragePriceNearMean(ps: seq<Product>)
    ensures |ps| == 0 ==> AveragePrice(ps) == 0.0
    ensures |ps| > 0 ==>
      var mean := PriceSum(ps) / (|ps| as real);
      mean - 0.005 < AveragePrice(ps) <= mean + 0.005
  {
    if |ps| > 0 {
      var mean := PriceSum(ps) / (|ps| as real);
      var y := mean * 100.0 + 0.5;
      assert (y.Floor as real) <= y < (y.Floor as real) + 1.0;
    }
  }

  datatype Stats = Stats(
    totalProducts: nat,
    inStockCount: nat,
    outOfStockCount: nat,
    categories: map<string, nat>,
    averagePrice: real)

  /** The stats route: filter counts, then the `forEach` over the store, then the average. */
  method ComputeStats(ps: seq<Product>) returns (s: Stats)
    ensures s.totalProducts == |ps|
    ensures s.inStockCount == |Filter(ps, InStock())| && s.outOfStockCount == |Filter(ps, Not(InStock()))|
    ensures s.inStockCount + s.outOfStockCount == s.totalProducts
    ensures s.categories == Tally(ps)
    ensures forall c :: c in s.categories <==> exists i :: 0 <= i < |ps| && ps[i].category == c
    ensures forall c :: c in s.categories ==> s.categories[c] == CategoryCount(ps, c)
    ensures SumCounts(s.categories) == s.totalProducts
    ensures s.averagePrice == AveragePrice(ps)
  {
    var categories: map<string, nat> := map[];
    for i := 0 to |ps|
      invariant categories == Tally(ps[..i])
    {
      var c := ps[i].category;
      categories := categories[c := (if c in categories then categories[c] else 0) + 1];
      assert ps[..i + 1][..i] == ps[..i];
    }
    assert ps[..|ps|] == ps;
    FilterComplement(ps, InStock());
    TallyCounts(ps);
    TallySum(ps);
    s := Stats(|ps|, |Filter(ps, InStock())|, |Filter(ps, Not(InStock()))|, categories, AveragePrice(ps));
  }

  /** The seed store: three products, two in stock and one out, two electronics and one kitchen, averaging 683.33. */
  lemma SeedStats()
    ensures |Filter(Seed(), InStock())| == 2 && |Filter(Seed(), Not(InStock()))| == 1
    ensures Tally(Seed()) == map["electronics" := 2, "kitchen" := 1]
    ensures AveragePrice(Seed()) == 683.33
  {
    var ps := Seed();
    var p0, p1, p2 := ps[0], ps[1], ps[2];
    assert [p0][..0] == [] && [p0, p1][..1] == [p0] && ps[..2] == [p0, p1];
    FilterSnoc([], p0, InStock());
    FilterSnoc([p0], p1, InStock());
    FilterSnoc([p0, p1], p2, InStock());
    assert [p0] + [p1] == [p0, p1] && [p0, p1] + [p2] == ps;
    FilterComplement(ps, InStock());
    assert Tally([p0]) == map["electronics" := 1];
    assert Tally([p0, p1]) == map["electronics" := 2];
    assert PriceSum(ps) == 2050.0 by {
      assert PriceSum([p0]) == 1200.0;
    }
    var y := 2050.0 / 3.0 * 100.0 + 0.5;
    assert y.Floor == 68333;
  }

  /**
   * What the map holds as written: `stats.categories` is a plain `{}`, so a
   * look-up of a category named like a member of `Object.prototype` finds that
   * member. `Text` is the string that `+ 1` then makes of it.
   */
  datatype Entry = Count(n: nat) | Text

  const ObjectPrototypeMembers: set<string> := {
    "constructor", "hasOwnProperty", "isPrototypeOf", "propertyIsEnumerable",
    "toLocaleString", "toString", "valueOf", "__defineGetter__", "__defineSetter__",
    "__lookupGetter__", "__lookupSetter__", "__proto__" }

  /**
   * The `forEach` as written: `(categories[c] || 0) + 1` reads an inherited
   * member when the map has no own entry `c`, and an assignment to
   * `__proto__` of a string is ignored.
   */
  function TallyAsWritten(ps: seq<Product>): map<string, Entry>
    decreases |ps|
  {
    if ps == [] then map[]
    else
      var m, c := TallyAsWritten(ps[..|ps| - 1]), ps[|ps| - 1].category;
      if c == "__proto__" then m
      else
        var current := if c in m then m[c] else if c in ObjectPrototypeMembers then Text else Count(0);
        m[c := match current case Count(n) => Count(n + 1) case Text => Text]
  }

  /** When no category is named like an inherited member, the map as written holds the true counts. */
  lemma {:induction false} TallyAsWrittenOrdinary(ps: seq<Product>)
    requires forall i :: 0 <= i < |ps| ==> ps[i].category !in ObjectPrototypeMembers
    ensures TallyAsWritten(ps).Keys == Tally(ps).Keys
    ensures forall c :: c in Tally(ps) ==> TallyAsWritten(ps)[c] == Count(Tally(ps)[c])
    decreases |ps|
  {
    if ps != [] {
      var init := ps[..|ps| - 1];
      assert forall i :: 0 <= i < |init| ==> init[i] == ps[i];
      TallyAsWrittenOrdinary(init);
    }
  }

  /** One product in category `toString`: the map as written holds a string where the count 1 belongs. */
  lemma ToStringCategoryMiscounted(p: Product)
    requires p.category == "toString"
    ensures TallyAsWritten([p]) == map["toString" := Text]
    ensures Tally([p]) == map["toString" := 1]
  {
    assert [p][..0] == [];
  }

  /** One product in category `__proto__`: the map as written loses it. */
  lemma ProtoCategoryDropped(p: Product)
    requires p.category == "__proto__"
    ensures TallyAsWritten([p]) == map[]
    ensures Tally([p]) == map["__proto__" := 1]
  {
    assert [p][..0] == [];
  }
}

/**
 * Product records, the request bodies that create and update them, and the
 * look-up by id that the get, update and delete handlers share (server.js).
 */
module Products {
  import opened JsValues

  datatype Product = Product(
    id: string,
    name: string,
    description: string,
    price: real,
    category: string,
    inStock: bool)

  /**
   * A JSON request body: the five schema fields as JavaScript values, plus
   * how many keys outside the schema it carries.
   */
  datatype Body = Body(
    name: JsValue,
    description: JsValue,
    price: JsValue,
    category: JsValue,
    inStock: JsValue,
    otherKeys: nat)

  /** `Object.keys(req.body).length`: a JSON body never holds an undefined value. */
  function KeyCount(b: Body): nat {
    (if b.name.Undefined? then 0 else 1)
    + (if b.description.Undefined? then 0 else 1)
    + (if b.price.Undefined? then 0 else 1)
    + (if b.category.Undefined? then 0 else 1)
    + (if b.inStock.Undefined? then 0 else 1)
    + b.otherKeys
  }

  /** A body whose fields have the types a stored product needs. */
  predicate CreatableBody(b: Body) {
    b.name.Str? && b.description.Str? && b.price.Num? && b.category.Str?
    && (b.inStock.Undefined? || b.inStock.Bool?)
  }

  /** A body each of whose schema fields is either absent or of the stored type. */
  predicate PatchBody(b: Body) {
    (b.name.Undefined? || b.name.Str?)
    && (b.description.Undefined? || b.description.Str?)
    && (b.price.Undefined? || b.price.Num?)
    && (b.category.Undefined? || b.category.Str?)
    && (b.inStock.Undefined? || b.inStock.Bool?)
  }

  /** The record the create handler appends (server.js:162-169). */
  function NewProduct(id: string, b: Body): (p: Product)
    requires CreatableBody(b)
    ensures p.id == id
    ensures Str(p.name) == b.name && Str(p.description) == b.description
    ensures Num(p.price) == b.price && Str(p.category) == b.category
    ensures p.inStock == (b.inStock.Undefined? || b.inStock.b)
  {
    Product(id, b.name.s, b.description.s, b.price.x, b.category.s,
            if b.inStock.Undefined? then true else b.inStock.b)
  }

  /** `{...old, ...body, id}`: the body's fields over the old record, the id forced. */
  function Merge(current: Product, b: Body, id: string): (p: Product)
    requires PatchBody(b)
    ensures p.id == id
    ensures b.name.Undefined? ==> p.name == current.name
    ensures b.name.Str? ==> p.name == b.name.s
    ensures b.description.Undefined? ==> p.description == current.description
    ensures b.description.Str? ==> p.description == b.description.s
    ensures b.price.Undefined? ==> p.price == current.price
    ensures b.price.Num? ==> p.price == b.price.x
    ensures b.category.Undefined? ==> p.category == current.category
    ensures b.category.Str? ==> p.category == b.category.s
    ensures b.inStock.Undefined? ==> p.inStock == current.inStock
    ensures b.inStock.Bool? ==> p.inStock == b.inStock.b
  {
    Product(
      id,
      if b.name.Str? then b.name.s else current.name,
      if b.description.Str? then b.description.s else current.description,
      if b.price.Num? then b.price.x else current.price,
      if b.category.Str? then b.category.s else current.category,
      if b.inStock.Bool? then b.inStock.b else current.inStock)
  }

  /** A body without schema fields changes nothing but the id. */
  lemma MergeNothing(current: Product, otherKeys: nat)
    ensures Merge(current, Body(Undefined, Undefined, Undefined, Undefined, Undefined, otherKeys), current.id) == current
  {
  }

  /** `products.findIndex(p => p.id === id)`; `None` is -1. */
  function IndexOf(ps: seq<Product>, id: string): (r: Option<nat>)
    ensures r.Some? ==> r.value < |ps| && ps[r.value].id == id
    ensures r.Some? ==> forall j :: 0 <= j < r.value ==> ps[j].id != id
    ensures r.None? <==> forall j :: 0 <= j < |ps| ==> ps[j].id != id
  {
    if ps == [] then None
    else if ps[0].id == id then Some(0)
    else match IndexOf(ps[1..], id)
      case None => None
      case Some(i) => Some(i + 1)
  }

  function Ids(ps: seq<Product>): set<string> {
    set p | p in ps :: p.id
  }

  /** No two records share an id: what fresh identifiers keep true. */
  predicate UniqueIds(ps: seq<Product>) {
    forall i, j :: 0 <= i < j < |ps| ==> ps[i].id != ps[j].id
  }

  lemma IdsMembership(ps: seq<Product>, id: string)
    ensures id in Ids(ps) <==> IndexOf(ps, id).Some?
  {
    if id in Ids(ps) {
      var p :| p in ps && p.id == id;
      var k :| 0 <= k < |ps| && ps[k] == p;
    }
  }

  /** With unique ids, looking up a record's id finds that record. */
  lemma IndexOfFindsEach(ps: seq<Product>, k: nat)
    requires UniqueIds(ps) && k < |ps|
    ensures IndexOf(ps, ps[k].id) == Some(k)
  {
  }

  /** The first position holding `id` is the one the look-up returns. */
  lemma IndexOfIsFirst(ps: seq<Product>, id: string, k: nat)
    requires k < |ps| && ps[k].id == id
    requires forall j :: 0 <= j < k ==> ps[j].id != id
    ensures IndexOf(ps, id) == Some(k)
  {
  }

  /** Appending a record with a fresh id: it is found at the end, every other look-up is as before. */
  lemma IndexOfAfterAppend(ps: seq<Product>, p: Product, id: string)
    requires p.id !in Ids(ps)
    ensures IndexOf(ps + [p], p.id) == Some(|ps|)
    ensures id != p.id ==> IndexOf(ps + [p], id) == IndexOf(ps, id)
    ensures UniqueIds(ps) ==> UniqueIds(ps + [p])
  {
    var qs := ps + [p];
    assert forall j :: 0 <= j < |ps| ==> qs[j] == ps[j];
    IdsMembership(ps, p.id);
    IndexOfIsFirst(qs, p.id, |ps|);
    if id != p.id {
      match IndexOf(ps, id)
      case None =>
        assert forall j :: 0 <= j < |qs| ==> qs[j].id != id;
      case Some(i) =>
        IndexOfIsFirst(qs, id, i);
    }
    if UniqueIds(ps) {
      forall i, j | 0 <= i < j < |qs| ensures qs[i].id != qs[j].id {
        if j == |ps| {
          assert qs[i] in ps;
        }
      }
    }
  }

  lemma IndexOfAfterReplace(ps: seq<Product>, k: nat, q: Product, id: string)
    requires k < |ps| && q.id == ps[k].id
    ensures IndexOf(ps[k := q], id) == IndexOf(ps, id)
    ensures UniqueIds(ps) ==> UniqueIds(ps[k := q])
  {
    var qs := ps[k := q];
    assert forall j :: 0 <= j < |ps| ==> qs[j].id == ps[j].id;
    match IndexOf(ps, id)
    case None =>
    case Some(i) =>
  }

  /** Removing the record that holds a unique id leaves no record with that id. */
  lemma IndexOfAfterRemove(ps: seq<Product>, k: nat)
    requires UniqueIds(ps) && k < |ps|
    ensures IndexOf(ps[..k] + ps[k + 1..], ps[k].id).None?
    ensures UniqueIds(ps[..k] + ps[k + 1..])
  {
    var qs := ps[..k] + ps[k + 1..];
    assert forall j :: 0 <= j < |qs| ==> qs[j] == if j < k then ps[j] else ps[j + 1];
  }

  /** The three records the store starts with (server.js:25-50). */
  function Seed(): seq<Product> {
    [ Product("1", "Laptop", "High-performance laptop with 16GB RAM", 1200.0, "electronics", true),
      Product("2", "Smartphone", "Latest model with 128GB storage", 800.0, "electronics", true),
      Product("3", "Coffee Maker", "Programmable coffee maker with timer", 50.0, "kitchen", false) ]
  }

  lemma SeedIdsUnique()
    ensures UniqueIds(Seed())
  {
  }
}

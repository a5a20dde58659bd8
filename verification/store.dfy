/**
 * The module-level `products` array of server.js and the three routes that
 * change it in place: create pushes, update assigns at an index, delete splices.
 */
module Store {
  import opened Errors
  import opened Products
  import opened Queries

  class ProductStore {
    var products: seq<Product>

    /** No two stored products share an id. */
    ghost predicate Valid()
      reads this
    {
      UniqueIds(products)
    }

    /** The store as the server starts it (server.js:25-50). */
    constructor()
      ensures products == Seed()
      ensures Valid()
    {
      products := Seed();
      SeedIdsUnique();
    }

    /**
     * `POST /api/products` after the gate and the validator (server.js:162-171):
     * one record, built from the body under the fresh id, goes at the end.
     */
    method Create(id: string, b: Body) returns (p: Product)
      requires Valid()
      requires CreatableBody(b)
      requires id !in Ids(products)
      modifies this
      ensures Valid()
      ensures p == NewProduct(id, b)
      ensures products == old(products) + [p]
      ensures GetProduct(products, id) == Ok(p)
      ensures forall other :: other != id ==> GetProduct(products, other) == GetProduct(old(products), other)
    {
      p := NewProduct(id, b);
      forall other | other != id
        ensures IndexOf(products + [p], other) == IndexOf(products, other)
      {
        IndexOfAfterAppend(products, p, other);
      }
      IndexOfAfterAppend(products, p, id);
      products := products + [p];
    }

    /**
     * `PUT /api/products/:id` after the gate and the validator (server.js:177-190):
     * an unknown id fails with 404 and changes nothing; otherwise the body's
     * fields are merged over the record at its index, the id kept.
     */
    method Update(id: string, b: Body) returns (r: Result<Product>)
      requires Valid()
      requires PatchBody(b)
      modifies this
      ensures Valid()
      ensures |products| == |old(products)|
      ensures IndexOf(old(products), id).None? ==>
        r == Err(NotFound(ProductNotFoundText)) && products == old(products)
      ensures IndexOf(old(products), id).Some? ==>
        var k := IndexOf(old(products), id).value;
        && r == Ok(Merge(old(products)[k], b, id))
        && products == old(products)[k := r.value]
      ensures r.Ok? ==> r.value.id == id && GetProduct(products, id) == r
      ensures forall other :: other != id ==> GetProduct(products, other) == GetProduct(old(products), other)
    {
      var index := IndexOf(products, id);
      if index.None? {
        return Err(NotFound(ProductNotFoundText));
      }
      var k := index.value;
      var updated := Merge(products[k], b, id);
      forall other
        ensures IndexOf(products[k := updated], other) == IndexOf(products, other)
      {
        IndexOfAfterReplace(products, k, updated, other);
      }
      IndexOfAfterReplace(products, k, updated, id);
      products := products[k := updated];
      r := Ok(updated);
    }

    /**
     * `DELETE /api/products/:id` after the gate (server.js:195-202): an unknown
     * id fails with 404 and changes nothing; otherwise the record is spliced
     * out, returned, and the others keep their order.
     */
    method Delete(id: string) returns (r: Result<Product>)
      requires Valid()
      modifies this
      ensures Valid()
      ensures IndexOf(old(products), id).None? ==>
        r == Err(NotFound(ProductNotFoundText)) && products == old(products)
      ensures IndexOf(old(products), id).Some? ==>
        var k := IndexOf(old(products), id).value;
        && r == Ok(old(products)[k])
        && products == old(products)[..k] + old(products)[k + 1..]
        && |products| == |old(products)| - 1
      ensures GetProduct(products, id).Err?
    {
      var index := IndexOf(products, id);
      if index.None? {
        return Err(NotFound(ProductNotFoundText));
      }
      var k := index.value;
      var deleted := products[k];
      IndexOfAfterRemove(products, k);
      products := products[..k] + products[k + 1..];
      r := Ok(deleted);
    }
  }
}

/**
 * The mutating routes as server.js chains them: the API-key gate, then (for
 * create and update) the validator, then the handler on the store. A failure
 * at any stage is the error passed on to the error handler.
 */
module Routes {
  import opened JsValues
  import opened Errors
  import opened Auth
  import opened Products
  import opened Validation
  import opened Queries
  import opened Store

  /**
   * `app.post('/api/products', authMiddleware, validateProduct, ...)` (server.js:161-173):
   * a rejected key or body leaves the store as it was; otherwise one product is appended.
   */
  method CreateRoute(store: ProductStore, h: Headers, envApiKey: Option<string>, b: Body, id: string)
    returns (r: Result<Product>)
    requires store.Valid()
    requires id !in Ids(store.products)
    modifies store
    ensures store.Valid()
    ensures Authenticate(h, envApiKey).Fail? ==>
      r == Err(Authenticate(h, envApiKey).error) && store.products == old(store.products)
    ensures Authenticate(h, envApiKey) == Pass && !CreateValid(b) ==>
      && Verdict(Messages(CreateViolations(b))).Fail?
      && r == Err(Verdict(Messages(CreateViolations(b))).error)
      && store.products == old(store.products)
    ensures Authenticate(h, envApiKey) == Pass && CreateValid(b) ==>
      r == Ok(NewProduct(id, b)) && store.products == old(store.products) + [r.value]
  {
    var gate := Authenticate(h, envApiKey);
    if gate.Fail? {
      return Err(gate.error);
    }
    var check := ValidateProduct(b);
    CreatePassIffValid(b);
    VerdictOfViolations(CreateViolations(b));
    if check.Fail? {
      return Err(check.error);
    }
    var p := store.Create(id, b);
    r := Ok(p);
  }

  /**
   * `app.put('/api/products/:id', authMiddleware, validateProductUpdate, ...)`
   * (server.js:176-191): a rejected key or body, or an unknown id, leaves the
   * store as it was; otherwise the record at the id's index is merged.
   */
  method UpdateRoute(store: ProductStore, h: Headers, envApiKey: Option<string>, id: string, b: Body)
    returns (r: Result<Product>)
    requires store.Valid()
    modifies store
    ensures store.Valid()
    ensures |store.products| == |old(store.products)|
    ensures Authenticate(h, envApiKey).Fail? ==>
      r == Err(Authenticate(h, envApiKey).error) && store.products == old(store.products)
    ensures Authenticate(h, envApiKey) == Pass && !UpdateValid(b) ==>
      && Verdict(Messages(UpdateViolations(b))).Fail?
      && r == Err(Verdict(Messages(UpdateViolations(b))).error)
      && store.products == old(store.products)
    ensures Authenticate(h, envApiKey) == Pass && UpdateValid(b) && IndexOf(old(store.products), id).None? ==>
      r == Err(NotFound(ProductNotFoundText)) && store.products == old(store.products)
    ensures Authenticate(h, envApiKey) == Pass && UpdateValid(b) && IndexOf(old(store.products), id).Some? ==>
      var k := IndexOf(old(store.products), id).value;
      r == Ok(Merge(old(store.products)[k], b, id)) && store.products == old(store.products)[k := r.value]
  {
    var gate := Authenticate(h, envApiKey);
    if gate.Fail? {
      return Err(gate.error);
    }
    var check := ValidateProductUpdate(b);
    UpdatePassIffValid(b);
    VerdictOfViolations(UpdateViolations(b));
    if check.Fail? {
      return Err(check.error);
    }
    r := store.Update(id, b);
  }

  /**
   * `app.delete('/api/products/:id', authMiddleware, ...)` (server.js:194-203):
   * a rejected key or an unknown id leaves the store as it was; otherwise the
   * record is removed.
   */
  method DeleteRoute(store: ProductStore, h: Headers, envApiKey: Option<string>, id: string)
    returns (r: Result<Product>)
    requires store.Valid()
    modifies store
    ensures store.Valid()
    ensures r.Err? ==> store.products == old(store.products)
    ensures Authenticate(h, envApiKey).Fail? ==> r == Err(Authenticate(h, envApiKey).error)
    ensures Authenticate(h, envApiKey) == Pass && IndexOf(old(store.products), id).None? ==>
      r == Err(NotFound(ProductNotFoundText))
    ensures Authenticate(h, envApiKey) == Pass && IndexOf(old(store.products), id).Some? ==>
      var k := IndexOf(old(store.products), id).value;
      r == Ok(old(store.products)[k]) && store.products == old(store.products)[..k] + old(store.products)[k + 1..]
  {
    var gate := Authenticate(h, envApiKey);
    if gate.Fail? {
      return Err(gate.error);
    }
    r := store.Delete(id);
  }
}

/** The catalog service end to end: the product handlers over the in-memory
    store and a cache, behind the middleware. Concrete request sequences,
    and how the two middlewares combine with the Create handler. */
module CatalogScenarios {

  import opened Optional
  import GoText
  import opened ProductStore
  import opened ProductValidation
  import opened KeyValueCache
  import opened RequestContext
  import opened ProductHandler
  import opened HttpStatus
  import ProductHandlerProperties
  import AuthStore
  import Middleware

  /** No cache call fails. */
  const NoFaults := Faults(false, false, false)

  /** A live context carrying an authenticated user, as JWTAuth leaves it. */
  const SignedIn := Context(false, Some(AuthStore.User(1, "a@example.com", "digest")), None)

  const Book := Product(0, "Book", 10.0)
  const Book2 := Product(0, "Book2", 15.0)

  /** The path segment "1" is id 1. */
  lemma PathOne()
    ensures GoText.Atoi("1") == Some(1)
  {
    assert GoText.FormatInt(1) == "1";
    GoText.AtoiFormatInt(1);
  }

  /** The path segment "999" is id 999, and the store's message for it. */
  lemma Path999()
    ensures GoText.Atoi("999") == Some(999)
    ensures NotFound(999).Message() == "product 999 not found"
  {
    assert GoText.NatDigits(99) == "99";
    assert GoText.FormatInt(999) == "999";
    GoText.AtoiFormatInt(999);
    assert "product " + "999" + " not found" == "product 999 not found";
  }

  /** A name that starts with a letter and has at most 25 characters passes
      both name checks. */
  lemma ShortNameAcceptable(p: Product)
    requires 1 <= |p.name| <= 25 && 'A' <= p.name[0] <= 'Z' && 0.0 < p.price <= MaxPrice
    ensures ValidateProduct(p) == []
  {
    assert !GoText.IsBlank(p.name) by { assert !GoText.IsSpace(p.name[0]); }
  }

  lemma BooksAreValid()
    ensures ValidateProduct(Book) == [] && ValidateProduct(Book2) == []
  {
    ShortNameAcceptable(Book);
    ShortNameAcceptable(Book2);
  }

  /** Listing an empty store answers an empty list and caches it under the
      list key for 5 minutes. */
  lemma EmptyListIsCached()
    ensures ListFlow(Empty(), Some(map[]), Background(), NoFaults) ==
      Outcome(Response(StatusOK, Some(Miss), ProductList([])), Empty(),
              Some(map[ListKey := Entry(ProductsValue([]), ListTTL)]))
  {
  }

  /** Creating an acceptable product in an empty store answers it with id 1
      and drops the cached list, so the next List answers that one product
      from the store. */
  lemma CreateFirstThenList(p: Product, m: Entries)
    requires Acceptable(p)
    ensures var o := CreateFlow(Empty(), Some(m), SignedIn, Some(p), NoFaults);
      && o.response == Response(StatusCreated, None, OneProduct(p.(id := 1)))
      && o.store == Snapshot([p.(id := 1)], 2)
      && ListKey !in o.cache.value
      && ListFlow(o.store, o.cache, Background(), NoFaults) ==
           Outcome(Response(StatusOK, Some(Miss), ProductList([p.(id := 1)])), o.store,
                   Some(o.cache.value[ListKey := Entry(ProductsValue([p.(id := 1)]), ListTTL)]))
  {
    ProductHandlerProperties.CreateSucceeds(Empty(), Some(m), SignedIn, p, NoFaults);
  }

  /** A product with an empty name is refused with the one name error, and
      the store and cache stay as they were. */
  lemma EmptyNameRefused(s: Snapshot, c: CacheState)
    ensures CreateFlow(s, c, SignedIn, Some(Product(0, "", 10.0)), NoFaults) ==
      Outcome(Response(StatusBadRequest, None, FieldErrors([NameRequired])), s, c)
  {
    EmptyNameCase();
  }

  /** An empty name together with a price that is not positive gives exactly
      one error per field. */
  lemma EmptyNameAndZeroPrice()
    ensures ValidateProduct(Product(0, "", 0.0)) == [NameRequired, PriceNotPositive]
    ensures ValidateProduct(Product(0, "", 0.0))[0].field == "name"
    ensures ValidateProduct(Product(0, "", 0.0))[1].field == "price"
  {
    ValidateIsCollect(Product(0, "", 0.0), true, false, true, false);
  }

  lemma CreateBookThenList(m: Entries)
    ensures var o := CreateFlow(Empty(), Some(m), SignedIn, Some(Book), NoFaults);
      && o.response == Response(StatusCreated, None, OneProduct(Product(1, "Book", 10.0)))
      && ListFlow(o.store, o.cache, Background(), NoFaults).response ==
           Response(StatusOK, Some(Miss), ProductList([Product(1, "Book", 10.0)]))
  {
    BooksAreValid();
    CreateFirstThenList(Book, m);
  }

  /** Getting id 999 from an empty store answers 404 and caches nothing. */
  lemma GetMissingIsNotFound(m: Entries)
    requires ItemKey(999) !in m
    ensures GetFlow(Empty(), Some(m), Background(), "999", NoFaults) ==
      Outcome(Response(StatusNotFound, None, Text("product 999 not found")), Empty(), Some(m))
  {
    Path999();
    assert GetOp(Empty(), false, 999) == Err(NotFound(999));
    assert Lookup(m, ItemKey(999), false) == None;
  }

  /** Create, Update, Get on products given by the caller: whatever was
      cached before the update, the Get answers the updated product. */
  lemma CreateUpdateGetAny(p: Product, q: Product, m: Entries, cached: Entries, idStr: string)
    requires Acceptable(p) && Acceptable(q) && GoText.Atoi(idStr) == Some(1)
    ensures var o1 := CreateFlow(Empty(), Some(m), SignedIn, Some(p), NoFaults);
      var o2 := UpdateFlow(o1.store, Some(cached), SignedIn, idStr, Some(q), NoFaults);
      && o2.response == Response(StatusOK, None, OneProduct(q.(id := 1)))
      && ListKey !in o2.cache.value && ItemKey(1) !in o2.cache.value
      && GetFlow(o2.store, o2.cache, Background(), idStr, NoFaults).response ==
           Response(StatusOK, Some(Miss), OneProduct(q.(id := 1)))
  {
    var s1 := CreateFlow(Empty(), Some(m), SignedIn, Some(p), NoFaults).store;
    assert s1 == Snapshot([p.(id := 1)], 2);
    assert UpdateOp(s1, false, 1, q).0 == Ok(q.(id := 1));
    ProductHandlerProperties.UpdateThenGetIsFresh(s1, cached, SignedIn, idStr, q, NoFaults, Background(), NoFaults);
  }

  /** Create "Book", then update it to "Book2" at 15, then Get it: the
      Get answers the updated product, whatever was cached in between. */
  lemma CreateBookUpdateGet(m: Entries, cached: Entries)
    ensures var o1 := CreateFlow(Empty(), Some(m), SignedIn, Some(Book), NoFaults);
      var o2 := UpdateFlow(o1.store, Some(cached), SignedIn, "1", Some(Book2), NoFaults);
      && o2.response == Response(StatusOK, None, OneProduct(Product(1, "Book2", 15.0)))
      && GetFlow(o2.store, o2.cache, Background(), "1", NoFaults).response ==
           Response(StatusOK, Some(Miss), OneProduct(Product(1, "Book2", 15.0)))
  {
    BooksAreValid();
    PathOne();
    CreateUpdateGetAny(Book, Book2, m, cached, "1");
  }

  /** Deleting the only product (id 1), then Get and List. */
  lemma DeleteOnlyProduct(q: Product, m: Entries, idStr: string)
    requires q.id == 1 && GoText.Atoi(idStr) == Some(1)
    ensures var o := DeleteFlow(Snapshot([q], 2), Some(m), SignedIn, idStr, NoFaults);
      && o.response == Response(StatusNoContent, None, NoBody)
      && o.store == Snapshot([], 2)
      && GetFlow(o.store, o.cache, Background(), idStr, NoFaults).response.status == StatusNotFound
      && ListFlow(o.store, o.cache, Background(), NoFaults).response == Response(StatusOK, Some(Miss), ProductList([]))
  {
    var s := Snapshot([q], 2);
    assert WellFormed(s);
    assert Find(s.products, 1) == 0;
    assert s.products[..0] + s.products[1..] == [];
    assert DeleteOp(s, false, 1) == (Ok(()), Snapshot([], 2));
    ProductHandlerProperties.DeleteThenGetIsFresh(s, m, SignedIn, idStr, NoFaults, Background(), NoFaults);
    ProductHandlerProperties.WriteThenListIsFresh(s, m, SignedIn, idStr, q, NoFaults, Background(), NoFaults);
  }

  /** Create, Delete, Get on a product given by the caller: the Get answers
      404 and List answers the empty list. */
  lemma CreateDeleteGetAny(p: Product, m: Entries, idStr: string)
    requires Acceptable(p) && GoText.Atoi(idStr) == Some(1)
    ensures var o1 := CreateFlow(Empty(), Some(m), SignedIn, Some(p), NoFaults);
      var o2 := DeleteFlow(o1.store, o1.cache, SignedIn, idStr, NoFaults);
      && o2.response == Response(StatusNoContent, None, NoBody)
      && GetFlow(o2.store, o2.cache, Background(), idStr, NoFaults).response.status == StatusNotFound
      && ListFlow(o2.store, o2.cache, Background(), NoFaults).response == Response(StatusOK, Some(Miss), ProductList([]))
  {
    var o1 := CreateFlow(Empty(), Some(m), SignedIn, Some(p), NoFaults);
    assert o1.store == Snapshot([p.(id := 1)], 2);
    DeleteOnlyProduct(p.(id := 1), o1.cache.value, idStr);
  }

  // ---------------------------------------------------------------------------
  // Middleware in front of Create

  /** SimpleAuth attaches its user under the HTTP package's key, which the
      Create handler does not read: a request with the right API key still
      reaches Create without a user and is answered 401. */
  lemma SimpleAuthThenCreateIsUnauthorized(s: Snapshot, c: CacheState, ctx: Context, body: Option<Product>, f: Faults)
    requires ctx.authUser.None?
    ensures var g := Middleware.SimpleAuth(Middleware.APIKey, ctx);
      && g.Forward?
      && CreateFlow(s, c, g.ctx, body, f) == Outcome(Response(StatusUnauthorized, None, Text("user not found")), s, c)
  {
  }

  /** JWTAuth attaches the registered user under the authentication
      package's key, so a request it forwards gets past Create's user check:
      a valid product is created unless the request was cancelled. */
  lemma JWTAuthThenCreate(header: string, ctx: Context, verify: string -> Option<int>, users: AuthStore.Registry,
                          s: Snapshot, c: CacheState, p: Product, f: Faults)
    requires Acceptable(p) && !ctx.cancelled
    requires Middleware.JWTAuth(header, ctx, verify, users).Forward?
    ensures var g := Middleware.JWTAuth(header, ctx, verify, users);
      CreateFlow(s, c, g.ctx, Some(p), f).response == Response(StatusCreated, None, OneProduct(p.(id := s.nextID)))
  {
    Middleware.JWTAuthForwardIff(header, ctx, verify, users);
  }
}

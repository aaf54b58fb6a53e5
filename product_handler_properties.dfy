/** What the cache-aside protocol of the product handlers guarantees, proved
    about the flow functions of `ProductHandler`. */
module ProductHandlerProperties {

  import opened Optional
  import GoText
  import opened ProductStore
  import opened ProductValidation
  import opened KeyValueCache
  import opened RequestContext
  import opened ProductHandler
  import opened HttpStatus

  // ---------------------------------------------------------------------------
  // Cache keys

  /** Different ids have different cache keys, and no product key is the list
      key; so invalidating one product's key leaves every other entry alone. */
  lemma ItemKeyInjective(a: int, b: int)
    ensures ItemKey(a) == ItemKey(b) ==> a == b
    ensures ItemKey(a) != ListKey
  {
    if ItemKey(a) == ItemKey(b) {
      assert ItemKey(a)[8..] == GoText.FormatInt(a);
      assert ItemKey(b)[8..] == GoText.FormatInt(b);
      GoText.FormatIntInjective(a, b);
    }
    assert ItemKey(a)[7] != ListKey[7];
  }

  // ---------------------------------------------------------------------------
  // Reads

  predicate ListCached(c: CacheState, f: Faults) {
    c.Some? && !f.getFails && ListKey in c.value && c.value[ListKey].value.ProductsValue?
  }

  /** A list hit answers HIT with the cached list and does not consult the
      store: the response is the same whatever the store holds, and nothing
      changes. */
  lemma ListHitSkipsStore(s1: Snapshot, s2: Snapshot, c: CacheState, ctx: Context, f: Faults)
    requires ListCached(c, f)
    ensures ListFlow(s1, c, ctx, f).response == ListFlow(s2, c, ctx, f).response
    ensures ListFlow(s1, c, ctx, f) ==
            Outcome(Response(StatusOK, Some(Hit), ProductList(c.value[ListKey].value.items)), s1, c)
  {
  }

  /** On a list miss the store is read: its error answers 500 and caches
      nothing; its products are answered with MISS and written back under the
      list key for 5 minutes, or with DISABLED when there is no cache. */
  lemma ListMiss(s: Snapshot, c: CacheState, ctx: Context, f: Faults)
    requires !ListCached(c, f)
    ensures var o := ListFlow(s, c, ctx, f);
      && o.store == s
      && (ctx.cancelled ==> o.response == Response(StatusInternalServerError, None, Text("context canceled")) && o.cache == c)
      && (!ctx.cancelled && c.None? ==> o.response == Response(StatusOK, Some(Disabled), ProductList(s.products)) && o.cache == c)
      && (!ctx.cancelled && c.Some? ==> o.response == Response(StatusOK, Some(Miss), ProductList(s.products)))
      && (!ctx.cancelled && c.Some? && !f.setFails ==>
            o.cache == Some(c.value[ListKey := Entry(ProductsValue(s.products), ListTTL)]))
  {
  }

  /** A malformed id is answered 400 before the cache or the store is touched,
      even when there is no cache. */
  lemma InvalidIdTouchesNothing(s: Snapshot, c: CacheState, ctx: Context, idStr: string, body: Option<Product>, f: Faults)
    requires GoText.Atoi(idStr).None?
    ensures GetFlow(s, c, ctx, idStr, f) == Outcome(Response(StatusBadRequest, None, Text("invalid ID")), s, c)
    ensures UpdateFlow(s, c, ctx, idStr, body, f) == Outcome(Response(StatusBadRequest, None, Text("invalid ID")), s, c)
    ensures DeleteFlow(s, c, ctx, idStr, f) == Outcome(Response(StatusBadRequest, None, Text("invalid ID")), s, c)
  {
  }

  /** Get on a miss reads the store: a store error answers 404 and caches
      nothing (no negative caching); a product answers MISS and is cached
      under its key for 10 minutes. A hit answers HIT without the store. */
  lemma GetOutcome(s: Snapshot, m: Entries, ctx: Context, idStr: string, f: Faults)
    requires GoText.Atoi(idStr).Some?
    ensures var id := GoText.Atoi(idStr).value;
      var key := ItemKey(id);
      var o := GetFlow(s, Some(m), ctx, idStr, f);
      var hit := !f.getFails && key in m && m[key].value.ProductValue?;
      && o.store == s
      && (hit ==> o.response == Response(StatusOK, Some(Hit), OneProduct(m[key].value.item)) && o.cache == Some(m))
      && (!hit && GetOp(s, ctx.cancelled, id).Err? ==>
            o.response.status == StatusNotFound && o.cache == Some(m))
      && (!hit && GetOp(s, ctx.cancelled, id).Ok? ==>
            && o.response == Response(StatusOK, Some(Miss), OneProduct(GetOp(s, ctx.cancelled, id).value))
            && o.cache == Some(Store(m, key, ProductValue(GetOp(s, ctx.cancelled, id).value), ItemTTL, f.setFails)))
  {
  }

  // ---------------------------------------------------------------------------
  // Writes

  /** Create refuses a request without a user (401) and an invalid product
      (400 with exactly the validation errors) before touching the store or
      the cache. */
  lemma CreateGuards(s: Snapshot, c: CacheState, ctx: Context, body: Option<Product>, f: Faults)
    ensures ctx.authUser.None? ==>
      CreateFlow(s, c, ctx, body, f) == Outcome(Response(StatusUnauthorized, None, Text("user not found")), s, c)
    ensures ctx.authUser.Some? && body.Some? && !Acceptable(body.value) ==>
      CreateFlow(s, c, ctx, body, f) ==
        Outcome(Response(StatusBadRequest, None, FieldErrors(ValidateProduct(body.value))), s, c)
  {
  }

  /** Update refuses an invalid product (400 with exactly the validation
      errors) before touching the store or the cache. */
  lemma UpdateGuards(s: Snapshot, c: CacheState, ctx: Context, idStr: string, p: Product, f: Faults)
    requires GoText.Atoi(idStr).Some? && !Acceptable(p)
    ensures UpdateFlow(s, c, ctx, idStr, Some(p), f) ==
            Outcome(Response(StatusBadRequest, None, FieldErrors(ValidateProduct(p))), s, c)
  {
  }

  /** A signed-in, live request with a valid product is created: 201 with
      the product under the next id, the store's create applied, and the list
      key deleted from the cache. */
  lemma CreateSucceeds(s: Snapshot, c: CacheState, ctx: Context, p: Product, f: Faults)
    requires ctx.authUser.Some? && !ctx.cancelled && Acceptable(p)
    ensures CreateFlow(s, c, ctx, Some(p), f) ==
      Outcome(Response(StatusCreated, None, OneProduct(p.(id := s.nextID))),
              Snapshot(s.products + [p.(id := s.nextID)], s.nextID + 1),
              if c.Some? then Some(Evict(c.value, {ListKey}, f.deleteFails)) else None)
  {
  }

  /** A Create that does not succeed leaves the cache and the store as they
      were: the store's own Create changes nothing when it fails. */
  lemma FailedCreateKeepsCache(s: Snapshot, c: CacheState, ctx: Context, body: Option<Product>, f: Faults)
    ensures var o := CreateFlow(s, c, ctx, body, f);
      o.response.status != StatusCreated ==> o.cache == c && o.store == s
  {
  }

  /** An Update that does not succeed leaves the cache and the store as they
      were: the store's own Update changes nothing when it fails. */
  lemma FailedUpdateKeepsCache(s: Snapshot, c: CacheState, ctx: Context, idStr: string, body: Option<Product>, f: Faults)
    ensures var o := UpdateFlow(s, c, ctx, idStr, body, f);
      o.response.Response? && o.response.status != StatusOK ==>
        o.cache == c && o.store == s
  {
    if GoText.Atoi(idStr).Some? && body.Some? && |ValidateProduct(body.value)| == 0 {
      var (r, s') := UpdateOp(s, ctx.cancelled, GoText.Atoi(idStr).value, body.value);
      if r.Err? {
        assert UpdateFlow(s, c, ctx, idStr, body, f) == Outcome(Response(StatusNotFound, None, Text(r.error.Message())), s', c);
      }
    }
  }

  /** A Delete that does not succeed leaves the cache and the store as they
      were. */
  lemma FailedDeleteKeepsCache(s: Snapshot, c: CacheState, ctx: Context, idStr: string, f: Faults)
    ensures var o := DeleteFlow(s, c, ctx, idStr, f);
      o.response.Response? && o.response.status != StatusNoContent ==> o.cache == c && o.store == s
  {
  }

  /** A successful Create (201) has run the store's create and then deleted
      exactly the list key: once that deletion went through the key is gone,
      and every other entry is as it was. */
  lemma CreateInvalidatesList(s: Snapshot, c: CacheState, ctx: Context, body: Option<Product>, f: Faults)
    requires CreateFlow(s, c, ctx, body, f).response.Response?
    requires CreateFlow(s, c, ctx, body, f).response.status == StatusCreated
    ensures var o := CreateFlow(s, c, ctx, body, f);
      && body.Some? && Acceptable(body.value)
      && (o.response.body, o.store) == (OneProduct(CreateOp(s, ctx.cancelled, body.value).0.value), CreateOp(s, ctx.cancelled, body.value).1)
      && (c.None? <==> o.cache.None?)
      && (c.Some? ==> forall k :: k != ListKey ==> (k in o.cache.value <==> k in c.value) && (k in c.value ==> o.cache.value[k] == c.value[k]))
      && (c.Some? && !f.deleteFails ==> ListKey !in o.cache.value)
  {
    assert ctx.authUser.Some? && body.Some? && ValidateProduct(body.value) == [];
    var (r, s') := CreateOp(s, ctx.cancelled, body.value);
    assert r.Ok?;
    assert CreateFlow(s, c, ctx, body, f) ==
      Outcome(Response(StatusCreated, None, OneProduct(r.value)), s',
              if c.Some? then Some(Evict(c.value, {ListKey}, f.deleteFails)) else c);
  }

  /** Evicting the list key and one product's key removes both once the
      deletion goes through, and keeps every other product's entry. */
  lemma EvictItem(m: Entries, id: int, fails: bool, other: int)
    ensures var r := Evict(m, {ListKey, ItemKey(id)}, fails);
      && (!fails ==> ListKey !in r && ItemKey(id) !in r)
      && (other != id ==> (ItemKey(other) in r <==> ItemKey(other) in m))
      && (other != id && ItemKey(other) in m ==> r[ItemKey(other)] == m[ItemKey(other)])
  {
    ItemKeyInjective(other, id);
  }

  /** A successful Update (200) has run the store's update and then deleted
      exactly the list key and the product's key: once that deletion went
      through neither is present, and every other entry, other products'
      included, is as it was. */
  lemma UpdateInvalidates(s: Snapshot, m: Entries, ctx: Context, idStr: string, body: Option<Product>, f: Faults, other: int)
    requires UpdateFlow(s, Some(m), ctx, idStr, body, f).response.Response?
    requires UpdateFlow(s, Some(m), ctx, idStr, body, f).response.status == StatusOK
    ensures var o := UpdateFlow(s, Some(m), ctx, idStr, body, f);
      var id := GoText.Atoi(idStr).value;
      && GoText.Atoi(idStr).Some? && body.Some? && Acceptable(body.value)
      && o.store == UpdateOp(s, ctx.cancelled, id, body.value).1
      && o.cache.Some?
      && (!f.deleteFails ==> ListKey !in o.cache.value && ItemKey(id) !in o.cache.value)
      && (other != id ==> (ItemKey(other) in o.cache.value <==> ItemKey(other) in m))
      && (other != id && ItemKey(other) in m ==> o.cache.value[ItemKey(other)] == m[ItemKey(other)])
  {
    assert GoText.Atoi(idStr).Some?;
    var id := GoText.Atoi(idStr).value;
    assert body.Some? && |ValidateProduct(body.value)| == 0;
    assert UpdateOp(s, ctx.cancelled, id, body.value).0.Ok?;
    var o := UpdateFlow(s, Some(m), ctx, idStr, body, f);
    assert o.cache == Some(Evict(m, {ListKey, ItemKey(id)}, f.deleteFails));
    EvictItem(m, id, f.deleteFails, other);
  }

  /** A successful Delete (204) has run the store's delete and then deleted
      exactly the list key and the product's key, as Update does. */
  lemma DeleteInvalidates(s: Snapshot, m: Entries, ctx: Context, idStr: string, f: Faults, other: int)
    requires DeleteFlow(s, Some(m), ctx, idStr, f).response.Response?
    requires DeleteFlow(s, Some(m), ctx, idStr, f).response.status == StatusNoContent
    ensures var o := DeleteFlow(s, Some(m), ctx, idStr, f);
      var id := GoText.Atoi(idStr).value;
      && GoText.Atoi(idStr).Some?
      && o.store == DeleteOp(s, ctx.cancelled, id).1
      && o.cache.Some?
      && (!f.deleteFails ==> ListKey !in o.cache.value && ItemKey(id) !in o.cache.value)
      && (other != id ==> (ItemKey(other) in o.cache.value <==> ItemKey(other) in m))
      && (other != id && ItemKey(other) in m ==> o.cache.value[ItemKey(other)] == m[ItemKey(other)])
  {
    assert GoText.Atoi(idStr).Some?;
    var id := GoText.Atoi(idStr).value;
    assert DeleteOp(s, ctx.cancelled, id).0.Ok?;
    var o := DeleteFlow(s, Some(m), ctx, idStr, f);
    assert o.cache == Some(Evict(m, {ListKey, ItemKey(id)}, f.deleteFails));
    EvictItem(m, id, f.deleteFails, other);
  }

  // ---------------------------------------------------------------------------
  // No stale read after an acknowledged write

  /** After a successful Update whose invalidation went through, a Get of the
      same id misses the cache and returns the updated product, whatever was
      cached before. */
  lemma UpdateThenGetIsFresh(s: Snapshot, m: Entries, ctx: Context, idStr: string, p: Product,
                             f: Faults, ctx2: Context, f2: Faults)
    requires !f.deleteFails && !ctx2.cancelled
    requires UpdateFlow(s, Some(m), ctx, idStr, Some(p), f).response.Response?
    requires UpdateFlow(s, Some(m), ctx, idStr, Some(p), f).response.status == StatusOK
    ensures var o := UpdateFlow(s, Some(m), ctx, idStr, Some(p), f);
      var id := GoText.Atoi(idStr).value;
      GetFlow(o.store, o.cache, ctx2, idStr, f2).response ==
        Response(StatusOK, Some(Miss), OneProduct(p.(id := id)))
  {
    var id := GoText.Atoi(idStr).value;
    UpdateThenGet(s, id, p, id);
  }

  /** After a successful Delete whose invalidation went through, a Get of the
      same id answers 404: no cached copy of the deleted product is served. */
  lemma DeleteThenGetIsFresh(s: Snapshot, m: Entries, ctx: Context, idStr: string,
                             f: Faults, ctx2: Context, f2: Faults)
    requires WellFormed(s) && !f.deleteFails && !ctx2.cancelled
    requires DeleteFlow(s, Some(m), ctx, idStr, f).response.Response?
    requires DeleteFlow(s, Some(m), ctx, idStr, f).response.status == StatusNoContent
    ensures var o := DeleteFlow(s, Some(m), ctx, idStr, f);
      GetFlow(o.store, o.cache, ctx2, idStr, f2).response.status == StatusNotFound
  {
    var id := GoText.Atoi(idStr).value;
    DeleteThenGet(s, id, id);
  }

  /** After a successful Create whose invalidation went through, a List
      misses the cache and returns the store's products, the new one last. */
  lemma CreateThenListIsFresh(s: Snapshot, m: Entries, ctx: Context, p: Product,
                              f: Faults, ctx2: Context, f2: Faults)
    requires !f.deleteFails && !ctx2.cancelled
    requires CreateFlow(s, Some(m), ctx, Some(p), f).response.Response?
    requires CreateFlow(s, Some(m), ctx, Some(p), f).response.status == StatusCreated
    ensures var o := CreateFlow(s, Some(m), ctx, Some(p), f);
      ListFlow(o.store, o.cache, ctx2, f2).response ==
        Response(StatusOK, Some(Miss), ProductList(s.products + [p.(id := s.nextID)]))
  {
  }

  /** After a successful Update or Delete whose invalidation went through, a
      List misses the cache and returns the store as it now is. */
  lemma WriteThenListIsFresh(s: Snapshot, m: Entries, ctx: Context, idStr: string, p: Product,
                             f: Faults, ctx2: Context, f2: Faults)
    requires !f.deleteFails && !ctx2.cancelled
    ensures var o := UpdateFlow(s, Some(m), ctx, idStr, Some(p), f);
      o.response.Response? && o.response.status == StatusOK ==>
        ListFlow(o.store, o.cache, ctx2, f2).response == Response(StatusOK, Some(Miss), ProductList(o.store.products))
    ensures var o := DeleteFlow(s, Some(m), ctx, idStr, f);
      o.response.Response? && o.response.status == StatusNoContent ==>
        ListFlow(o.store, o.cache, ctx2, f2).response == Response(StatusOK, Some(Miss), ProductList(o.store.products))
  {
  }

  // ---------------------------------------------------------------------------
  // The cache is optional and best-effort

  /** List and Get leave the store alone, with or without a cache. */
  lemma ReadsIgnoreCache(s: Snapshot, m: Entries, ctx: Context, idStr: string, f: Faults)
    ensures ListFlow(s, None, ctx, f).store == ListFlow(s, Some(m), ctx, f).store == s
    ensures GetFlow(s, None, ctx, idStr, f).store == GetFlow(s, Some(m), ctx, idStr, f).store == s
  {
  }

  /** Create changes the store the same way whether or not a cache is
      configured. */
  lemma CreateIgnoresCache(s: Snapshot, m: Entries, ctx: Context, body: Option<Product>, f: Faults)
    ensures CreateFlow(s, None, ctx, body, f).store == CreateFlow(s, Some(m), ctx, body, f).store
  {
  }

  /** Update changes the store the same way whether or not a cache is
      configured: it changes the store before it reaches the missing cache. */
  lemma UpdateIgnoresCache(s: Snapshot, m: Entries, ctx: Context, idStr: string, body: Option<Product>, f: Faults)
    ensures UpdateFlow(s, None, ctx, idStr, body, f).store == UpdateFlow(s, Some(m), ctx, idStr, body, f).store
  {
  }

  /** Delete changes the store the same way whether or not a cache is
      configured: it changes the store before it reaches the missing cache. */
  lemma DeleteIgnoresCache(s: Snapshot, m: Entries, ctx: Context, idStr: string, f: Faults)
    ensures DeleteFlow(s, None, ctx, idStr, f).store == DeleteFlow(s, Some(m), ctx, idStr, f).store
  {
  }

  /** Failures of the cache's Set are swallowed: they never change what
      List or Get answer. */
  lemma ReadCacheFailuresInvisible(s: Snapshot, c: CacheState, ctx: Context, idStr: string, f1: Faults, f2: Faults)
    requires f1.getFails == f2.getFails
    ensures ListFlow(s, c, ctx, f1).response == ListFlow(s, c, ctx, f2).response
    ensures GetFlow(s, c, ctx, idStr, f1).response == GetFlow(s, c, ctx, idStr, f2).response
  {
  }

  /** Failures of the cache's Delete are swallowed: they never change what
      Create answers or what it does to the store. */
  lemma CreateCacheFailuresInvisible(s: Snapshot, c: CacheState, ctx: Context, body: Option<Product>, f1: Faults, f2: Faults)
    ensures CreateFlow(s, c, ctx, body, f1).response == CreateFlow(s, c, ctx, body, f2).response
    ensures CreateFlow(s, c, ctx, body, f1).store == CreateFlow(s, c, ctx, body, f2).store
  {
  }

  /** Failures of the cache's Delete never change what Update answers or
      what it does to the store. */
  lemma UpdateCacheFailuresInvisible(s: Snapshot, c: CacheState, ctx: Context, idStr: string,
                                     body: Option<Product>, f1: Faults, f2: Faults)
    ensures UpdateFlow(s, c, ctx, idStr, body, f1).response == UpdateFlow(s, c, ctx, idStr, body, f2).response
    ensures UpdateFlow(s, c, ctx, idStr, body, f1).store == UpdateFlow(s, c, ctx, idStr, body, f2).store
  {
  }

  /** Failures of the cache's Delete never change what Delete answers or
      what it does to the store. */
  lemma DeleteCacheFailuresInvisible(s: Snapshot, c: CacheState, ctx: Context, idStr: string, f1: Faults, f2: Faults)
    ensures DeleteFlow(s, c, ctx, idStr, f1).response == DeleteFlow(s, c, ctx, idStr, f2).response
    ensures DeleteFlow(s, c, ctx, idStr, f1).store == DeleteFlow(s, c, ctx, idStr, f2).store
  {
  }

  /** Without a cache, List and Create work (List tags DISABLED), while Get,
      Update and Delete reach the cache unconditionally: Get on any valid id
      panics, and Update and Delete panic after a successful store change. */
  lemma NilCacheAsymmetry(s: Snapshot, ctx: Context, idStr: string, body: Option<Product>, f: Faults)
    ensures ListFlow(s, None, ctx, f).response.Response?
    ensures CreateFlow(s, None, ctx, body, f).response.Response?
    ensures GoText.Atoi(idStr).Some? ==> GetFlow(s, None, ctx, idStr, f).response == NilCachePanic
    ensures var o := UpdateFlow(s, None, ctx, idStr, body, f);
      o.response == NilCachePanic <==>
        && GoText.Atoi(idStr).Some? && body.Some? && Acceptable(body.value)
        && UpdateOp(s, ctx.cancelled, GoText.Atoi(idStr).value, body.value).0.Ok?
    ensures var o := DeleteFlow(s, None, ctx, idStr, f);
      o.response == NilCachePanic <==>
        GoText.Atoi(idStr).Some? && DeleteOp(s, ctx.cancelled, GoText.Atoi(idStr).value).0.Ok?
  {
  }
}

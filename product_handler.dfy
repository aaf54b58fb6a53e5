/** The cache-aside protocol of the product HTTP handlers
    (internal/product/handler.go) with HTTP and JSON stripped away. Each
    handler is first given as a function from the store, the cache and the
    request to the response and the new store and cache (`ListFlow`, ...),
    then as a method of the class `Handler` that calls the store and the
    cache step by step and is proved to agree with that function.

    The cache is optional: `None` when the service runs without one. The
    source checks for a missing cache in List and Create only; Get, Update
    and Delete call it unconditionally, which dereferences a nil pointer in
    Go. That outcome is `NilCachePanic`; for Update and Delete the store has
    already been changed when it happens. */
module ProductHandler {

  import opened Optional
  import GoText
  import opened ProductStore
  import opened ProductValidation
  import opened KeyValueCache
  import opened RequestContext
  import opened HttpStatus

  /** Cache key of the product list. */
  const ListKey := "products:list"

  /** Cache key of one product: `fmt.Sprintf("product:%d", id)`. */
  function ItemKey(id: int): string {
    "product:" + GoText.FormatInt(id)
  }

  /** Time-to-live of the cached list: 5 minutes, in seconds. */
  const ListTTL := 5 * 60

  /** Time-to-live of a cached product: 10 minutes, in seconds. */
  const ItemTTL := 10 * 60

  /** The `X-Cache` response header. */
  datatype CacheTag = Hit | Miss | Disabled

  datatype Body =
    | ProductList(items: seq<Product>)
    | OneProduct(product: Product)
    | FieldErrors(errors: seq<ValidationError>)
    | Text(message: string)
    | NoBody

  /** What the handler writes; `xCache` is `None` when the header is not set. */
  datatype Response =
    | Response(status: int, xCache: Option<CacheTag>, body: Body)
    | NilCachePanic

  /** Which cache calls of one request fail (their errors are swallowed). */
  datatype Faults = Faults(getFails: bool, setFails: bool, deleteFails: bool)

  /** The cache's contents, or `None` when no cache is configured. */
  type CacheState = Option<Entries>

  /** A response with the store and cache as they are afterwards. */
  datatype Outcome = Outcome(response: Response, store: Snapshot, cache: CacheState)

  /** `List`. A cached value that does not decode as a list is a miss. */
  function ListFlow(s: Snapshot, c: CacheState, ctx: Context, f: Faults): Outcome {
    var hit := if c.Some? then Lookup(c.value, ListKey, f.getFails) else None;
    if hit.Some? && hit.value.ProductsValue? then
      Outcome(Response(StatusOK, Some(Hit), ProductList(hit.value.items)), s, c)
    else
      match ListOp(s, ctx.cancelled)
      case Err(e) => Outcome(Response(StatusInternalServerError, None, Text(e.Message())), s, c)
      case Ok(ps) =>
        if c.Some? then
          Outcome(Response(StatusOK, Some(Miss), ProductList(ps)), s,
                  Some(Store(c.value, ListKey, ProductsValue(ps), ListTTL, f.setFails)))
        else
          Outcome(Response(StatusOK, Some(Disabled), ProductList(ps)), s, c)
  }

  /** `Get`. A cached value that does not decode as a product is a miss. */
  function GetFlow(s: Snapshot, c: CacheState, ctx: Context, idStr: string, f: Faults): Outcome {
    match GoText.Atoi(idStr)
    case None => Outcome(Response(StatusBadRequest, None, Text("invalid ID")), s, c)
    case Some(id) =>
      if c.None? then Outcome(NilCachePanic, s, c)
      else
        var key := ItemKey(id);
        var hit := Lookup(c.value, key, f.getFails);
        if hit.Some? && hit.value.ProductValue? then
          Outcome(Response(StatusOK, Some(Hit), OneProduct(hit.value.item)), s, c)
        else
          match GetOp(s, ctx.cancelled, id)
          case Err(e) => Outcome(Response(StatusNotFound, None, Text(e.Message())), s, c)
          case Ok(p) =>
            Outcome(Response(StatusOK, Some(Miss), OneProduct(p)), s,
                    Some(Store(c.value, key, ProductValue(p), ItemTTL, f.setFails)))
  }

  /** `Create`. `body` is the decoded request body, `None` for invalid JSON. */
  function CreateFlow(s: Snapshot, c: CacheState, ctx: Context, body: Option<Product>, f: Faults): Outcome {
    if ctx.authUser.None? then Outcome(Response(StatusUnauthorized, None, Text("user not found")), s, c)
    else if body.None? then Outcome(Response(StatusBadRequest, None, Text("invalid JSON")), s, c)
    else if |ValidateProduct(body.value)| > 0 then
      Outcome(Response(StatusBadRequest, None, FieldErrors(ValidateProduct(body.value))), s, c)
    else
      var (r, s') := CreateOp(s, ctx.cancelled, body.value);
      match r
      case Err(e) => Outcome(Response(StatusInternalServerError, None, Text(e.Message())), s', c)
      case Ok(p) =>
        var c' := if c.Some? then Some(Evict(c.value, {ListKey}, f.deleteFails)) else c;
        Outcome(Response(StatusCreated, None, OneProduct(p)), s', c')
  }

  /** `Update`. */
  function UpdateFlow(s: Snapshot, c: CacheState, ctx: Context, idStr: string, body: Option<Product>, f: Faults): Outcome {
    match GoText.Atoi(idStr)
    case None => Outcome(Response(StatusBadRequest, None, Text("invalid ID")), s, c)
    case Some(id) =>
      if body.None? then Outcome(Response(StatusBadRequest, None, Text("invalid JSON")), s, c)
      else if |ValidateProduct(body.value)| > 0 then
        Outcome(Response(StatusBadRequest, None, FieldErrors(ValidateProduct(body.value))), s, c)
      else
        var (r, s') := UpdateOp(s, ctx.cancelled, id, body.value);
        match r
        case Err(e) => Outcome(Response(StatusNotFound, None, Text(e.Message())), s', c)
        case Ok(p) =>
          if c.None? then Outcome(NilCachePanic, s', c)
          else Outcome(Response(StatusOK, None, OneProduct(p)), s',
                       Some(Evict(c.value, {ListKey, ItemKey(id)}, f.deleteFails)))
  }

  /** `Delete`. */
  function DeleteFlow(s: Snapshot, c: CacheState, ctx: Context, idStr: string, f: Faults): Outcome {
    match GoText.Atoi(idStr)
    case None => Outcome(Response(StatusBadRequest, None, Text("invalid ID")), s, c)
    case Some(id) =>
      var (r, s') := DeleteOp(s, ctx.cancelled, id);
      match r
      case Err(e) => Outcome(Response(StatusNotFound, None, Text(e.Message())), s', c)
      case Ok(_) =>
        if c.None? then Outcome(NilCachePanic, s', c)
        else Outcome(Response(StatusNoContent, None, NoBody), s',
                     Some(Evict(c.value, {ListKey, ItemKey(id)}, f.deleteFails)))
  }

  // ---------------------------------------------------------------------------
  // The handler as the source has it: calls on a store object and an optional
  // cache object, in order.

  class Handler {
    const store: MemoryStore
    const cache: Cache?

    /** `NewHandler(store, redisCache)`. */
    constructor (store: MemoryStore, cache: Cache?)
      ensures this.store == store && this.cache == cache
    {
      this.store := store;
      this.cache := cache;
    }

    function CacheContents(): CacheState
      reads this, cache
    {
      if cache == null then None else Some(cache.entries)
    }

    method List(ctx: Context, f: Faults) returns (resp: Response)
      modifies cache
      ensures Outcome(resp, store.State(), CacheContents()) ==
              ListFlow(old(store.State()), old(CacheContents()), ctx, f)
    {
      if cache != null {
        var hit := cache.Get(ListKey, f.getFails);
        if hit.Some? && hit.value.ProductsValue? {
          return Response(StatusOK, Some(Hit), ProductList(hit.value.items));
        }
      }
      var r := store.List(ctx.cancelled);
      if r.Err? {
        return Response(StatusInternalServerError, None, Text(r.error.Message()));
      }
      if cache != null {
        var _ := cache.Set(ListKey, ProductsValue(r.value), ListTTL, f.setFails);
        resp := Response(StatusOK, Some(Miss), ProductList(r.value));
      } else {
        resp := Response(StatusOK, Some(Disabled), ProductList(r.value));
      }
    }

    method Get(ctx: Context, idStr: string, f: Faults) returns (resp: Response)
      modifies cache
      ensures Outcome(resp, store.State(), CacheContents()) ==
              GetFlow(old(store.State()), old(CacheContents()), ctx, idStr, f)
    {
      var id := GoText.Atoi(idStr);
      if id.None? {
        return Response(StatusBadRequest, None, Text("invalid ID"));
      }
      var key := ItemKey(id.value);
      if cache == null {
        return NilCachePanic;
      }
      var hit := cache.Get(key, f.getFails);
      if hit.Some? && hit.value.ProductValue? {
        return Response(StatusOK, Some(Hit), OneProduct(hit.value.item));
      }
      var r := store.GetByID(ctx.cancelled, id.value);
      if r.Err? {
        return Response(StatusNotFound, None, Text(r.error.Message()));
      }
      var _ := cache.Set(key, ProductValue(r.value), ItemTTL, f.setFails);
      resp := Response(StatusOK, Some(Miss), OneProduct(r.value));
    }

    method Create(ctx: Context, body: Option<Product>, f: Faults) returns (resp: Response)
      modifies store, cache
      ensures Outcome(resp, store.State(), CacheContents()) ==
              CreateFlow(old(store.State()), old(CacheContents()), ctx, body, f)
    {
      if ctx.authUser.None? {
        return Response(StatusUnauthorized, None, Text("user not found"));
      }
      if body.None? {
        return Response(StatusBadRequest, None, Text("invalid JSON"));
      }
      var errs := ValidateProduct(body.value);
      if |errs| > 0 {
        return Response(StatusBadRequest, None, FieldErrors(errs));
      }
      var r := store.Create(ctx.cancelled, body.value);
      if r.Err? {
        return Response(StatusInternalServerError, None, Text(r.error.Message()));
      }
      if cache != null {
        assert (set k | k in [ListKey]) == {ListKey};
        var _ := cache.Delete([ListKey], f.deleteFails);
      }
      resp := Response(StatusCreated, None, OneProduct(r.value));
    }

    method Update(ctx: Context, idStr: string, body: Option<Product>, f: Faults) returns (resp: Response)
      modifies store, cache
      ensures Outcome(resp, store.State(), CacheContents()) ==
              UpdateFlow(old(store.State()), old(CacheContents()), ctx, idStr, body, f)
    {
      var id := GoText.Atoi(idStr);
      if id.None? {
        return Response(StatusBadRequest, None, Text("invalid ID"));
      }
      if body.None? {
        return Response(StatusBadRequest, None, Text("invalid JSON"));
      }
      var errs := ValidateProduct(body.value);
      if |errs| > 0 {
        return Response(StatusBadRequest, None, FieldErrors(errs));
      }
      var r := store.Update(ctx.cancelled, id.value, body.value);
      if r.Err? {
        return Response(StatusNotFound, None, Text(r.error.Message()));
      }
      var keys := [ListKey, ItemKey(id.value)];
      if cache == null {
        return NilCachePanic;
      }
      assert (set k | k in keys) == {ListKey, ItemKey(id.value)};
      var _ := cache.Delete(keys, f.deleteFails);
      resp := Response(StatusOK, None, OneProduct(r.value));
    }

    method Delete(ctx: Context, idStr: string, f: Faults) returns (resp: Response)
      modifies store, cache
      ensures Outcome(resp, store.State(), CacheContents()) ==
              DeleteFlow(old(store.State()), old(CacheContents()), ctx, idStr, f)
    {
      var id := GoText.Atoi(idStr);
      if id.None? {
        return Response(StatusBadRequest, None, Text("invalid ID"));
      }
      var r := store.Delete(ctx.cancelled, id.value);
      if r.Err? {
        return Response(StatusNotFound, None, Text(r.error.Message()));
      }
      var keys := [ListKey, ItemKey(id.value)];
      if cache == null {
        return NilCachePanic;
      }
      assert (set k | k in keys) == {ListKey, ItemKey(id.value)};
      var _ := cache.Delete(keys, f.deleteFails);
      resp := Response(StatusNoContent, None, NoBody);
    }
  }
}

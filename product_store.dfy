/** The in-memory product store (`MemoryStore` of internal/product/store.go):
    a slice of products in insertion order and a counter for the next id.
    The five operations are first given as functions of a value `Snapshot`
    of the store, then implemented by the class `MemoryStore`, whose methods
    are proved to behave exactly as those functions say. A cancelled request
    context is the flag `cancelled`. */
module ProductStore {

  import GoText

  /** A catalog entry; `price` is Go's float64, taken here as an exact real. */
  datatype Product = Product(id: int, name: string, price: real)

  /** Errors the store returns: the context's error, or "product %d not found". */
  datatype StoreError = Canceled | NotFound(id: int) {
    /** The text of Go's `err.Error()`. */
    function Message(): string {
      match this
      case Canceled => "context canceled"
      case NotFound(id) => "product " + GoText.FormatInt(id) + " not found"
    }
  }

  datatype Result<+T> = Ok(value: T) | Err(error: StoreError)

  /** The store's two fields, as a value. */
  datatype Snapshot = Snapshot(products: seq<Product>, nextID: int)

  /** What the store's operations keep true: ids are positive, below the next
      id to hand out, and strictly increasing in list order (hence distinct). */
  predicate WellFormed(s: Snapshot) {
    && s.nextID >= 1
    && (forall i :: 0 <= i < |s.products| ==> 1 <= s.products[i].id < s.nextID)
    && (forall i, j :: 0 <= i < j < |s.products| ==> s.products[i].id < s.products[j].id)
  }

  /** `NewMemoryStore()`. */
  function Empty(): Snapshot {
    Snapshot([], 1)
  }

  /** Index of the first product with id `id`, or `|ps|` when there is none. */
  function Find(ps: seq<Product>, id: int): (k: nat)
    ensures k <= |ps|
    ensures k < |ps| ==> ps[k].id == id
    ensures forall j :: 0 <= j < k ==> ps[j].id != id
  {
    if |ps| == 0 then 0
    else if ps[0].id == id then 0
    else 1 + Find(ps[1..], id)
  }

  predicate Contains(s: Snapshot, id: int) {
    Find(s.products, id) < |s.products|
  }

  function ListOp(s: Snapshot, cancelled: bool): Result<seq<Product>> {
    if cancelled then Err(Canceled) else Ok(s.products)
  }

  function CreateOp(s: Snapshot, cancelled: bool, p: Product): (Result<Product>, Snapshot) {
    if cancelled then (Err(Canceled), s)
    else
      var q := p.(id := s.nextID);
      (Ok(q), Snapshot(s.products + [q], s.nextID + 1))
  }

  function GetOp(s: Snapshot, cancelled: bool, id: int): Result<Product> {
    if cancelled then Err(Canceled)
    else
      var k := Find(s.products, id);
      if k < |s.products| then Ok(s.products[k]) else Err(NotFound(id))
  }

  function UpdateOp(s: Snapshot, cancelled: bool, id: int, p: Product): (Result<Product>, Snapshot) {
    if cancelled then (Err(Canceled), s)
    else
      var k := Find(s.products, id);
      if k < |s.products| then
        var q := p.(id := id);
        (Ok(q), s.(products := s.products[k := q]))
      else (Err(NotFound(id)), s)
  }

  function DeleteOp(s: Snapshot, cancelled: bool, id: int): (Result<()>, Snapshot) {
    if cancelled then (Err(Canceled), s)
    else
      var k := Find(s.products, id);
      if k < |s.products| then
        (Ok(()), s.(products := s.products[..k] + s.products[k + 1..]))
      else (Err(NotFound(id)), s)
  }

  // ---------------------------------------------------------------------------
  // The store as the source has it: a class whose methods mutate its fields.

  class MemoryStore {
    var products: seq<Product>
    var nextID: int

    function State(): Snapshot
      reads this
    {
      Snapshot(products, nextID)
    }

    /** `NewMemoryStore`: no products, first id 1. */
    constructor ()
      ensures State() == Empty()
    {
      products := [];
      nextID := 1;
    }

    method List(cancelled: bool) returns (r: Result<seq<Product>>)
      ensures r == ListOp(State(), cancelled)
    {
      if cancelled {
        return Err(Canceled);
      }
      r := Ok(products);
    }

    method Create(cancelled: bool, p: Product) returns (r: Result<Product>)
      modifies this
      ensures (r, State()) == CreateOp(old(State()), cancelled, p)
    {
      if cancelled {
        return Err(Canceled);
      }
      var q := p.(id := nextID);
      nextID := nextID + 1;
      products := products + [q];
      r := Ok(q);
    }

    method GetByID(cancelled: bool, id: int) returns (r: Result<Product>)
      ensures r == GetOp(State(), cancelled, id)
    {
      if cancelled {
        return Err(Canceled);
      }
      var i := 0;
      while i < |products|
        invariant i <= |products|
        invariant forall j :: 0 <= j < i ==> products[j].id != id
      {
        if products[i].id == id {
          return Ok(products[i]);
        }
        i := i + 1;
      }
      r := Err(NotFound(id));
    }

    method Update(cancelled: bool, id: int, updated: Product) returns (r: Result<Product>)
      modifies this
      ensures (r, State()) == UpdateOp(old(State()), cancelled, id, updated)
    {
      if cancelled {
        return Err(Canceled);
      }
      var i := 0;
      while i < |products|
        invariant i <= |products|
        invariant forall j :: 0 <= j < i ==> products[j].id != id
      {
        if products[i].id == id {
          var q := updated.(id := id);
          products := products[i := q];
          return Ok(q);
        }
        i := i + 1;
      }
      r := Err(NotFound(id));
    }

    method Delete(cancelled: bool, id: int) returns (r: Result<()>)
      modifies this
      ensures (r, State()) == DeleteOp(old(State()), cancelled, id)
    {
      if cancelled {
        return Err(Canceled);
      }
      var i := 0;
      while i < |products|
        invariant i <= |products|
        invariant forall j :: 0 <= j < i ==> products[j].id != id
      {
        if products[i].id == id {
          products := products[..i] + products[i + 1..];
          return Ok(());
        }
        i := i + 1;
      }
      r := Err(NotFound(id));
    }
  }

  // ---------------------------------------------------------------------------
  // Properties of the store operations.

  /** A new store is well formed and empty, and the first product created in
      it gets id 1. */
  lemma NewStore(p: Product)
    ensures WellFormed(Empty())
    ensures ListOp(Empty(), false) == Ok([])
    ensures CreateOp(Empty(), false, p).0 == Ok(p.(id := 1))
  {
  }

  /** A cancelled context makes every operation fail with the context's error
      and leave the store as it was. */
  lemma CancelledChangesNothing(s: Snapshot, id: int, p: Product)
    ensures ListOp(s, true) == Err(Canceled)
    ensures CreateOp(s, true, p) == (Err(Canceled), s)
    ensures GetOp(s, true, id) == Err(Canceled)
    ensures UpdateOp(s, true, id, p) == (Err(Canceled), s)
    ensures DeleteOp(s, true, id) == (Err(Canceled), s)
  {
  }

  /** `nextID` never decreases, whatever the operation. */
  lemma NextIDNeverDecreases(s: Snapshot, c: bool, id: int, p: Product)
    ensures CreateOp(s, c, p).1.nextID >= s.nextID
    ensures UpdateOp(s, c, id, p).1.nextID == s.nextID
    ensures DeleteOp(s, c, id).1.nextID == s.nextID
  {
  }

  /** Create succeeds for any product (the store does no validation), appends
      it at the end with the next id, and keeps the store well formed. */
  lemma CreatePreservesWellFormed(s: Snapshot, c: bool, p: Product)
    requires WellFormed(s)
    ensures WellFormed(CreateOp(s, c, p).1)
    ensures !c ==> CreateOp(s, c, p).0 == Ok(p.(id := s.nextID))
    ensures !c ==> CreateOp(s, c, p).1.products == s.products + [p.(id := s.nextID)]
  {
    var s' := CreateOp(s, c, p).1;
    if !c {
      forall i, j | 0 <= i < j < |s'.products|
        ensures s'.products[i].id < s'.products[j].id
      {
        if j == |s.products| {
          assert s'.products[i] == s.products[i];
        }
      }
    }
  }

  /** Round trip: a product just created is found under its new id, and every
      id that was present before still gives the same product. */
  lemma {:induction false} CreateThenGet(s: Snapshot, p: Product, other: int)
    requires WellFormed(s)
    ensures var (r, s') := CreateOp(s, false, p);
      && r.Ok?
      && GetOp(s', false, r.value.id) == r
      && (Contains(s, other) ==> GetOp(s', false, other) == GetOp(s, false, other))
  {
    var (r, s') := CreateOp(s, false, p);
    FindAppend(s.products, p.(id := s.nextID), s.nextID);
    FindAppend(s.products, p.(id := s.nextID), other);
  }

  /** Looking up an id in a list extended at the end finds the old match if
      there was one, otherwise the new element if it matches. */
  lemma {:induction false} FindAppend(ps: seq<Product>, q: Product, id: int)
    ensures Find(ps + [q], id) == if Find(ps, id) < |ps| then Find(ps, id)
                                  else if q.id == id then |ps| else |ps| + 1
  {
    if |ps| > 0 {
      assert (ps + [q])[1..] == ps[1..] + [q];
      FindAppend(ps[1..], q, id);
    }
  }

  /** Update keeps the store well formed. */
  lemma UpdatePreservesWellFormed(s: Snapshot, c: bool, id: int, p: Product)
    requires WellFormed(s)
    ensures WellFormed(UpdateOp(s, c, id, p).1)
  {
    var k := Find(s.products, id);
    var s' := UpdateOp(s, c, id, p).1;
    if !c && k < |s.products| {
      assert forall i :: 0 <= i < |s.products| ==> s'.products[i].id == s.products[i].id;
    }
  }

  /** Update of a present id replaces exactly that product, with the id forced
      to `id`: a lookup of `id` now gives the new product, every other id gives
      what it gave before, and the length is unchanged. An absent id fails
      with not-found and changes nothing. */
  lemma UpdateThenGet(s: Snapshot, id: int, p: Product, other: int)
    ensures var (r, s') := UpdateOp(s, false, id, p);
      && |s'.products| == |s.products|
      && (Contains(s, id) ==> r == Ok(p.(id := id)) && GetOp(s', false, id) == r)
      && (!Contains(s, id) ==> r == Err(NotFound(id)) && s' == s)
      && (other != id ==> GetOp(s', false, other) == GetOp(s, false, other))
  {
    var k := Find(s.products, id);
    var (r, s') := UpdateOp(s, false, id, p);
    if k < |s.products| {
      FindReplace(s.products, k, p.(id := id), id);
      FindReplace(s.products, k, p.(id := id), other);
    }
  }

  /** Replacing the element at `k` by one with the same id does not move any
      lookup. */
  lemma {:induction false} FindReplace(ps: seq<Product>, k: nat, q: Product, id: int)
    requires k < |ps| && q.id == ps[k].id
    ensures Find(ps[k := q], id) == Find(ps, id)
  {
    if k > 0 {
      assert ps[k := q][1..] == ps[1..][k - 1 := q];
      FindReplace(ps[1..], k - 1, q, id);
    }
  }

  /** Delete keeps the store well formed. */
  lemma DeletePreservesWellFormed(s: Snapshot, c: bool, id: int)
    requires WellFormed(s)
    ensures WellFormed(DeleteOp(s, c, id).1)
  {
    var k := Find(s.products, id);
    var s' := DeleteOp(s, c, id).1;
    if !c && k < |s.products| {
      var ps := s.products;
      assert forall i :: 0 <= i < |s'.products| ==>
        s'.products[i] == if i < k then ps[i] else ps[i + 1];
    }
  }

  /** Delete of a present id removes exactly that product: the length drops
      by one, the others keep their relative order, a lookup of `id` now fails
      and every other id gives what it gave before. An absent id fails with
      not-found and changes nothing. */
  lemma DeleteThenGet(s: Snapshot, id: int, other: int)
    requires WellFormed(s)
    ensures var (r, s') := DeleteOp(s, false, id);
      && (Contains(s, id) ==>
            && r == Ok(())
            && |s'.products| == |s.products| - 1
            && s'.products == s.products[..Find(s.products, id)] + s.products[Find(s.products, id) + 1..]
            && GetOp(s', false, id) == Err(NotFound(id)))
      && (!Contains(s, id) ==> r == Err(NotFound(id)) && s' == s)
      && (other != id ==> GetOp(s', false, other) == GetOp(s, false, other))
  {
    var ps := s.products;
    var k := Find(ps, id);
    var (r, s') := DeleteOp(s, false, id);
    if k < |ps| {
      var qs := s'.products;
      assert forall i :: 0 <= i < |qs| ==> qs[i] == if i < k then ps[i] else ps[i + 1];
      assert forall i :: 0 <= i < |qs| ==> qs[i].id != id by {
        forall i | 0 <= i < |qs| ensures qs[i].id != id {
          if i < k { assert ps[i].id < ps[k].id; } else { assert ps[k].id < ps[i + 1].id; }
        }
      }
      if other != id {
        FindRemove(ps, k, other);
      }
    }
  }

  /** `Find` returns the first index holding the id: an index whose product
      has the id and is preceded by none that has it is `Find`'s answer. */
  lemma FindIsFirst(ps: seq<Product>, id: int, j: nat)
    requires j <= |ps|
    requires j < |ps| ==> ps[j].id == id
    requires forall i :: 0 <= i < j ==> ps[i].id != id
    ensures Find(ps, id) == j
  {
  }

  /** Removing an element whose id is not `other` does not change which
      product a lookup of `other` finds. */
  lemma FindRemove(ps: seq<Product>, k: nat, other: int)
    requires k < |ps| && ps[k].id != other
    ensures var qs := ps[..k] + ps[k + 1..];
      && (Find(ps, other) < |ps| <==> Find(qs, other) < |qs|)
      && (Find(qs, other) < |qs| ==> qs[Find(qs, other)] == ps[Find(ps, other)])
  {
    var qs := ps[..k] + ps[k + 1..];
    assert forall i :: 0 <= i < |qs| ==> qs[i] == if i < k then ps[i] else ps[i + 1];
    var f := Find(ps, other);
    if f < k {
      FindIsFirst(qs, other, f);
    } else if f < |ps| {
      FindIsFirst(qs, other, f - 1);
    } else {
      FindIsFirst(qs, other, |qs|);
    }
  }

  /** Deleting an absent id always fails with not-found, so deleting the same
      id twice fails the second time. */
  lemma DeleteTwiceFails(s: Snapshot, id: int)
    requires WellFormed(s)
    ensures DeleteOp(DeleteOp(s, false, id).1, false, id).0 == Err(NotFound(id))
  {
    DeleteThenGet(s, id, id);
  }

  /** Ids are never reused: after a delete, the next product created gets an
      id different from the deleted one (and from every id still stored). */
  lemma DeletedIdNeverReassigned(s: Snapshot, id: int, p: Product)
    requires WellFormed(s) && Contains(s, id)
    ensures var s1 := DeleteOp(s, false, id).1;
      var r := CreateOp(s1, false, p).0;
      && r.Ok? && r.value.id != id
      && !Contains(s1, r.value.id)
  {
    var s1 := DeleteOp(s, false, id).1;
    DeletePreservesWellFormed(s, false, id);
    assert s.products[Find(s.products, id)].id < s.nextID;
  }
}

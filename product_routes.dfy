/**
 * The five route handlers of the products collection, over an in-memory
 * table of documents keyed by id in place of the database collection.
 * Each handler answers with a status code and a body.
 */
module ProductRoutes {
  import opened Wrappers
  import Text
  import opened ProductSchema

  /** A document id. The store hands out ids from a counter, so a new one never collides with a stored one. */
  datatype Id = Id(serial: nat)

  /** The `:id` path parameter: an id, or text that does not parse as one (the lookup then throws a cast error). */
  datatype IdParam = Parsed(id: Id) | Malformed

  /** A JSON request body with typed values; a key the client did not send is None. */
  datatype Payload = Payload(
    name: Option<string>,
    description: Option<string>,
    price: Option<real>,
    stock: Option<real>,
    category: Option<string>,
    imageUrl: Option<string>,
    createdAt: Option<Timestamp>)

  /** The keys of a request body that name a path of a stored document. */
  datatype Key = NameKey | DescriptionKey | PriceKey | StockKey | CategoryKey | ImageUrlKey | CreatedAtKey

  /** A stored document together with its id, as the responses and the product list carry it. */
  datatype Entry = Entry(id: Id, product: Product)

  /** The `message` of a non-list answer: its kind, in place of the message text. */
  datatype Message =
    | NotFound
    | Removed
    | Rejected(violations: map<Field, Rule>)
    | CastFailed
    | StoreFailed

  datatype Body = Many(entries: seq<Entry>) | One(entry: Entry) | Note(message: Message)

  datatype Response = Response(status: nat, body: Body)

  const StatusOk: nat := 200
  const StatusCreated: nat := 201
  const StatusBadRequest: nat := 400
  const StatusNotFound: nat := 404
  const StatusServerError: nat := 500

  /** `es` lists every stored document exactly once, in some order. */
  ghost predicate Enumerates(es: seq<Entry>, m: map<Id, Product>) {
    forall e :: multiset(es)[e] == (if e.id in m && m[e.id] == e.product then 1 else 0)
  }

  /** A text value after the `trim` setter: already a fixed point of trim, and empty exactly when nothing visible was sent. */
  function TrimmedText(o: Option<string>): (r: Option<string>)
    ensures r.Some? == o.Some?
    ensures r.Some? ==> Text.Trim(r.value) == r.value && (r.value != "" <==> Text.HasVisibleChar(o.value))
  {
    match o
    case Some(s) =>
      Text.TrimIdempotent(s);
      Text.TrimEmptyIff(s);
      Some(Text.Trim(s))
    case None => None
  }

  /**
   * The document `new Product({...})` builds for a create request: only the
   * six content keys of the body are read, the text setters trim, and the
   * defaults fill the unset paths.
   */
  function Construct(b: Payload): (d: Draft)
    ensures d.price == b.price && d.category == b.category
    ensures d.stock == Some(b.stock.GetOr(DefaultStock)) && d.imageUrl == Some(b.imageUrl.GetOr(DefaultImageUrl))
    ensures d.name.Some? == b.name.Some? && d.description.Some? == b.description.Some?
    ensures d.name.Some? ==>
      Text.Trim(d.name.value) == d.name.value && (d.name.value != "" <==> Text.HasVisibleChar(b.name.value))
    ensures d.description.Some? ==>
      Text.Trim(d.description.value) == d.description.value && (d.description.value != "" <==> Text.HasVisibleChar(b.description.value))
  {
    ApplyDefaults(Draft(TrimmedText(b.name), TrimmedText(b.description), b.price, b.stock, b.category, b.imageUrl))
  }

  /** A path's value, whatever its type. */
  datatype Value = TextValue(s: string) | NumberValue(x: real) | TimeValue(t: Timestamp)

  /** The value a stored document holds at the path named by `k`. */
  function At(p: Product, k: Key): Value {
    match k
    case NameKey => TextValue(p.name)
    case DescriptionKey => TextValue(p.description)
    case PriceKey => NumberValue(p.price)
    case StockKey => NumberValue(p.stock)
    case CategoryKey => TextValue(p.category)
    case ImageUrlKey => TextValue(p.imageUrl)
    case CreatedAtKey => TimeValue(p.createdAt)
  }

  predicate Supplied(b: Payload, k: Key) {
    match k
    case NameKey => b.name.Some?
    case DescriptionKey => b.description.Some?
    case PriceKey => b.price.Some?
    case StockKey => b.stock.Some?
    case CategoryKey => b.category.Some?
    case ImageUrlKey => b.imageUrl.Some?
    case CreatedAtKey => b.createdAt.Some?
  }

  /** `product[key] = req.body[key]` for one key the body carries, through the path's setter. */
  function Assign(p: Product, k: Key, b: Payload): (r: Product)
    requires Supplied(b, k)
    ensures forall j | j != k :: At(r, j) == At(p, j)
    ensures Normalized(p) ==> Normalized(r)
  {
    match k
    case NameKey => p.(name := TrimmedText(b.name).value)
    case DescriptionKey => p.(description := TrimmedText(b.description).value)
    case PriceKey => p.(price := b.price.value)
    case StockKey => p.(stock := b.stock.value)
    case CategoryKey => p.(category := b.category.value)
    case ImageUrlKey => p.(imageUrl := b.imageUrl.value)
    case CreatedAtKey => p.(createdAt := b.createdAt.value)
  }

  /** The result of copying a body onto a stored document, path by path: what the body carries wins, the rest stays. */
  function Merged(p: Product, b: Payload): (r: Product)
    ensures Normalized(p) ==> Normalized(r)
  {
    Product(
      TrimmedText(b.name).GetOr(p.name),
      TrimmedText(b.description).GetOr(p.description),
      b.price.GetOr(p.price),
      b.stock.GetOr(p.stock),
      b.category.GetOr(p.category),
      b.imageUrl.GetOr(p.imageUrl),
      b.createdAt.GetOr(p.createdAt))
  }

  /** The body with only the keys in `ks` kept. */
  function Restrict(b: Payload, ks: set<Key>): Payload {
    Payload(
      if NameKey in ks then b.name else None,
      if DescriptionKey in ks then b.description else None,
      if PriceKey in ks then b.price else None,
      if StockKey in ks then b.stock else None,
      if CategoryKey in ks then b.category else None,
      if ImageUrlKey in ks then b.imageUrl else None,
      if CreatedAtKey in ks then b.createdAt else None)
  }

  const AllKeys: seq<Key> := [NameKey, DescriptionKey, PriceKey, StockKey, CategoryKey, ImageUrlKey, CreatedAtKey]

  /** `Object.keys(req.body)`: the keys the body carries (their order does not matter, each is set once). */
  function KeysOf(b: Payload): (ks: seq<Key>)
    ensures forall k :: k in ks <==> Supplied(b, k)
    ensures forall i, j :: 0 <= i < j < |ks| ==> ks[i] != ks[j]
  {
    KeysFrom(b, AllKeys)
  }

  function KeysFrom(b: Payload, candidates: seq<Key>): (ks: seq<Key>)
    ensures forall k :: k in ks <==> k in candidates && Supplied(b, k)
    ensures (forall i, j :: 0 <= i < j < |candidates| ==> candidates[i] != candidates[j]) ==>
      forall i, j :: 0 <= i < j < |ks| ==> ks[i] != ks[j]
  {
    if candidates == [] then []
    else
      var rest := KeysFrom(b, candidates[1..]);
      assert forall k :: k in rest ==> k in candidates[1..];
      if Supplied(b, candidates[0]) then [candidates[0]] + rest else rest
  }

  /**
   * The `forEach` over the body's keys in the update handler: assigns each
   * supplied key onto a copy of the stored document, one key at a time.
   */
  method MergeBody(p: Product, b: Payload) returns (q: Product)
    ensures q == Merged(p, b)
  {
    var keys := KeysOf(b);
    q := p;
    var i := 0;
    ghost var done: set<Key> := {};
    while i < |keys|
      invariant 0 <= i <= |keys|
      invariant forall k :: k in done <==> k in keys[..i]
      invariant q == Merged(p, Restrict(b, done))
    {
      var k := keys[i];
      AssignMerged(p, b, done, k);
      q := Assign(q, k, b);
      done := done + {k};
      i := i + 1;
      assert keys[..i] == keys[..i - 1] + [k];
    }
    assert keys[..i] == keys;
    RestrictToSupplied(b, done);
  }

  /** Keeping exactly the keys a body carries keeps the whole body. */
  lemma {:induction false} RestrictToSupplied(b: Payload, ks: set<Key>)
    requires forall k :: k in ks <==> Supplied(b, k)
    ensures Restrict(b, ks) == b
  {
    assert NameKey in ks <==> b.name.Some?;
    assert DescriptionKey in ks <==> b.description.Some?;
    assert PriceKey in ks <==> b.price.Some?;
    assert StockKey in ks <==> b.stock.Some?;
    assert CategoryKey in ks <==> b.category.Some?;
    assert ImageUrlKey in ks <==> b.imageUrl.Some?;
    assert CreatedAtKey in ks <==> b.createdAt.Some?;
  }

  /** One key assigned onto a partly merged document gives the merge of one more key. */
  lemma {:induction false} AssignMerged(p: Product, b: Payload, done: set<Key>, k: Key)
    requires Supplied(b, k)
    ensures Assign(Merged(p, Restrict(b, done)), k, b) == Merged(p, Restrict(b, done + {k}))
  {
    var before, after := Restrict(b, done), Restrict(b, done + {k});
    match k
    case NameKey => assert after == before.(name := b.name);
    case DescriptionKey => assert after == before.(description := b.description);
    case PriceKey => assert after == before.(price := b.price);
    case StockKey => assert after == before.(stock := b.stock);
    case CategoryKey => assert after == before.(category := b.category);
    case ImageUrlKey => assert after == before.(imageUrl := b.imageUrl);
    case CreatedAtKey => assert after == before.(createdAt := b.createdAt);
  }

  /** Every stored document is valid and trimmed, and every id is below the counter that hands out new ones. */
  ghost predicate TableInvariant(m: map<Id, Product>, nextId: nat) {
    forall id :: id in m ==> id.serial < nextId && ProductSchema.Valid(m[id]) && Normalized(m[id])
  }

  /** Storing a valid, trimmed document under an id below the counter keeps the invariant. */
  lemma {:induction false} StorePreservesInvariant(m: map<Id, Product>, nextId: nat, id: Id, p: Product)
    requires TableInvariant(m, nextId) && id.serial < nextId
    requires ProductSchema.Valid(p) && Normalized(p)
    ensures TableInvariant(m[id := p], nextId)
  {
  }

  /** Removing a key keeps the invariant. */
  lemma {:induction false} RemovePreservesInvariant(m: map<Id, Product>, nextId: nat, id: Id)
    requires TableInvariant(m, nextId)
    ensures TableInvariant(m - {id}, nextId)
  {
  }

  /**
   * The products collection. Every stored document is valid and trimmed,
   * because every write goes through validation; ids are handed out from
   * `nextId`.
   */
  class Catalog {
    var products: map<Id, Product>
    var nextId: nat

    ghost predicate Valid()
      reads this
    {
      TableInvariant(products, nextId)
    }

    constructor ()
      ensures Valid() && products == map[]
    {
      products := map[];
      nextId := 0;
    }

    /** GET `/`: every stored document, or 500 when the store fails. */
    method List(storeFails: bool) returns (r: Response)
      requires Valid()
      ensures storeFails ==> r == Response(StatusServerError, Note(StoreFailed))
      ensures !storeFails ==> r.status == StatusOk && r.body.Many? && Enumerates(r.body.entries, products)
      ensures !storeFails ==> forall e :: e in r.body.entries ==> ProductSchema.Valid(e.product)
    {
      if storeFails {
        return Response(StatusServerError, Note(StoreFailed));
      }
      var es: seq<Entry> := [];
      var left := products.Keys;
      while left != {}
        invariant left <= products.Keys
        invariant Enumerates(es, products - left)
        decreases left
      {
        var id :| id in left;
        EnumeratesExtend(es, products - left, id, products[id]);
        ListedOneMore(products, left, id);
        es := es + [Entry(id, products[id])];
        left := left - {id};
      }
      assert products - left == products;
      r := Response(StatusOk, Many(es));
    }

    /** GET `/:id`: the document, 404 when no document has that id, 500 when the lookup throws. */
    method Get(param: IdParam, storeFails: bool) returns (r: Response)
      requires Valid()
      ensures param.Malformed? ==> r == Response(StatusServerError, Note(CastFailed))
      ensures param.Parsed? && storeFails ==> r == Response(StatusServerError, Note(StoreFailed))
      ensures param.Parsed? && !storeFails && param.id !in products ==> r == Response(StatusNotFound, Note(NotFound))
      ensures param.Parsed? && !storeFails && param.id in products ==>
        r == Response(StatusOk, One(Entry(param.id, products[param.id]))) && ProductSchema.Valid(r.body.entry.product)
    {
      if param.Malformed? {
        return Response(StatusServerError, Note(CastFailed));
      }
      if storeFails {
        return Response(StatusServerError, Note(StoreFailed));
      }
      if param.id !in products {
        return Response(StatusNotFound, Note(NotFound));
      }
      r := Response(StatusOk, One(Entry(param.id, products[param.id])));
    }

    /**
     * POST `/`: builds the document from the body, validates it and stores
     * it under a fresh id stamped `now`; any failure answers 400 and
     * stores nothing.
     */
    method Create(b: Payload, now: Timestamp, storeFails: bool) returns (r: Response)
      requires Valid()
      modifies this
      ensures Valid()
      ensures Validate(Construct(b), now).Err? ==>
        r == Response(StatusBadRequest, Note(Rejected(Violations(Construct(b))))) && products == old(products)
      ensures Validate(Construct(b), now).Ok? && storeFails ==>
        r == Response(StatusBadRequest, Note(StoreFailed)) && products == old(products)
      ensures Validate(Construct(b), now).Ok? && !storeFails ==>
        r.status == StatusCreated && r.body.One? && r.body.entry.product == Validate(Construct(b), now).value
        && r.body.entry.id !in old(products)
        && products == old(products)[r.body.entry.id := r.body.entry.product]
    {
      var d := Construct(b);
      match Validate(d, now)
      case Err(v) =>
        r := Response(StatusBadRequest, Note(Rejected(v)));
      case Ok(p) =>
        if storeFails {
          r := Response(StatusBadRequest, Note(StoreFailed));
        } else {
          var id := Id(nextId);
          assert id !in products;
          StorePreservesInvariant(products, nextId + 1, id, p);
          products := products[id := p];
          nextId := nextId + 1;
          r := Response(StatusCreated, One(Entry(id, p)));
        }
    }

    /**
     * PUT `/:id`: copies every key of the body onto the stored document and
     * saves it. Every failure, the lookup's included, answers 400 because
     * lookup and save share one error handler; a missing id answers 404.
     */
    method Update(param: IdParam, b: Payload, storeFails: bool) returns (r: Response)
      requires Valid()
      modifies this
      ensures Valid() && nextId == old(nextId)
      ensures param.Malformed? ==> r == Response(StatusBadRequest, Note(CastFailed)) && products == old(products)
      ensures param.Parsed? && storeFails ==> r == Response(StatusBadRequest, Note(StoreFailed)) && products == old(products)
      ensures param.Parsed? && !storeFails && param.id !in old(products) ==>
        r == Response(StatusNotFound, Note(NotFound)) && products == old(products)
      ensures param.Parsed? && !storeFails && param.id in old(products) ==>
        var q := Merged(old(products)[param.id], b);
        (ProductSchema.Valid(q) ==>
          r == Response(StatusOk, One(Entry(param.id, q))) && products == old(products)[param.id := q])
        && (!ProductSchema.Valid(q) ==>
          r == Response(StatusBadRequest, Note(Rejected(Violations(AsDraft(q))))) && products == old(products))
    {
      if param.Malformed? {
        return Response(StatusBadRequest, Note(CastFailed));
      }
      if storeFails {
        return Response(StatusBadRequest, Note(StoreFailed));
      }
      var id := param.id;
      if id !in products {
        return Response(StatusNotFound, Note(NotFound));
      }
      var q := MergeBody(products[id], b);
      r := SaveUpdated(id, q);
    }

    /** `save` of an updated document: stores it over the old one when every validator passes, otherwise answers 400 with the violations. */
    method SaveUpdated(id: Id, q: Product) returns (r: Response)
      requires Valid() && id in products && Normalized(q)
      modifies this
      ensures Valid() && nextId == old(nextId)
      ensures ProductSchema.Valid(q) ==>
        r == Response(StatusOk, One(Entry(id, q))) && products == old(products)[id := q]
      ensures !ProductSchema.Valid(q) ==>
        r == Response(StatusBadRequest, Note(Rejected(Violations(AsDraft(q))))) && products == old(products)
    {
      if ProductSchema.Valid(q) {
        StorePreservesInvariant(products, nextId, id, q);
        products := products[id := q];
        r := Response(StatusOk, One(Entry(id, q)));
      } else {
        r := Response(StatusBadRequest, Note(Rejected(Violations(AsDraft(q)))));
      }
    }

    /** DELETE `/:id`: removes exactly that document; 404 when absent, 500 when the lookup or the removal throws. */
    method Delete(param: IdParam, storeFails: bool) returns (r: Response)
      requires Valid()
      modifies this
      ensures Valid() && nextId == old(nextId)
      ensures param.Malformed? ==> r == Response(StatusServerError, Note(CastFailed)) && products == old(products)
      ensures param.Parsed? && storeFails ==> r == Response(StatusServerError, Note(StoreFailed)) && products == old(products)
      ensures param.Parsed? && !storeFails && param.id !in old(products) ==>
        r == Response(StatusNotFound, Note(NotFound)) && products == old(products)
      ensures param.Parsed? && !storeFails && param.id in old(products) ==>
        r == Response(StatusOk, Note(Removed)) && products == old(products) - {param.id}
    {
      if param.Malformed? {
        return Response(StatusServerError, Note(CastFailed));
      }
      if storeFails {
        return Response(StatusServerError, Note(StoreFailed));
      }
      if param.id !in products {
        return Response(StatusNotFound, Note(NotFound));
      }
      RemovePreservesInvariant(products, nextId, param.id);
      products := products - {param.id};
      r := Response(StatusOk, Note(Removed));
    }
  }

  /** Appending a document not yet listed to a listing of `m` lists `m` with that document added. */
  lemma {:induction false} EnumeratesExtend(es: seq<Entry>, m: map<Id, Product>, id: Id, p: Product)
    requires Enumerates(es, m) && id !in m
    ensures Enumerates(es + [Entry(id, p)], m[id := p])
  {
    forall e ensures multiset(es + [Entry(id, p)])[e] == (if e.id in m[id := p] && m[id := p][e.id] == e.product then 1 else 0) {
      assert multiset(es + [Entry(id, p)]) == multiset(es) + multiset{Entry(id, p)};
    }
  }

  /** Taking one key off the set still to list adds exactly its entry to the part listed so far. */
  lemma {:induction false} ListedOneMore(m: map<Id, Product>, left: set<Id>, id: Id)
    requires id in left && left <= m.Keys
    ensures (m - left)[id := m[id]] == m - (left - {id})
  {
  }
}

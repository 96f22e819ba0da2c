/**
 * Properties of the products collection that relate the schema, the
 * route handlers and several requests in a row.
 */
module CatalogProperties {
  import opened Wrappers
  import Text
  import opened ProductSchema
  import opened ProductRoutes

  /** Two documents that agree at every path are the same document, so the per-key lemma below pins the merge down. */
  lemma {:induction false} SamePathsSameProduct(p: Product, q: Product)
    requires forall k :: At(p, k) == At(q, k)
    ensures p == q
  {
    assert At(p, NameKey) == At(q, NameKey) && At(p, DescriptionKey) == At(q, DescriptionKey);
    assert At(p, PriceKey) == At(q, PriceKey) && At(p, StockKey) == At(q, StockKey);
    assert At(p, CategoryKey) == At(q, CategoryKey) && At(p, ImageUrlKey) == At(q, ImageUrlKey);
    assert At(p, CreatedAtKey) == At(q, CreatedAtKey);
  }

  /** An update overwrites exactly the keys its body carries and leaves every other path at its prior value. */
  lemma {:induction false} MergeOverwritesOnlySupplied(p: Product, b: Payload, k: Key)
    ensures At(Merged(p, b), k) == if Supplied(b, k) then At(Assign(p, k, b), k) else At(p, k)
  {
  }

  const EmptyBody: Payload := Payload(None, None, None, None, None, None, None)

  /** An update with an empty body leaves the document as it was. */
  lemma {:induction false} MergeEmptyBody(p: Product)
    ensures Merged(p, EmptyBody) == p
  {
  }

  /**
   * A create request is accepted exactly when `name` and `description` are
   * sent and not blank, `price` is sent and not negative, `stock` is absent
   * or not negative, and `category` is one of the five.
   */
  lemma {:induction false} CreateAcceptedIff(b: Payload, now: Timestamp)
    ensures Validate(Construct(b), now).Ok? <==>
      b.name.Some? && Text.HasVisibleChar(b.name.value)
      && b.description.Some? && Text.HasVisibleChar(b.description.value)
      && b.price.Some? && b.price.value >= 0.0
      && (b.stock.None? || b.stock.value >= 0.0)
      && b.category.Some? && b.category.value in Categories
  {
    NoViolationsIff(Construct(b));
    if b.name.Some? { Text.TrimEmptyIff(b.name.value); }
    if b.description.Some? { Text.TrimEmptyIff(b.description.value); }
  }

  /**
   * What an accepted create stores: the trimmed text, the price and category
   * sent, the stock and image sent or their defaults (an empty image string
   * is kept), stamped with the server's clock whatever the body says.
   */
  lemma {:induction false} CreatedDocument(b: Payload, now: Timestamp)
    requires Validate(Construct(b), now).Ok?
    ensures var p := Validate(Construct(b), now).value;
      && p.name == Text.Trim(b.name.value) && p.description == Text.Trim(b.description.value)
      && p.price == b.price.value && p.category == b.category.value
      && p.stock == b.stock.GetOr(DefaultStock) && p.imageUrl == b.imageUrl.GetOr(DefaultImageUrl)
      && p.createdAt == now
    ensures forall t :: Validate(Construct(b.(createdAt := t)), now) == Validate(Construct(b), now)
  {
    var p := Validate(Construct(b), now).value;
    assert AsDraft(p) == Construct(b);
  }

  /** Create then Get: the new document is answered 201 and can be read back, unchanged, under its new id. */
  method CreateThenGet(c: Catalog, b: Payload, now: Timestamp) returns (created: Response, got: Response)
    requires c.Valid() && Validate(Construct(b), now).Ok?
    modifies c
    ensures c.Valid()
    ensures created.status == StatusCreated && created.body.One?
    ensures got == Response(StatusOk, One(created.body.entry))
    ensures created.body.entry.product == Validate(Construct(b), now).value
  {
    created := c.Create(b, now, false);
    got := c.Get(Parsed(created.body.entry.id), false);
  }

  /** Delete then Get: the id is gone (404), and every other document is still there. */
  method DeleteThenGet(c: Catalog, id: Id) returns (deleted: Response, got: Response)
    requires c.Valid() && id in c.products
    modifies c
    ensures c.Valid()
    ensures deleted == Response(StatusOk, Note(Removed))
    ensures got == Response(StatusNotFound, Note(NotFound))
    ensures forall other :: other != id && other in old(c.products) ==> other in c.products && c.products[other] == old(c.products)[other]
  {
    deleted := c.Delete(Parsed(id), false);
    got := c.Get(Parsed(id), false);
  }

  /** Making the price of a valid document negative breaks exactly one validator: `min` on `price`. */
  lemma {:induction false} NegativePriceRejected(p: Product, price: real)
    requires ProductSchema.Valid(p) && price < 0.0
    ensures Violations(AsDraft(p.(price := price))) == map[Price := Min]
  {
    var d, e := AsDraft(p.(price := price)), AsDraft(p);
    var v := Violations(d);
    assert Violations(e) == map[];
    assert Min in Rules(Price) && Fails(d, Price, Min);
    assert v[Price] == Min;
    forall f | f in v ensures f == Price {
      if f != Price {
        assert Fails(e, f, v[f]);
      }
    }
    assert v == map[Price := Min];
  }

  /** An update that would make the price negative is refused with 400, naming `price`, and the stored document keeps its values. */
  method UpdateNegativePrice(c: Catalog, id: Id, price: real) returns (r: Response)
    requires c.Valid() && id in c.products && price < 0.0
    modifies c
    ensures c.Valid() && c.products == old(c.products)
    ensures r.status == StatusBadRequest && r.body.Note? && r.body.message.Rejected?
    ensures r.body.message.violations == map[Price := Min]
  {
    ghost var p := c.products[id];
    var b := EmptyBody.(price := Some(price));
    assert Merged(p, b) == p.(price := price);
    NegativePriceRejected(p, price);
    r := c.Update(Parsed(id), b, false);
  }

  /** An update with an empty body answers 200 with the stored document and changes nothing. */
  method UpdateEmptyBody(c: Catalog, id: Id) returns (r: Response)
    requires c.Valid() && id in c.products
    modifies c
    ensures c.Valid() && c.products == old(c.products)
    ensures r == Response(StatusOk, One(Entry(id, c.products[id])))
  {
    ghost var p := c.products[id];
    MergeEmptyBody(p);
    r := c.Update(Parsed(id), EmptyBody, false);
    assert c.products == old(c.products)[id := p];
  }
}

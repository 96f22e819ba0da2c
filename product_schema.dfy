/**
 * The Product schema: the fields a catalogue document has, the defaults
 * filled in when a document is built, and the validators run when it is
 * saved (`required`, `min: 0`, the closed `enum` of categories).
 */
module ProductSchema {
  import opened Wrappers
  import Text

  /** The server clock's reading stored in `createdAt`; the clock itself is outside the model. */
  datatype Timestamp = Timestamp(millis: int)

  /** The schema paths that carry a validator or a default. */
  datatype Field = Name | Description | Price | Stock | Category | ImageUrl

  /** Which validator rejected a path. */
  datatype Rule = Required | Min | Enum

  const Categories: set<string> := {"celular", "notebook", "switch", "ap", "impressora"}
  const DefaultStock: real := 0.0
  const DefaultImageUrl: string := "default-product.jpg"

  /** A stored catalogue document (its id is the key it is stored under). */
  datatype Product = Product(
    name: string,
    description: string,
    price: real,
    stock: real,
    category: string,
    imageUrl: string,
    createdAt: Timestamp)

  /** A document that has been built but not yet validated; a path that was never set is None. */
  datatype Draft = Draft(
    name: Option<string>,
    description: Option<string>,
    price: Option<real>,
    stock: Option<real>,
    category: Option<string>,
    imageUrl: Option<string>)

  /** The schema's rules for a saved document: it passes exactly when no validator rejects any of its paths. */
  predicate Valid(p: Product): (ok: bool)
    ensures ok <==> Violations(AsDraft(p)) == map[]
  {
    NoViolationsIff(AsDraft(p));
    p.name != "" && p.description != "" && p.price >= 0.0 && p.stock >= 0.0 && p.category in Categories
  }

  /** The `trim` setter has run on the two text paths, as it does on every assignment to them. */
  predicate Normalized(p: Product) {
    Text.Trim(p.name) == p.name && Text.Trim(p.description) == p.description
  }

  /** The two defaults: `stock` 0 and `imageUrl` "default-product.jpg", used only where the path is unset. */
  function ApplyDefaults(d: Draft): (r: Draft)
    ensures r.stock.Some? && r.imageUrl.Some?
    ensures d.stock.Some? ==> r.stock == d.stock
    ensures d.imageUrl.Some? ==> r.imageUrl == d.imageUrl
    ensures d.stock.None? ==> r.stock.value == DefaultStock
    ensures d.imageUrl.None? ==> r.imageUrl.value == DefaultImageUrl
    ensures r.name == d.name && r.description == d.description && r.price == d.price && r.category == d.category
  {
    d.(stock := Some(d.stock.GetOr(DefaultStock)), imageUrl := Some(d.imageUrl.GetOr(DefaultImageUrl)))
  }

  /**
   * The validators the schema declares on path `f`, in the order they run:
   * `required` always comes first.
   */
  function Rules(f: Field): seq<Rule> {
    match f
    case Name => [Required]
    case Description => [Required]
    case Price => [Required, Min]
    case Stock => [Required, Min]
    case Category => [Required, Enum]
    case ImageUrl => []
  }

  /**
   * Whether validator `rule` of path `f` rejects `d`. A String path's
   * `required` check also fails on the empty string; `min` and `enum` pass
   * on an unset path.
   */
  predicate Fails(d: Draft, f: Field, rule: Rule) {
    match (f, rule)
    case (Name, Required) => d.name.None? || d.name.value == ""
    case (Description, Required) => d.description.None? || d.description.value == ""
    case (Price, Required) => d.price.None?
    case (Price, Min) => d.price.Some? && d.price.value < 0.0
    case (Stock, Required) => d.stock.None?
    case (Stock, Min) => d.stock.Some? && d.stock.value < 0.0
    case (Category, Required) => d.category.None? || d.category.value == ""
    case (Category, Enum) => d.category.Some? && d.category.value !in Categories
    case _ => false
  }

  /** The first of the validators `rs` that rejects path `f` of `d`: a path's validators stop at the first failure. */
  function FirstFailure(d: Draft, f: Field, rs: seq<Rule>): (r: Option<Rule>)
    ensures r.None? <==> forall i | 0 <= i < |rs| :: !Fails(d, f, rs[i])
    ensures r.Some? ==> exists i | 0 <= i < |rs| ::
      rs[i] == r.value && Fails(d, f, rs[i]) && forall j | 0 <= j < i :: !Fails(d, f, rs[j])
  {
    if rs == [] then None
    else if Fails(d, f, rs[0]) then Some(rs[0])
    else
      var r := FirstFailure(d, f, rs[1..]);
      assert forall i | 1 <= i < |rs| :: rs[i] == rs[1..][i - 1];
      assert r.Some? ==> exists i | 0 <= i < |rs| ::
        rs[i] == r.value && Fails(d, f, rs[i]) && forall j | 0 <= j < i :: !Fails(d, f, rs[j]) by {
        if r.Some? {
          var i :| 0 <= i < |rs[1..]| && rs[1..][i] == r.value && Fails(d, f, rs[1..][i])
            && forall j | 0 <= j < i :: !Fails(d, f, rs[1..][j]);
          assert rs[i + 1] == r.value;
        }
      }
      r
  }

  /** The validator that rejects path `f` of `d`, if any. */
  function Broken(d: Draft, f: Field): (r: Option<Rule>)
    ensures r.None? <==> forall rule | rule in Rules(f) :: !Fails(d, f, rule)
    ensures r.Some? ==> r.value in Rules(f) && Fails(d, f, r.value)
    ensures Fails(d, f, Required) ==> r == Some(Required)
  {
    FirstFailure(d, f, Rules(f))
  }

  const AllFields: set<Field> := {Name, Description, Price, Stock, Category, ImageUrl}

  lemma {:induction false} EveryField(f: Field)
    ensures f in AllFields
  {
    match f
    case Name =>
    case Description =>
    case Price =>
    case Stock =>
    case Category =>
    case ImageUrl =>
  }

  /** The validation error: every rejected path with the validator that rejected it, not just the first. */
  function Violations(d: Draft): (v: map<Field, Rule>)
    ensures forall f | f in v :: v[f] in Rules(f) && Fails(d, f, v[f])
    ensures forall f, rule | rule in Rules(f) && Fails(d, f, rule) :: f in v
    ensures forall f | f in v && Fails(d, f, Required) :: v[f] == Required
  {
    var v := map f | f in AllFields && Broken(d, f).Some? :: Broken(d, f).value;
    assert forall f, rule | rule in Rules(f) && Fails(d, f, rule) :: f in v by {
      forall f, rule | rule in Rules(f) && Fails(d, f, rule) ensures f in v {
        EveryField(f);
        assert Broken(d, f).Some?;
      }
    }
    v
  }

  /** A stored document seen as a draft, every path set. */
  function AsDraft(p: Product): (d: Draft)
    ensures d.stock.Some? && d.imageUrl.Some?
  {
    Draft(Some(p.name), Some(p.description), Some(p.price), Some(p.stock), Some(p.category), Some(p.imageUrl))
  }

  /**
   * `save`'s validation step: a draft with defaults applied either becomes a
   * valid Product stamped `now`, or is refused with all its violations.
   */
  function Validate(d: Draft, now: Timestamp): (r: Result<Product, map<Field, Rule>>)
    requires d.stock.Some? && d.imageUrl.Some?
    ensures r.Ok? <==> Violations(d) == map[]
    ensures r.Ok? ==> Valid(r.value) && AsDraft(r.value) == d && r.value.createdAt == now
    ensures r.Err? ==> r.error == Violations(d) && r.error != map[]
  {
    var v := Violations(d);
    if v == map[] then
      NoViolationsIff(d);
      Ok(Product(d.name.value, d.description.value, d.price.value, d.stock.value,
                 d.category.value, d.imageUrl.value, now))
    else
      Err(v)
  }

  /** Every required path is set, the text is not empty, the numbers are not negative and the category is one of the five. */
  predicate Acceptable(d: Draft) {
    d.name.Some? && d.name.value != "" && d.description.Some? && d.description.value != ""
    && d.price.Some? && d.price.value >= 0.0 && d.stock.Some? && d.stock.value >= 0.0
    && d.category.Some? && d.category.value in Categories
  }

  /** A path some validator rejects makes the draft unacceptable. */
  lemma {:induction false} RejectedPath(d: Draft, f: Field, rule: Rule)
    requires rule in Rules(f) && Fails(d, f, rule)
    ensures !Acceptable(d)
  {
    match f
    case Name =>
    case Description =>
    case Price => assert rule == Required || rule == Min;
    case Stock => assert rule == Required || rule == Min;
    case Category => assert rule == Required || rule == Enum;
    case ImageUrl =>
  }

  /** The validators accept a draft exactly when every required path is set, the text is not empty, the numbers are not negative and the category is one of the five. */
  lemma {:induction false} NoViolationsIff(d: Draft)
    ensures Violations(d) == map[] <==> Acceptable(d)
  {
    var v := Violations(d);
    if v == map[] {
      assert Required in Rules(Name) && Required in Rules(Description);
      assert Required in Rules(Price) && Min in Rules(Price);
      assert Required in Rules(Stock) && Min in Rules(Stock);
      assert Required in Rules(Category) && Enum in Rules(Category);
    } else {
      var f :| f in v;
      RejectedPath(d, f, v[f]);
    }
  }

}

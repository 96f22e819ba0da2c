/**
 * The product list page's helpers: the category filter over the loaded
 * products, the local removal of a product once the server has deleted
 * it, and the picture shown for a category.
 */
module ProductList {
  import opened ProductSchema
  import opened ProductRoutes

  /** The filter value that shows every product. */
  const ShowAll: string := "todos"

  /** Array.prototype.filter: the elements of `s` for which `keep` holds, in their order. */
  function Keep<T>(s: seq<T>, keep: T -> bool): (r: seq<T>)
    ensures |r| <= |s|
    ensures forall x :: x in r ==> x in s && keep(x)
  {
    if s == [] then [] else (if keep(s[0]) then [s[0]] else []) + Keep(s[1..], keep)
  }

  /** `a` is `b` with some elements left out and the rest in the same order. */
  predicate SubsequenceOf<T(==)>(a: seq<T>, b: seq<T>)
    decreases |b|
  {
    if a == [] then true
    else if b == [] then false
    else if a[0] == b[0] then SubsequenceOf(a[1..], b[1..])
    else SubsequenceOf(a, b[1..])
  }

  /** Filtering keeps the relative order of what it keeps. */
  lemma {:induction false} KeepIsSubsequence<T>(s: seq<T>, keep: T -> bool)
    ensures SubsequenceOf(Keep(s, keep), s)
  {
    if s != [] {
      KeepIsSubsequence(s[1..], keep);
      var rest := Keep(s[1..], keep);
      if keep(s[0]) {
        assert Keep(s, keep) == [s[0]] + rest;
        assert ([s[0]] + rest)[1..] == rest;
      } else {
        assert Keep(s, keep) == rest;
        assert rest != [] ==> rest[0] in rest;
      }
    }
  }

  /** Filtering keeps every occurrence of every element that satisfies the test, and nothing else. */
  lemma {:induction false} KeepCounts<T>(s: seq<T>, keep: T -> bool, x: T)
    ensures multiset(Keep(s, keep))[x] == if keep(x) then multiset(s)[x] else 0
  {
    if s != [] {
      KeepCounts(s[1..], keep, x);
      assert s == [s[0]] + s[1..];
      assert multiset(s) == multiset{s[0]} + multiset(s[1..]);
      assert multiset(Keep(s, keep)) == multiset(if keep(s[0]) then [s[0]] else []) + multiset(Keep(s[1..], keep));
    }
  }

  function HasCategory(c: string): Entry -> bool {
    (e: Entry) => e.product.category == c
  }

  function OtherThan(id: Id): Entry -> bool {
    (e: Entry) => e.id != id
  }

  /** `filteredProducts`: every product for "todos", otherwise those of the chosen category. */
  function FilteredProducts(products: seq<Entry>, filter: string): (r: seq<Entry>)
    ensures filter == ShowAll ==> r == products
    ensures filter != ShowAll ==> forall e :: e in r ==> e in products && e.product.category == filter
    ensures |r| <= |products|
  {
    if filter == ShowAll then products else Keep(products, HasCategory(filter))
  }

  /** A category filter shows every product of that category, each as often as it is loaded, in the loaded order. */
  lemma {:induction false} FilterShowsEveryMatchInOrder(products: seq<Entry>, filter: string)
    requires filter != ShowAll
    ensures SubsequenceOf(FilteredProducts(products, filter), products)
    ensures forall e :: (multiset(FilteredProducts(products, filter))[e] ==
      if e.product.category == filter then multiset(products)[e] else 0)
  {
    KeepIsSubsequence(products, HasCategory(filter));
    forall e ensures multiset(FilteredProducts(products, filter))[e] ==
      (if e.product.category == filter then multiset(products)[e] else 0)
    {
      KeepCounts(products, HasCategory(filter), e);
    }
  }

  /** The list after the server has deleted `id`: `products.filter(product => product._id !== id)`. */
  function RemoveDeleted(products: seq<Entry>, id: Id): (r: seq<Entry>)
    ensures forall e :: e in r ==> e in products && e.id != id
    ensures |r| <= |products|
  {
    Keep(products, OtherThan(id))
  }

  /** Local removal keeps every product with another id, each as often as before, in the same order. */
  lemma {:induction false} RemovalKeepsOthersInOrder(products: seq<Entry>, id: Id)
    ensures SubsequenceOf(RemoveDeleted(products, id), products)
    ensures forall e :: (multiset(RemoveDeleted(products, id))[e] ==
      if e.id != id then multiset(products)[e] else 0)
  {
    KeepIsSubsequence(products, OtherThan(id));
    forall e ensures multiset(RemoveDeleted(products, id))[e] == (if e.id != id then multiset(products)[e] else 0) {
      KeepCounts(products, OtherThan(id), e);
    }
  }

  /**
   * If the page held the server's listing, then after a successful delete
   * of `id` the locally trimmed list is a listing of what the server now
   * stores.
   */
  lemma {:induction false} RemovalMatchesServer(products: seq<Entry>, stored: map<Id, Product>, id: Id)
    requires Enumerates(products, stored)
    ensures Enumerates(RemoveDeleted(products, id), stored - {id})
  {
    RemovalKeepsOthersInOrder(products, id);
  }

  /** The `images` object literal of the category picture lookup: each of the five categories to `/images/<category>.jpg`. */
  const Images: map<string, string> := map c | c in Categories :: "/images/" + c + ".jpg"

  const DefaultImage: string := "/images/default.jpg"

  /** The members every JavaScript object literal inherits from Object.prototype; reading any of them yields a function or an object. */
  const ObjectPrototypeMembers: set<string> := {
    "constructor", "hasOwnProperty", "isPrototypeOf", "propertyIsEnumerable",
    "toLocaleString", "toString", "valueOf", "__proto__",
    "__defineGetter__", "__defineSetter__", "__lookupGetter__", "__lookupSetter__"}

  /** What `images[category] || '/images/default.jpg'` evaluates to: a path, or an inherited member (truthy, so `||` keeps it). */
  datatype ImageSource = Path(path: string) | Inherited(member: string)

  /** `getCategoryImage` as written: a property read that also finds inherited members. */
  function CategoryImageAsWritten(c: string): (r: ImageSource)
    ensures r.Inherited? <==> c !in Images && c in ObjectPrototypeMembers
  {
    if c in Images then Path(Images[c])
    else if c in ObjectPrototypeMembers then Inherited(c)
    else Path(DefaultImage)
  }

  /** The category "constructor" gets the Object constructor function instead of the default picture. */
  lemma {:induction false} AsWrittenMissesDefault()
    ensures CategoryImageAsWritten("constructor") == Inherited("constructor")
    ensures CategoryImageAsWritten("constructor") != Path(DefaultImage)
  {
  }

  /** `getCategoryImage` with an own-property lookup: each category's picture, the default for anything else. */
  function CategoryImage(c: string): (r: string)
    ensures c in Categories ==> r == "/images/" + c + ".jpg"
    ensures c !in Categories ==> r == DefaultImage
  {
    if c in Images then Images[c] else DefaultImage
  }

  /** The code as written and the corrected lookup agree on every category that is not an inherited member name, in particular on every stored one. */
  lemma {:induction false} AsWrittenAgreesOffPrototype(c: string)
    requires c !in ObjectPrototypeMembers
    ensures CategoryImageAsWritten(c) == Path(CategoryImage(c))
  {
  }
}

/** The products API helpers: fetch-result validation with its error wrapping,
    the single-product field check, and the secondary client-side filter. The
    value `apiClient.get` resolved or rejected with is a parameter. */
module ProductsApi {
  import opened Types
  import opened Seqs
  import opened Strings

  /** One element of the products response as received. The type promises a
      `Product`, but only three fields are checked: `id` and `name` must be
      non-empty strings (an absent string field is taken as ""), and
      `basePrice` must have `typeof` "number", which `priceIsNumber` records. */
  datatype Entry = Entry(product: Product, priceIsNumber: bool)

  /** The resolved response body: anything that is not an array, or an array. */
  datatype Payload = NotAnArray | ArrayOf(entries: seq<Entry>)

  /** `product.id && product.name && typeof product.basePrice === 'number'`. */
  predicate HasRequiredFields(e: Entry)
  {
    e.product.id != "" && e.product.name != "" && e.priceIsNumber
  }

  /** The lowest index whose entry fails the field check, if any. */
  function FirstInvalid(entries: seq<Entry>): (r: Option<nat>)
    ensures r.None? <==> forall i :: 0 <= i < |entries| ==> HasRequiredFields(entries[i])
    ensures r.Some? ==> r.value < |entries| && !HasRequiredFields(entries[r.value])
    ensures r.Some? ==> forall i :: 0 <= i < r.value ==> HasRequiredFields(entries[i])
  {
    if entries == [] then None
    else if !HasRequiredFields(entries[0]) then Some(0)
    else match FirstInvalid(entries[1..])
      case None => None
      case Some(k) => Some(k + 1)
  }

  const INVALID_AT_PREFIX: string := "Invalid product data at index "
  const INVALID_AT_SUFFIX: string := ": missing required fields"

  /** The exception for a failing entry at `index`. */
  function InvalidEntry(index: nat): (e: ApiException)
    ensures e.status == 500 && e.statusText == "Invalid Data"
    ensures e.message == INVALID_AT_PREFIX + NatToString(index) + INVALID_AT_SUFFIX
  {
    ApiException(INVALID_AT_PREFIX + NatToString(index) + INVALID_AT_SUFFIX, 500, "Invalid Data")
  }

  /** The message names the failing index unambiguously: different indices
      give different exceptions. */
  lemma InvalidEntryNamesIndex(i: nat, j: nat)
    ensures InvalidEntry(i) == InvalidEntry(j) <==> i == j
  {
    if InvalidEntry(i) == InvalidEntry(j) {
      var di, dj := NatToString(i), NatToString(j);
      var m := InvalidEntry(i).message;
      assert m == INVALID_AT_PREFIX + di + INVALID_AT_SUFFIX;
      assert m == INVALID_AT_PREFIX + dj + INVALID_AT_SUFFIX;
      assert |di| == |dj|;
      assert di == m[|INVALID_AT_PREFIX|..|INVALID_AT_PREFIX| + |di|];
      assert dj == m[|INVALID_AT_PREFIX|..|INVALID_AT_PREFIX| + |dj|];
      ParseNatToString(i);
      ParseNatToString(j);
    }
  }

  /** The products an array of entries holds, in order. */
  function Products(entries: seq<Entry>): (ps: seq<Product>)
    ensures |ps| == |entries|
    ensures forall i :: 0 <= i < |entries| ==> ps[i] == entries[i].product
  {
    seq(|entries|, i requires 0 <= i < |entries| => entries[i].product)
  }

  /** The `forEach` that throws at the first entry failing the field check. */
  method ValidateEntries(entries: seq<Entry>) returns (r: Result<seq<Product>, ApiException>)
    ensures r.Success? <==> forall i :: 0 <= i < |entries| ==> HasRequiredFields(entries[i])
    ensures r.Success? ==> r.value == Products(entries)
    ensures r.Failure? ==> FirstInvalid(entries).Some? && r.error == InvalidEntry(FirstInvalid(entries).value)
  {
    for i := 0 to |entries|
      invariant forall j :: 0 <= j < i ==> HasRequiredFields(entries[j])
    {
      if !HasRequiredFields(entries[i]) {
        return Failure(InvalidEntry(i));
      }
    }
    return Success(Products(entries));
  }

  const NOT_AN_ARRAY: ApiException :=
    ApiException("Invalid response format: expected array of products", 500, INTERNAL_SERVER_ERROR)

  /** `getProducts(filters?)`. `fetched` is what `apiClient.get('/api/products')`
      resolved with (`Success`) or rejected with (`Failure`). */
  method GetProducts(fetched: Result<Payload, Thrown>, filters: Option<ProductFilters>)
    returns (r: Result<seq<Product>, ApiException>)
    ensures fetched.Failure? ==> r == Failure(Rewrap(fetched.error, "Failed to fetch products"))
    ensures fetched == Success(NotAnArray) ==> r == Failure(NOT_AN_ARRAY)
    ensures fetched.Success? && fetched.value.ArrayOf? ==>
              var entries := fetched.value.entries;
              match FirstInvalid(entries)
              case Some(i) => r == Failure(InvalidEntry(i))
              case None =>
                r == Success(if filters.Some? then ApplyClientFilters(Products(entries), filters.value)
                             else Products(entries))
    ensures r.Failure? && !(fetched.Failure? && fetched.error.Api?) ==> r.error.status == 500
  {
    if fetched.Failure? {
      return Failure(Rewrap(fetched.error, "Failed to fetch products"));
    }
    var payload := fetched.value;
    if payload.NotAnArray? {
      return Failure(NOT_AN_ARRAY);
    }
    var checked := ValidateEntries(payload.entries);
    if checked.Failure? {
      return checked;
    }
    if filters.Some? {
      return Success(ApplyClientFilters(checked.value, filters.value));
    }
    return checked;
  }

  const INVALID_PRODUCT: ApiException :=
    ApiException("Invalid product data: missing required fields", 500, "Invalid Data")

  /** `getProductById(id)`. `fetched` is what `apiClient.get('/api/products/' + id)`
      resolved or rejected with; the single product gets the same field check. */
  method GetProductById(fetched: Result<Entry, Thrown>) returns (r: Result<Product, ApiException>)
    ensures r.Success? <==> fetched.Success? && HasRequiredFields(fetched.value)
    ensures r.Success? ==> r.value == fetched.value.product
    ensures fetched.Success? && !HasRequiredFields(fetched.value) ==> r == Failure(INVALID_PRODUCT)
    ensures fetched.Failure? ==> r == Failure(Rewrap(fetched.error, "Failed to fetch product"))
  {
    if fetched.Failure? {
      return Failure(Rewrap(fetched.error, "Failed to fetch product"));
    }
    if !HasRequiredFields(fetched.value) {
      return Failure(INVALID_PRODUCT);
    }
    return Success(fetched.value.product);
  }

  // ---- applyClientFilters ----

  /** A truthy `filters.query`. */
  predicate QueryFilterOn(f: ProductFilters)
  {
    f.query.Some? && f.query.value != ""
  }

  /** `filters.category && filters.category !== 'all'`. */
  predicate CategoryFilterOn(f: ProductFilters)
  {
    f.category.Some? && f.category.value != "" && f.category.value != "all"
  }

  /** `filters.gender && filters.gender !== 'all'`. */
  predicate GenderFilterOn(f: ProductFilters)
  {
    f.gender.Some? && f.gender.value != "" && f.gender.value != "all"
  }

  /** A truthy `filters.maxPrice`: present and not 0. */
  predicate PriceFilterOn(f: ProductFilters)
  {
    f.maxPrice.Some? && f.maxPrice.value != 0
  }

  /** The callback passed to `filter`, with its early returns in source order.
      The gender branch is the placeholder: once it is entered it always
      rejects. */
  predicate KeepProduct(f: ProductFilters, p: Product)
  {
    if QueryFilterOn(f)
       && !(Contains(Lower(p.name), Lower(f.query.value))
            || Contains(Lower(p.description), Lower(f.query.value))) then false
    else if CategoryFilterOn(f) && p.categoryName != f.category.value then false
    else if GenderFilterOn(f) && f.gender.value != "all" then false
    else if PriceFilterOn(f) && p.basePrice > f.maxPrice.value then false
    else true
  }

  /** The enabled checks of `applyClientFilters` as one conjunction: the query
      in the name or the description, the exact category, no gender filter
      on, and a price at most a truthy `maxPrice`. */
  predicate PassesEnabledChecks(f: ProductFilters, p: Product)
  {
    && (QueryFilterOn(f) ==> Contains(Lower(p.name), Lower(f.query.value))
                             || Contains(Lower(p.description), Lower(f.query.value)))
    && (CategoryFilterOn(f) ==> p.categoryName == f.category.value)
    && !GenderFilterOn(f)
    && (PriceFilterOn(f) ==> p.basePrice <= f.maxPrice.value)
  }

  /** `applyClientFilters(products, filters)`: an order-preserving subsequence
      holding every copy of each product that passes the enabled checks and
      nothing else. The query is searched in name and description only, not
      in the slug. */
  function ApplyClientFilters(products: seq<Product>, f: ProductFilters): (r: seq<Product>)
    ensures SubsequenceOf(r, products)
    ensures forall i :: 0 <= i < |r| ==> r[i] in products && PassesEnabledChecks(f, r[i])
    ensures forall i :: 0 <= i < |products| && PassesEnabledChecks(f, products[i]) ==> products[i] in r
    ensures forall x :: multiset(r)[x] == if PassesEnabledChecks(f, x) then multiset(products)[x] else 0
  {
    FilterIsSubsequence(products, p => KeepProduct(f, p));
    FilterMultiplicity(products, p => KeepProduct(f, p));
    Filter(products, p => KeepProduct(f, p))
  }

  /** Any gender filter other than 'all' rejects every product. */
  lemma GenderFilterRejectsAll(products: seq<Product>, f: ProductFilters)
    requires GenderFilterOn(f)
    ensures ApplyClientFilters(products, f) == []
  {
    FilterKeepsNone(products, p => KeepProduct(f, p));
  }

  /** A `maxPrice` of 0 is falsy and switches the price filter off: the result
      is the one with no `maxPrice` at all. */
  lemma ZeroMaxPriceDisablesPriceFilter(products: seq<Product>, f: ProductFilters)
    requires f.maxPrice == Some(0)
    ensures ApplyClientFilters(products, f) == ApplyClientFilters(products, f.(maxPrice := None))
  {
    var g := f.(maxPrice := None);
    FilterExt(products, p => KeepProduct(f, p), p => KeepProduct(g, p));
    assert ApplyClientFilters(products, g) == Filter(products, p => KeepProduct(g, p));
  }

  /** With no filter enabled, the products come back unchanged. */
  lemma NoEnabledFilterKeepsAll(products: seq<Product>, f: ProductFilters)
    requires !QueryFilterOn(f) && !CategoryFilterOn(f) && !GenderFilterOn(f) && !PriceFilterOn(f)
    ensures ApplyClientFilters(products, f) == products
  {
    FilterKeepsAll(products, p => KeepProduct(f, p));
  }
}

/** PackageSpecificationValidator: upper-bound checks on a parsed
    specification. Every violated bound yields one error, global errors
    first, then each product's errors in the order number, weight, price;
    the joined messages become one validation exception. */
module Validation {
  import opened Common
  import opened Products
  import opened Packages
  import opened Text

  // Token names.
  const MaxWeightToken: string := "max weight"
  const MaxProductsToken: string := "max products"
  const ProductNumberToken: string := "product number"
  const ProductWeightToken: string := "product weight"
  const ProductPriceToken: string := "product price"

  // The bounds; all are inclusive upper bounds, there are no lower bounds.
  const MaxWeightLimit: real := 100.0
  const MaxProductsLimit: int := 15
  const ProductNumberLimit: int := 15
  const ProductWeightLimit: real := 100.0
  const ProductPriceLimit: real := 100.0

  predicate IsGlobalToken(name: string) {
    name == MaxWeightToken || name == MaxProductsToken
  }

  predicate IsProductToken(name: string) {
    name == ProductNumberToken || name == ProductWeightToken || name == ProductPriceToken
  }

  /** The value an error reports: a double or an integer. */
  datatype TokenValue = RealValue(r: real) | IntValue(i: int)

  /** One failed check: where, which token, which value. */
  datatype TokenError = TokenError(lineNumber: int, tokenName: string, value: TokenValue)

  /** RawPackageSpecification: the parsed, not yet validated line. */
  datatype RawSpecification = RawSpecification(lineNumber: int, maxWeight: real, products: seq<Product>)

  predicate ProductWithinBounds(p: Product) {
    p.number <= ProductNumberLimit && p.weight <= ProductWeightLimit && p.price <= ProductPriceLimit
  }

  predicate WithinBounds(maxWeight: real, products: seq<Product>) {
    && maxWeight <= MaxWeightLimit
    && |products| <= MaxProductsLimit
    && forall p :: p in products ==> ProductWithinBounds(p)
  }

  /** validateToken: an error exactly when the check fails. */
  function ValidateToken(ok: bool, name: string, value: TokenValue, lineNumber: int): (r: Option<TokenError>)
    ensures r.None? <==> ok
    ensures r.Some? ==> r.value.tokenName == name && r.value.value == value && r.value.lineNumber == lineNumber
  {
    if !ok then Some(TokenError(lineNumber, name, value)) else None
  }

  /** `.filter(Optional::isPresent).map(Optional::get)`. */
  function Present(xs: seq<Option<TokenError>>): (r: seq<TokenError>)
    ensures r == [] <==> forall i :: 0 <= i < |xs| ==> xs[i].None?
    ensures forall e :: e in r <==> Some(e) in xs
  {
    if xs == [] then []
    else (if xs[0].Some? then [xs[0].value] else []) + Present(xs[1..])
  }

  /** validateGlobalConstraints. */
  function GlobalErrors(lineNumber: int, maxWeight: real, productsSize: int): (r: seq<TokenError>)
    ensures r == [] <==> maxWeight <= MaxWeightLimit && productsSize <= MaxProductsLimit
    ensures forall e :: e in r ==> IsGlobalToken(e.tokenName) && e.lineNumber == lineNumber
    ensures maxWeight > MaxWeightLimit <==> TokenError(lineNumber, MaxWeightToken, RealValue(maxWeight)) in r
    ensures productsSize > MaxProductsLimit <==> TokenError(lineNumber, MaxProductsToken, IntValue(productsSize)) in r
  {
    Present([
      ValidateToken(maxWeight <= MaxWeightLimit, MaxWeightToken, RealValue(maxWeight), lineNumber),
      ValidateToken(productsSize <= MaxProductsLimit, MaxProductsToken, IntValue(productsSize), lineNumber)
    ])
  }

  /** validateProductConstraints. */
  function ProductErrors(p: Product, lineNumber: int): (r: seq<TokenError>)
    ensures r == [] <==> ProductWithinBounds(p)
    ensures forall e :: e in r ==> IsProductToken(e.tokenName) && e.lineNumber == lineNumber
    ensures p.number > ProductNumberLimit <==> TokenError(lineNumber, ProductNumberToken, IntValue(p.number)) in r
    ensures p.weight > ProductWeightLimit <==> TokenError(lineNumber, ProductWeightToken, RealValue(p.weight)) in r
    ensures p.price > ProductPriceLimit <==> TokenError(lineNumber, ProductPriceToken, RealValue(p.price)) in r
  {
    Present([
      ValidateToken(p.number <= ProductNumberLimit, ProductNumberToken, IntValue(p.number), lineNumber),
      ValidateToken(p.weight <= ProductWeightLimit, ProductWeightToken, RealValue(p.weight), lineNumber),
      ValidateToken(p.price <= ProductPriceLimit, ProductPriceToken, RealValue(p.price), lineNumber)
    ])
  }

  /** `products.stream().flatMap(validateProductConstraints)`. */
  function AllProductErrors(ps: seq<Product>, lineNumber: int): (r: seq<TokenError>)
    ensures r == [] <==> forall p :: p in ps ==> ProductWithinBounds(p)
    ensures forall e :: e in r ==> IsProductToken(e.tokenName) && e.lineNumber == lineNumber
    ensures forall e :: e in r <==> exists p :: p in ps && e in ProductErrors(p, lineNumber)
  {
    if ps == [] then []
    else ProductErrors(ps[0], lineNumber) + AllProductErrors(ps[1..], lineNumber)
  }

  /** All errors of a raw specification: none exactly when every bound
      holds, and all on its line. */
  function Errors(raw: RawSpecification): (r: seq<TokenError>)
    ensures r == [] <==> WithinBounds(raw.maxWeight, raw.products)
    ensures forall e :: e in r ==> e.lineNumber == raw.lineNumber
    ensures forall e :: e in r <==>
      || e in GlobalErrors(raw.lineNumber, raw.maxWeight, |raw.products|)
      || e in AllProductErrors(raw.products, raw.lineNumber)
  {
    var global := GlobalErrors(raw.lineNumber, raw.maxWeight, |raw.products|);
    var products := AllProductErrors(raw.products, raw.lineNumber);
    assert forall i :: 0 <= i < |global| ==> global[i] in global;
    assert forall i :: 0 <= i < |products| ==> products[i] in products;
    global + products
  }

  lemma TokenKindsDisjoint(name: string)
    ensures !(IsGlobalToken(name) && IsProductToken(name))
  {
    if IsGlobalToken(name) {
      assert name[0] == 'm';
    }
  }

  /** Every violated bound is reported, with its own value: nothing stops
      at the first error. */
  lemma EveryViolationReported(raw: RawSpecification)
    ensures raw.maxWeight > MaxWeightLimit <==>
      TokenError(raw.lineNumber, MaxWeightToken, RealValue(raw.maxWeight)) in Errors(raw)
    ensures |raw.products| > MaxProductsLimit <==>
      TokenError(raw.lineNumber, MaxProductsToken, IntValue(|raw.products|)) in Errors(raw)
    ensures forall p :: p in raw.products && p.number > ProductNumberLimit ==>
      TokenError(raw.lineNumber, ProductNumberToken, IntValue(p.number)) in Errors(raw)
    ensures forall p :: p in raw.products && p.weight > ProductWeightLimit ==>
      TokenError(raw.lineNumber, ProductWeightToken, RealValue(p.weight)) in Errors(raw)
    ensures forall p :: p in raw.products && p.price > ProductPriceLimit ==>
      TokenError(raw.lineNumber, ProductPriceToken, RealValue(p.price)) in Errors(raw)
  {
    var products := AllProductErrors(raw.products, raw.lineNumber);
    TokenKindsDisjoint(MaxWeightToken);
    TokenKindsDisjoint(MaxProductsToken);
    assert TokenError(raw.lineNumber, MaxWeightToken, RealValue(raw.maxWeight)) !in products;
    assert TokenError(raw.lineNumber, MaxProductsToken, IntValue(|raw.products|)) !in products;
  }

  /** In a sequence of global errors followed by product errors, every
      error after a product error is a product error. */
  lemma GlobalThenProduct(global: seq<TokenError>, products: seq<TokenError>)
    requires forall e :: e in global ==> IsGlobalToken(e.tokenName)
    requires forall e :: e in products ==> IsProductToken(e.tokenName)
    ensures forall i, j :: 0 <= i < j < |global + products| && IsProductToken((global + products)[i].tokenName) ==>
      IsProductToken((global + products)[j].tokenName)
  {
    var r := global + products;
    forall i, j | 0 <= i < j < |r| && IsProductToken(r[i].tokenName)
      ensures IsProductToken(r[j].tokenName)
    {
      if i < |global| {
        assert global[i] in global;
        TokenKindsDisjoint(global[i].tokenName);
        assert false;
      }
      assert r[j] == products[j - |global|];
      assert products[j - |global|] in products;
    }
  }

  /** The global errors come first: no global error follows a product error. */
  lemma GlobalErrorsFirst(raw: RawSpecification)
    ensures forall i, j :: 0 <= i < j < |Errors(raw)| && IsProductToken(Errors(raw)[i].tokenName) ==>
      IsProductToken(Errors(raw)[j].tokenName)
  {
    var global := GlobalErrors(raw.lineNumber, raw.maxWeight, |raw.products|);
    var products := AllProductErrors(raw.products, raw.lineNumber);
    assert Errors(raw) == global + products;
    GlobalThenProduct(global, products);
  }

  /** The rendering of a double in a message (Double.toString) is a
      parameter; integers are rendered by Integer.toString. */
  type RenderReal = real -> string

  function RenderValue(v: TokenValue, renderReal: RenderReal): string {
    match v
    case RealValue(r) => renderReal(r)
    case IntValue(i) => IntToString(i)
  }

  /** "On line L the 'name' has an invalid value = 'v'." */
  function Message(e: TokenError, renderReal: RenderReal): (m: string)
    ensures |m| > 8 && m[..8] == "On line " && m[|m| - 2..] == "'."
    ensures 8 + |IntToString(e.lineNumber)| <= |m| && m[8..8 + |IntToString(e.lineNumber)|] == IntToString(e.lineNumber)
  {
    "On line " + IntToString(e.lineNumber) + " the '" + e.tokenName
      + "' has an invalid value = '" + RenderValue(e.value, renderReal) + "'."
  }

  function Messages(errors: seq<TokenError>, renderReal: RenderReal): (r: seq<string>)
    ensures |r| == |errors| && forall i :: 0 <= i < |errors| ==> r[i] == Message(errors[i], renderReal)
  {
    if errors == [] then [] else [Message(errors[0], renderReal)] + Messages(errors[1..], renderReal)
  }

  /** validateTokens: the messages joined with the line separator; a
      non-empty text is thrown with the line number, otherwise the
      specification carries the raw fields unchanged. */
  function ValidateTokens(raw: RawSpecification, renderReal: RenderReal, lineSeparator: string): (r: Result<Specification>)
    ensures r.Ok? <==> WithinBounds(raw.maxWeight, raw.products)
    ensures r.Ok? ==> r.value == Specification(raw.lineNumber, raw.maxWeight, raw.products)
    ensures r.Err? ==> r.error == Validation(Join(Messages(Errors(raw), renderReal), lineSeparator), raw.lineNumber)
  {
    var messages := Messages(Errors(raw), renderReal);
    var text := Join(messages, lineSeparator);
    assert messages != [] ==> text != [] by {
      if messages != [] {
        JoinNonEmpty(messages, lineSeparator);
      }
    }
    if text != "" then Err(Validation(text, raw.lineNumber))
    else Ok(Specification(raw.lineNumber, raw.maxWeight, raw.products))
  }

  /** The bounds are inclusive and upper-only: the limits themselves and
      negative values pass. */
  lemma BoundsAreUpperOnly(renderReal: RenderReal, lineSeparator: string)
    ensures ValidateTokens(RawSpecification(1, 100.0, [Product(15, 100.0, 100.0)]), renderReal, lineSeparator).Ok?
    ensures ValidateTokens(RawSpecification(1, -5.0, [Product(-1, -2.0, -3.0)]), renderReal, lineSeparator).Ok?
  {
  }

  /** Sixteen products numbered 1 to 16, each of weight and price 101, with
      capacity 101, are rejected; the first error is the capacity's. */
  lemma SixteenOversizedProductsRejected(renderReal: RenderReal, lineSeparator: string)
    ensures var raw := RawSpecification(1, 101.0, seq(16, i => Product(i + 1, 101.0, 101.0)));
      && ValidateTokens(raw, renderReal, lineSeparator).Err?
      && Errors(raw)[0] == TokenError(1, MaxWeightToken, RealValue(101.0))
  {
    var raw := RawSpecification(1, 101.0, seq(16, i => Product(i + 1, 101.0, 101.0)));
    assert !WithinBounds(raw.maxWeight, raw.products);
    assert GlobalErrors(1, 101.0, 16)[0] == TokenError(1, MaxWeightToken, RealValue(101.0));
  }
}

/** Product.java: an immutable product with a number, a weight and a price. */
module Products {
  import opened Common

  /** The constructor arguments are the fields; the getters are the field
      selectors `number`, `weight` and `price`. */
  datatype Product = Product(number: int, weight: real, price: real)

  /** Product.equals(Object): false for null (None), otherwise true exactly
      when the three fields are equal. */
  predicate Equals(p: Product, o: Option<Product>)
    ensures Equals(p, o) <==> o == Some(p)
  {
    o.Some? && o.value.number == p.number && o.value.weight == p.weight && o.value.price == p.price
  }

  /** Reduction of an integer to Java's 32-bit `int` (two's complement wrap-around). */
  function Wrap32(x: int): (r: int)
    ensures -0x8000_0000 <= r < 0x8000_0000
    ensures (r - x) % 0x1_0000_0000 == 0
  {
    (x + 0x8000_0000) % 0x1_0000_0000 - 0x8000_0000
  }

  /** Product.hashCode(): Guava's Objects.hashCode(number, weight, price), that is
      Arrays.hashCode: start at 1 and fold `31 * h + elementHash` with int
      overflow. Integer.hashCode is the value itself; Double.hashCode depends on
      the IEEE-754 bit pattern and is a parameter here. */
  function HashCode(p: Product, doubleHash: real -> int): (r: int)
    ensures -0x8000_0000 <= r < 0x8000_0000
  {
    var h1 := Wrap32(31 * 1 + Wrap32(p.number));
    var h2 := Wrap32(31 * h1 + Wrap32(doubleHash(p.weight)));
    Wrap32(31 * h2 + Wrap32(doubleHash(p.price)))
  }

  /** equals and hashCode agree: equal products have equal hash codes. */
  lemma EqualProductsHaveEqualHashCodes(p: Product, q: Product, doubleHash: real -> int)
    requires Equals(p, Some(q))
    ensures HashCode(p, doubleHash) == HashCode(q, doubleHash)
  {
  }

  /** equals is reflexive, symmetric and false for null. */
  lemma EqualsIsAnEquivalence(p: Product, q: Product)
    ensures Equals(p, Some(p))
    ensures !Equals(p, None)
    ensures Equals(p, Some(q)) <==> Equals(q, Some(p))
  {
  }
}

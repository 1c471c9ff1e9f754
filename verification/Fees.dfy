/** Fee arithmetic: chunk counts, item fees, weave prices and the speed-up factor. */
module Fees {
  import opened Basics

  const MAX_CHUNK_SIZE: nat := 256 * 1024

  /** int64 wrap-around. */
  function Int64(x: int): int {
    (x + UINT64 / 2) % UINT64 - UINT64 / 2
  }

  /** Go's int64 division truncates toward zero. */
  function TruncDiv(a: int, b: int): int
    requires b != 0
  {
    if a >= 0 then a / b else -(-a / b)
  }

  function ChunkCount(size: int): int {
    if size > 0 then (size - 1) / MAX_CHUNK_SIZE + 1 else 0
  }

  datatype Fee = Fee(currency: string, decimals: int, base: int, perChunk: int)

  datatype RespFee = RespFee(currency: string, decimals: int, finalFee: int)

  /** CalcItemFee: None is "not support currency"; decimal arithmetic is exact. */
  function CalcItemFee(perFees: map<string, Fee>, currency: string, size: int): Option<RespFee> {
    if ToUpper(currency) !in perFees then None
    else
      var f := perFees[ToUpper(currency)];
      Some(RespFee(f.currency, f.decimals, f.base + ChunkCount(size) * f.perChunk))
  }

  /** calculatePrice in int64. */
  function CalculatePrice(base: int, perChunk: int, size: int): int {
    Int64(base + Int64(ChunkCount(size) * perChunk))
  }

  /** calculateFactor in int64. */
  function CalculateFactor(price: int, speedFee: int): int
    requires price != 0
  {
    if speedFee == 0 then 0
    else
      var val := Int64(TruncDiv(Int64(Int64(price + speedFee) * 100), price) - 100);
      if val == 0 then 1 else val
  }

  /** The chunk count is the exact ceiling of size / MAX_CHUNK_SIZE: the least count whose capacity suffices. */
  lemma ChunkCountIsCeiling(size: nat, n: nat)
    ensures size <= ChunkCount(size) * (256 * 1024)
    ensures size <= n * (256 * 1024) ==> ChunkCount(size) <= n
  {}

  lemma NoChunks(size: int)
    requires size <= 0
    ensures ChunkCount(size) == 0
  {}

  lemma ChunkCountBounds(a: nat, b: nat)
    ensures a <= b ==> ChunkCount(a) <= ChunkCount(b)
    ensures ChunkCount(a + b) <= ChunkCount(a) + ChunkCount(b)
  {
    ChunkCountIsCeiling(a, ChunkCount(b));
    ChunkCountIsCeiling(b, ChunkCount(b));
    ChunkCountIsCeiling(a, ChunkCount(a));
    ChunkCountIsCeiling(a + b, ChunkCount(a) + ChunkCount(b));
  }

  /** A larger item never costs less, and splitting an item never saves money. */
  lemma FeeMonotoneSubadditive(perFees: map<string, Fee>, currency: string, a: nat, b: nat)
    requires ToUpper(currency) in perFees
    requires perFees[ToUpper(currency)].base >= 0 && perFees[ToUpper(currency)].perChunk >= 0
    ensures a <= b ==>
              CalcItemFee(perFees, currency, a).value.finalFee <= CalcItemFee(perFees, currency, b).value.finalFee
    ensures CalcItemFee(perFees, currency, a + b).value.finalFee
            <= CalcItemFee(perFees, currency, a).value.finalFee + CalcItemFee(perFees, currency, b).value.finalFee
  {
    var f := perFees[ToUpper(currency)];
    ChunkCountBounds(a, b);
    MulMono(ChunkCount(a), ChunkCount(b), f.perChunk);
    MulMono(ChunkCount(a + b), ChunkCount(a) + ChunkCount(b), f.perChunk);
    assert (ChunkCount(a) + ChunkCount(b)) * f.perChunk
        == ChunkCount(a) * f.perChunk + ChunkCount(b) * f.perChunk;
  }

  /** An empty item costs the base fee, and every further chunk, full or not, costs one chunk fee more. */
  lemma FeeSteps(perFees: map<string, Fee>, currency: string, size: nat)
    requires ToUpper(currency) in perFees
    ensures var f := perFees[ToUpper(currency)];
            && CalcItemFee(perFees, currency, 0) == Some(RespFee(f.currency, f.decimals, f.base))
            && (1 <= size <= MAX_CHUNK_SIZE ==>
                  CalcItemFee(perFees, currency, size).value.finalFee == f.base + f.perChunk)
            && (size > 0 ==>
                  CalcItemFee(perFees, currency, size + MAX_CHUNK_SIZE).value.finalFee
                  == CalcItemFee(perFees, currency, size).value.finalFee + f.perChunk)
  {
    var f := perFees[ToUpper(currency)];
    if size > 0 {
      assert ChunkCount(size + MAX_CHUNK_SIZE) == ChunkCount(size) + 1;
      assert (ChunkCount(size) + 1) * f.perChunk == ChunkCount(size) * f.perChunk + f.perChunk;
    }
  }

  lemma FeeNotNegative(perFees: map<string, Fee>, currency: string, size: int)
    requires forall c :: c in perFees ==> perFees[c].base >= 0 && perFees[c].perChunk >= 0
    ensures ToUpper(currency) in perFees ==> CalcItemFee(perFees, currency, size).value.finalFee >= 0
  {
    if ToUpper(currency) in perFees {
      MulMono(0, ChunkCount(size), perFees[ToUpper(currency)].perChunk);
    }
  }

  lemma MulMono(x: int, y: int, k: nat)
    ensures x <= y ==> x * k <= y * k
  {}

  /** Division of a positive amount: the quotient is pinned by the product. */
  lemma QuotientBounds(a: nat, price: int)
    requires price > 0
    ensures 0 <= a / price <= a
    ensures price * (a / price) <= a < price * (a / price) + price
  {
    assert a == price * (a / price) + a % price;
    if a / price > a {
      MulMono(a + 1, a / price, price);
      MulMono(1, price, a + 1);
    }
  }

  lemma Int64Fits(x: int)
    requires -0x8000_0000_0000_0000 <= x < 0x8000_0000_0000_0000
    ensures Int64(x) == x
  {}

  lemma FactorValue(price: int, speedFee: int)
    requires price > 0 && speedFee > 0
    requires (price + speedFee) * 100 < UINT64 / 2
    ensures var q := 100 * speedFee / price; CalculateFactor(price, speedFee) == if q == 0 then 1 else q
  {
    Int64Fits(price + speedFee);
    Int64Fits((price + speedFee) * 100);
    ShiftedQuotient(speedFee, price);
    QuotientBounds(100 * speedFee, price);
    Int64Fits(100 * speedFee / price);
  }

  /** The factor is the percentage speedFee / price rounded down, but never below one. */
  predicate FactorRight(price: int, speedFee: int)
    requires price > 0
  {
    var f := CalculateFactor(price, speedFee);
    if 100 * speedFee < price then f == 1 else price * f <= 100 * speedFee < price * (f + 1)
  }

  lemma FactorBounds(price: int, speedFee: int)
    requires price > 0 && speedFee > 0
    requires (price + speedFee) * 100 < UINT64 / 2
    ensures FactorRight(price, speedFee)
  {
    FactorValue(price, speedFee);
    QuotientSandwich(100 * speedFee, price, 100 * speedFee / price);
  }

  lemma QuotientSandwich(a: nat, price: int, q: int)
    requires price > 0 && q == a / price
    ensures price * q <= a < price * (q + 1)
    ensures q == 0 <==> a < price
  {
    QuotientBounds(a, price);
    assert price * (q + 1) == price * q + price;
    if q > 0 {
      MulMono(1, q, price);
    }
  }

  lemma ShiftedQuotient(speedFee: nat, price: int)
    requires price > 0
    ensures (price + speedFee) * 100 / price == 100 + 100 * speedFee / price
  {
    var q := 100 * speedFee / price;
    QuotientBounds(100 * speedFee, price);
    assert price * (100 + q) == price * 100 + price * q;
    QuotientUnique((price + speedFee) * 100, price, 100 + q);
  }

  lemma QuotientUnique(a: nat, price: nat, q: nat)
    requires price > 0 && price * q <= a < price * q + price
    ensures a / price == q
  {
    var p := a / price;
    QuotientBounds(a, price);
    assert price * (p + 1) == price * p + price && price * (q + 1) == price * q + price;
    MulMono(p + 1, q, price);
    MulMono(q + 1, p, price);
  }

  // ---- past the int64 limit ----

  /** Wrapping takes off a multiple of 2^64. */
  lemma WrapsBy(x: int) returns (k: int)
    ensures Int64(x) == x - k * UINT64 && -(UINT64 / 2) <= Int64(x) < UINT64 / 2
  {
    k := (x + UINT64 / 2) / UINT64;
  }

  lemma Periodic(x: int, y: int, k: int)
    requires y == x - k * UINT64
    ensures Int64(y) == Int64(x)
  {
    var i := WrapsBy(x);
    var j := WrapsBy(y);
    assert Int64(y) - Int64(x) == (i - j - k) * UINT64;
  }

  /** The int64 weave price is the exact one if and only if the exact one fits. */
  lemma PriceExact(base: nat, perChunk: nat, size: nat)
    ensures var exact := base + ChunkCount(size) * perChunk;
            CalculatePrice(base, perChunk, size) == exact <==> exact < UINT64 / 2
  {
    var exact := base + ChunkCount(size) * perChunk;
    MulMono(0, ChunkCount(size), perChunk);
    var k := WrapsBy(ChunkCount(size) * perChunk);
    Periodic(exact, base + Int64(ChunkCount(size) * perChunk), k);
    var j := WrapsBy(exact);
  }

  /** The hundredfold sum as the code computes it. */
  function Product(price: int, speedFee: int): int {
    Int64(Int64(price + speedFee) * 100)
  }

  lemma ProductWraps(price: int, speedFee: int) returns (k: int)
    ensures Product(price, speedFee) == (price + speedFee) * 100 - k * UINT64
    ensures -(UINT64 / 2) <= Product(price, speedFee) < UINT64 / 2
    ensures (price + speedFee) * 100 >= UINT64 / 2 ==> k >= 1
  {
    var j := WrapsBy(price + speedFee);
    var l := WrapsBy(Int64(price + speedFee) * 100);
    k := 100 * j + l;
  }

  /** A negative dividend gives a quotient of zero or less, and dividing by two or more halves it at least. */
  lemma TruncBounds(x: int, price: int)
    requires price >= 2 && -(UINT64 / 2) <= x < UINT64 / 2
    ensures -(UINT64 / 4) <= TruncDiv(x, price) <= UINT64 / 4
    ensures x < 0 ==> TruncDiv(x, price) <= 0
    ensures x >= 0 ==> price * TruncDiv(x, price) <= x
  {
    var a := if x >= 0 then x else -x;
    QuotientBounds(a, price);
    MulMono(2, price, a / price);
  }

  /** A factor from a wrapped product is no quotient of 100 * speedFee by the price. */
  lemma NoQuotient(price: int, speedFee: int, x: int, k: int, q: int, f: int)
    requires 2 <= price < UINT64 / 2 && k >= 1 && x == (price + speedFee) * 100 - k * UINT64
    requires f == if q == 100 then 1 else q - 100
    requires if x < 0 then q <= 0 else price * q <= x
    requires speedFee > 0
    ensures !(if 100 * speedFee < price then f == 1 else price * f <= 100 * speedFee < price * (f + 1))
  {
    assert price * (f + 1) == price * f + price;
    if q < 100 {
      MulMono(f + 1, 0, price);
    } else {
      assert price * (q - 100) == price * q - price * 100;
      MulMono(0, q - 100, price);
      assert 100 * speedFee >= UINT64 + price * (q - 100);
    }
  }

  lemma FactorWraps(price: int, speedFee: int)
    requires 2 <= price < UINT64 / 2 && 0 < speedFee < UINT64 / 2
    requires (price + speedFee) * 100 >= UINT64 / 2
    ensures !FactorRight(price, speedFee)
  {
    var k := ProductWraps(price, speedFee);
    var q := TruncDiv(Product(price, speedFee), price);
    TruncBounds(Product(price, speedFee), price);
    Int64Fits(q - 100);
    NoQuotient(price, speedFee, Product(price, speedFee), k, q, CalculateFactor(price, speedFee));
  }

  /** At price one the wrap-arounds cancel as long as the result itself fits. */
  lemma FactorAtOne(speedFee: int)
    requires 0 < speedFee < UINT64 / 2
    ensures FactorRight(1, speedFee) <==> 100 * speedFee < UINT64 / 2
  {
    var k := ProductWraps(1, speedFee);
    var x := Product(1, speedFee);
    assert TruncDiv(x, 1) == x;
    Periodic(100 * speedFee, x - 100, k);
    var j := WrapsBy(100 * speedFee);
  }

  /** For every pair of positive int64 values the bounds hold exactly when the computation fits, or cancels. */
  lemma FactorBoundsExact(price: int, speedFee: int)
    requires 0 < price < UINT64 / 2 && 0 < speedFee < UINT64 / 2
    ensures FactorRight(price, speedFee) <==>
            (price + speedFee) * 100 < UINT64 / 2 || (price == 1 && 100 * speedFee < UINT64 / 2)
  {
    if price == 1 {
      FactorAtOne(speedFee);
    } else if (price + speedFee) * 100 < UINT64 / 2 {
      FactorBounds(price, speedFee);
    } else {
      FactorWraps(price, speedFee);
    }
  }

  /** One pair for which they fail: the factor comes out negative. */
  lemma FactorOverflows()
    ensures !FactorRight(1, 150_000_000_000_000_000) && CalculateFactor(1, 150_000_000_000_000_000) < 0
  {
    FactorBoundsExact(1, 150_000_000_000_000_000);
    Periodic(15_000_000_000_000_000_000, 15_000_000_000_000_000_000 - UINT64, 1);
    Int64Fits(15_000_000_000_000_000_000 - UINT64);
    var k := ProductWraps(1, 150_000_000_000_000_000);
    Periodic(15_000_000_000_000_000_000, Product(1, 150_000_000_000_000_000) - 100, k);
  }

  /** Without a speed fee nothing is asked on top of the price. */
  lemma NoSpeedFee(price: int)
    requires price != 0
    ensures CalculateFactor(price, 0) == 0
  {}

  /** The quotient leaves a remainder smaller than the divisor and on the dividend's side of zero. */
  lemma TruncDivIs(a: int, b: int)
    requires b > 0
    ensures var r := a - b * TruncDiv(a, b);
            -b < r < b && (a >= 0 ==> r >= 0) && (a <= 0 ==> r <= 0)
  {
    var n := if a >= 0 then a else -a;
    QuotientBounds(n, b);
    assert b * -(n / b) == -(b * (n / b));
  }
}

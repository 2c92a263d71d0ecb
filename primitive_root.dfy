/**
 * The modular-exponentiation strategy (src/generator/primitive_root_redis/mod.rs):
 * a counter value c from the store becomes R^((c + S) mod P) mod P, computed by
 * square-and-multiply.
 */
module PrimitiveRootRedis {
  import opened Arith
  import opened Config
  import opened GeneratorErrors
  import opened Generator

  /** The strategy: a counter-store connection and the parameters (P, S, R). */
  datatype PrimitiveRootRedisGenerator =
    PrimitiveRootRedisGenerator(redis: RedisConfig, primitiveConfig: PrimitiveConfig)

  const PrimeTooLarge: string := "Generator prime is larger than max number"

  /**
   * Construction: rejected exactly when the prime exceeds the largest key
   * number; otherwise the configuration is kept as given.
   */
  function New(config: RedisConfig, primitiveConfig: PrimitiveConfig, digits: nat)
    : (r: Construction<PrimitiveRootRedisGenerator>)
    ensures r.ConstructionError? <==> primitiveConfig.prime > MaxNumber(digits)
    ensures r.ConstructionError? ==> r.message == PrimeTooLarge
    ensures r.Constructed? ==>
      r.value.redis == config && r.value.primitiveConfig == primitiveConfig
  {
    if primitiveConfig.prime > MaxNumber(digits) then
      ConstructionError(PrimeTooLarge)
    else
      Constructed(PrimitiveRootRedisGenerator(config, primitiveConfig))
  }

  /** The exponent used for counter value incr: (incr + S) reduced modulo P. */
  function Exponent(c: PrimitiveConfig, incr: nat): (e: nat)
    requires c.prime >= 1
    ensures e < c.prime
  {
    (incr + c.start) % c.prime
  }

  /**
   * The key for counter value incr: R^e mod P for the exponent e above, except
   * that an exponent of 0 gives 1 unreduced (so 1 even when P = 1).
   */
  function ExpectedKey(c: PrimitiveConfig, incr: nat): (k: nat)
    requires c.prime >= 1
  {
    var e := Exponent(c, incr);
    if e == 0 then 1 else Pow(c.primitiveRoot, e) % c.prime
  }

  /**
   * calculate_key: square-and-multiply. Depends only on incr and the stored
   * parameters and changes nothing.
   */
  method CalculateKey(g: PrimitiveRootRedisGenerator, incr: nat) returns (key: nat)
    requires g.primitiveConfig.prime >= 1
    ensures key == ExpectedKey(g.primitiveConfig, incr)
    ensures Exponent(g.primitiveConfig, incr) > 0 ==> key < g.primitiveConfig.prime
  {
    var prime := g.primitiveConfig.prime;
    var result: nat := 1;
    var base: nat := g.primitiveConfig.primitiveRoot;
    var exponent: nat := (incr + g.primitiveConfig.start) % prime;
    ghost var e := exponent;
    while exponent > 0
      invariant exponent <= e
      invariant (result * Pow(base, exponent)) % prime == Pow(g.primitiveConfig.primitiveRoot, e) % prime
      invariant e == 0 ==> result == 1
      invariant e > 0 && exponent == 0 ==> result < prime
      decreases exponent
    {
      SquareMultiplyStep(result, base, exponent, prime);
      if exponent % 2 == 1 {
        result := (result * base) % prime;
      }
      base := (base * base) % prime;
      exponent := exponent / 2;
    }
    if e > 0 {
      assert result % prime == result by { DivModUnique(result, prime, 0, result); }
    }
    key := result;
  }

  /** One round of the loop keeps result * base^exponent the same modulo the prime. */
  lemma SquareMultiplyStep(result: nat, base: nat, exponent: nat, m: nat)
    requires m >= 1 && exponent > 0
    ensures exponent % 2 == 1 ==>
      ((result * base) % m * Pow((base * base) % m, exponent / 2)) % m
        == (result * Pow(base, exponent)) % m
    ensures exponent % 2 == 0 ==>
      (result * Pow((base * base) % m, exponent / 2)) % m
        == (result * Pow(base, exponent)) % m
  {
    var h := exponent / 2;
    var b2 := base * base;
    PowSquare(base, h);
    // Reducing the squared base does not change the product's remainder.
    assert forall x: nat {:trigger x * Pow(b2 % m, h)} :: (x * Pow(b2 % m, h)) % m == (x * Pow(b2, h)) % m by {
      forall x: nat ensures (x * Pow(b2 % m, h)) % m == (x * Pow(b2, h)) % m {
        MulModRight(x, Pow(b2 % m, h), m);
        PowMod(b2, h, m);
        MulModRight(x, Pow(b2, h), m);
      }
    }
    if exponent % 2 == 1 {
      assert exponent == 2 * h + 1;
      MulModLeft(result * base, Pow(b2 % m, h), m);
      assert Pow(base, exponent) == base * Pow(base, 2 * h);
      assert (result * base) * Pow(b2, h) == result * Pow(base, exponent);
    } else {
      assert exponent == 2 * h;
    }
  }

  /**
   * generate_key: take the next counter value from the store and transform it;
   * a store error is passed on unchanged.
   */
  method GenerateKey(g: PrimitiveRootRedisGenerator, counterReply: Result<nat>)
    returns (r: Result<nat>)
    requires g.primitiveConfig.prime >= 1
    ensures r.Err? <==> counterReply.Err?
    ensures r.Err? ==> r.error == counterReply.error
    ensures r.Ok? ==> r.value == ExpectedKey(g.primitiveConfig, counterReply.value)
  {
    match counterReply
    case Err(e) =>
      r := Err(e);
    case Ok(incr) =>
      var key := CalculateKey(g, incr);
      r := Ok(key);
  }

  // ---------------------------------------------------------------------------
  // Properties of the strategy

  /** Every key is below P, except the unreduced 1 produced by exponent 0. */
  lemma KeyRange(c: PrimitiveConfig, incr: nat)
    requires c.prime >= 1
    ensures Exponent(c, incr) > 0 ==> ExpectedKey(c, incr) < c.prime
    ensures Exponent(c, incr) == 0 ==> ExpectedKey(c, incr) == 1
    ensures ExpectedKey(c, incr) <= c.prime
  {
  }

  /**
   * A generator that construction accepted (and whose prime is not 0, which
   * the program would divide by) produces keys that fit the key width, so
   * they are encoded without truncation.
   */
  lemma ConstructedKeysFit(config: RedisConfig, c: PrimitiveConfig, digits: nat, incr: nat)
    requires New(config, c, digits).Constructed?
    requires c.prime >= 1
    ensures ExpectedKey(c, incr) <= MaxNumber(digits)
    ensures Decode(Encode(ExpectedKey(c, incr), digits)) == ExpectedKey(c, incr)
  {
    KeyRange(c, incr);
    RoundTripExactlyUpToMax(ExpectedKey(c, incr), digits);
  }

  /** Keys repeat with period P in the counter value: the strategy yields at most P keys. */
  lemma KeysRepeatEveryPrime(c: PrimitiveConfig, incr: nat)
    requires c.prime >= 1
    ensures ExpectedKey(c, incr + c.prime) == ExpectedKey(c, incr)
  {
    ModAddMultiple(1, incr + c.start, c.prime);
    assert incr + c.prime + c.start == 1 * c.prime + (incr + c.start);
  }

  /** The worked example P = 7, R = 3, S = 0: counter values 0, 1, 2 give keys 1, 3, 2. */
  lemma CalculateKeyExamples()
    ensures ExpectedKey(PrimitiveConfig(7, 0, 3), 0) == 1
    ensures ExpectedKey(PrimitiveConfig(7, 0, 3), 1) == 3
    ensures ExpectedKey(PrimitiveConfig(7, 0, 3), 2) == 2
  {
    assert Exponent(PrimitiveConfig(7, 0, 3), 0) == 0;
    assert Exponent(PrimitiveConfig(7, 0, 3), 1) == 1;
    assert Pow(3, 1) == 3;
    assert Exponent(PrimitiveConfig(7, 0, 3), 2) == 2;
    assert Pow(3, 2) == 9;
  }

  /**
   * Exponents 0 and P - 1 collide when R is a primitive root (3 is one for 7),
   * so the mapping is not a permutation of the counter values 0 .. P - 1.
   */
  lemma ExponentZeroAndPrimeMinusOneCollide()
    ensures ExpectedKey(PrimitiveConfig(7, 0, 3), 0) == ExpectedKey(PrimitiveConfig(7, 0, 3), 6)
  {
    assert Pow(3, 6) == 729;
  }

  /**
   * The exponent is reduced modulo P, not left as incr + S: once incr + S
   * reaches P the key differs from R^(incr + S) mod P.
   */
  lemma ExponentReducedModuloPrime()
    ensures ExpectedKey(PrimitiveConfig(7, 0, 3), 7) == 1
    ensures Pow(3, 7) % 7 == 3
  {
    assert Pow(3, 7) == 2187;
  }

  /** With P = 1 every exponent is 0, so every key is 1 rather than 1 mod 1 = 0. */
  lemma PrimeOneGivesOne(start: nat, root: nat, incr: nat)
    ensures ExpectedKey(PrimitiveConfig(1, start, root), incr) == 1
  {
  }
}

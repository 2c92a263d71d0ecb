/**
 * The factory that builds the one key generator a process uses, and the
 * uniform key-generation entry point over the three strategies
 * (src/generator/generator_object.rs, with the dispatch of src/generator/mod.rs).
 *
 * The counter store and the random-number source are outside the model: what
 * they return for one call arrives as an `Oracle` value.
 */
module GeneratorObject {
  import opened Arith
  import opened Config
  import opened GeneratorErrors
  import opened Generator
  import opened PrimitiveRootRedis

  /** The three interchangeable strategies. */
  datatype KeyGenerator =
    | RandomGenerator
    | RedisGenerator(redis: RedisConfig)
    | PrimitiveRootGenerator(primitive: PrimitiveRootRedisGenerator)

  /** What the outside world answers for one key request. */
  datatype Oracle = Oracle(
    counterReply: Result<nat>,  // the counter store's reply to one increment
    randomDraw: nat             // one draw of the random-number source
  )

  /** The generator built for a configuration uses that configuration's variant and settings. */
  predicate Builds(config: GeneratorConfig, gen: KeyGenerator)
  {
    match config
    case Random => gen == RandomGenerator
    case Redis(redis) => gen == RedisGenerator(redis)
    case PrimitiveRootRedis(redis, primitive) =>
      gen == PrimitiveRootGenerator(PrimitiveRootRedisGenerator(redis, primitive))
  }

  /** The invariant construction enforces: the modulus fits in the key space. */
  predicate WithinKeySpace(gen: KeyGenerator, digits: nat)
  {
    gen.PrimitiveRootGenerator? ==> gen.primitive.primitiveConfig.prime <= MaxNumber(digits)
  }

  /** The program divides by the prime, so a prime of 0 cannot serve requests. */
  predicate Serviceable(gen: KeyGenerator)
  {
    gen.PrimitiveRootGenerator? ==> gen.primitive.primitiveConfig.prime >= 1
  }

  /**
   * new_key_generation_layer: one generator per configuration variant. The
   * only failure is the prime bound of the modular strategy, whose error is
   * passed on unchanged.
   */
  function NewKeyGenerationLayer(config: GeneratorConfig, digits: nat)
    : (r: Construction<KeyGenerator>)
    ensures r.ConstructionError? <==>
      config.PrimitiveRootRedis? && config.primitive.prime > MaxNumber(digits)
    ensures r.ConstructionError? ==>
      r.message == New(config.redis, config.primitive, digits).message == PrimeTooLarge
    ensures r.Constructed? ==> Builds(config, r.value) && WithinKeySpace(r.value, digits)
  {
    match config
    case Random => Constructed(RandomGenerator)
    case Redis(redis) => Constructed(RedisGenerator(redis))
    case PrimitiveRootRedis(redis, primitive) =>
      match New(redis, primitive, digits)
      case ConstructionError(message) => ConstructionError(message)
      case Constructed(g) => Constructed(PrimitiveRootGenerator(g))
  }

  /**
   * The integer a strategy produces for one request: a random draw within the
   * key space, the counter value, or the counter value transformed.
   */
  method GenerateInteger(gen: KeyGenerator, oracle: Oracle, digits: nat)
    returns (r: Result<nat>)
    requires Serviceable(gen)
    requires oracle.randomDraw <= MaxNumber(digits)
    ensures gen.RandomGenerator? ==> r == Ok(oracle.randomDraw)
    ensures gen.RedisGenerator? ==> r == oracle.counterReply
    ensures gen.PrimitiveRootGenerator? ==>
      && (r.Err? <==> oracle.counterReply.Err?)
      && (r.Err? ==> r.error == oracle.counterReply.error)
      && (r.Ok? ==> r.value == ExpectedKey(gen.primitive.primitiveConfig, oracle.counterReply.value))
    ensures r.Ok? && !gen.RedisGenerator? && WithinKeySpace(gen, digits) ==>
      r.value <= MaxNumber(digits)
  {
    match gen
    case RandomGenerator =>
      r := Ok(oracle.randomDraw);
    case RedisGenerator(_) =>
      r := oracle.counterReply;
    case PrimitiveRootGenerator(g) =>
      r := PrimitiveRootRedis.GenerateKey(g, oracle.counterReply);
      if r.Ok? {
        KeyRange(g.primitiveConfig, oracle.counterReply.value);
      }
  }

  /**
   * The string key for one request: the bound strategy's integer, encoded.
   * Only the counter store can fail, and its error reaches the caller
   * unchanged; the random strategy never fails. Keys of the random and modular
   * strategies decode to the strategy's integer; a counter value past the key
   * space loses its high-order digits.
   */
  method GenerateKey(gen: KeyGenerator, oracle: Oracle, digits: nat)
    returns (r: Result<string>)
    requires Serviceable(gen)
    requires oracle.randomDraw <= MaxNumber(digits)
    ensures r.Err? <==> !gen.RandomGenerator? && oracle.counterReply.Err?
    ensures r.Err? ==> r.error == oracle.counterReply.error
    ensures r.Ok? ==> |r.value| == digits && IsKey(r.value)
    ensures r.Ok? && gen.RandomGenerator? ==> Decode(r.value) == oracle.randomDraw
    ensures r.Ok? && gen.RedisGenerator? ==>
      Decode(r.value) == oracle.counterReply.value % Pow(62, digits)
    ensures r.Ok? && gen.PrimitiveRootGenerator? && WithinKeySpace(gen, digits) ==>
      Decode(r.value) == ExpectedKey(gen.primitive.primitiveConfig, oracle.counterReply.value)
  {
    var n := GenerateInteger(gen, oracle, digits);
    r := StringKey(n, digits);
    if n.Ok? {
      RoundTripExactlyUpToMax(n.value, digits);
    }
  }

  // ---------------------------------------------------------------------------
  // Properties of construction

  /** The default modular parameters are accepted at the default width of 8. */
  lemma DefaultConfigurationAccepted(redis: RedisConfig)
    ensures NewKeyGenerationLayer(PrimitiveRootRedis(redis, DefaultPrimitiveConfig), DefaultDigits).Constructed?
  {
    MaxNumberDefault();
  }

  /**
   * The default prime 1000003 needs a width of at least 4: 62^3 - 1 = 238327
   * is below it and 62^4 - 1 = 14776335 is above it.
   */
  lemma DefaultPrimeNeedsFourDigits(redis: RedisConfig)
    ensures NewKeyGenerationLayer(PrimitiveRootRedis(redis, DefaultPrimitiveConfig), 3).ConstructionError?
    ensures NewKeyGenerationLayer(PrimitiveRootRedis(redis, DefaultPrimitiveConfig), 4).Constructed?
  {
    assert MaxNumber(3) == 238327;
    assert MaxNumber(4) == 14776335;
  }
}

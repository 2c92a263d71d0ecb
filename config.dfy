/**
 * The configuration values the generators are built from (src/config.rs).
 * Reading them from the environment is not modelled: they arrive as values.
 */
module Config {

  /** Where the counter store lives. */
  datatype RedisConfig = RedisConfig(url: string)

  /** Parameters of the modular-exponentiation strategy: modulus P, offset S and base R. */
  datatype PrimitiveConfig = PrimitiveConfig(prime: nat, start: nat, primitiveRoot: nat)

  /** Which generator to build, with what it needs. */
  datatype GeneratorConfig =
    | Random
    | Redis(redis: RedisConfig)
    | PrimitiveRootRedis(redis: RedisConfig, primitive: PrimitiveConfig)

  /** The defaults used when the environment names none: P = 1000003, S = 0, R = 2. */
  const DefaultPrimitiveConfig: PrimitiveConfig := PrimitiveConfig(1000003, 0, 2)

  /** Building a generator either succeeds or fails with a configuration message. */
  datatype Construction<T> = Constructed(value: T) | ConstructionError(message: string)
}

# Key-generation strategy layer, modelled in Dafny

This project models the core of a key-generation service. The service hands out
short, fixed-width keys, such as short-URL identifiers. The core has four parts:

- The base-62 encoder turns a number into a key of exactly D characters over the
  ordered alphabet `0-9A-Za-z`. It also computes `max_number = 62^D - 1`.
- The blanket adapter turns any integer generator into a string generator. It
  encodes the integer and passes errors through.
- The modular-exponentiation strategy maps a counter value `c` to
  `R^((c + S) mod P) mod P`. It computes this by square-and-multiply, and its
  constructor rejects a prime above `max_number`.
- The factory builds one of three strategies from the configuration: random,
  counter, or modular exponentiation. Beside it sits the error taxonomy with its
  mapping to RPC status codes.

Files, one module each:

| file | module | models |
|---|---|---|
| `arith.dfy` | `Arith` | powers; facts about division and remainder (helpers) |
| `error.dfy` | `GeneratorErrors` | `src/generator/error.rs` |
| `config.dfy` | `Config` | the configuration values of `src/config.rs` (types only) |
| `generator.dfy` | `Generator` | `src/generator/mod.rs` |
| `primitive_root.dfy` | `PrimitiveRootRedis` | `src/generator/primitive_root_redis/mod.rs` |
| `generator_object.dfy` | `GeneratorObject` | `src/generator/generator_object.rs`, and the dispatch to each strategy |

How the model is built:

- The digit width D is read from the environment on every call in the program.
  Here it is an explicit immutable parameter `digits`, and `DefaultDigits = 8`.
- The counter store and the random-number source are oracles. One request's
  answers arrive as an `Oracle` value: the store's reply to one increment
  (a number or a `GeneratorError`) and one random draw in `[0, max_number]`.
- `convert_to_string` and `calculate_key` are loops in the program. They are
  `method`s with loop invariants here, proved equal to the specification
  functions `Encode` and `ExpectedKey`. The lemmas about those functions carry
  the properties.
- The other operations are pure functions or methods that change nothing.

Where the documentation and the code disagree, the model follows the code:

- The doc comment of `calculate_key` (primitive_root_redis/mod.rs:46) gives the
  key as `R^(incr + start) % P`. The code reduces the exponent modulo P first
  (line 58). The two differ once `incr + start >= P`, as
  `ExponentReducedModuloPrime` shows.
- Choosing R as a primitive root suggests that the strategy permutes the
  counter values. It does not. Exponents 0 and P - 1 both give 1, as
  `ExponentZeroAndPrimeMinusOneCollide` shows. Keys also repeat with period P
  in the counter value (`KeysRepeatEveryPrime`).
- An exponent of 0 gives 1, not `1 mod P`. So every key is 1 when P = 1
  (`PrimeOneGivesOne`).

## Model

| member | source | states |
|---|---|---|
| `Generator.MaxNumber` | src/generator/mod.rs:74-77 | `max_number` is `62^D - 1`, one less than the number of D-digit keys; `RoundTripExactlyUpToMax` proves it is exactly the largest number whose key decodes back to it |
| `Generator.Encode` | src/generator/mod.rs:94-98 | a key always has exactly `digits` characters, whatever the number |
| `Generator.ConvertToString` | src/generator/mod.rs:88-101 | the loop, which pushes least-significant digits by `% 62` and `/ 62` and then reverses, yields exactly `Encode(number, digits)` |
| `Generator.Reverse` | src/generator/mod.rs:100 | the reversal puts character `i` of its input at position `len - 1 - i` |
| `Generator.ReverseLsdDigits` | src/generator/mod.rs:94-100 | reversing the least-significant-first digits gives the most-significant-first key |
| `Generator.AlphabetSymbol` | src/generator/mod.rs:92 | the symbol at position k < 62 of the alphabet lies in `0-9`, `A-Z` or `a-z`, and its digit value is k |
| `Generator.SymbolOfValue` | src/generator/mod.rs:92 | every alphabet symbol sits at the position given by its digit value |
| `Generator.SymbolsAreAlphabet` | src/generator/mod.rs:92 | the three character ranges are exactly the 62 characters of the alphabet string |
| `Generator.EncodeIsKey` | src/generator/mod.rs:92-96 | every character of every key is drawn from the alphabet; `remainder < 62` keeps the index in bounds |
| `Generator.DecodeEncode` | src/generator/mod.rs:88-101 | reading a key back in base 62 gives `number mod 62^digits` |
| `Generator.EncodeDecode` | src/generator/mod.rs:88-101 | every well-formed string of width d is the key of its base-62 value |
| `Generator.DecodeBound` | src/generator/mod.rs:74-77 | the value of any well-formed key is at most `max_number` for its width |
| `Generator.RoundTripExactlyUpToMax` | src/generator/mod.rs:74-77 | a number comes back from its key if and only if it is at most `max_number = 62^D - 1` |
| `Generator.EncodeInjective` | src/generator/mod.rs:88-101 | distinct numbers up to `max_number` get distinct keys |
| `Generator.EncodeTruncates` | src/generator/mod.rs:94-98 | a number past the key space silently loses its high-order digits: its key is that of `number mod 62^D` |
| `Generator.ConvertToStringExamples` | src/generator/mod.rs:110-114 | at D = 8: 0 → "00000000", 1 → "00000001", 61 → "0000000z", 62 → "00000010", 63 → "00000011" |
| `Generator.ConvertToStringLargeExample` | src/generator/mod.rs:115 | at D = 8: 12345678 → "0000pnfq" |
| `Generator.MaxNumberDefault` | src/generator/mod.rs:119-121 | at the default width, `max_number` is `62^8 - 1 = 218340105584895` |
| `Generator.StringKey` | src/generator/mod.rs:61-66 | the adapter returns the key of the integer on success and passes an error through unchanged; a key has D symbols and decodes to the integer modulo `62^D` |
| `PrimitiveRootRedis.New` | src/generator/primitive_root_redis/mod.rs:31-44 | construction fails exactly when `prime > max_number`, with the program's message; otherwise it keeps the given configuration unchanged |
| `PrimitiveRootRedis.Exponent` | src/generator/primitive_root_redis/mod.rs:58 | the exponent `(incr + start) mod P` is below P |
| `PrimitiveRootRedis.CalculateKey` | src/generator/primitive_root_redis/mod.rs:55-68 | square-and-multiply returns `R^e mod P` for `e = (incr + start) mod P`, or 1 when e = 0; the result is below P when e > 0; it depends only on incr and the stored parameters and changes nothing |
| `PrimitiveRootRedis.SquareMultiplyStep` | src/generator/primitive_root_redis/mod.rs:60-66 | one round of the loop keeps `result * base^exponent` unchanged modulo P, for odd and even exponents |
| `PrimitiveRootRedis.GenerateKey` | src/generator/primitive_root_redis/mod.rs:73-78 | a counter error is returned unchanged; a counter value c becomes `calculate_key(c)` |
| `PrimitiveRootRedis.KeyRange` | src/generator/primitive_root_redis/mod.rs:56-67 | a key is below P when the exponent is positive, is 1 when it is 0, and never exceeds P |
| `PrimitiveRootRedis.ConstructedKeysFit` | src/generator/primitive_root_redis/mod.rs:34-36 | for an accepted generator every key is at most `max_number`, so its key string decodes back to it exactly |
| `PrimitiveRootRedis.KeysRepeatEveryPrime` | src/generator/primitive_root_redis/mod.rs:58 | counter values c and c + P give the same key |
| `PrimitiveRootRedis.CalculateKeyExamples` | src/generator/primitive_root_redis/mod.rs:55-68 | for P = 7, R = 3, S = 0, counter values 0, 1, 2 give 1, 3, 2 |
| `PrimitiveRootRedis.ExponentZeroAndPrimeMinusOneCollide` | src/generator/primitive_root_redis/mod.rs:58-66 | for P = 7, R = 3, counter values 0 and 6 give the same key, so the mapping is not a permutation |
| `PrimitiveRootRedis.ExponentReducedModuloPrime` | src/generator/primitive_root_redis/mod.rs:46-58 | for P = 7, R = 3, counter value 7 gives 1, while the documented `R^(incr+start) % P` would give 3 |
| `PrimitiveRootRedis.PrimeOneGivesOne` | src/generator/primitive_root_redis/mod.rs:56-60 | with P = 1 the loop never runs and every key is 1 |
| `GeneratorObject.NewKeyGenerationLayer` | src/generator/generator_object.rs:21-37 | construction fails only for the modular strategy with `prime > max_number`, passing the constructor's message on unchanged; otherwise it builds the configured variant with the given settings, and that generator respects the prime bound |
| `GeneratorObject.GenerateInteger` | src/generator/random/mod.rs:28-31 | the random strategy returns its draw and never fails; the counter strategy returns the store's reply (src/generator/redis/mod.rs:41-53); the modular strategy transforms a counter value and passes a store error through (src/generator/primitive_root_redis/mod.rs:73-78); random and modular integers stay within `max_number` |
| `GeneratorObject.GenerateKey` | src/generator/mod.rs:61-66 | a key request fails exactly when a counter-based strategy's store fails, with the store's error unchanged, so the core never originates `GeneratorNotFound`; a key has D symbols; random and modular keys decode to their integer, counter keys to the counter modulo `62^D` |
| `GeneratorObject.DefaultConfigurationAccepted` | src/config.rs:70-83 | the default modular parameters (P = 1000003, S = 0, R = 2) are accepted at D = 8 |
| `GeneratorObject.DefaultPrimeNeedsFourDigits` | src/generator/primitive_root_redis/mod.rs:34-36 | the default prime is rejected at D = 3 and accepted at D = 4 |
| `GeneratorErrors.Display` | src/generator/error.rs:8-18 | the display texts are "Connection error", "Generator not found" and "Generator unknown error: " followed by the detail |
| `GeneratorErrors.ToStatus` | src/generator/error.rs:23-31 | ConnectionError gives Unavailable with "Connection error"; GeneratorNotFound gives NotFound with "Generator not found"; UnknownError(s) gives Internal with "Generator error: " + s; each code belongs to exactly one variant |
| `GeneratorErrors.ToStatusInjective` | src/generator/error.rs:25-29 | distinct errors give distinct statuses, so the detail of an unknown error is preserved |
| `GeneratorErrors.DisplayInjective` | src/generator/error.rs:10-17 | distinct errors display differently |
| `GeneratorErrors.StatusMessageVersusDisplay` | src/generator/error.rs:10-28 | the status message equals the display text for the two fixed variants and differs from it for unknown errors |
| `GeneratorErrors.ToStatusExamples` | src/generator/error.rs:38-54 | the three conversions of the module's tests: Unavailable/"Connection error", NotFound/"Generator not found", Internal/"Generator error: Some error" |

## Left out

- `number_digits` (src/generator/mod.rs:51-54) reads `NUMBER_DIGITS` from the environment and falls back to 8 when it is missing or does not parse. The model takes D as a parameter. The parsing is not modelled.
- Configuration loading (src/config.rs) is not modelled: parsing the environment, the default Redis URL, and the listen port. Only the value types and the default modular parameters are kept.
- The counter store (src/generator/redis/mod.rs) is not modelled. That covers the network `INCR`, the `unwrap` on opening the client, and the sorting of store errors into `ConnectionError` (timeout, refused, dropped) and `UnknownError(text)`. The store's reply is an oracle value that is already classified.
- The random strategy (src/generator/random/mod.rs) is not modelled beyond its range. Its draw is an oracle value in `[0, max_number]`, and uniformity is not modelled.
- The gRPC service (src/service/mod.rs) and the server bootstrap (src/main.rs) are not modelled. The service's only logic is the error conversion, which `GeneratorErrors.ToStatus` models, and the constant "pong" of `ping`. Telemetry and Ctrl-C shutdown are also out.
- Async execution, `Arc` sharing, `Send`/`Sync` and concurrent requests are not modelled. No core logic depends on them.
- Machine widths are not modelled; all numbers are unbounded naturals. Four effects are lost:
  - `62_usize.pow(D)` overflows for D >= 11 (src/generator/mod.rs:76).
  - `prime as usize` truncates a u128 prime (src/generator/primitive_root_redis/mod.rs:34).
  - `incr as u128 + start` and `base * base` can overflow u128 (lines 58 and 64).
  - `result as usize` can truncate (line 67).
- `PrimitiveRootRedis.CalculateKey`: requires `prime >= 1`. The program panics on `% 0` when the prime is 0, and construction accepts a prime of 0. For the same reason, `PrimitiveRootRedis.GenerateKey` and the facade methods require `Serviceable`, which says the modular strategy's prime is at least 1.
- The program never checks that P is prime or that R is a primitive root of P, and neither does the model. No property depends on either.
- `GeneratorObject.GenerateKey`: its end-to-end "a store connection failure reaches the boundary as Unavailable" is stated in two parts. The method says the error reaches the caller unchanged. `GeneratorErrors.ToStatus` says `ConnectionError` becomes `Unavailable`. The service method that joins the two is not modelled.
- The alphabet is written as the concatenation of the three literals "0123456789", "A…Z" and "a…z". This is the same 62-character string as the program's single literal.

/**
 * The base-62 key encoder and the adapter that turns any integer generator
 * into a string generator (src/generator/mod.rs).
 *
 * The digit width D, which the program reads from the environment on every
 * call, is an explicit parameter `digits` here; `DefaultDigits` is its default.
 */
module Generator {
  import opened Arith
  import opened GeneratorErrors

  /** The digit width used when none is configured. */
  const DefaultDigits: nat := 8

  /** The ordered 62-symbol alphabet: digits, then upper case, then lower case. */
  const DecimalDigits: string := "0123456789"
  const UpperLetters: string := "ABCDEFGHIJKLMNOPQRSTUVWXYZ"
  const LowerLetters: string := "abcdefghijklmnopqrstuvwxyz"
  const Alphabet: string := DecimalDigits + UpperLetters + LowerLetters

  /** The largest number that fits in `digits` base-62 digits. */
  function MaxNumber(digits: nat): (m: nat)
    ensures m + 1 == Pow(62, digits)
  {
    Pow(62, digits) - 1
  }

  /** The position of a character in the alphabet (0 for characters outside it). */
  function DigitValue(c: char): (v: nat)
  {
    if '0' <= c <= '9' then c as int - '0' as int
    else if 'A' <= c <= 'Z' then c as int - 'A' as int + 10
    else if 'a' <= c <= 'z' then c as int - 'a' as int + 36
    else 0
  }

  /** A character of the alphabet, by its three ranges. */
  predicate IsSymbol(c: char)
  {
    '0' <= c <= '9' || 'A' <= c <= 'Z' || 'a' <= c <= 'z'
  }

  /** A well-formed key of any width: every character is an alphabet symbol. */
  predicate IsKey(s: string)
  {
    forall i :: 0 <= i < |s| ==> IsSymbol(s[i])
  }

  /**
   * The fixed-width key of n, most significant digit first: the `digits`
   * lowest base-62 digits of n (higher digits are dropped).
   */
  function Encode(n: nat, digits: nat): (s: string)
    ensures |s| == digits
  {
    if digits == 0 then [] else Encode(n / 62, digits - 1) + [Alphabet[n % 62]]
  }

  /** Reads a key most significant digit first as a base-62 numeral. */
  function Decode(s: string): (n: nat)
  {
    if s == [] then 0 else Decode(s[..|s| - 1]) * 62 + DigitValue(s[|s| - 1])
  }

  /** The digits as the conversion loop pushes them: least significant first. */
  function LsdDigits(n: nat, digits: nat): (s: string)
  {
    if digits == 0 then [] else [Alphabet[n % 62]] + LsdDigits(n / 62, digits - 1)
  }

  /** s read back to front. */
  function Reverse(s: string): (r: string)
    ensures |r| == |s|
    ensures forall i :: 0 <= i < |s| ==> r[i] == s[|s| - 1 - i]
  {
    if s == [] then [] else Reverse(s[1..]) + [s[0]]
  }

  /**
   * convert_to_string: push `digits` characters, least significant first, by
   * repeated remainder and division by 62, then reverse the string.
   */
  method ConvertToString(number: nat, digits: nat) returns (s: string)
    ensures s == Encode(number, digits)
  {
    var result: string := [];
    var num := number;
    for i := 0 to digits
      invariant result + LsdDigits(num, digits - i) == LsdDigits(number, digits)
    {
      var remainder := num % 62;
      result := result + [Alphabet[remainder]];
      num := num / 62;
    }
    s := Reverse(result);
    ReverseLsdDigits(number, digits);
  }

  /**
   * The blanket adapter from an integer generator to a string generator: an
   * integer result is encoded, an error passes through unchanged.
   */
  method StringKey(integer: Result<nat>, digits: nat) returns (r: Result<string>)
    ensures r.Ok? <==> integer.Ok?
    ensures r.Err? ==> r.error == integer.error
    ensures r.Ok? ==> r.value == Encode(integer.value, digits)
    ensures r.Ok? ==> |r.value| == digits && IsKey(r.value)
    ensures r.Ok? ==> Decode(r.value) == integer.value % Pow(62, digits)
  {
    match integer
    case Err(e) =>
      r := Err(e);
    case Ok(number) =>
      var key := ConvertToString(number, digits);
      DecodeEncode(number, digits);
      EncodeIsKey(number, digits);
      r := Ok(key);
  }

  // ---------------------------------------------------------------------------
  // Properties of the encoding

  /** Each alphabet symbol is in one of the three ranges, and its position is its digit value. */
  lemma AlphabetSymbol(k: nat)
    requires k < 62
    ensures IsSymbol(Alphabet[k]) && DigitValue(Alphabet[k]) == k
  {
    if k < 10 {
      assert Alphabet[k] == DecimalDigits[k];
    } else if k < 36 {
      assert Alphabet[k] == UpperLetters[k - 10];
      LetterCode(UpperLetters, 'A', k - 10);
    } else {
      assert Alphabet[k] == LowerLetters[k - 36];
      LetterCode(LowerLetters, 'a', k - 36);
    }
  }

  /** A symbol sits in the alphabet at the position given by its digit value. */
  lemma SymbolOfValue(c: char)
    requires IsSymbol(c)
    ensures DigitValue(c) < 62 && Alphabet[DigitValue(c)] == c
  {
    AlphabetSymbol(DigitValue(c));
  }

  /** The three ranges are exactly the characters of the alphabet. */
  lemma SymbolsAreAlphabet(c: char)
    ensures IsSymbol(c) <==> c in Alphabet
  {
    if IsSymbol(c) {
      SymbolOfValue(c);
    }
    if c in Alphabet {
      var k :| 0 <= k < |Alphabet| && Alphabet[k] == c;
      AlphabetSymbol(k);
    }
  }

  /** The k-th letter of a 26-letter run starting at `first` has code first + k. */
  lemma LetterCode(letters: string, first: char, k: nat)
    requires (letters == UpperLetters && first == 'A') || (letters == LowerLetters && first == 'a')
    requires k < 26
    ensures letters[k] as int == first as int + k
  {
  }

  /** Every character of a key is drawn from the alphabet. */
  lemma {:induction false} EncodeIsKey(n: nat, digits: nat)
    ensures IsKey(Encode(n, digits))
    ensures forall i :: 0 <= i < digits ==> Encode(n, digits)[i] in Alphabet
  {
    var s := Encode(n, digits);
    if digits > 0 {
      EncodeIsKey(n / 62, digits - 1);
      AlphabetSymbol(n % 62);
      assert s == Encode(n / 62, digits - 1) + [Alphabet[n % 62]];
    }
    forall i | 0 <= i < digits ensures s[i] in Alphabet {
      SymbolsAreAlphabet(s[i]);
    }
  }

  /** Reversing the loop's least-significant-first digits gives the key. */
  lemma {:induction false} ReverseLsdDigits(n: nat, digits: nat)
    ensures Reverse(LsdDigits(n, digits)) == Encode(n, digits)
  {
    if digits > 0 {
      var lsd := LsdDigits(n, digits);
      assert lsd[1..] == LsdDigits(n / 62, digits - 1);
      ReverseLsdDigits(n / 62, digits - 1);
    }
  }

  /** Splitting off the lowest base-62 digit of n modulo 62 * p. */
  lemma ModSplit(n: nat, p: nat)
    requires p > 0
    ensures n % (62 * p) == (n / 62) % p * 62 + n % 62
  {
    var q, r := n / 62, n % 62;
    var a, b := q / p, q % p;
    assert n == a * (62 * p) + (b * 62 + r);
    assert b * 62 + r < 62 * p by {
      assert b <= p - 1;
      assert b * 62 <= (p - 1) * 62;
    }
    DivModUnique(n, 62 * p, a, b * 62 + r);
  }

  /**
   * Round trip from numbers: decoding the key of n gives n modulo 62^digits,
   * so n itself whenever n fits in the width.
   */
  lemma {:induction false} DecodeEncode(n: nat, digits: nat)
    ensures Decode(Encode(n, digits)) == n % Pow(62, digits)
  {
    if digits > 0 {
      var s := Encode(n, digits);
      assert s[..|s| - 1] == Encode(n / 62, digits - 1);
      DecodeEncode(n / 62, digits - 1);
      AlphabetSymbol(n % 62);
      ModSplit(n, Pow(62, digits - 1));
    }
  }

  /** Round trip from keys: every well-formed key is the encoding of its value. */
  lemma {:induction false} EncodeDecode(s: string)
    requires IsKey(s)
    ensures Encode(Decode(s), |s|) == s
  {
    if s != [] {
      var t, c := s[..|s| - 1], s[|s| - 1];
      assert s == t + [c];
      KeyPrefix(s);
      EncodeDecode(t);
      DecodeAppend(t, c);
      EncodeAppendSymbol(t, c, Decode(t), Decode(s));
    }
  }

  /** Dropping the last character of a key leaves a key. */
  lemma KeyPrefix(s: string)
    requires IsKey(s) && s != []
    ensures IsKey(s[..|s| - 1]) && IsSymbol(s[|s| - 1])
  {
    var t := s[..|s| - 1];
    forall i | 0 <= i < |t| ensures IsSymbol(t[i]) {
      assert t[i] == s[i];
    }
  }

  /** If q encodes to t, then q shifted one place plus c's digit value encodes to t + [c]. */
  lemma EncodeAppendSymbol(t: string, c: char, q: nat, n: nat)
    requires IsSymbol(c)
    requires Encode(q, |t|) == t
    requires n == q * 62 + DigitValue(c)
    ensures Encode(n, |t| + 1) == t + [c]
  {
    SymbolOfValue(c);
    EncodeLowDigit(n, |t|, q, DigitValue(c));
  }

  /** The key of q * 62 + v is the key of q followed by the symbol for v. */
  lemma EncodeLowDigit(n: nat, width: nat, q: nat, v: nat)
    requires v < 62 && n == q * 62 + v
    ensures Encode(n, width + 1) == Encode(q, width) + [Alphabet[v]]
  {
    DivModUnique(n, 62, q, v);
  }

  /** Appending a character shifts the value one base-62 place and adds its digit value. */
  lemma DecodeAppend(t: string, c: char)
    ensures Decode(t + [c]) == Decode(t) * 62 + DigitValue(c)
  {
    assert (t + [c])[..|t|] == t;
  }

  /** A well-formed key's value fits in its width. */
  lemma DecodeBound(s: string)
    requires IsKey(s)
    ensures Decode(s) < Pow(62, |s|)
    ensures Decode(s) <= MaxNumber(|s|)
  {
    var n := Decode(s);
    EncodeDecode(s);
    DecodeEncode(n, |s|);
  }

  /**
   * max_number is exactly the bound of the round trip: a number comes back
   * from its key if and only if it is at most MaxNumber(digits).
   */
  lemma RoundTripExactlyUpToMax(n: nat, digits: nat)
    ensures Decode(Encode(n, digits)) == n <==> n <= MaxNumber(digits)
  {
    DecodeEncode(n, digits);
    var p := Pow(62, digits);
    if n < p {
      DivModUnique(n, p, 0, n);
    }
  }

  /** Distinct numbers within the width get distinct keys. */
  lemma EncodeInjective(m: nat, n: nat, digits: nat)
    requires m <= MaxNumber(digits) && n <= MaxNumber(digits)
    requires Encode(m, digits) == Encode(n, digits)
    ensures m == n
  {
    RoundTripExactlyUpToMax(m, digits);
    RoundTripExactlyUpToMax(n, digits);
  }

  /** A number past the width silently loses its high-order digits. */
  lemma EncodeTruncates(n: nat, digits: nat)
    ensures Encode(n, digits) == Encode(n % Pow(62, digits), digits)
  {
    EncodeIsKey(n, digits);
    EncodeDecode(Encode(n, digits));
    DecodeEncode(n, digits);
  }

  /** Zero pads to a run of '0' symbols. */
  lemma EncodeZeroPadding()
    ensures Encode(0, 4) == "0000"
    ensures Encode(0, 6) == "000000"
    ensures Encode(0, 7) == "0000000"
  {
  }

  /** The symbols of the small test keys. */
  lemma SmallExampleSymbols()
    ensures Alphabet[0] == '0' && Alphabet[1] == '1' && Alphabet[61] == 'z'
  {
    assert Alphabet[61] == LowerLetters[25];
  }

  /** The keys the module's own tests expect at the default width of 8. */
  lemma ConvertToStringExamples()
    ensures Encode(0, DefaultDigits) == "00000000"
    ensures Encode(1, DefaultDigits) == "00000001"
    ensures Encode(61, DefaultDigits) == "0000000z"
    ensures Encode(62, DefaultDigits) == "00000010"
    ensures Encode(63, DefaultDigits) == "00000011"
  {
    EncodeZeroPadding();
    SmallExampleSymbols();
    EncodeLowDigit(0, 7, 0, 0);
    EncodeLowDigit(1, 7, 0, 1);
    EncodeLowDigit(61, 7, 0, 61);
    OneInSevenDigits();
    EncodeLowDigit(62, 7, 1, 0);
    EncodeLowDigit(63, 7, 1, 1);
  }

  /** The key of 1 at width 7, the prefix of the keys of 62 and 63. */
  lemma OneInSevenDigits()
    ensures Encode(1, 7) == "0000001"
  {
    EncodeZeroPadding();
    SmallExampleSymbols();
    EncodeLowDigit(1, 6, 0, 1);
  }

  /** The symbols of the test key for 12345678. */
  lemma LargeExampleSymbols()
    ensures Alphabet[51] == 'p' && Alphabet[49] == 'n' && Alphabet[41] == 'f' && Alphabet[52] == 'q'
  {
    assert Alphabet[51] == LowerLetters[15];
    assert Alphabet[49] == LowerLetters[13];
    assert Alphabet[41] == LowerLetters[5];
    assert Alphabet[52] == LowerLetters[16];
  }

  /** The first five digits of the test key for 12345678. */
  lemma LargeExampleFive()
    ensures Encode(51, 5) == "0000p"
  {
    EncodeZeroPadding();
    LargeExampleSymbols();
    EncodeLowDigit(51, 4, 0, 51);
  }

  /** The first six digits of the test key for 12345678. */
  lemma LargeExampleSix()
    ensures Encode(3211, 6) == "0000pn"
  {
    LargeExampleFive();
    LargeExampleSymbols();
    EncodeLowDigit(3211, 5, 51, 49);
  }

  /** The first seven digits of the test key for 12345678. */
  lemma LargeExamplePrefix()
    ensures Encode(199123, 7) == "0000pnf"
  {
    LargeExampleSix();
    LargeExampleSymbols();
    EncodeLowDigit(199123, 6, 3211, 41);
  }

  /** The test key for 12345678 = ((51 * 62 + 49) * 62 + 41) * 62 + 52. */
  lemma ConvertToStringLargeExample()
    ensures Encode(12345678, DefaultDigits) == "0000pnfq"
  {
    LargeExamplePrefix();
    LargeExampleSymbols();
    EncodeLowDigit(12345678, 7, 199123, 52);
  }

  /** At the default width max_number is 62^8 - 1. */
  lemma MaxNumberDefault()
    ensures MaxNumber(DefaultDigits) == 62 * 62 * 62 * 62 * 62 * 62 * 62 * 62 - 1
    ensures MaxNumber(DefaultDigits) == 218340105584895
  {
  }
}

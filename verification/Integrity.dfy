/**
 Reading and writing sha512 digests: packages/plugin-sdk/src/integrity.ts, with base64 as section 4 of RFC 4648 has it.
 The accumulators never hold more than 24 bits, so shifting and masking them is multiplying, dividing and taking
 remainders; no 32-bit operation wraps.
 */
module Integrity {
  import opened Wrappers
  import Texts

  type Byte = x: int | 0 <= x < 256

  type Sextet = x: int | 0 <= x < 64

  datatype IntegrityError = MalformedDigest

  const SHA512_BYTES := 64

  const UPPER := "ABCDEFGHIJKLMNOPQRSTUVWXYZ"
  const LOWER := "abcdefghijklmnopqrstuvwxyz"
  const DIGITS := "0123456789"
  const BASE64_ALPHABET := UPPER + LOWER + DIGITS + "+/"

  const PREFIX := "sha512-"

  // ---------- Letters and digits ----------

  /** The class `[A-Za-z0-9+/]`. */
  predicate InAlphabet(c: char) {
    'A' <= c <= 'Z' || 'a' <= c <= 'z' || '0' <= c <= '9' || c == '+' || c == '/'
  }

  /** `BASE64_ALPHABET.indexOf`, from `from` on; the alphabet's length when there is none. */
  function IndexFrom(c: char, from: nat): (i: nat)
    requires from <= |BASE64_ALPHABET|
    decreases |BASE64_ALPHABET| - from
  {
    if from == |BASE64_ALPHABET| || BASE64_ALPHABET[from] == c then from else IndexFrom(c, from + 1)
  }

  function LetterCode(i: Sextet): int {
    if i < 26 then 65 + i else if i < 52 then 71 + i else if i < 62 then i - 4 else if i == 62 then 43 else 47
  }

  lemma AlphabetLetter(i: Sextet)
    ensures |BASE64_ALPHABET| == 64 && BASE64_ALPHABET[i] as int == LetterCode(i)
  {
    assert |UPPER| == |LOWER| == 26 && |DIGITS| == 10;
    if i < 26 {
      assert BASE64_ALPHABET[i] == UPPER[i];
    } else if i < 52 {
      assert BASE64_ALPHABET[i] == LOWER[i - 26];
    } else if i < 62 {
      assert BASE64_ALPHABET[i] == DIGITS[i - 52];
    }
  }

  lemma {:induction false} IndexFromMeaning(c: char, from: nat, i: nat)
    requires from <= i < |BASE64_ALPHABET| && BASE64_ALPHABET[i] == c
    ensures IndexFrom(c, from) == i
    decreases i - from
  {
    AlphabetLetter(i);
    AlphabetLetter(from);
    if from < i {
      IndexFromMeaning(c, from + 1, i);
    }
  }

  /** `BASE64_ALPHABET.indexOf` of a letter the pattern let through. */
  function SextetOf(c: char): Sextet
    requires InAlphabet(c)
  {
    var n := c as int;
    if 65 <= n <= 90 then n - 65 else if 97 <= n <= 122 then n - 71 else if 48 <= n <= 57 then n + 4
    else if n == 43 then 62 else 63
  }

  /** The letters the pattern lets through are exactly the alphabet's, so `indexOf` always finds them. */
  lemma AlphabetHas(c: char)
    requires InAlphabet(c)
    ensures |BASE64_ALPHABET| == 64 && BASE64_ALPHABET[SextetOf(c)] == c
    ensures IndexFrom(c, 0) == SextetOf(c)
  {
    AlphabetLetter(SextetOf(c));
    IndexFromMeaning(c, 0, SextetOf(c));
  }

  /** `BASE64_ALPHABET.charAt`. */
  function Letter(i: Sextet): char {
    LetterCode(i) as char
  }

  /** Reading a letter inverts writing it. */
  lemma LetterRoundTrip(i: Sextet)
    ensures InAlphabet(Letter(i)) && SextetOf(Letter(i)) == i
    ensures |BASE64_ALPHABET| == 64 && Letter(i) == BASE64_ALPHABET[i]
  {
    AlphabetLetter(i);
    AlphabetHas(Letter(i));
  }

  predicate AllLetters(s: string) {
    forall i :: 0 <= i < |s| ==> InAlphabet(s[i])
  }

  function SextetsOf(s: string): (r: seq<Sextet>)
    requires AllLetters(s)
    ensures |r| == |s|
  {
    seq(|s|, i requires 0 <= i < |s| => SextetOf(s[i]))
  }

  function Letters(s: seq<Sextet>): (r: string)
    ensures |r| == |s|
  {
    seq(|s|, i requires 0 <= i < |s| => Letter(s[i]))
  }

  lemma LettersRoundTrip(s: seq<Sextet>)
    ensures AllLetters(Letters(s)) && SextetsOf(Letters(s)) == s
  {
    forall i | 0 <= i < |s| ensures InAlphabet(Letters(s)[i]) && SextetOf(Letters(s)[i]) == s[i] {
      LetterRoundTrip(s[i]);
    }
  }

  predicate IsHexDigit(c: char) {
    '0' <= c <= '9' || 'a' <= c <= 'f' || 'A' <= c <= 'F'
  }

  function HexValue(c: char): (v: int)
    requires IsHexDigit(c)
    ensures 0 <= v < 16
  {
    if c <= '9' then c as int - '0' as int
    else if c <= 'F' then c as int - 'A' as int + 10 else c as int - 'a' as int + 10
  }

  function HexDigit(v: int, upper: bool): char
    requires 0 <= v < 16
  {
    if v < 10 then (v + '0' as int) as char
    else if upper then (v - 10 + 'A' as int) as char else (v - 10 + 'a' as int) as char
  }

  // ---------- Base64 by groups ----------

  // The bits of two neighbours put together: six and two, four and four, two and six.

  function High(a: int): (r: int)
    requires 0 <= a < 256
    ensures 0 <= r < 64
  {
    a / 4
  }

  function Join42(a: int, b: int): (r: int)
    requires 0 <= a < 256 && 0 <= b < 256
    ensures 0 <= r < 64
  {
    a % 4 * 16 + b / 16
  }

  function Join24(a: int, b: int): (r: int)
    requires 0 <= a < 256 && 0 <= b < 256
    ensures 0 <= r < 64
  {
    a % 16 * 4 + b / 64
  }

  /** Two bytes' worth of sextets: the last `bits` bits of `a` and the first `8 - bits` of `b`. */
  function Join(a: int, b: int, bits: int): (r: int)
    requires 0 <= a < 64 && 0 <= b < 64 && bits in {2, 4, 6}
    ensures 0 <= r < 256
  {
    if bits == 6 then a * 4 + b / 16 else if bits == 4 then a % 16 * 16 + b / 4 else a % 4 * 64 + b
  }

  /** The sextets of a byte string: four to three bytes, and two or three to what is left, filled up with zero bits. */
  function Encode(bytes: seq<Byte>): seq<Sextet> {
    if |bytes| >= 3 then
      [High(bytes[0]), Join42(bytes[0], bytes[1]), Join24(bytes[1], bytes[2]), bytes[2] % 64] + Encode(bytes[3..])
    else if |bytes| == 2 then [High(bytes[0]), Join42(bytes[0], bytes[1]), Join24(bytes[1], 0)]
    else if |bytes| == 1 then [High(bytes[0]), Join42(bytes[0], 0)]
    else []
  }

  /** As many bytes as the sextets fill whole; the bits beyond them count for nothing. */
  function Decode(s: seq<Sextet>): seq<Byte> {
    if |s| >= 4 then [Join(s[0], s[1], 6), Join(s[1], s[2], 4), Join(s[2], s[3], 2)] + Decode(s[4..])
    else if |s| == 3 then [Join(s[0], s[1], 6), Join(s[1], s[2], 4)]
    else if |s| == 2 then [Join(s[0], s[1], 6)]
    else []
  }

  function Padding(n: nat): string {
    if n % 3 == 1 then "==" else if n % 3 == 2 then "=" else ""
  }

  lemma {:induction false} EncodeLength(bytes: seq<Byte>)
    ensures |Encode(bytes)| == (4 * |bytes| + 2) / 3
  {
    if |bytes| >= 3 {
      EncodeLength(bytes[3..]);
    }
  }

  lemma {:induction false} DecodeLength(s: seq<Sextet>)
    ensures |Decode(s)| == 6 * |s| / 8
  {
    if |s| >= 4 {
      DecodeLength(s[4..]);
    }
  }

  lemma FirstAgain(a: int, b: int)
    requires 0 <= a < 256 && 0 <= b < 256
    ensures Join(High(a), Join42(a, b), 6) == a
  {
    assert (a % 4 * 16 + b / 16) / 16 == a % 4;
  }

  lemma SecondAgain(a: int, b: int, c: int)
    requires 0 <= a < 256 && 0 <= b < 256 && 0 <= c < 256
    ensures Join(Join42(a, b), Join24(b, c), 4) == b
  {
    assert (a % 4 * 16 + b / 16) % 16 == b / 16;
    assert (b % 16 * 4 + c / 64) / 4 == b % 16;
  }

  lemma ThirdAgain(b: int, c: int)
    requires 0 <= b < 256 && 0 <= c < 256
    ensures Join(Join24(b, c), c % 64, 2) == c
  {
    assert (b % 16 * 4 + c / 64) % 4 == c / 64;
  }

  /** Decoding inverts encoding, whatever the number of bytes. */
  lemma {:induction false} DecodeInvertsEncode(bytes: seq<Byte>)
    ensures Decode(Encode(bytes)) == bytes
  {
    hide High, Join42, Join24, Join;
    if |bytes| >= 2 {
      FirstAgain(bytes[0], bytes[1]);
      SecondAgain(bytes[0], bytes[1], if |bytes| >= 3 then bytes[2] else 0);
    } else if |bytes| == 1 {
      FirstAgain(bytes[0], 0);
    }
    if |bytes| >= 3 {
      ThirdAgain(bytes[1], bytes[2]);
    }
    if |bytes| >= 3 {
      DecodeInvertsEncode(bytes[3..]);
      assert Encode(bytes)[4..] == Encode(bytes[3..]);
      assert bytes == [bytes[0], bytes[1], bytes[2]] + bytes[3..];
    } else if |bytes| == 2 {
      assert bytes == [bytes[0], bytes[1]];
    } else if |bytes| == 1 {
      assert bytes == [bytes[0]];
    }
  }

  /**
   Two spellings decode to the same bytes exactly when they agree up to the last sextet, and in that one up to its
   stray bits.
   */
  lemma {:induction false} SameBytes(s: seq<Sextet>, t: seq<Sextet>)
    requires |s| == |t| && |s| % 4 == 2
    ensures Decode(s) == Decode(t) <==>
              s[..|s| - 1] == t[..|t| - 1] && s[|s| - 1] / 16 == t[|t| - 1] / 16
  {
    var n := |s| - 1;
    if |s| == 2 {
      assert s[..n] == [s[0]] && t[..n] == [t[0]];
      assert Decode(s) == Decode(t) <==> Decode(s)[0] == Decode(t)[0];
      assert s[..n] == t[..n] <==> s[..n][0] == t[..n][0];
    } else {
      hide Join;
      SameBytes(s[4..], t[4..]);
      SameGroup(s[0], s[1], s[2], s[3], t[0], t[1], t[2], t[3]);
      var a := [Join(s[0], s[1], 6), Join(s[1], s[2], 4), Join(s[2], s[3], 2)];
      var b := [Join(t[0], t[1], 6), Join(t[1], t[2], 4), Join(t[2], t[3], 2)];
      SplitSame(a, Decode(s[4..]), b, Decode(t[4..]));
      assert a == b <==> a[0] == b[0] && a[1] == b[1] && a[2] == b[2];
      assert s[..n] == s[..4] + s[4..][..n - 4] && t[..n] == t[..4] + t[4..][..n - 4];
      SplitSame(s[..4], s[4..][..n - 4], t[..4], t[4..][..n - 4]);
      var c, d := s[..4], t[..4];
      assert c == d <==> c[0] == d[0] && c[1] == d[1] && c[2] == d[2] && c[3] == d[3];
    }
  }

  lemma SplitSame<T>(a: seq<T>, b: seq<T>, c: seq<T>, d: seq<T>)
    requires |a| == |c|
    ensures a + b == c + d <==> a == c && b == d
  {
    assert (a + b)[..|a|] == a && (a + b)[|a|..] == b;
    assert (c + d)[..|a|] == c && (c + d)[|a|..] == d;
  }

  lemma SameGroup(a: int, b: int, c: int, d: int, e: int, f: int, g: int, h: int)
    requires 0 <= a < 64 && 0 <= b < 64 && 0 <= c < 64 && 0 <= d < 64
    requires 0 <= e < 64 && 0 <= f < 64 && 0 <= g < 64 && 0 <= h < 64
    ensures Join(a, b, 6) == Join(e, f, 6) && Join(b, c, 4) == Join(f, g, 4) && Join(c, d, 2) == Join(g, h, 2)
            <==> a == e && b == f && c == g && d == h
  {
    assert Join(a, b, 6) == Join(e, f, 6) <==> a == e && b / 16 == f / 16;
    assert Join(b, c, 4) == Join(f, g, 4) <==> b % 16 == f % 16 && c / 4 == g / 4;
    assert Join(c, d, 2) == Join(g, h, 2) <==> c % 4 == g % 4 && d == h;
  }

  // ---------- The loops ----------

  /** `a >> bits` of a number that is not negative. */
  function ShiftRight(a: int, bits: nat): int
    decreases bits
  {
    if bits == 0 then a else ShiftRight(a / 2, bits - 1)
  }

  /** `a & ((1 << bits) - 1)`. */
  function LowBits(a: int, bits: nat): int
    decreases bits
  {
    if bits == 0 then 0 else 2 * LowBits(a / 2, bits - 1) + a % 2
  }

  /** What the accumulator gives from a state on: six bits in at a time, and eight out when there are eight. */
  function Drained(s: seq<Sextet>, accumulator: int, bits: nat): seq<int> {
    if s == [] then []
    else
      var a := accumulator * 64 + s[0];
      if bits + 6 >= 8 then [ShiftRight(a, bits - 2) % 256] + Drained(s[1..], LowBits(a, bits - 2), bits - 2)
      else Drained(s[1..], a, bits + 6)
  }

  lemma ShiftFour(a: int)
    ensures ShiftRight(a, 4) == a / 16 && LowBits(a, 4) == a % 16
    ensures ShiftRight(a, 2) == a / 4 && LowBits(a, 2) == a % 4
    ensures ShiftRight(a, 0) == a && LowBits(a, 0) == 0
  {
    assert ShiftRight(a, 2) == ShiftRight(a / 2 / 2, 0);
    assert LowBits(a, 2) == 2 * (2 * LowBits(a / 2 / 2, 0) + a / 2 % 2) + a % 2;
    assert ShiftRight(a, 4) == ShiftRight(a / 2 / 2, 2) == ShiftRight(a / 2 / 2 / 2 / 2, 0);
    assert LowBits(a, 4) == 2 * (2 * LowBits(a / 2 / 2, 2) + a / 2 % 2) + a % 2;
    assert LowBits(a / 2 / 2, 2) == 2 * (2 * LowBits(a / 2 / 2 / 2 / 2, 0) + a / 2 / 2 / 2 % 2) + a / 2 / 2 % 2;
  }

  lemma TakeBits(y: int, x: int, bits: nat)
    requires 0 <= y < 64 && 0 <= x < 64 && bits in {2, 4, 6}
    ensures 0 <= Last(y, bits) * 64 + x < 0x1000
    ensures ShiftRight(Last(y, bits) * 64 + x, bits - 2) % 256 == Join(y, x, bits)
    ensures LowBits(Last(y, bits) * 64 + x, bits - 2) == Last(x, bits - 2)
  {
    hide ShiftRight, LowBits;
    if bits == 6 {
      TakeTwo(y, x);
    } else if bits == 4 {
      TakeFour(y % 16, x);
    } else {
      TakeSix(y % 4, x);
    }
  }

  lemma TakeTwo(z: int, x: int)
    requires 0 <= z < 64 && 0 <= x < 64
    ensures ShiftRight(z * 64 + x, 4) % 256 == z * 4 + x / 16 && LowBits(z * 64 + x, 4) == x % 16
  {
    hide ShiftRight, LowBits;
    ShiftFour(z * 64 + x);
    DropFour(z, x);
  }

  lemma TakeFour(z: int, x: int)
    requires 0 <= z < 16 && 0 <= x < 64
    ensures ShiftRight(z * 64 + x, 2) % 256 == z * 16 + x / 4 && LowBits(z * 64 + x, 2) == x % 4
  {
    hide ShiftRight, LowBits;
    ShiftFour(z * 64 + x);
    DropTwo(z, x);
  }

  lemma TakeSix(z: int, x: int)
    requires 0 <= z < 4 && 0 <= x < 64
    ensures ShiftRight(z * 64 + x, 0) % 256 == z * 64 + x && LowBits(z * 64 + x, 0) == 0
  {
    ShiftFour(z * 64 + x);
  }

  lemma DropFour(z: int, x: int)
    ensures (z * 64 + x) / 16 == 4 * z + x / 16 && (z * 64 + x) % 16 == x % 16
  {
  }

  lemma DropTwo(z: int, x: int)
    ensures (z * 64 + x) / 4 == 16 * z + x / 4 && (z * 64 + x) % 4 == x % 4
  {
  }

  /** With bits 6, 4 or 2 stray, the next sextet completes a byte, and its own last bits are stray. */
  lemma DrainOne(s: seq<Sextet>, y: Sextet, bits: nat)
    requires s != [] && bits in {2, 4, 6}
    ensures Drained(s, Last(y, bits), bits) == [Join(y, s[0], bits)] + Drained(s[1..], Last(s[0], bits - 2), bits - 2)
  {
    TakeBits(y, s[0], bits);
    DrainStep(s, Last(y, bits), bits, Join(y, s[0], bits), Last(s[0], bits - 2));
  }

  lemma DrainStep(s: seq<Sextet>, accumulator: int, bits: nat, byte: int, left: int)
    requires s != [] && bits >= 2
    requires ShiftRight(accumulator * 64 + s[0], bits - 2) % 256 == byte
    requires LowBits(accumulator * 64 + s[0], bits - 2) == left
    ensures Drained(s, accumulator, bits) == [byte] + Drained(s[1..], left, bits - 2)
  {
  }

  /** The last `bits` bits of a sextet. */
  function Last(y: int, bits: nat): int
    requires bits in {0, 2, 4, 6}
  {
    if bits == 6 then y else if bits == 4 then y % 16 else if bits == 2 then y % 4 else 0
  }

  /** The accumulator gives the bytes of each group of four sextets, and drops what is stray at the end. */
  lemma {:induction false} DrainedIsDecode(s: seq<Sextet>)
    ensures Drained(s, 0, 0) == Decode(s)
  {
    if s != [] {
      assert Drained(s, 0, 0) == Drained(s[1..], s[0], 6);
      if |s| > 1 {
        DrainOne(s[1..], s[0], 6);
        assert s[1..][1..] == s[2..];
        if |s| > 2 {
          DrainOne(s[2..], s[1], 4);
          assert s[2..][1..] == s[3..];
          if |s| > 3 {
            DrainOne(s[3..], s[2], 2);
            assert s[3..][1..] == s[4..];
            DrainedIsDecode(s[4..]);
          }
        }
      }
    }
  }

  /** `fromBase64`: an accumulator that takes six bits at a time and gives eight. */
  method FromBase64(characters: string) returns (bytes: array<Byte>)
    requires AllLetters(characters)
    ensures bytes[..] == Decode(SextetsOf(characters))
  {
    hide Decode, Drained, ShiftRight, LowBits, SextetOf;
    ghost var s := SextetsOf(characters);
    DecodeLength(s);
    DrainedIsDecode(s);
    bytes := new Byte[|characters| * 6 / 8];
    var accumulator: int, bits: nat, written := 0, 0, 0;
    ghost var out: seq<Byte> := [];
    assert s[0..] == s;
    for i := 0 to |characters|
      invariant written == |out| <= bytes.Length == |Decode(s)|
      invariant bytes[..written] == out
      invariant out + Drained(s[i..], accumulator, bits) == Decode(s)
    {
      DrainNext(s, i, accumulator, bits);
      accumulator := accumulator * 64 + SextetOf(characters[i]);
      bits := bits + 6;
      if bits >= 8 {
        bits := bits - 8;
        out := out + [ShiftRight(accumulator, bits) % 256];
        bytes[written] := ShiftRight(accumulator, bits) % 256;
        written := written + 1;
        accumulator := LowBits(accumulator, bits);
      }
    }
    DrainedNone(s, accumulator, bits);
    assert bytes[..] == bytes[..written];
  }

  lemma DrainedNone(s: seq<Sextet>, accumulator: int, bits: nat)
    ensures Drained(s[|s|..], accumulator, bits) == []
  {
  }

  lemma DrainNext(s: seq<Sextet>, i: nat, accumulator: int, bits: nat)
    requires i < |s|
    ensures var a := accumulator * 64 + s[i];
            Drained(s[i..], accumulator, bits)
            == if bits + 6 >= 8 then
                 [ShiftRight(a, bits - 2) % 256] + Drained(s[i + 1..], LowBits(a, bits - 2), bits - 2)
               else Drained(s[i + 1..], a, bits + 6)
  {
    assert s[i..][1..] == s[i + 1..];
  }

  function Group(first: int, second: int, third: int): int {
    first * 0x1_0000 + second * 0x100 + third
  }

  lemma GroupSextets(first: int, second: int, third: int)
    requires 0 <= first < 256 && 0 <= second < 256 && 0 <= third < 256
    ensures Group(first, second, third) / 0x4_0000 % 64 == High(first)
    ensures Group(first, second, third) / 0x1000 % 64 == Join42(first, second)
    ensures Group(first, second, third) / 0x40 % 64 == Join24(second, third)
    ensures Group(first, second, third) % 64 == third % 64
  {
    GroupFirst(first / 4, first % 4, second, third);
    GroupSecond(first / 4, first % 4, second / 16, second % 16, third);
    GroupThird(0x100 * first + second, third / 64, third % 64);
    FourthOf(16 * first + second / 16, second % 16, third / 64);
  }

  lemma GroupFirst(a: int, b: int, second: int, third: int)
    requires 0 <= a < 64 && 0 <= b < 4 && 0 <= second < 256 && 0 <= third < 256
    ensures Group(4 * a + b, second, third) / 0x4_0000 % 64 == a
  {
  }

  lemma GroupSecond(a: int, b: int, c: int, d: int, third: int)
    requires 0 <= a < 64 && 0 <= b < 4 && 0 <= c < 16 && 0 <= d < 16 && 0 <= third < 256
    ensures Group(4 * a + b, 16 * c + d, third) / 0x1000 % 64 == 16 * b + c
  {
    assert Group(4 * a + b, 16 * c + d, third) / 0x1000 == 64 * a + (16 * b + c);
  }

  lemma GroupThird(rest: int, e: int, f: int)
    requires 0 <= e < 4 && 0 <= f < 64
    ensures (0x100 * rest + 64 * e + f) / 0x40 == 4 * rest + e && (0x100 * rest + 64 * e + f) % 64 == f
  {
  }

  lemma FourthOf(c: int, d: int, e: int)
    requires 0 <= d < 16 && 0 <= e < 4
    ensures (4 * (16 * c + d) + e) % 64 == 4 * d + e
  {
  }

  /** The four characters a group of one to three bytes is written as. */
  function GroupText(group: int, remaining: nat): string {
    [Letter(group / 0x4_0000 % 64)] + [Letter(group / 0x1000 % 64)] +
    (if remaining > 1 then [Letter(group / 0x40 % 64)] else "=") +
    (if remaining > 2 then [Letter(group % 64)] else "=")
  }

  function ByteOr0(bytes: seq<Byte>, i: nat): Byte {
    if i < |bytes| then bytes[i] else 0
  }

  /** What the loop adds from a byte on. */
  function Written(bytes: seq<Byte>): string {
    if bytes == [] then ""
    else
      var text := GroupText(Group(bytes[0], ByteOr0(bytes, 1), ByteOr0(bytes, 2)), |bytes|);
      if |bytes| <= 3 then text else text + Written(bytes[3..])
  }

  lemma GroupTextIs(bytes: seq<Byte>)
    requires bytes != []
    ensures GroupText(Group(bytes[0], ByteOr0(bytes, 1), ByteOr0(bytes, 2)), |bytes|)
            == if |bytes| >= 3 then
                 [Letter(High(bytes[0])), Letter(Join42(bytes[0], bytes[1])), Letter(Join24(bytes[1], bytes[2])),
                  Letter(bytes[2] % 64)]
               else if |bytes| == 2 then
                 [Letter(High(bytes[0])), Letter(Join42(bytes[0], bytes[1])), Letter(Join24(bytes[1], 0)), '=']
               else [Letter(High(bytes[0])), Letter(Join42(bytes[0], 0)), '=', '=']
  {
    GroupSextets(bytes[0], ByteOr0(bytes, 1), ByteOr0(bytes, 2));
  }

  /** The loop writes the letters of the sextets, and fills the last group up. */
  lemma {:induction false} WrittenIsEncode(bytes: seq<Byte>)
    ensures Written(bytes) == Letters(Encode(bytes)) + Padding(|bytes|)
  {
    hide Letter, GroupText, Group, ByteOr0, High, Join42, Join24;
    if bytes != [] {
      GroupTextIs(bytes);
    }
    if |bytes| >= 3 {
      WrittenIsEncode(bytes[3..]);
      WrittenOn(bytes);
      PaddingOn(|bytes|);
      var group := [High(bytes[0]), Join42(bytes[0], bytes[1]), Join24(bytes[1], bytes[2]), bytes[2] % 64];
      LettersAppend(group, Encode(bytes[3..]));
    }
  }

  lemma WrittenOn(bytes: seq<Byte>)
    requires |bytes| >= 3
    ensures Written(bytes)
            == GroupText(Group(bytes[0], ByteOr0(bytes, 1), ByteOr0(bytes, 2)), |bytes|) + Written(bytes[3..])
  {
    hide GroupText, Group, ByteOr0;
    if |bytes| == 3 {
      assert bytes[3..] == [];
    }
  }

  lemma PaddingOn(n: nat)
    requires n >= 3
    ensures Padding(n) == Padding(n - 3)
  {
  }

  lemma LettersAppend(a: seq<Sextet>, b: seq<Sextet>)
    ensures Letters(a + b) == Letters(a) + Letters(b)
  {
  }

  /** `toBase64`: three bytes at a time, the last group filled up with "=". */
  method ToBase64(bytes: seq<Byte>) returns (encoded: string)
    ensures encoded == Letters(Encode(bytes)) + Padding(|bytes|)
  {
    WrittenIsEncode(bytes);
    encoded := "";
    var index := 0;
    assert bytes[0..] == bytes;
    while index < |bytes|
      invariant 0 <= index
      invariant index < |bytes| ==> encoded + Written(bytes[index..]) == Written(bytes)
      invariant index >= |bytes| ==> encoded == Written(bytes)
    {
      ghost var before := encoded;
      var first := bytes[index];
      var second := if index + 1 < |bytes| then bytes[index + 1] else 0;
      var third := if index + 2 < |bytes| then bytes[index + 2] else 0;
      var group := Group(first, second, third);
      var remaining := |bytes| - index;
      encoded := encoded + [Letter(group / 0x4_0000 % 64)];
      encoded := encoded + [Letter(group / 0x1000 % 64)];
      encoded := encoded + (if remaining > 1 then [Letter(group / 0x40 % 64)] else "=");
      encoded := encoded + (if remaining > 2 then [Letter(group % 64)] else "=");
      WriteNext(bytes, index, before);
      index := index + 3;
    }
  }

  lemma WriteNext(bytes: seq<Byte>, index: nat, before: string)
    requires index < |bytes|
    ensures var group := Group(bytes[index], ByteOr0(bytes, index + 1), ByteOr0(bytes, index + 2));
            var remaining := |bytes| - index;
            before + [Letter(group / 0x4_0000 % 64)] + [Letter(group / 0x1000 % 64)]
            + (if remaining > 1 then [Letter(group / 0x40 % 64)] else "=")
            + (if remaining > 2 then [Letter(group % 64)] else "=")
            + (if index + 3 < |bytes| then Written(bytes[index + 3..]) else "")
            == before + Written(bytes[index..])
  {
    var rest := bytes[index..];
    assert |rest| > 3 ==> rest[3..] == bytes[index + 3..];
    assert ByteOr0(rest, 1) == ByteOr0(bytes, index + 1) && ByteOr0(rest, 2) == ByteOr0(bytes, index + 2);
  }

  /** `fromHex`. */
  method FromHex(hex: string) returns (bytes: array<Byte>)
    requires |hex| % 2 == 0 && forall i :: 0 <= i < |hex| ==> IsHexDigit(hex[i])
    ensures bytes[..] == HexBytes(hex)
  {
    bytes := new Byte[|hex| / 2](_ => 0);
    for index := 0 to bytes.Length
      invariant forall k :: 0 <= k < index ==> bytes[k] == HexBytes(hex)[k]
    {
      bytes[index] := HexValue(hex[index * 2]) * 16 + HexValue(hex[index * 2 + 1]);
    }
  }

  function HexBytes(hex: string): (bytes: seq<Byte>)
    requires |hex| % 2 == 0 && forall i :: 0 <= i < |hex| ==> IsHexDigit(hex[i])
    ensures |bytes| == |hex| / 2
  {
    seq(|hex| / 2, k requires 0 <= k < |hex| / 2 => HexValue(hex[2 * k]) * 16 + HexValue(hex[2 * k + 1]))
  }

  // ---------- Digests ----------

  predicate SpaceChar(c: char) {
    (c as int) < 0x1_0000 && Texts.IsSpace(c as int)
  }

  function Trim(s: string): string {
    if s == "" then s
    else if SpaceChar(s[0]) then Trim(s[1..])
    else if SpaceChar(s[|s| - 1]) then Trim(s[..|s| - 1])
    else s
  }

  /** How many letters of the alphabet a text begins with. */
  function LetterRun(s: string): (n: nat)
    ensures n <= |s| && AllLetters(s[..n]) && (n < |s| ==> !InAlphabet(s[n]))
  {
    if s == "" || !InAlphabet(s[0]) then 0 else 1 + LetterRun(s[1..])
  }

  /** What `SRI_PATTERN` captures: one or more letters, with at most two "=" after them. */
  function SriBody(s: string): (body: Option<string>)
    ensures body.Some? ==> AllLetters(body.value)
  {
    if !(PREFIX <= s) then None
    else
      var rest := s[|PREFIX|..];
      var n := LetterRun(rest);
      if n > 0 && (rest[n..] == "" || rest[n..] == "=" || rest[n..] == "==") then Some(rest[..n]) else None
  }

  predicate IsHex(s: string) {
    |s| == 128 && forall i :: 0 <= i < |s| ==> IsHexDigit(s[i])
  }

  /** The bytes a declared digest names. */
  function Sha512(declared: string): Result<seq<Byte>, IntegrityError> {
    var trimmed := Trim(declared);
    var sri := SriBody(trimmed);
    if sri.Some? then
      var bytes := Decode(SextetsOf(sri.value));
      if |bytes| != SHA512_BYTES then Err(MalformedDigest) else Ok(bytes)
    else if IsHex(trimmed) then Ok(HexBytes(trimmed))
    else Err(MalformedDigest)
  }

  method ParseSha512(declared: string) returns (r: Result<seq<Byte>, IntegrityError>)
    ensures r == Sha512(declared)
  {
    var trimmed := Trim(declared);
    var sri := SriBody(trimmed);
    if sri.Some? {
      var bytes := FromBase64(sri.value);
      if bytes.Length != SHA512_BYTES {
        return Err(MalformedDigest);
      }
      return Ok(bytes[..]);
    }
    if IsHex(trimmed) {
      var bytes := FromHex(trimmed);
      return Ok(bytes[..]);
    }
    return Err(MalformedDigest);
  }

  function Formatted(digest: seq<Byte>): string {
    PREFIX + Letters(Encode(digest)) + Padding(|digest|)
  }

  method FormatSha512(digest: seq<Byte>) returns (s: string)
    ensures s == Formatted(digest)
  {
    var encoded := ToBase64(digest);
    s := PREFIX + encoded;
  }

  /** What is written is as many groups of four as there are groups of three bytes, the last begun ones filled up. */
  lemma {:induction false} WholeGroups(bytes: seq<Byte>)
    ensures |Written(bytes)| == (|bytes| + 2) / 3 * 4
  {
    hide Group, ByteOr0;
    if |bytes| > 3 {
      WholeGroups(bytes[3..]);
    }
  }

  /** The last test vector of section 10 of RFC 4648: "foobar". */
  lemma EncodesFoobar()
    ensures Letters(Encode([102, 111, 111, 98, 97, 114])) == "Zm9vYmFy"
  {
    var bytes: seq<Byte> := [102, 111, 111, 98, 97, 114];
    assert bytes[3..] == [98, 97, 114] && bytes[3..][3..] == [];
    assert Encode([]) == [];
    assert Encode(bytes[3..]) == [24, 38, 5, 50];
    assert Encode(bytes) == [25, 38, 61, 47, 24, 38, 5, 50];
  }

  lemma TrimKeeps(s: string)
    requires s != "" && !SpaceChar(s[0]) && !SpaceChar(s[|s| - 1])
    ensures Trim(s) == s
  {
  }

  lemma {:induction false} LetterRunOf(body: string, tail: string)
    requires AllLetters(body) && (tail == "" || !InAlphabet(tail[0]))
    ensures LetterRun(body + tail) == |body|
  {
    if body == "" {
      assert body + tail == tail;
    } else {
      LetterRunOf(body[1..], tail);
      assert (body + tail)[1..] == body[1..] + tail;
    }
  }

  lemma SriBodyOf(body: string, pad: string)
    requires body != "" && AllLetters(body) && pad in {"", "=", "=="}
    ensures SriBody(PREFIX + body + pad) == Some(body)
    ensures Trim(PREFIX + body + pad) == PREFIX + body + pad
  {
    var s := PREFIX + body + pad;
    var rest := s[|PREFIX|..];
    assert rest == body + pad;
    LetterRunOf(body, pad);
    assert rest[..|body|] == body && rest[|body|..] == pad;
    assert s[0] == 's';
    assert s[|s| - 1] == if pad == "" then body[|body| - 1] else '=';
    TrimKeeps(s);
  }

  /** A digest written out reads back as itself. */
  lemma FormatRoundTrip(digest: seq<Byte>)
    requires |digest| == SHA512_BYTES
    ensures Sha512(Formatted(digest)) == Ok(digest)
  {
    EncodeLength(digest);
    LettersRoundTrip(Encode(digest));
    DecodeInvertsEncode(digest);
    SriBodyOf(Letters(Encode(digest)), Padding(|digest|));
  }

  function Hex(digest: seq<Byte>, upper: bool): (s: string)
    ensures |s| == 2 * |digest|
  {
    seq(2 * |digest|, k requires 0 <= k < 2 * |digest| =>
      HexDigit(HalfOf(digest, k), upper))
  }

  function HalfOf(digest: seq<Byte>, k: nat): (v: int)
    requires k < 2 * |digest|
    ensures 0 <= v < 16
  {
    if k % 2 == 0 then digest[k / 2] / 16 else digest[k / 2] % 16
  }

  /** The hex spelling of a digest, in either case, reads as the same bytes. */
  lemma HexRoundTrip(digest: seq<Byte>, upper: bool)
    requires |digest| == SHA512_BYTES
    ensures Sha512(Hex(digest, upper)) == Ok(digest)
  {
    hide Sha512;
    HexReadBack(digest, upper);
    HexAccepted(Hex(digest, upper));
  }

  lemma HexReadBack(digest: seq<Byte>, upper: bool)
    ensures forall k :: 0 <= k < 2 * |digest| ==> IsHexDigit(Hex(digest, upper)[k])
    ensures HexBytes(Hex(digest, upper)) == digest
  {
    hide HexDigit, HexValue, IsHexDigit, HalfOf;
    var s := Hex(digest, upper);
    forall k | 0 <= k < |s| ensures IsHexDigit(s[k]) && HexValue(s[k]) == HalfOf(digest, k) {
      HexDigitRoundTrip(HalfOf(digest, k), upper);
    }
    forall k | 0 <= k < |digest| ensures HexBytes(s)[k] == digest[k] {
      Halves(digest, k);
    }
  }

  lemma Halves(digest: seq<Byte>, k: nat)
    requires k < |digest|
    ensures HalfOf(digest, 2 * k) * 16 + HalfOf(digest, 2 * k + 1) == digest[k]
  {
  }

  /** 128 hex digits are accepted, and read two by two. */
  lemma HexAccepted(s: string)
    requires IsHex(s)
    ensures Sha512(s) == Ok(HexBytes(s))
  {
    TrimKeeps(s);
    assert !(PREFIX <= s) by {
      assert PREFIX[0] == 's' && s[0] != 's';
    }
  }

  lemma HexDigitRoundTrip(v: int, upper: bool)
    requires 0 <= v < 16
    ensures IsHexDigit(HexDigit(v, upper)) && HexValue(HexDigit(v, upper)) == v
  {
  }

  /** The spelling is "sha512-", a body of letters, and `pads` "=". */
  ghost predicate SpelledSri(s: string, body: string, pads: nat) {
    && pads <= 2 && AllLetters(body)
    && s == PREFIX + body + Pads(pads)
  }

  function Pads(n: nat): string {
    if n == 0 then "" else if n == 1 then "=" else "=="
  }

  /** An SRI spelling is accepted exactly when it has 86 letters before at most two "=". */
  lemma SriAcceptedIff(declared: string)
    requires PREFIX <= Trim(declared)
    ensures Sha512(declared).Ok? <==> exists body, pads :: SpelledSri(Trim(declared), body, pads) && |body| == 86
  {
    var s := Trim(declared);
    assert !IsHex(s) by {
      assert s[0] == PREFIX[0] == 's';
    }
    if Sha512(declared).Ok? {
      var body, pads := SpellingOf(s);
      DecodeLength(SextetsOf(body));
      assert SpelledSri(s, body, pads) && |body| == 86;
    }
    forall body, pads | SpelledSri(s, body, pads) && |body| == 86
      ensures Sha512(declared).Ok?
    {
      SriBodyOf(body, Pads(pads));
      DecodeLength(SextetsOf(body));
    }
  }

  ghost predicate AllSpace(s: string) {
    forall i :: 0 <= i < |s| ==> SpaceChar(s[i])
  }

  /** A spelling of a digest: its SRI, of 86 letters, or 128 hex digits. */
  ghost predicate Spelling(s: string) {
    IsHex(s) || exists body, pads :: SpelledSri(s, body, pads) && |body| == 86
  }

  /** What is trimmed is white space, at the start and at the end, and all of it. */
  lemma {:induction false} TrimMeaning(s: string) returns (before: string, after: string)
    ensures AllSpace(before) && AllSpace(after) && s == before + Trim(s) + after
  {
    hide SpaceChar;
    before, after := "", "";
    if s != "" {
      if SpaceChar(s[0]) {
        before, after := TrimMeaning(s[1..]);
        before := [s[0]] + before;
        assert s == [s[0]] + s[1..];
      } else if SpaceChar(s[|s| - 1]) {
        before, after := TrimMeaning(s[..|s| - 1]);
        after := after + [s[|s| - 1]];
        assert s == s[..|s| - 1] + [s[|s| - 1]];
      }
    }
  }

  lemma {:induction false} TrimLeaves(before: string, core: string, after: string)
    requires AllSpace(before) && AllSpace(after)
    requires core != "" && !SpaceChar(core[0]) && !SpaceChar(core[|core| - 1])
    ensures Trim(before + core + after) == core
    decreases |before| + |after|
  {
    hide SpaceChar;
    var s := before + core + after;
    if before != "" {
      TrimLeaves(before[1..], core, after);
      assert s[0] == before[0] && s[1..] == before[1..] + core + after;
    } else if after != "" {
      TrimLeaves(before, core, after[..|after| - 1]);
      assert s[0] == core[0] && s[|s| - 1] == after[|after| - 1];
      assert s[..|s| - 1] == before + core + after[..|after| - 1];
    } else {
      assert s == core;
    }
  }

  /** No spelling begins or ends with white space. */
  lemma SpellingEnds(s: string)
    requires Spelling(s)
    ensures s != "" && !SpaceChar(s[0]) && !SpaceChar(s[|s| - 1])
  {
    if !IsHex(s) {
      var body, pads :| SpelledSri(s, body, pads) && |body| == 86;
      assert s[0] == PREFIX[0] == 's';
      var last := s[|s| - 1];
      assert if pads == 0 then last == body[85] else last == '=';
    }
  }

  /** A digest is read exactly from one of its spellings with any white space around it. */
  lemma AcceptedIff(declared: string)
    ensures Sha512(declared).Ok?
            <==> exists before, core, after :: declared == before + core + after && AllSpace(before) && AllSpace(after)
                                               && Spelling(core)
  {
    hide Trim, Decode, SpaceChar, Spelling, SpelledSri, IsHex, SriBody;
    var before, after := TrimMeaning(declared);
    TrimmedAccepted(declared);
    if Sha512(declared).Ok? {
      assert declared == before + Trim(declared) + after && Spelling(Trim(declared));
    }
    if exists b, core, a :: declared == b + core + a && AllSpace(b) && AllSpace(a) && Spelling(core) {
      var b, core, a :| declared == b + core + a && AllSpace(b) && AllSpace(a) && Spelling(core);
      SpellingEnds(core);
      TrimLeaves(b, core, a);
    }
  }

  lemma TrimmedAccepted(declared: string)
    ensures Sha512(declared).Ok? <==> Spelling(Trim(declared))
  {
    hide Trim, Decode, HexBytes;
    var s := Trim(declared);
    if PREFIX <= s {
      SriAcceptedIff(declared);
      assert s[0] == PREFIX[0] == 's';
    }
  }

  lemma SpellingOf(s: string) returns (body: string, pads: nat)
    requires SriBody(s).Some?
    ensures SriBody(s) == Some(body) && SpelledSri(s, body, pads)
  {
    var rest := s[|PREFIX|..];
    var n := LetterRun(rest);
    body, pads := rest[..n], |rest| - n;
    assert rest[n..] == Pads(pads);
    assert s == PREFIX + rest && rest == body + rest[n..];
  }

  /**
   Two SRI spellings, each with none to two "=", name the same digest exactly when their first 85 letters agree and
   their last letters differ at most in the four stray bits; how many "=" there are makes no difference.
   */
  lemma SameDigestIff(one: string, onePads: nat, other: string, otherPads: nat)
    requires |one| == |other| == 86 && AllLetters(one) && AllLetters(other) && onePads <= 2 && otherPads <= 2
    ensures var first, second := Sha512(PREFIX + one + Pads(onePads)), Sha512(PREFIX + other + Pads(otherPads));
            && first.Ok? && second.Ok?
            && (first == second <==> one[..85] == other[..85] && SextetOf(one[85]) / 16 == SextetOf(other[85]) / 16)
  {
    hide Decode, Trim, SriBody, SextetOf;
    SriBodyOf(one, Pads(onePads));
    SriBodyOf(other, Pads(otherPads));
    var s, t := SextetsOf(one), SextetsOf(other);
    DecodeLength(s);
    DecodeLength(t);
    SameBytes(s, t);
    LettersSame(one[..85], other[..85]);
    assert s[..85] == SextetsOf(one[..85]) && t[..85] == SextetsOf(other[..85]);
  }

  lemma LettersSame(a: string, b: string)
    requires |a| == |b| && AllLetters(a) && AllLetters(b)
    ensures SextetsOf(a) == SextetsOf(b) <==> a == b
  {
    if SextetsOf(a) == SextetsOf(b) {
      forall i | 0 <= i < |a| ensures a[i] == b[i] {
        AlphabetHas(a[i]);
        AlphabetHas(b[i]);
        assert SextetsOf(a)[i] == SextetsOf(b)[i];
      }
    }
  }
}

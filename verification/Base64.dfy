/** The streaming encoder of the Authorization header, against section 4 of RFC 4648. */
module Base64 {
  import opened Market
  import opened Sequences

  type Byte = x: int | 0 <= x < 256

  // ---- section 4 of RFC 4648

  /** Table 1 of the RFC: the character of a 6-bit group. */
  function Digit(v: int): char
    requires 0 <= v < 64
  {
    if v < 26 then (v + 'A' as int) as char
    else if v < 52 then (v - 26 + 'a' as int) as char
    else if v < 62 then (v - 52 + '0' as int) as char
    else if v == 62 then '+'
    else '/'
  }

  /** Three bytes as one 24-bit group. */
  function Join(x: int, y: int, z: int): int
  {
    x * 0x1_0000 + y * 0x100 + z
  }

  /** A 24-bit group, taken as four 6-bit groups. */
  function Group(n: int): (s: string)
    requires 0 <= n < 0x100_0000
    ensures |s| == 4
  {
    [Digit(n / 0x4_0000), Digit(n / 0x1000 % 64), Digit(n / 64 % 64), Digit(n % 64)]
  }

  function GroupOf(x: Byte, y: Byte, z: Byte): string
  {
    EightBits(x, y, z);
    Group(Join(x, y, z))
  }

  /** A final group of fewer than 24 bits is filled up with zero bits, and its missing characters with '='. */
  function Final(b: seq<Byte>): string
  {
    if |b| == 1 then GroupOf(b[0], 0, 0)[..2] + "=="
    else if |b| == 2 then GroupOf(b[0], b[1], 0)[..3] + "="
    else ""
  }

  /** Any code that works group by group and treats the last, incomplete group apart. */
  function Code(group: (Byte, Byte, Byte) -> string, final: seq<Byte> -> string, b: seq<Byte>): string
  {
    if |b| < 3 then final(b) else group(b[0], b[1], b[2]) + Code(group, final, b[3..])
  }

  function Encode(b: seq<Byte>): string
  {
    Code(GroupOf, Final, b)
  }

  /** The value of a character, or -1. */
  function Value(c: char): (v: int)
    ensures -1 <= v < 64 && (v >= 0 ==> Digit(v) == c)
  {
    if 'A' <= c <= 'Z' then c as int - 'A' as int
    else if 'a' <= c <= 'z' then c as int - 'a' as int + 26
    else if '0' <= c <= '9' then c as int - '0' as int + 52
    else if c == '+' then 62
    else if c == '/' then 63
    else -1
  }

  datatype Decoded = Bytes(bytes: seq<Byte>) | Malformed

  /** Four 6-bit groups as one 24-bit group. */
  function Quad(a: int, b: int, c: int, d: int): int
  {
    a * 0x4_0000 + b * 0x1000 + c * 64 + d
  }

  /** A 24-bit group, taken as three bytes. */
  function Octets(n: int): seq<Byte>
    requires 0 <= n < 0x100_0000
  {
    [n / 0x1_0000, n / 0x100 % 256, n % 256]
  }

  /** Four characters without padding. */
  function DecodeFull(s: string): Decoded
    requires |s| == 4
  {
    var a, b, c, d := Value(s[0]), Value(s[1]), Value(s[2]), Value(s[3]);
    if a < 0 || b < 0 || c < 0 || d < 0 then Malformed
    else Bytes(Octets(Quad(a, b, c, d)))
  }

  /** The last four characters, which may be padded; the unused bits must be zero. */
  function DecodeLast(s: string): Decoded
    requires |s| == 4
  {
    if s[3] != '=' then DecodeFull(s)
    else
      var a, b, c := Value(s[0]), Value(s[1]), Value(s[2]);
      if s[2] == '=' then
        if a < 0 || b < 0 || b % 16 != 0 then Malformed else Bytes([a * 4 + b / 16])
      else if a < 0 || b < 0 || c < 0 || c % 4 != 0 then Malformed
      else Bytes([a * 4 + b / 16, b % 16 * 16 + c / 4])
  }

  function Decode(s: string): Decoded
  {
    if s == "" then Bytes([])
    else if |s| < 4 then Malformed
    else if |s| == 4 then DecodeLast(s)
    else
      match (DecodeFull(s[..4]), Decode(s[4..]))
      case (Bytes(x), Bytes(y)) => Bytes(x + y)
      case _ => Malformed
  }

  // ---- what the encoding is good for

  lemma ValueOfDigit(v: int)
    requires 0 <= v < 64
    ensures Value(Digit(v)) == v && Digit(v) != '='
  {
  }

  lemma SixBits(n: int)
    requires 0 <= n < 0x100_0000
    ensures Quad(n / 0x4_0000, n / 0x1000 % 64, n / 64 % 64, n % 64) == n
  {
    assert n / 64 / 64 == n / 0x1000 && n / 0x1000 / 64 == n / 0x4_0000;
  }

  lemma Div256(n: int, q: int, r: int)
    requires n == q * 256 + r && 0 <= r < 256
    ensures n / 256 == q && n % 256 == r
  {
  }

  lemma Div65536(n: int, q: int, r: int)
    requires n == q * 0x1_0000 + r && 0 <= r < 0x1_0000
    ensures n / 0x1_0000 == q
  {
  }

  lemma EightBits(x: Byte, y: Byte, z: Byte)
    ensures 0 <= Join(x, y, z) < 0x100_0000
    ensures Octets(Join(x, y, z)) == [x, y, z]
  {
    Div256(Join(x, y, z), x * 256 + y, z);
    Div256(x * 256 + y, x, y);
    Div65536(Join(x, y, z), x, y * 256 + z);
  }

  lemma GroupDecodes(n: int)
    requires 0 <= n < 0x100_0000
    ensures DecodeFull(Group(n)) == Bytes(Octets(n)) && Group(n)[3] != '='
  {
    var a, b, c, d := n / 0x4_0000, n / 0x1000 % 64, n / 64 % 64, n % 64;
    SixBits(n);
    ValueOfDigit(a);
    ValueOfDigit(b);
    ValueOfDigit(c);
    ValueOfDigit(d);
    assert Group(n) == [Digit(a), Digit(b), Digit(c), Digit(d)];
  }

  lemma FullRoundTrip(x: Byte, y: Byte, z: Byte)
    ensures |GroupOf(x, y, z)| == 4
    ensures DecodeFull(GroupOf(x, y, z)) == Bytes([x, y, z]) && GroupOf(x, y, z)[3] != '='
  {
    EightBits(x, y, z);
    GroupDecodes(Join(x, y, z));
  }

  lemma DecodeOne(a: int, b: int)
    requires 0 <= a < 64 && 0 <= b < 64 && b % 16 == 0
    ensures 0 <= a * 4 + b / 16 < 256
    ensures DecodeLast([Digit(a), Digit(b), '=', '=']) == Bytes([a * 4 + b / 16])
  {
    ValueOfDigit(a);
    ValueOfDigit(b);
  }

  lemma DecodeTwo(a: int, b: int, c: int)
    requires 0 <= a < 64 && 0 <= b < 64 && 0 <= c < 64 && c % 4 == 0
    ensures 0 <= a * 4 + b / 16 < 256 && 0 <= b % 16 * 16 + c / 4 < 256
    ensures DecodeLast([Digit(a), Digit(b), Digit(c), '=']) == Bytes([a * 4 + b / 16, b % 16 * 16 + c / 4])
  {
    ValueOfDigit(a);
    ValueOfDigit(b);
    ValueOfDigit(c);
  }

  lemma OneRoundTrip(x: Byte)
    ensures DecodeLast(Final([x])) == Bytes([x])
  {
    GroupDigits(x, 0, 0);
    DivMod(x % 4 * 16, 16, x % 4, 0);
    DecodeOne(x / 4, x % 4 * 16);
    assert Final([x]) == [Digit(x / 4), Digit(x % 4 * 16), '=', '='];
  }

  /** The three characters of two bytes hold all their bits. */
  lemma TwoBytes(x: Byte, y: Byte)
    ensures
      var a, b, c := x / 4, x % 4 * 16 + y / 16, y % 16 * 4;
      && 0 <= a < 64 && 0 <= b < 64 && 0 <= c < 64 && c % 4 == 0
      && a * 4 + b / 16 == x && b % 16 * 16 + c / 4 == y
  {
    DivMod(x % 4 * 16 + y / 16, 16, x % 4, y / 16);
    DivMod(y % 16 * 4, 4, y % 16, 0);
  }

  lemma TwoRoundTrip(x: Byte, y: Byte)
    ensures DecodeLast(Final([x, y])) == Bytes([x, y])
  {
    GroupDigits(x, y, 0);
    assert Final([x, y]) == [Digit(x / 4), Digit(x % 4 * 16 + y / 16), Digit(y % 16 * 4), '='];
    TwoBytes(x, y);
    DecodeTwo(x / 4, x % 4 * 16 + y / 16, y % 16 * 4);
  }

  lemma EncodeCons(b: seq<Byte>)
    requires |b| >= 3
    ensures Encode(b) == GroupOf(b[0], b[1], b[2]) + Encode(b[3..])
  {
  }

  /** How many groups of three, the last one perhaps short. */
  function Groups(n: nat): nat
  {
    (n + 2) / 3
  }

  lemma GroupsStep(n: nat)
    ensures Groups(n) == if n == 0 then 0 else if n < 3 then 1 else 1 + Groups(n - 3)
  {
  }

  lemma FinalLength(b: seq<Byte>)
    requires |b| < 3
    ensures Encode(b) == Final(b) && |Final(b)| == if |b| == 0 then 0 else 4
  {
    if b != [] {
      FullRoundTrip(b[0], if |b| == 1 then 0 else b[1], 0);
    }
  }

  /** Four characters for every three bytes, rounded up. */
  lemma {:induction false} EncodeLength(b: seq<Byte>)
    ensures |Encode(b)| == Groups(|b|) * 4
    decreases |b|
  {
    GroupsStep(|b|);
    if |b| >= 3 {
      EncodeCons(b);
      FullRoundTrip(b[0], b[1], b[2]);
      EncodeLength(b[3..]);
    } else {
      FinalLength(b);
    }
  }

  lemma LastRoundTrip(b: seq<Byte>)
    requires 1 <= |b| <= 3
    ensures |Encode(b)| == 4 && DecodeLast(Encode(b)) == Bytes(b)
  {
    EncodeLength(b);
    if |b| == 1 {
      OneRoundTrip(b[0]);
      assert b == [b[0]];
    } else if |b| == 2 {
      TwoRoundTrip(b[0], b[1]);
      assert b == [b[0], b[1]];
    } else {
      FullRoundTrip(b[0], b[1], b[2]);
      EncodeCons(b);
      assert Encode(b[3..]) == "";
      assert GroupOf(b[0], b[1], b[2]) + "" == GroupOf(b[0], b[1], b[2]);
      assert b == [b[0], b[1], b[2]];
    }
  }

  /** Decoding what was encoded gives the bytes back. */
  lemma {:induction false} RoundTrip(b: seq<Byte>)
    ensures Decode(Encode(b)) == Bytes(b)
    decreases |b|
  {
    if 1 <= |b| <= 3 {
      LastRoundTrip(b);
    } else if |b| > 3 {
      var g, rest := GroupOf(b[0], b[1], b[2]), Encode(b[3..]);
      RoundTrip(b[3..]);
      EncodeLength(b[3..]);
      FullRoundTrip(b[0], b[1], b[2]);
      EncodeCons(b);
      assert (g + rest)[..4] == g && (g + rest)[4..] == rest;
      assert b == [b[0], b[1], b[2]] + b[3..];
    }
  }

  lemma QuadDigits(a: int, b: int, c: int, d: int)
    requires 0 <= a < 64 && 0 <= b < 64 && 0 <= c < 64 && 0 <= d < 64
    ensures Group(Quad(a, b, c, d)) == [Digit(a), Digit(b), Digit(c), Digit(d)]
  {
    var n := Quad(a, b, c, d);
    DivMod(n, 64, a * 0x1000 + b * 64 + c, d);
    DivMod(a * 0x1000 + b * 64 + c, 64, a * 64 + b, c);
    DivMod(a * 64 + b, 64, a, b);
    assert n / 0x1000 == n / 64 / 64 && n / 0x4_0000 == n / 64 / 64 / 64;
  }

  lemma OctetsJoin(n: int)
    requires 0 <= n < 0x100_0000
    ensures var o := Octets(n); Join(o[0], o[1], o[2]) == n
  {
    assert n / 0x100 / 0x100 == n / 0x1_0000;
  }

  lemma FullInverse(s: string)
    requires |s| == 4 && DecodeFull(s).Bytes?
    ensures var o := DecodeFull(s).bytes; |o| == 3 && GroupOf(o[0], o[1], o[2]) == s
  {
    var a, b, c, d := Value(s[0]), Value(s[1]), Value(s[2]), Value(s[3]);
    QuadDigits(a, b, c, d);
    OctetsJoin(Quad(a, b, c, d));
    assert s == [Digit(a), Digit(b), Digit(c), Digit(d)];
  }

  lemma OneInverse(a: int, b: int)
    requires 0 <= a < 64 && 0 <= b < 64 && b % 16 == 0
    ensures 0 <= a * 4 + b / 16 < 256 && Final([a * 4 + b / 16]) == [Digit(a), Digit(b), '=', '=']
  {
    var x := a * 4 + b / 16;
    DivMod(x, 4, a, b / 16);
    GroupDigits(x, 0, 0);
  }

  lemma TwoInverse(a: int, b: int, c: int)
    requires 0 <= a < 64 && 0 <= b < 64 && 0 <= c < 64 && c % 4 == 0
    ensures 0 <= a * 4 + b / 16 < 256 && 0 <= b % 16 * 16 + c / 4 < 256
    ensures Final([a * 4 + b / 16, b % 16 * 16 + c / 4]) == [Digit(a), Digit(b), Digit(c), '=']
  {
    var x, y := a * 4 + b / 16, b % 16 * 16 + c / 4;
    DivMod(x, 4, a, b / 16);
    DivMod(y, 16, b % 16, c / 4);
    GroupDigits(x, y, 0);
  }

  lemma LastInverse(s: string)
    requires |s| == 4 && DecodeLast(s).Bytes?
    ensures Encode(DecodeLast(s).bytes) == s
  {
    var a, b, c := Value(s[0]), Value(s[1]), Value(s[2]);
    if s[3] != '=' {
      FullInverse(s);
      var o := DecodeFull(s).bytes;
      EncodeCons(o);
      assert Encode(o[3..]) == "" && s + "" == s;
    } else if s[2] == '=' {
      OneInverse(a, b);
      assert s == [Digit(a), Digit(b), '=', '='];
    } else {
      TwoInverse(a, b, c);
      assert s == [Digit(a), Digit(b), Digit(c), '='];
    }
  }

  lemma {:induction false} DecodeInverse(s: string)
    requires Decode(s).Bytes?
    ensures Encode(Decode(s).bytes) == s
    decreases |s|
  {
    if |s| == 4 {
      LastInverse(s);
    } else if s != "" {
      var o, rest := DecodeFull(s[..4]).bytes, Decode(s[4..]).bytes;
      FullInverse(s[..4]);
      DecodeInverse(s[4..]);
      EncodeCons(o + rest);
      assert (o + rest)[3..] == rest && (o + rest)[0] == o[0] && (o + rest)[1] == o[1] && (o + rest)[2] == o[2];
      assert s == s[..4] + s[4..];
    }
  }

  /** The decoder accepts exactly the encodings, and reads each as the bytes it came from. */
  lemma DecodesIff(s: string, b: seq<Byte>)
    ensures Decode(s) == Bytes(b) <==> s == Encode(b)
  {
    if Decode(s) == Bytes(b) {
      DecodeInverse(s);
    }
    RoundTrip(b);
  }

  // ---- the accumulator loop

  const UPPER: string := "ABCDEFGHIJKLMNOPQRSTUVWXYZ"
  const LOWER: string := "abcdefghijklmnopqrstuvwxyz"
  const TABLE: string := UPPER + LOWER + "0123456789+/"

  lemma TableIsAlphabet(v: int)
    requires 0 <= v < 64
    ensures |TABLE| == 64 && TABLE[v] == Digit(v)
  {
  }

  function Pow2(k: nat): nat
  {
    if k == 0 then 1 else 2 * Pow2(k - 1)
  }

  lemma Pow2Values()
    ensures Pow2(0) == 1 && Pow2(2) == 4 && Pow2(4) == 16 && Pow2(6) == 64
  {
    assert Pow2(1) == 2 && Pow2(3) == 8 && Pow2(5) == 32;
  }

  lemma {:induction false} Pow2Positive(k: nat)
    ensures Pow2(k) > 0
  {
    if k > 0 {
      Pow2Positive(k - 1);
    }
  }

  /** The low six bits of `val` shifted right by `shift`; the shift keeps the sign. */
  function Bits(val: int, shift: nat): (v: int)
    ensures 0 <= v < 64
  {
    Pow2Positive(shift);
    val / Pow2(shift) % 64
  }

  /** What the inner loop appends: six bits at a time while there are six. */
  function Emitted(val: int, valb: int): string
    decreases valb + 6
  {
    if valb < 0 then "" else [Digit(Bits(val, valb))] + Emitted(val, valb - 6)
  }

  /** The characters already settled by the first one or two bytes of a group. */
  function Started(b: seq<Byte>): string
  {
    if |b| == 1 then [Digit(b[0] / 4)]
    else if |b| != 2 then ""
    else [Digit(b[0] / 4), Digit(b[0] % 4 * 16 + b[1] / 16)]
  }

  /** Whole groups are coded on their own. */
  lemma {:induction false} CodeAppend(group: (Byte, Byte, Byte) -> string, final: seq<Byte> -> string,
                                      k: nat, a: seq<Byte>, b: seq<Byte>)
    requires |a| == 3 * k && final([]) == ""
    ensures Code(group, final, a + b) == Code(group, final, a) + Code(group, final, b)
    decreases k
  {
    if k == 0 {
      assert a + b == b;
    } else {
      assert (a + b)[3..] == a[3..] + b;
      CodeAppend(group, final, k - 1, a[3..], b);
      Associate(group(a[0], a[1], a[2]), Code(group, final, a[3..]), Code(group, final, b));
    }
  }

  /** `(val << 8) + c` in 32 bits. */
  function ShiftedIn(val: int, c: int): I32
  {
    WrapI32(val * 256 + c)
  }

  /** Two bytes as 16 bits. */
  function Pair(p: int, c: int): int
  {
    p * 256 + c
  }

  /** Losing the bits above the 32nd changes none of the low sixteen. */
  lemma WrapKeepsLow(val: int, c: Byte)
    ensures ShiftedIn(val, c) % 0x1_0000 == Pair(val % 256, c)
  {
    var x, q := val * 256 + c, (val * 256 + c + TWO_31) / TWO_32;
    assert ShiftedIn(val, c) == x - q * TWO_32;
    var h, l := val / 256, val % 256;
    assert x == h * 0x1_0000 + (l * 256 + c);
    assert x - q * TWO_32 == (h - q * 0x1_0000) * 0x1_0000 + (l * 256 + c);
    Mod65536(x - q * TWO_32, h - q * 0x1_0000, l * 256 + c);
  }

  lemma Mod65536(n: int, q: int, r: int)
    requires n == q * 0x1_0000 + r && 0 <= r < 0x1_0000
    ensures n % 0x1_0000 == r
  {
  }

  /** The bits the loop looks at lie among the low sixteen. */
  lemma LowBits(val: int, p: int, c: int)
    requires 0 <= p < 256 && 0 <= c < 256 && val % 0x1_0000 == Pair(p, c)
    ensures val % 256 == c
    ensures Bits(val, 0) == c % 64 && Bits(val, 2) == c / 4
    ensures Bits(val, 4) == p % 4 * 16 + c / 16 && Bits(val, 6) == p % 16 * 4 + c / 64
  {
    var h := val / 0x1_0000;
    Pow2Values();
    assert val == h * 0x1_0000 + p * 256 + c;
    Div256(val, h * 256 + p, c);
    DivMod(val, 4, (h * 256 + p) * 64 + c / 4, c % 4);
    DivMod(val, 16, (h * 256 + p) * 16 + c / 16, c % 16);
    DivMod(val, 64, (h * 256 + p) * 4 + c / 64, c % 64);
    DivMod((h * 256 + p) * 64 + c / 4, 64, h * 256 + p, c / 4);
    DivMod((h * 256 + p) * 16 + c / 16, 64, h * 64 + p / 4, p % 4 * 16 + c / 16);
    DivMod((h * 256 + p) * 4 + c / 64, 64, h * 16 + p / 16, p % 16 * 4 + c / 64);
  }

  lemma DivMod(n: int, d: int, q: int, r: int)
    requires d == 4 || d == 16 || d == 64
    requires n == q * d + r && 0 <= r < d
    ensures n / d == q && n % d == r
  {
    if d == 4 {
      assert n == q * 4 + r;
    } else if d == 16 {
      assert n == q * 16 + r;
    } else {
      assert n == q * 64 + r;
    }
  }

  /** One more byte: what the inner loop appends settles the next characters of the group. */
  lemma EmitStep(group: seq<Byte>, c: Byte, val: int)
    requires |group| < 3 && (group != [] ==> val % 0x1_0000 == Pair(group[|group| - 1], c)) && val % 256 == c
    ensures
      Started(group) + Emitted(val, 2 * |group| + 2)
        == if |group| == 2 then GroupOf(group[0], group[1], c) else Started(group + [c])
  {
    var p := if group == [] then val / 256 % 256 else group[|group| - 1];
    if group == [] {
      Low16(val, c);
    }
    LowBits(val, p, c);
    var e := Emitted(val, 2 * |group| + 2);
    if |group| == 2 {
      assert Emitted(val, 0) == [Digit(Bits(val, 0))] + "";
      assert e == [Digit(Bits(val, 6))] + Emitted(val, 0);
      GroupDigits(group[0], group[1], c);
    } else {
      assert e == [Digit(Bits(val, 2 * |group| + 2))] + "";
    }
  }

  lemma Low16(val: int, c: int)
    requires val % 256 == c
    ensures val % 0x1_0000 == Pair(val / 256 % 256, c)
  {
    var q := val / 256;
    assert val == q * 256 + c;
    Mod65536(val, q / 256, q % 256 * 256 + c);
  }

  lemma GroupDigits(x: Byte, y: Byte, z: Byte)
    ensures GroupOf(x, y, z)
         == [Digit(x / 4), Digit(x % 4 * 16 + y / 16), Digit(y % 16 * 4 + z / 64), Digit(z % 64)]
  {
    var n := Join(x, y, z);
    EightBits(x, y, z);
    DivMod(n, 64, x * 1024 + y * 4 + z / 64, z % 64);
    DivMod(x * 1024 + y * 4 + z / 64, 64, x * 16 + y / 16, y % 16 * 4 + z / 64);
    DivMod(x * 16 + y / 16, 64, x / 4, x % 4 * 16 + y / 16);
    assert n / 0x1000 == n / 64 / 64 && n / 0x4_0000 == n / 64 / 64 / 64;
  }

  /** What is left over at the end: the remaining bits, filled up with zeros. */
  lemma FinishStep(group: seq<Byte>, val: I32)
    requires 1 <= |group| <= 2 && val % 256 == group[|group| - 1]
    ensures
      Final(group)
        == Started(group) + [Digit(Bits(ShiftedIn(val, 0), 2 * |group| + 2))] + if |group| == 1 then "==" else "="
  {
    var c := group[|group| - 1];
    WrapKeepsLow(val, 0);
    LowBits(ShiftedIn(val, 0), c, 0);
    if |group| == 1 {
      GroupDigits(group[0], 0, 0);
    } else {
      GroupDigits(group[0], group[1], 0);
    }
  }

  /** What stands after `i` bytes: `k` whole groups, and what is settled of the next. */
  predicate Stands(group: (Byte, Byte, Byte) -> string, final: seq<Byte> -> string, started: seq<Byte> -> string,
                   input: seq<Byte>, i: nat, k: nat, out: string)
  {
    && i <= |input| && 3 * k <= i < 3 * k + 3
    && out == Code(group, final, input[..3 * k]) + started(input[3 * k..i])
  }

  predicate SoFar(input: seq<Byte>, i: nat, k: nat, out: string)
  {
    Stands(GroupOf, Final, Started, input, i, k, out)
  }

  /** One more byte inside a group. */
  lemma AdvanceInside(group: (Byte, Byte, Byte) -> string, final: seq<Byte> -> string, started: seq<Byte> -> string,
                      input: seq<Byte>, i: nat, k: nat, out: string, emitted: string)
    requires i < |input| && Stands(group, final, started, input, i, k, out) && i < 3 * k + 2
    requires started(input[3 * k..i]) + emitted == started(input[3 * k..i] + [input[i]])
    ensures Stands(group, final, started, input, i + 1, k, out + emitted)
  {
    assert input[3 * k..i + 1] == input[3 * k..i] + [input[i]];
    Associate(Code(group, final, input[..3 * k]), started(input[3 * k..i]), emitted);
  }

  /** The byte that completes a group. */
  lemma AdvanceWhole(group: (Byte, Byte, Byte) -> string, final: seq<Byte> -> string, started: seq<Byte> -> string,
                     input: seq<Byte>, k: nat, out: string, emitted: string)
    requires 3 * k + 2 < |input| && Stands(group, final, started, input, 3 * k + 2, k, out)
    requires final([]) == "" && started([]) == ""
    requires
      started(input[3 * k..3 * k + 2]) + emitted == group(input[3 * k], input[3 * k + 1], input[3 * k + 2])
    ensures Stands(group, final, started, input, 3 * k + 3, k + 1, out + emitted)
  {
    var whole, all := input[..3 * k], [input[3 * k], input[3 * k + 1], input[3 * k + 2]];
    assert input[..3 * (k + 1)] == whole + all;
    CodeAppend(group, final, k, whole, all);
    assert all[3..] == [] && Code(group, final, []) == "";
    var g := group(all[0], all[1], all[2]);
    assert Code(group, final, all) == g + "" == g;
    Associate(Code(group, final, whole), started(input[3 * k..3 * k + 2]), emitted);
    assert input[3 * (k + 1)..3 * k + 3] == [];
    assert out + emitted + "" == out + emitted;
  }

  /** One more byte. */
  lemma Advance(input: seq<Byte>, i: nat, k: nat, out: string, val: int)
    requires i < |input| && SoFar(input, i, k, out)
    requires i > 0 ==> val % 0x1_0000 == Pair(input[i - 1], input[i])
    requires val % 256 == input[i]
    ensures
      SoFar(input, i + 1, if i == 3 * k + 2 then k + 1 else k, out + Emitted(val, 2 * (i - 3 * k) + 2))
  {
    var group := input[3 * k..i];
    EmitStep(group, input[i], val);
    if i == 3 * k + 2 {
      AdvanceWhole(GroupOf, Final, Started, input, k, out, Emitted(val, 6));
    } else {
      AdvanceInside(GroupOf, Final, Started, input, i, k, out, Emitted(val, 2 * |group| + 2));
    }
  }

  function Padding(left: nat): string
  {
    if left == 0 then "" else if left == 1 then "==" else "="
  }

  /** The incomplete group at the end. */
  lemma CodeEnds(group: (Byte, Byte, Byte) -> string, final: seq<Byte> -> string, started: seq<Byte> -> string,
                 input: seq<Byte>, k: nat, out: string, ending: string)
    requires Stands(group, final, started, input, |input|, k, out) && final([]) == ""
    requires final(input[3 * k..]) == started(input[3 * k..]) + ending
    ensures Code(group, final, input) == out + ending
  {
    var whole, rest := input[..3 * k], input[3 * k..];
    assert input == whole + rest && input[3 * k..|input|] == rest;
    assert |rest| < 3 && Code(group, final, rest) == final(rest);
    CodeAppend(group, final, k, whole, rest);
    Associate(Code(group, final, whole), started(rest), ending);
  }

  lemma FinishShort(input: seq<Byte>, k: nat, out: string, val: I32)
    requires SoFar(input, |input|, k, out) && |input| > 3 * k && val % 256 == input[|input| - 1]
    ensures
      var left := |input| - 3 * k;
      Encode(input) == out + [Digit(Bits(ShiftedIn(val, 0), 2 * left + 2))] + Padding(left)
  {
    var rest, left := input[3 * k..], |input| - 3 * k;
    var last := [Digit(Bits(ShiftedIn(val, 0), 2 * left + 2))];
    FinishStep(rest, val);
    Associate(Started(rest), last, Padding(left));
    CodeEnds(GroupOf, Final, Started, input, k, out, last + Padding(left));
    Associate(out, last, Padding(left));
  }

  /** What is still missing after the last byte. */
  lemma Finish(input: seq<Byte>, k: nat, out: string, val: I32)
    requires SoFar(input, |input|, k, out) && (input != [] ==> val % 256 == input[|input| - 1])
    ensures
      var left := |input| - 3 * k;
      var last := if left == 0 then "" else [Digit(Bits(ShiftedIn(val, 0), 2 * left + 2))];
      Encode(input) == out + last + Padding(left)
  {
    if |input| == 3 * k {
      assert input[3 * k..] == [];
      CodeEnds(GroupOf, Final, Started, input, k, out, "");
      assert out + "" + "" == out + "";
    } else {
      FinishShort(input, k, out, val);
    }
  }

  /** The inner loop. */
  method Emit(out: string, val: I32, valb: int) returns (out': string, valb': int)
    requires valb == 2 || valb == 4 || valb == 6
    ensures out' == out + Emitted(val, valb) && valb' == if valb == 6 then -6 else valb - 6
  {
    out', valb' := out, valb;
    while valb' >= 0
      invariant valb' == valb || valb' == valb - 6 || (valb == 6 && valb' == -6)
      invariant out' + Emitted(val, valb') == out + Emitted(val, valb)
      decreases valb'
    {
      EmitOne(out', val, valb');
      out' := AppendDigit(out', val, valb');
      valb' := valb' - 6;
    }
    assert out' + "" == out';
  }

  lemma EmitOne(out: string, val: int, valb: nat)
    ensures out + [Digit(Bits(val, valb))] + Emitted(val, valb - 6) == out + Emitted(val, valb)
  {
    var d := [Digit(Bits(val, valb))];
    assert out + (d + Emitted(val, valb - 6)) == out + d + Emitted(val, valb - 6);
  }

  /** The low bits after one more byte has been shifted in. */
  lemma ShiftIn(val: int, c: Byte)
    ensures ShiftedIn(val, c) % 0x1_0000 == Pair(val % 256, c) && ShiftedIn(val, c) % 256 == c
  {
    WrapKeepsLow(val, c);
    Mod256(ShiftedIn(val, c), val % 256, c);
  }

  lemma NextByte(input: seq<Byte>, i: nat, k: nat, out: string, val: int)
    requires i < |input| && SoFar(input, i, k, out) && (i > 0 ==> val % 256 == input[i - 1])
    ensures
      var v := ShiftedIn(val, input[i]);
      && v % 256 == input[i]
      && SoFar(input, i + 1, if i == 3 * k + 2 then k + 1 else k, out + Emitted(v, 2 * (i - 3 * k) + 2))
  {
    ShiftIn(val, input[i]);
    Advance(input, i, k, out, ShiftedIn(val, input[i]));
  }

  /** The loop over the input. */
  method Accumulate(input: seq<Byte>) returns (out: string, val: I32, valb: int, ghost k: nat)
    ensures SoFar(input, |input|, k, out) && valb == -6 + 2 * (|input| - 3 * k)
    ensures input != [] ==> val % 256 == input[|input| - 1]
  {
    out, val, valb, k := "", 0, -6, 0;
    var i := 0;
    while i < |input|
      invariant SoFar(input, i, k, out) && valb == -6 + 2 * (i - 3 * k)
      invariant i > 0 ==> val % 256 == input[i - 1]
    {
      NextByte(input, i, k, out, val);
      val := ShiftedIn(val, input[i]);
      valb := valb + 8;
      out, valb := Emit(out, val, valb);
      k := if i == 3 * k + 2 then k + 1 else k;
      i := i + 1;
    }
  }

  /** The accumulator loop produces the encoding of section 4 of RFC 4648. */
  method Base64Encode(input: seq<Byte>) returns (out: string)
    ensures out == Encode(input)
  {
    var val, valb;
    ghost var k;
    out, val, valb, k := Accumulate(input);
    Finish(input, k, out, val);
    if valb > -6 {
      out := AppendDigit(out, ShiftedIn(val, 0), valb + 8);
    } else {
      assert out + "" == out;
    }
    LengthFits(input);
    out := Pad(out, Padding(|input| - 3 * k));
  }

  method AppendDigit(s: string, val: int, shift: nat) returns (out: string)
    ensures out == s + [Digit(Bits(val, shift))]
  {
    TableIsAlphabet(Bits(val, shift));
    out := s + [TABLE[Bits(val, shift)]];
  }

  lemma LengthFits(input: seq<Byte>)
    ensures |Encode(input)| % 4 == 0
  {
    EncodeLength(input);
    MultipleOfFour(|Encode(input)|, Groups(|input|));
  }

  lemma MultipleOfFour(n: nat, k: nat)
    requires n == k * 4
    ensures n % 4 == 0
  {
  }

  lemma Mod256(n: int, p: int, c: int)
    requires n % 0x1_0000 == Pair(p, c) && 0 <= p < 256 && 0 <= c < 256
    ensures n % 256 == c
  {
    LowBits(n, p, c);
  }

  /** '=' until the length is a multiple of four. */
  method Pad(s: string, ghost pads: string) returns (out: string)
    requires |s + pads| % 4 == 0 && |pads| < 4 && forall j | 0 <= j < |pads| :: pads[j] == '='
    ensures out == s + pads
  {
    out := s;
    ghost var j := 0;
    assert s + pads[..0] == s;
    while |out| % 4 != 0
      invariant j <= |pads| && out == s + pads[..j]
      decreases |pads| - j
    {
      assert j < |pads|;
      assert s + pads[..j] + [pads[j]] == s + pads[..j + 1];
      out := out + "=";
      j := j + 1;
    }
    assert pads[..|pads|] == pads;
  }
}

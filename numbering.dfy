// Conversions between integers, 12-bit binary words and hexadecimal text
// (numberingSystems.c).

module Numbering {
  import opened Generals

  /** `unsigned int` holds 32 bits. */
  const UINT_RANGE := 0x1_0000_0000

  const HEX_DIGITS := "0123456789ABCDEF"

  function Pow2(k: nat): (r: nat)
    ensures r > 0
  {
    if k == 0 then 1 else 2 * Pow2(k - 1)
  }

  /** The conversion `unsigned int num1 = num`: the value modulo 2^32. */
  function Unsigned(n: int): nat
  {
    n % UINT_RANGE
  }

  /** `v >> k` on an unsigned value. */
  function Shr(v: nat, k: nat): nat
  {
    if k == 0 then v else Shr(v / 2, k - 1)
  }

  /** Bit k of v (bit 0 is the least significant). */
  predicate Bit(v: nat, k: nat)
  {
    Shr(v, k) % 2 == 1
  }

  function BitChar(b: bool): char
  {
    if b then '1' else '0'
  }

  predicate IsBinary(s: string)
  {
    forall i :: 0 <= i < |s| ==> s[i] == '0' || s[i] == '1'
  }

  /**
   * The low `width` bits of v as text, most significant first: the last
   * character is v's lowest bit, the rest are the bits of v shifted right once.
   */
  function BinDigits(v: nat, width: nat): (r: string)
    ensures |r| == width
  {
    if width == 0 then [] else BinDigits(v / 2, width - 1) + [BitChar(v % 2 == 1)]
  }

  /** The text decimal_to_bin(n) produces: the low twelve bits of n taken as unsigned. */
  function BinOf(n: int): string
  {
    BinDigits(Unsigned(n), WORD_SIZE)
  }

  /**
   * The value bin_to_decimal gives a text: the last character weighs 1, each
   * position to the left weighs twice as much, and only '1' characters count.
   */
  function BinValue(s: string): nat
  {
    if s == [] then 0
    else (if s[0] == '1' then Pow2(|s| - 1) else 0) + BinValue(s[1..])
  }

  /** The first word of an instruction: opcode(4) | funct(4) | src(2) | dst(2). */
  function CommandWord(opcode: int, funct: int, src: int, dst: int): string
  {
    BinOf(opcode)[WORD_SIZE - OPCODE_LENGTH..] + BinOf(funct)[WORD_SIZE - FUNCT_LENGTH..]
    + BinOf(src)[WORD_SIZE - SRC_ADDR_METHOD_LENGTH..] + BinOf(dst)[WORD_SIZE - DST_ADDR_METHOD_LENGTH..]
  }

  /** The value of a hexadecimal digit as decimal_to_hex writes it. */
  function HexDigitValue(c: char): nat
  {
    if '0' <= c <= '9' then (c as int) - ('0' as int)
    else if 'A' <= c <= 'F' then (c as int) - ('A' as int) + 10
    else 0
  }

  function Pow16(k: nat): (r: nat)
    ensures r > 0
  {
    if k == 0 then 1 else 16 * Pow16(k - 1)
  }

  /** The value of a hexadecimal text, most significant digit first. */
  function HexValue(h: string): nat
  {
    if h == [] then 0 else HexDigitValue(h[0]) * Pow16(|h| - 1) + HexValue(h[1..])
  }

  // ---------------------------------------------------------------------------
  // The operations

  /** decimal_to_bin: the twelve-character binary text of num. */
  method DecimalToBin(num: int) returns (bin: string)
    ensures bin == BinOf(num)
  {
    var buf := new char[WORD_SIZE];
    var num1 := Unsigned(num);
    var i := WORD_SIZE - 1;
    ghost var target := BinOf(num);
    while i >= 0
      invariant -1 <= i < WORD_SIZE
      invariant BinDigits(num1, i + 1) + buf[i + 1..] == target
    {
      var c := if num1 % 2 == 1 then '1' else '0';
      DigitsStep(num1, i + 1, buf[i + 1..], c);
      buf[i] := c;
      assert buf[i..] == [c] + buf[i + 1..];
      num1 := num1 / 2;
      i := i - 1;
    }
    assert buf[0..] == buf[..];
    bin := buf[..];
  }

  /** One step of decimal_to_bin's loop: the lowest bit moves from the value to the text. */
  lemma DigitsStep(v: nat, w: nat, rest: string, c: char)
    requires w > 0 && c == BitChar(v % 2 == 1)
    ensures BinDigits(v, w) + rest == BinDigits(v / 2, w - 1) + ([c] + rest)
  {
    assert BinDigits(v, w) == BinDigits(v / 2, w - 1) + [c];
  }

  /** encode_command: packs the low bits of the four fields into one word. */
  method EncodeCommand(opcode: nat, funct: nat, srcAddrMethod: nat, dstAddrMethod: nat)
    returns (bin: string)
    ensures bin == CommandWord(opcode, funct, srcAddrMethod, dstAddrMethod)
  {
    var dam := DecimalToBin(dstAddrMethod);
    var sam := DecimalToBin(srcAddrMethod);
    var fnc := DecimalToBin(funct);
    var opc := DecimalToBin(opcode);
    bin := opc[WORD_SIZE - OPCODE_LENGTH..] + fnc[WORD_SIZE - FUNCT_LENGTH..]
      + sam[WORD_SIZE - SRC_ADDR_METHOD_LENGTH..] + dam[WORD_SIZE - DST_ADDR_METHOD_LENGTH..];
  }

  /** bin_to_decimal */
  method BinToDecimal(bin: string) returns (result: int)
    ensures result == BinValue(bin)
  {
    result := 0;
    var currentIndexValue := 1;
    var i := |bin| - 1;
    while i >= 0
      invariant -1 <= i < |bin|
      invariant currentIndexValue == Pow2(|bin| - 1 - i)
      invariant result == BinValue(bin[i + 1..])
    {
      assert bin[i..][1..] == bin[i + 1..];
      result := result + (if bin[i] == '1' then 1 else 0) * currentIndexValue;
      currentIndexValue := currentIndexValue * 2;
      i := i - 1;
    }
    assert bin[0..] == bin;
  }

  /** decimal_to_hex: the digit of dec, or '0' for a value outside 0 .. 15. */
  function DecimalToHex(dec: int): (c: char)
    ensures 0 <= dec < 16 ==> c == HEX_DIGITS[dec] && HexDigitValue(c) == dec
    ensures !(0 <= dec < 16) ==> c == '0'
  {
    if dec > 0 && dec < 16 then HEX_DIGITS[dec] else '0'
  }

  /** bin_to_hex: one hexadecimal digit per complete group of four characters. */
  method BinToHex(bin: string) returns (hex: string)
    ensures |hex| == |bin| / BIN_TO_HEX_CURRENCY
    ensures forall i :: 0 <= i < |hex| ==> hex[i] == DecimalToHex(BinValue(bin[4 * i..4 * i + 4]))
  {
    var size := |bin| / BIN_TO_HEX_CURRENCY;
    var buf := new char[size];
    var i := 0;
    while i < size
      invariant 0 <= i <= size
      invariant forall j :: 0 <= j < i ==> buf[j] == DecimalToHex(BinValue(bin[4 * j..4 * j + 4]))
    {
      var chunk := bin[4 * i..4 * i + BIN_TO_HEX_CURRENCY];
      var dec := BinToDecimal(chunk);
      buf[i] := DecimalToHex(dec);
      i := i + 1;
    }
    hex := buf[..];
  }

  // ---------------------------------------------------------------------------
  // Arithmetic helpers

  lemma {:induction false} MulAtLeast(m: int, d: int)
    requires m > 0 && d > 0
    ensures m * d >= m
  {
    if d > 1 {
      MulAtLeast(m, d - 1);
      assert m * d == m * (d - 1) + m;
    }
  }

  /** Quotient and remainder are the only decomposition with the remainder in 0 .. m-1. */
  lemma ModUnique(x: int, m: int, q: int, r: int)
    requires m > 0 && x == m * q + r && 0 <= r < m
    ensures x % m == r && x / m == q
  {
    var d := q - x / m;
    assert x == m * (x / m) + x % m;
    assert m * d == x % m - r;
    if d > 0 {
      MulAtLeast(m, d);
    } else if d < 0 {
      MulAtLeast(m, -d);
    }
  }

  lemma {:induction false} Pow2Add(a: nat, b: nat)
    ensures Pow2(a + b) == Pow2(a) * Pow2(b)
  {
    if a > 0 {
      Pow2Add(a - 1, b);
    }
  }

  lemma Pow2Small()
    ensures Pow2(2) == 4 && Pow2(4) == 16 && Pow2(WORD_SIZE) == 4096
  {
    assert Pow2(1) == 2;
    assert Pow2(2) == 4;
    assert Pow2(3) == 8;
    assert Pow2(4) == 16;
    Pow2Add(4, 4);
    Pow2Add(8, 4);
  }

  // ---------------------------------------------------------------------------
  // Properties of the binary encoding

  lemma {:induction false} BinValueBound(s: string)
    ensures BinValue(s) < Pow2(|s|)
  {
    if s != [] {
      BinValueBound(s[1..]);
    }
  }

  /** Appending a character doubles the value and adds the character's bit. */
  lemma {:induction false} BinValueSnoc(s: string, c: char)
    ensures BinValue(s + [c]) == 2 * BinValue(s) + (if c == '1' then 1 else 0)
  {
    if s == [] {
      assert [c][1..] == [];
    } else {
      assert (s + [c])[1..] == s[1..] + [c];
      BinValueSnoc(s[1..], c);
    }
  }

  /** The value of a concatenation: the left part is shifted by the right part's length. */
  lemma {:induction false} BinValueAppend(a: string, b: string)
    ensures BinValue(a + b) == BinValue(a) * Pow2(|b|) + BinValue(b)
  {
    if a == [] {
      assert a + b == b;
    } else {
      var ab := a + b;
      assert ab[0] == a[0] && ab[1..] == a[1..] + b && |ab| - 1 == (|a| - 1) + |b|;
      BinValueAppend(a[1..], b);
      Pow2Add(|a| - 1, |b|);
      var p := Pow2(|b|);
      var h := if a[0] == '1' then Pow2(|a| - 1) else 0;
      assert (if ab[0] == '1' then Pow2(|ab| - 1) else 0) == h * p;
      Distrib(h, BinValue(a[1..]), p);
    }
  }

  lemma Distrib(h: int, t: int, p: int)
    ensures (h + t) * p == h * p + t * p
  {
  }

  lemma Assoc(a: int, b: int, c: int)
    ensures (a * b) * c == a * (b * c)
  {
  }

  lemma HalfStep(v: nat, t: nat, p: nat, sh: nat)
    requires t + p * sh == v / 2
    ensures 2 * t + v % 2 + (2 * p) * sh == v
  {
  }

  /** The digits of v together with the bits shifted out make up v. */
  lemma {:induction false} BinDigitsValue(v: nat, w: nat)
    ensures BinValue(BinDigits(v, w)) + Pow2(w) * Shr(v, w) == v
  {
    if w > 0 {
      var rest := BinDigits(v / 2, w - 1);
      BinDigitsValue(v / 2, w - 1);
      BinValueSnoc(rest, BitChar(v % 2 == 1));
      HalfStep(v, BinValue(rest), Pow2(w - 1), Shr(v / 2, w - 1));
    }
  }

  /** Character i of the width-w text is bit w-1-i of v. */
  lemma {:induction false} BinDigitsAt(v: nat, w: nat, i: nat)
    requires i < w
    ensures BinDigits(v, w)[i] == BitChar(Bit(v, w - 1 - i))
  {
    if i < w - 1 {
      BinDigitsAt(v / 2, w - 1, i);
    }
  }

  /** The low k characters of a width-(j+k) text are the width-k text. */
  lemma {:induction false} BinDigitsSplit(v: nat, j: nat, k: nat)
    ensures BinDigits(v, j + k) == BinDigits(Shr(v, k), j) + BinDigits(v, k)
  {
    if k > 0 {
      BinDigitsSplit(v / 2, j, k - 1);
    }
  }

  /** Reducing modulo 2^32 keeps the value modulo 4, 16 and 4096. */
  lemma UnsignedMod(n: int, m: int)
    requires m == 4 || m == 16 || m == 4096
    ensures Unsigned(n) % m == n % m
  {
    var u, q := Unsigned(n), n / UINT_RANGE;
    assert n == UINT_RANGE * q + u;
    assert UINT_RANGE == m * (UINT_RANGE / m);
    Regroup(n, UINT_RANGE, q, u, UINT_RANGE / m, m, u / m, u % m);
    ModUnique(n, m, (UINT_RANGE / m) * q + u / m, u % m);
  }

  lemma Regroup(n: int, big: int, q: int, u: int, c: int, m: int, qu: int, r: int)
    requires n == big * q + u && big == c * m && u == m * qu + r
    ensures n == m * (c * q + qu) + r
  {
    Assoc(c, m, q);
  }

  /** The last k characters of decimal_to_bin(n) hold n modulo 2^k. */
  lemma LowBits(n: int, k: nat)
    requires k == 2 || k == 4 || k == WORD_SIZE
    ensures BinOf(n)[WORD_SIZE - k..] == BinDigits(Unsigned(n), k)
    ensures BinValue(BinOf(n)[WORD_SIZE - k..]) == n % Pow2(k)
  {
    var u := Unsigned(n);
    BinDigitsSplit(u, WORD_SIZE - k, k);
    BinDigitsValue(u, k);
    BinValueBound(BinDigits(u, k));
    ModUnique(u, Pow2(k), Shr(u, k), BinValue(BinDigits(u, k)));
    Pow2Small();
    UnsignedMod(n, Pow2(k));
  }

  /**
   * decimal_to_bin(n) is twelve binary characters; character i is bit 11-i of n
   * as unsigned, and reading the text back gives n modulo 4096.
   */
  lemma BinOfSpec(n: int)
    ensures |BinOf(n)| == WORD_SIZE && IsBinary(BinOf(n))
    ensures forall i :: 0 <= i < WORD_SIZE ==> BinOf(n)[i] == BitChar(Bit(Unsigned(n), WORD_SIZE - 1 - i))
    ensures BinValue(BinOf(n)) == n % 4096
  {
    forall i | 0 <= i < WORD_SIZE
      ensures BinOf(n)[i] == BitChar(Bit(Unsigned(n), WORD_SIZE - 1 - i))
    {
      BinDigitsAt(Unsigned(n), WORD_SIZE, i);
    }
    LowBits(n, WORD_SIZE);
    Pow2Small();
  }

  /** Round trip: bin_to_decimal(decimal_to_bin(n)) == n for every n in 0 .. 4095. */
  lemma RoundTrip(n: int)
    requires 0 <= n < 4096
    ensures BinValue(BinOf(n)) == n
  {
    BinOfSpec(n);
  }

  /** A negative n in -2048 .. -1 comes out as its 12-bit two's complement. */
  lemma TwosComplement(n: int)
    requires -2048 <= n < 0
    ensures BinValue(BinOf(n)) == 4096 + n
    ensures BinOf(n)[0] == '1'
  {
    BinOfSpec(n);
    BinValueBound(BinOf(n)[1..]);
    Pow2Small();
    assert Pow2(WORD_SIZE - 1) == 2048;
  }

  /** Two numbers get the same word exactly when they agree modulo 4096. */
  lemma BinOfInjective(n: int, m: int)
    ensures BinOf(n) == BinOf(m) <==> n % 4096 == m % 4096
  {
    BinOfSpec(n);
    BinOfSpec(m);
    if n % 4096 == m % 4096 {
      UnsignedMod(n, 4096);
      UnsignedMod(m, 4096);
      Pow2Small();
      LowBits(n, WORD_SIZE);
      LowBits(m, WORD_SIZE);
      BinDigitsDetermined(Unsigned(n), Unsigned(m), WORD_SIZE);
    }
  }

  /** The width-w text depends on v only modulo 2^w. */
  lemma {:induction false} BinDigitsDetermined(v: nat, u: nat, w: nat)
    requires v % Pow2(w) == u % Pow2(w)
    ensures BinDigits(v, w) == BinDigits(u, w)
  {
    if w > 0 {
      var p := Pow2(w - 1);
      assert Pow2(w) == 2 * p;
      ModDouble(v, p);
      ModDouble(u, p);
      BinDigitsDetermined(v / 2, u / 2, w - 1);
    }
  }

  /** The remainder modulo 2p splits into the remainder of the half modulo p and the lowest bit. */
  lemma ModDouble(v: nat, p: nat)
    requires p > 0
    ensures v % (2 * p) == 2 * ((v / 2) % p) + v % 2
  {
    var h := v / 2;
    assert v == 2 * h + v % 2;
    assert h == p * (h / p) + h % p;
    assert v == 2 * p * (h / p) + (2 * (h % p) + v % 2);
    ModUnique(v, 2 * p, h / p, 2 * (h % p) + v % 2);
  }

  /**
   * The layout encode_command promises: the opcode in the first four characters,
   * then the funct, then two characters each for the source and destination
   * addressing methods, each field holding the low bits of its value.
   */
  lemma CommandWordLayout(opcode: int, funct: int, src: int, dst: int)
    ensures var w := CommandWord(opcode, funct, src, dst);
      |w| == WORD_SIZE && IsBinary(w)
      && BinValue(w[..4]) == opcode % 16 && BinValue(w[4..8]) == funct % 16
      && BinValue(w[8..10]) == src % 4 && BinValue(w[10..]) == dst % 4
      && BinValue(w) == 256 * (opcode % 16) + 16 * (funct % 16) + 4 * (src % 4) + dst % 4
  {
    var w := CommandWord(opcode, funct, src, dst);
    CommandWordFields(opcode, funct, src, dst);
    CommandWordBinary(opcode, funct, src, dst);
    FieldsValue(w);
  }

  lemma CommandWordBinary(opcode: int, funct: int, src: int, dst: int)
    ensures IsBinary(CommandWord(opcode, funct, src, dst))
  {
    BinOfSpec(opcode);
    BinOfSpec(funct);
    BinOfSpec(src);
    BinOfSpec(dst);
  }

  /** The value of a twelve-digit word from its 4-4-2-2 fields. */
  lemma FieldsValue(w: string)
    requires |w| == WORD_SIZE
    ensures BinValue(w) == 256 * BinValue(w[..4]) + 16 * BinValue(w[4..8]) + 4 * BinValue(w[8..10]) + BinValue(w[10..])
  {
    var o, f, s, d := w[..4], w[4..8], w[8..10], w[10..];
    var vo, vf, vs, vd := BinValue(o), BinValue(f), BinValue(s), BinValue(d);
    var of, ofs := w[..8], w[..10];
    assert of == o + f;
    assert ofs == of + s;
    assert w == ofs + d;
    Pow2Small();
    BinValueAppend(o, f);
    BinValueAppend(of, s);
    BinValueAppend(ofs, d);
  }

  /** The four fields of the command word, each on its own. */
  lemma CommandWordFields(opcode: int, funct: int, src: int, dst: int)
    ensures var w := CommandWord(opcode, funct, src, dst);
      |w| == WORD_SIZE
      && BinValue(w[..4]) == opcode % 16 && BinValue(w[4..8]) == funct % 16
      && BinValue(w[8..10]) == src % 4 && BinValue(w[10..]) == dst % 4
  {
    var w := CommandWord(opcode, funct, src, dst);
    BinOfSpec(opcode);
    BinOfSpec(funct);
    BinOfSpec(src);
    BinOfSpec(dst);
    Pow2Small();
    LowBits(opcode, 4);
    LowBits(funct, 4);
    LowBits(src, 2);
    LowBits(dst, 2);
    var o, f, s, d := BinOf(opcode)[8..], BinOf(funct)[8..], BinOf(src)[10..], BinOf(dst)[10..];
    assert w[..4] == o && w[4..8] == f && w[8..10] == s && w[10..] == d;
  }

  /** A run of hexadecimal digits produced chunk by chunk has the value of the binary text. */
  lemma {:induction false} HexMatchesBinary(bin: string, hex: string)
    requires |bin| == 4 * |hex| && IsBinary(bin)
    requires forall i :: 0 <= i < |hex| ==> hex[i] == DecimalToHex(BinValue(bin[4 * i..4 * i + 4]))
    ensures HexValue(hex) == BinValue(bin)
  {
    if hex != [] {
      var chunk, rest := bin[..4], bin[4..];
      assert bin == chunk + rest;
      forall i | 0 <= i < |hex| - 1
        ensures hex[1..][i] == DecimalToHex(BinValue(rest[4 * i..4 * i + 4]))
      {
        assert rest[4 * i..4 * i + 4] == bin[4 * (i + 1)..4 * (i + 1) + 4];
      }
      HexMatchesBinary(rest, hex[1..]);
      BinValueAppend(chunk, rest);
      BinValueBound(chunk);
      Pow2Small();
      Pow2Pow16(|hex| - 1);
      assert bin[4 * 0..4 * 0 + 4] == chunk;
    }
  }

  lemma {:induction false} Pow2Pow16(k: nat)
    ensures Pow2(4 * k) == Pow16(k)
  {
    if k > 0 {
      Pow2Pow16(k - 1);
      Pow2Add(4, 4 * (k - 1));
      Pow2Small();
    }
  }

  /** A word's three hexadecimal digits give back the word's value. */
  lemma WordHex(bin: string, hex: string)
    requires |bin| == WORD_SIZE && IsBinary(bin)
    requires |hex| == |bin| / BIN_TO_HEX_CURRENCY
    requires forall i :: 0 <= i < |hex| ==> hex[i] == DecimalToHex(BinValue(bin[4 * i..4 * i + 4]))
    ensures |hex| == 3 && HexValue(hex) == BinValue(bin)
  {
    HexMatchesBinary(bin, hex);
  }
}

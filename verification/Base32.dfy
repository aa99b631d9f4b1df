/** Base32 (section 6 of RFC 4648) as crates/misty-otp/src/base32.rs reads and writes it.

    Text is its UTF-8 bytes: the first byte of any other character is refused where the character is.
    Both coders are specified by the number their symbols or bytes spell, so that the invariants say
    what the twelve bits of the accumulator have to carry. */
module Base32 {
  import opened Foundations

  const MAX_INPUT_CHARS := 4096

  const PAD: byte := 0x3d

  datatype Base32Error =
    | TooLong(len: nat)
    | InvalidChar(ch: byte, offset: nat)
    | PaddingInMiddle(offset: nat)
    | InvalidLength(chars: nat)

  type Symbol = n: int | 0 <= n < 32

  // ----- the alphabet ----------------------------------------------------------------------------

  function SymbolOf(ch: byte): Option<Symbol> {
    if 'A' as int <= ch <= 'Z' as int then Some(ch - 'A' as int)
    else if 'a' as int <= ch <= 'z' as int then Some(ch - 'a' as int)
    else if '2' as int <= ch <= '7' as int then Some(ch - '2' as int + 26)
    else None
  }

  function Letter(n: Symbol): byte { if n < 26 then 'A' as int + n else '2' as int + n - 26 }

  function Letters(ns: seq<Symbol>): (text: Bytes)
    ensures |text| == |ns|
  {
    if ns == [] then [] else Letters(ns[..|ns| - 1]) + [Letter(ns[|ns| - 1])]
  }

  /** Space, tab, line feed, carriage return, vertical tab, form feed, hyphen. */
  predicate IsSeparator(ch: byte) { ch in [0x20, 0x09, 0x0a, 0x0d, 0x0b, 0x0c, 0x2d] }

  // ----- numbers -----------------------------------------------------------------------------------

  function ShiftRight(n: nat, k: nat): nat { if k == 0 then n else ShiftRight(n / 2, k - 1) }

  function ShiftLeft(n: nat, k: nat): nat { if k == 0 then n else 2 * ShiftLeft(n, k - 1) }

  function Number32(ns: seq<Symbol>): nat {
    if ns == [] then 0 else 32 * Number32(ns[..|ns| - 1]) + ns[|ns| - 1]
  }

  /** The low `width` base-32 digits. */
  function Digits32(n: nat, width: nat): (ns: seq<Symbol>)
    ensures |ns| == width
  {
    if width == 0 then [] else Digits32(n / 32, width - 1) + [n % 32]
  }

  /** The low `width` base-256 digits. */
  function LowBytes(n: nat, width: nat): (s: Bytes)
    ensures |s| == width
  {
    if width == 0 then [] else LowBytes(n / 256, width - 1) + [n % 256]
  }

  // ----- decoding ----------------------------------------------------------------------------------

  /** The symbols of `input` from `offset` on, `padded` once an `=` has gone by. */
  function Symbols(input: Bytes, offset: nat, padded: bool): Result<seq<Symbol>, Base32Error>
    requires offset <= |input|
    decreases |input| - offset
  {
    if offset == |input| then Ok([])
    else
      var ch := input[offset];
      if SymbolOf(ch).Some? then
        if padded then Err(PaddingInMiddle(offset))
        else
          Prepend([SymbolOf(ch).value], Symbols(input, offset + 1, padded))
      else if IsSeparator(ch) then Symbols(input, offset + 1, padded)
      else if ch == PAD then Symbols(input, offset + 1, true)
      else Err(InvalidChar(ch, offset))
  }

  predicate WholeBytes(chars: nat) { chars % 8 !in {1, 3, 6} }

  /** Every whole byte the symbols spell; what is left over is dropped. */
  function BytesOf(ns: seq<Symbol>): Bytes {
    LowBytes(ShiftRight(Number32(ns), 5 * |ns| % 8), 5 * |ns| / 8)
  }

  function Decode(input: Bytes): Result<Bytes, Base32Error> {
    if |input| > MAX_INPUT_CHARS then Err(TooLong(|input|))
    else
      match Symbols(input, 0, false)
      case Err(e) => Err(e)
      case Ok(ns) => if WholeBytes(|ns|) then Ok(BytesOf(ns)) else Err(InvalidLength(|ns|))
  }

  // ----- encoding ----------------------------------------------------------------------------------

  function Width(bytes: nat): nat { (8 * bytes + 4) / 5 }

  function Slack(bytes: nat): nat { 5 * Width(bytes) - 8 * bytes }

  function Encode(bytes: Bytes): Bytes {
    Letters(Digits32(ShiftLeft(FromBigEndian(bytes), Slack(|bytes|)), Width(|bytes|)))
  }

  function Padding(n: nat): (text: Bytes)
    ensures |text| == n
  {
    if n == 0 then [] else Padding(n - 1) + [PAD]
  }

  function EncodePadded(bytes: Bytes): Bytes {
    Encode(bytes) + Padding((8 - |Encode(bytes)| % 8) % 8)
  }

  // ----- what twelve bits carry ---------------------------------------------------------------------

  /** Whatever lies above a window moves down with it. */
  lemma {:induction false} WindowShifts(low: nat, high: nat, window: nat, bits: nat)
    ensures ShiftRight(low + window * ShiftLeft(high, bits), bits) == ShiftRight(low, bits) + window * high
  {
    if bits > 0 {
      var above := ShiftLeft(high, bits - 1);
      var moved := window * above;
      assert window * ShiftLeft(high, bits) == 2 * moved;
      assert (low + 2 * moved) / 2 == low / 2 + moved;
      WindowShifts(low / 2, high, window, bits - 1);
    }
  }

  lemma ShiftLeftUnits(n: nat)
    ensures ShiftLeft(n, 0) == n && ShiftLeft(n, 1) == 2 * n && ShiftLeft(n, 2) == 4 * n && ShiftLeft(n, 3) == 8 * n
    ensures ShiftLeft(n, 4) == 16 * n && ShiftLeft(n, 5) == 32 * n && ShiftLeft(n, 6) == 64 * n && ShiftLeft(n, 7) == 128 * n
  {
    assert ShiftLeft(n, 1) == 2 * ShiftLeft(n, 0);
    assert ShiftLeft(n, 2) == 2 * ShiftLeft(n, 1);
    assert ShiftLeft(n, 3) == 2 * ShiftLeft(n, 2);
    assert ShiftLeft(n, 4) == 2 * ShiftLeft(n, 3);
    assert ShiftLeft(n, 5) == 2 * ShiftLeft(n, 4);
    assert ShiftLeft(n, 6) == 2 * ShiftLeft(n, 5);
  }

  lemma Multiples256(n: nat, k: nat)
    ensures (n + 256 * k) % 256 == n % 256
  {
  }

  lemma Multiples32(n: nat, k: nat)
    ensures (n + 32 * k) % 32 == n % 32
  {
  }

  lemma LowTwelve(n: nat, high: nat, window: nat, bits: nat)
    requires window == 256 || window == 32
    requires window * ShiftLeft(high, bits) == n - n % 4096
    ensures ShiftRight(n % 4096, bits) % window == ShiftRight(n, bits) % window
  {
    hide ShiftRight, ShiftLeft;
    WindowShifts(n % 4096, high, window, bits);
    if window == 256 {
      Multiples256(ShiftRight(n % 4096, bits), high);
    } else {
      Multiples32(ShiftRight(n % 4096, bits), high);
    }
  }

  /** A byte read at `bits` from the low twelve is the one the whole number has there. */
  lemma ByteSurvives(n: nat, bits: nat)
    requires bits <= 4
    ensures ShiftRight(n % 4096, bits) % 256 == ShiftRight(n, bits) % 256
  {
    hide ShiftRight, ShiftLeft;
    var q := n / 4096;
    var high := if bits == 0 then 16 * q else if bits == 1 then 8 * q else if bits == 2 then 4 * q else if bits == 3 then 2 * q else q;
    ShiftLeftUnits(high);
    LowTwelve(n, high, 256, bits);
  }

  lemma SymbolSurvives(n: nat, bits: nat)
    requires bits <= 7
    ensures ShiftRight(n % 4096, bits) % 32 == ShiftRight(n, bits) % 32
  {
    hide ShiftRight, ShiftLeft;
    var q := n / 4096;
    var high :=
      if bits == 0 then 128 * q else if bits == 1 then 64 * q else if bits == 2 then 32 * q else if bits == 3 then 16 * q
      else if bits == 4 then 8 * q else if bits == 5 then 4 * q else if bits == 6 then 2 * q else q;
    ShiftLeftUnits(high);
    LowTwelve(n, high, 32, bits);
  }

  lemma ShiftIn5(n: nat, v: nat, bits: nat)
    requires v < 32
    ensures ShiftRight(32 * n + v, bits + 5) == ShiftRight(n, bits)
  {
    assert ShiftRight(32 * n + v, bits + 5) == ShiftRight((32 * n + v) / 2, bits + 4);
    assert ShiftRight((32 * n + v) / 2, bits + 4) == ShiftRight((32 * n + v) / 4, bits + 3);
    assert ShiftRight((32 * n + v) / 4, bits + 3) == ShiftRight((32 * n + v) / 8, bits + 2);
    assert ShiftRight((32 * n + v) / 8, bits + 2) == ShiftRight((32 * n + v) / 16, bits + 1);
  }

  // ----- the decoder -------------------------------------------------------------------------------

  /** Where the decoder stands: `symbols` have gone in, `out` has come out, and what is neither lies in
      the accumulator. */
  ghost predicate Decoding(input: Bytes, offset: nat, padded: bool, symbols: seq<Symbol>, acc: nat, bits: nat, out: Bytes) {
    && offset <= |input|
    && Symbols(input, 0, false) == Prepend(symbols, Symbols(input, offset, padded))
    && bits == 5 * |symbols| % 8 && acc == Number32(symbols) % 4096
    && out == LowBytes(ShiftRight(Number32(symbols), bits), 5 * |symbols| / 8)
  }

  lemma DecodingStarts(input: Bytes)
    ensures Decoding(input, 0, false, [], 0, 0, [])
  {
    PrependNone(Symbols(input, 0, false));
  }

  lemma DecodingSkips(input: Bytes, offset: nat, padded: bool, symbols: seq<Symbol>, acc: nat, bits: nat, out: Bytes)
    requires Decoding(input, offset, padded, symbols, acc, bits, out) && offset < |input| && SymbolOf(input[offset]).None?
    ensures IsSeparator(input[offset]) ==> Decoding(input, offset + 1, padded, symbols, acc, bits, out)
    ensures input[offset] == PAD ==> Decoding(input, offset + 1, true, symbols, acc, bits, out)
    ensures !IsSeparator(input[offset]) && input[offset] != PAD ==> Symbols(input, 0, false) == Err(InvalidChar(input[offset], offset))
  {
    hide Number32, LowBytes, ShiftRight;
  }

  lemma DecodingRefuses(input: Bytes, offset: nat, symbols: seq<Symbol>, acc: nat, bits: nat, out: Bytes)
    requires Decoding(input, offset, true, symbols, acc, bits, out) && offset < |input| && SymbolOf(input[offset]).Some?
    ensures Symbols(input, 0, false) == Err(PaddingInMiddle(offset))
  {
    hide Number32, LowBytes, ShiftRight;
  }

  lemma Multiples4096(n: nat, k: nat)
    ensures (n + 4096 * k) % 4096 == n % 4096
  {
  }

  lemma LowTwelveIn5(n: nat, v: nat)
    ensures (n % 4096 * 32 + v) % 4096 == (32 * n + v) % 4096
  {
    var (q, r) := (n / 4096, n % 4096);
    assert 32 * n + v == r * 32 + v + 4096 * (32 * q);
    Multiples4096(r * 32 + v, 32 * q);
  }

  lemma LowTwelveIn8(n: nat, v: nat)
    ensures (n % 4096 * 256 + v) % 4096 == (256 * n + v) % 4096
  {
    var (q, r) := (n / 4096, n % 4096);
    assert 256 * n + v == r * 256 + v + 4096 * (256 * q);
    Multiples4096(r * 256 + v, 256 * q);
  }

  lemma CountStep(chars: nat)
    ensures var bits := 5 * chars % 8;
            if bits + 5 >= 8 then 5 * (chars + 1) % 8 == bits - 3 && 5 * (chars + 1) / 8 == 5 * chars / 8 + 1
            else 5 * (chars + 1) % 8 == bits + 5 && 5 * (chars + 1) / 8 == 5 * chars / 8
  {
  }

  /** Five bits in, and a byte out if there is one. */
  lemma BitsIn(symbols: seq<Symbol>, v: Symbol, acc: nat, bits: nat, out: Bytes)
    requires bits == 5 * |symbols| % 8 && acc == Number32(symbols) % 4096
    requires out == LowBytes(ShiftRight(Number32(symbols), bits), 5 * |symbols| / 8)
    ensures var (all, next) := (symbols + [v], (acc * 32 + v) % 4096);
            && next == Number32(all) % 4096
            && if bits + 5 >= 8 then
                 bits - 3 == 5 * |all| % 8
                 && out + [ShiftRight(next, bits - 3) % 256] == LowBytes(ShiftRight(Number32(all), bits - 3), 5 * |all| / 8)
               else bits + 5 == 5 * |all| % 8 && out == LowBytes(ShiftRight(Number32(all), bits + 5), 5 * |all| / 8)
  {
    hide ShiftRight, LowBytes, Number32;
    var (n, m, w) := (Number32(symbols), Number32(symbols + [v]), 5 * |symbols| / 8);
    NumberStep(symbols, v);
    LowTwelveIn5(n, v);
    CountStep(|symbols|);
    ShiftIn5(n, v, bits);
    if bits + 5 >= 8 {
      ByteSurvives(m, bits - 3);
      assert ShiftRight(m, bits + 5) == ShiftRight(m, bits - 3) / 256 by {
        ShiftSum(m, bits - 3, 8);
        ShiftRightUnits(ShiftRight(m, bits - 3));
      }
      LowBytesStep(ShiftRight(m, bits - 3), w + 1);
    }
  }

  lemma NumberStep(symbols: seq<Symbol>, v: Symbol)
    ensures Number32(symbols + [v]) == 32 * Number32(symbols) + v
  {
    assert (symbols + [v])[..|symbols|] == symbols;
  }

  lemma LowBytesStep(n: nat, width: nat)
    requires width > 0
    ensures LowBytes(n, width) == LowBytes(n / 256, width - 1) + [n % 256]
  {
  }

  lemma DecodingTakes(input: Bytes, offset: nat, symbols: seq<Symbol>, acc: nat, bits: nat, out: Bytes)
    requires Decoding(input, offset, false, symbols, acc, bits, out) && offset < |input| && SymbolOf(input[offset]).Some?
    ensures var v := SymbolOf(input[offset]).value;
            var next := (acc * 32 + v) % 4096;
            if bits + 5 >= 8 then
              Decoding(input, offset + 1, false, symbols + [v], next, bits - 3, out + [ShiftRight(next, bits - 3) % 256])
            else Decoding(input, offset + 1, false, symbols + [v], next, bits + 5, out)
  {
    hide SymbolOf, ShiftRight, LowBytes, Number32;
    var v := SymbolOf(input[offset]).value;
    BitsIn(symbols, v, acc, bits, out);
    PrependTwice(symbols, [v], Symbols(input, offset + 1, false));
  }

  lemma {:induction false} ShiftSum(n: nat, a: nat, b: nat)
    ensures ShiftRight(n, a + b) == ShiftRight(ShiftRight(n, a), b)
  {
    if a > 0 { ShiftSum(n / 2, a - 1, b); }
  }

  lemma ShiftRightSmall(n: nat)
    ensures ShiftRight(n, 1) == n / 2 && ShiftRight(n, 2) == n / 4 && ShiftRight(n, 3) == n / 8 && ShiftRight(n, 4) == n / 16
  {
    assert forall m: nat :: ShiftRight(m, 1) == m / 2 by { assert forall m: nat :: ShiftRight(m / 2, 0) == m / 2; }
    ShiftSum(n, 1, 1);
    ShiftSum(n, 2, 1);
    ShiftSum(n, 3, 1);
  }

  lemma ShiftRightUnits(n: nat)
    ensures ShiftRight(n, 5) == n / 32 && ShiftRight(n, 8) == n / 256
  {
    hide ShiftRight;
    ShiftRightSmall(n);
    ShiftRightSmall(n / 16);
    ShiftSum(n, 4, 1);
    ShiftSum(n, 4, 4);
  }

  lemma DecodingEnds(input: Bytes, padded: bool, symbols: seq<Symbol>, acc: nat, bits: nat, out: Bytes)
    requires Decoding(input, |input|, padded, symbols, acc, bits, out)
    ensures Symbols(input, 0, false) == Ok(symbols) && out == BytesOf(symbols)
  {
    hide ShiftRight, LowBytes, Number32;
    assert symbols + [] == symbols;
  }

  method DecodeText(input: Bytes) returns (r: Result<Bytes, Base32Error>)
    ensures r == Decode(input)
  {
    hide Symbols, Decoding, ShiftRight, BytesOf, SymbolOf;
    if |input| > MAX_INPUT_CHARS {
      return Err(TooLong(|input|));
    }
    var out: Bytes := [];
    var acc: nat, bits: nat, chars: nat := 0, 0, 0;
    var padded := false;
    ghost var symbols: seq<Symbol> := [];
    DecodingStarts(input);
    var offset := 0;
    while offset < |input|
      invariant 0 <= offset <= |input| && chars == |symbols|
      invariant 0 <= acc < 4096 && 0 <= bits < 8
      invariant Decoding(input, offset, padded, symbols, acc, bits, out)
    {
      var ch := input[offset];
      if SymbolOf(ch).None? {
        DecodingSkips(input, offset, padded, symbols, acc, bits, out);
        if ch == PAD {
          padded := true;
        } else if !IsSeparator(ch) {
          return Err(InvalidChar(ch, offset));
        }
      } else {
        if padded {
          DecodingRefuses(input, offset, symbols, acc, bits, out);
          return Err(PaddingInMiddle(offset));
        }
        DecodingTakes(input, offset, symbols, acc, bits, out);
        symbols := symbols + [SymbolOf(ch).value];
        chars := chars + 1;
        acc := (acc * 32 + SymbolOf(ch).value) % 4096;
        bits := bits + 5;
        if bits >= 8 {
          bits := bits - 8;
          out := out + [ShiftRight(acc, bits) % 256];
        }
      }
      offset := offset + 1;
    }
    DecodingEnds(input, padded, symbols, acc, bits, out);
    if chars % 8 in {1, 3, 6} {
      return Err(InvalidLength(chars));
    }
    return Ok(out);
  }

  // ----- the encoder -------------------------------------------------------------------------------

  /** Where the encoder stands after `i` bytes: all but the last `bits` bits are out. */
  ghost predicate Encoding(bytes: Bytes, i: nat, acc: nat, bits: nat, out: Bytes) {
    && i <= |bytes| && bits <= 8 * i && (8 * i - bits) % 5 == 0
    && acc == FromBigEndian(bytes[..i]) % 4096
    && out == Letters(Digits32(ShiftRight(FromBigEndian(bytes[..i]), bits), (8 * i - bits) / 5))
  }

  lemma ShiftIn8(n: nat, v: nat, bits: nat)
    requires v < 256
    ensures ShiftRight(256 * n + v, bits + 8) == ShiftRight(n, bits)
  {
    ShiftSum(256 * n + v, 8, bits);
    ShiftRightUnits(256 * n + v);
  }

  lemma EncodingTakes(bytes: Bytes, i: nat, acc: nat, bits: nat, out: Bytes)
    requires Encoding(bytes, i, acc, bits, out) && i < |bytes|
    ensures Encoding(bytes, i + 1, (acc * 256 + bytes[i]) % 4096, bits + 8, out)
  {
    hide ShiftRight, Letters, Digits32;
    var (n, m) := (FromBigEndian(bytes[..i]), FromBigEndian(bytes[..i + 1]));
    assert m == 256 * n + bytes[i] by { assert bytes[..i + 1][..i] == bytes[..i]; }
    hide FromBigEndian;
    LowTwelveIn8(n, bytes[i]);
    ShiftIn8(n, bytes[i], bits);
    var rest := 8 * i - bits;
    assert 8 * (i + 1) - (bits + 8) == rest;
  }

  lemma DigitsStep(n: nat, width: nat)
    ensures Letters(Digits32(n, width + 1)) == Letters(Digits32(n / 32, width)) + [Letter(n % 32)]
  {
    assert Digits32(n, width + 1)[..width] == Digits32(n / 32, width);
  }

  lemma EncodingEmits(bytes: Bytes, i: nat, acc: nat, bits: nat, out: Bytes)
    requires Encoding(bytes, i, acc, bits, out) && 5 <= bits <= 12
    ensures Encoding(bytes, i, acc, bits - 5, out + [Letter(ShiftRight(acc, bits - 5) % 32)])
  {
    hide ShiftRight, Letters, Digits32, FromBigEndian;
    var n := FromBigEndian(bytes[..i]);
    SymbolSurvives(n, bits - 5);
    ShiftSum(n, bits - 5, 5);
    ShiftRightUnits(ShiftRight(n, bits - 5));
    var k := (8 * i - bits) / 5;
    assert (8 * i - (bits - 5)) / 5 == k + 1 && (8 * i - (bits - 5)) % 5 == 0;
    DigitsStep(ShiftRight(n, bits - 5), k);
  }

  lemma LastShift(n: nat, bits: nat)
    requires 1 <= bits <= 4
    ensures ShiftLeft(n, 5 - bits) / 32 == ShiftRight(n, bits)
  {
    hide ShiftLeft, ShiftRight;
    ShiftLeftUnits(n);
    ShiftRightSmall(n);
  }

  lemma {:induction false} ShiftLeftAdds(a: nat, b: nat, bits: nat)
    ensures ShiftLeft(a + b, bits) == ShiftLeft(a, bits) + ShiftLeft(b, bits)
  {
    if bits > 0 { ShiftLeftAdds(a, b, bits - 1); }
  }

  lemma {:induction false} ShiftLeftKeepsZeros(n: nat, bits: nat)
    ensures ShiftLeft(32 * n, bits) == 32 * ShiftLeft(n, bits)
  {
    if bits > 0 { ShiftLeftKeepsZeros(n, bits - 1); }
  }

  lemma LastMask(n: nat, bits: nat)
    ensures ShiftLeft(n % 4096, bits) % 32 == ShiftLeft(n, bits) % 32
  {
    hide ShiftLeft;
    var high := 128 * (n / 4096);
    ShiftLeftAdds(n % 4096, 32 * high, bits);
    ShiftLeftKeepsZeros(high, bits);
  }

  lemma EncodingEnds(bytes: Bytes, acc: nat, bits: nat, out: Bytes)
    requires Encoding(bytes, |bytes|, acc, bits, out) && bits < 5
    ensures Encode(bytes) == if bits > 0 then out + [Letter(ShiftLeft(acc, 5 - bits) % 32)] else out
  {
    hide ShiftRight, Letters, Digits32, FromBigEndian;
    assert bytes[..|bytes|] == bytes;
    var n := FromBigEndian(bytes);
    var k := (8 * |bytes| - bits) / 5;
    assert 8 * |bytes| == 5 * k + bits;
    if bits > 0 {
      assert Width(|bytes|) == k + 1 && Slack(|bytes|) == 5 - bits;
      LastShift(n, bits);
      LastMask(n, 5 - bits);
      hide ShiftLeft;
      DigitsStep(ShiftLeft(n, 5 - bits), k);
    } else {
      assert Width(|bytes|) == k && Slack(|bytes|) == 0;
      NoShift(n);
    }
  }

  lemma NoShift(n: nat)
    ensures ShiftRight(n, 0) == n == ShiftLeft(n, 0)
  {
  }

  method EncodeInner(bytes: Bytes, pad: bool) returns (out: Bytes)
    ensures out == if pad then EncodePadded(bytes) else Encode(bytes)
  {
    hide Encoding, Encode, ShiftRight, ShiftLeft;
    out := [];
    var acc: nat, bits: nat := 0, 0;
    EncodingStarts(bytes);
    var i := 0;
    while i < |bytes|
      invariant 0 <= i <= |bytes| && 0 <= bits < 5 && 0 <= acc < 4096
      invariant Encoding(bytes, i, acc, bits, out)
    {
      EncodingTakes(bytes, i, acc, bits, out);
      acc := (acc * 256 + bytes[i]) % 4096;
      bits := bits + 8;
      while bits >= 5
        invariant 0 <= bits <= 12
        invariant Encoding(bytes, i + 1, acc, bits, out)
      {
        EncodingEmits(bytes, i + 1, acc, bits, out);
        bits := bits - 5;
        out := out + [Letter(ShiftRight(acc, bits) % 32)];
      }
      i := i + 1;
    }
    EncodingEnds(bytes, acc, bits, out);
    if bits > 0 {
      out := out + [Letter(ShiftLeft(acc, 5 - bits) % 32)];
    }
    if pad {
      out := PadToEight(out);
    }
  }

  method PadToEight(text: Bytes) returns (out: Bytes)
    ensures out == text + Padding((8 - |text| % 8) % 8)
  {
    out := text;
    ghost var padding := 0;
    while |out| % 8 != 0
      invariant padding <= (8 - |text| % 8) % 8
      invariant out == text + Padding(padding)
      decreases (8 - |text| % 8) % 8 - padding
    {
      out := out + [PAD];
      padding := padding + 1;
    }
  }

  lemma EncodingStarts(bytes: Bytes)
    ensures Encoding(bytes, 0, 0, 0, [])
  {
    assert bytes[..0] == [];
  }
}

/** What base32 guarantees its callers: encoding is undone by decoding, and decoding looks at nothing
    but the letters. */
module Base32Laws {
  import opened Foundations
  import opened Base32

  // ----- numbers and their digits -------------------------------------------------------------------

  lemma {:induction false} DigitsSpellNumber(n: nat, width: nat)
    requires ShiftRight(n, 5 * width) == 0
    ensures Number32(Digits32(n, width)) == n
  {
    if width == 0 {
      assert ShiftRight(n, 0) == n;
    } else {
      ShiftSum(n, 5, 5 * (width - 1));
      ShiftRightUnits(n);
      DigitsSpellNumber(n / 32, width - 1);
      assert Digits32(n, width)[..width - 1] == Digits32(n / 32, width - 1);
    }
  }

  lemma {:induction false} BytesAreLowBytes(bytes: Bytes)
    ensures LowBytes(FromBigEndian(bytes), |bytes|) == bytes
  {
    if bytes != [] {
      BytesAreLowBytes(bytes[..|bytes| - 1]);
      assert bytes == bytes[..|bytes| - 1] + [bytes[|bytes| - 1]];
    }
  }

  lemma {:induction false} BytesFit(bytes: Bytes)
    ensures ShiftRight(FromBigEndian(bytes), 8 * |bytes|) == 0
  {
    if bytes != [] {
      var init := bytes[..|bytes| - 1];
      BytesFit(init);
      ShiftIn8(FromBigEndian(init), bytes[|bytes| - 1], 8 * |init|);
      assert 8 * |init| + 8 == 8 * |bytes|;
    }
  }

  lemma {:induction false} ShiftBack(n: nat, bits: nat)
    ensures ShiftRight(ShiftLeft(n, bits), bits) == n
  {
    if bits > 0 { ShiftBack(n, bits - 1); }
  }

  lemma WidthIsExact(bytes: nat)
    ensures var (w, s) := (Width(bytes), Slack(bytes)); s <= 4 && 5 * w == 8 * bytes + s && 5 * w % 8 == s && 5 * w / 8 == bytes
    ensures WholeBytes(Width(bytes))
  {
  }

  lemma EncodedSymbolsDecode(bytes: Bytes)
    ensures var ns := Digits32(ShiftLeft(FromBigEndian(bytes), Slack(|bytes|)), Width(|bytes|));
            WholeBytes(|ns|) && BytesOf(ns) == bytes
  {
    hide ShiftRight, ShiftLeft, Digits32, Number32, LowBytes, FromBigEndian, Width, Slack, WholeBytes;
    var (n, w, s) := (FromBigEndian(bytes), Width(|bytes|), Slack(|bytes|));
    WidthIsExact(|bytes|);
    ShiftBack(n, s);
    ShiftSum(ShiftLeft(n, s), s, 8 * |bytes|);
    BytesFit(bytes);
    DigitsSpellNumber(ShiftLeft(n, s), w);
    BytesAreLowBytes(bytes);
  }

  // ----- letters and padding ------------------------------------------------------------------------

  lemma {:induction false} LettersAt(ns: seq<Symbol>, i: nat)
    requires i < |ns|
    ensures Letters(ns)[i] == Letter(ns[i])
  {
    if i < |ns| - 1 { LettersAt(ns[..|ns| - 1], i); }
  }

  lemma {:induction false} PaddingAt(n: nat, i: nat)
    requires i < n
    ensures Padding(n)[i] == PAD
  {
    if i < n - 1 { PaddingAt(n - 1, i); }
  }

  lemma {:induction false} LettersScan(input: Bytes, offset: nat, ns: seq<Symbol>, padded: bool)
    requires offset + |ns| <= |input| && (padded ==> ns == [])
    requires forall i | 0 <= i < |ns| :: input[offset + i] == Letter(ns[i])
    requires forall i | offset + |ns| <= i < |input| :: input[i] == PAD
    ensures Symbols(input, offset, padded) == Ok(ns)
    decreases |input| - offset
  {
    if offset < |input| {
      if ns == [] {
        LettersScan(input, offset + 1, ns, true);
      } else {
        assert input[offset + 0] == Letter(ns[0]);
        LettersScan(input, offset + 1, ns[1..], padded);
        assert ns == [ns[0]] + ns[1..];
      }
    }
  }

  lemma PaddedEncodingDecodes(bytes: Bytes, padding: nat)
    requires |Encode(bytes)| + padding <= MAX_INPUT_CHARS
    ensures Decode(Encode(bytes) + Padding(padding)) == Ok(bytes)
  {
    hide BytesOf, Symbols, Letters, Letter, Padding, ShiftLeft, Digits32, FromBigEndian;
    var ns := Digits32(ShiftLeft(FromBigEndian(bytes), Slack(|bytes|)), Width(|bytes|));
    var input := Encode(bytes) + Padding(padding);
    forall i | 0 <= i < |ns| ensures input[i] == Letter(ns[i]) { LettersAt(ns, i); }
    forall i | |ns| <= i < |input| ensures input[i] == PAD { PaddingAt(padding, i - |ns|); }
    LettersScan(input, 0, ns, false);
    EncodedSymbolsDecode(bytes);
  }

  /** Both encoders are undone, for every byte string whose encoding fits the cap. */
  lemma EncodingRoundTrips(bytes: Bytes)
    ensures |Encode(bytes)| <= MAX_INPUT_CHARS ==> Decode(Encode(bytes)) == Ok(bytes)
    ensures |EncodePadded(bytes)| <= MAX_INPUT_CHARS ==> Decode(EncodePadded(bytes)) == Ok(bytes)
  {
    hide Encode, Decode;
    var padding := (8 - |Encode(bytes)| % 8) % 8;
    if |Encode(bytes)| <= MAX_INPUT_CHARS {
      PaddedEncodingDecodes(bytes, 0);
      assert Encode(bytes) + Padding(0) == Encode(bytes);
    }
    if |EncodePadded(bytes)| <= MAX_INPUT_CHARS { PaddedEncodingDecodes(bytes, padding); }
  }

  // ----- lenience -----------------------------------------------------------------------------------

  predicate IsNoise(ch: byte) { SymbolOf(ch).None? && (IsSeparator(ch) || ch == PAD) }

  predicate Clean(input: Bytes) { forall i | 0 <= i < |input| :: SymbolOf(input[i]).Some? || IsNoise(input[i]) }

  predicate PaddingTrails(input: Bytes) {
    forall i, j | 0 <= i < j < |input| && input[i] == PAD :: SymbolOf(input[j]).None?
  }

  /** The symbols, wherever they stand and whatever stands between them. */
  function Significant(input: Bytes): (ns: seq<Symbol>)
    ensures |ns| <= |input|
  {
    if input == [] then []
    else (if SymbolOf(input[0]).Some? then [SymbolOf(input[0]).value] else []) + Significant(input[1..])
  }

  lemma {:induction false} ScanIs(input: Bytes, offset: nat, padded: bool)
    requires offset <= |input|
    ensures Symbols(input, offset, padded).Ok? <==>
              var rest := input[offset..]; Clean(rest) && PaddingTrails(rest) && (padded ==> Significant(rest) == [])
    ensures Symbols(input, offset, padded).Ok? ==> Symbols(input, offset, padded).value == Significant(input[offset..])
    decreases |input| - offset
  {
    var rest := input[offset..];
    if offset < |input| {
      var ch := input[offset];
      assert rest[1..] == input[offset + 1..] && rest[0] == ch;
      CleanStep(rest);
      TrailsStep(rest);
      ScanIs(input, offset + 1, padded || ch == PAD);
      hide IsSeparator;
      assert Significant(rest) == (if SymbolOf(ch).Some? then [SymbolOf(ch).value] else []) + Significant(rest[1..]);
    }
  }

  lemma CleanStep(input: Bytes)
    requires input != []
    ensures Clean(input) <==> (SymbolOf(input[0]).Some? || IsNoise(input[0])) && Clean(input[1..])
  {
    forall i | 0 < i < |input| ensures input[1..][i - 1] == input[i] {}
    if Clean(input[1..]) && (SymbolOf(input[0]).Some? || IsNoise(input[0])) {
      forall i | 0 <= i < |input| ensures SymbolOf(input[i]).Some? || IsNoise(input[i]) {
        if i > 0 { assert input[1..][i - 1] == input[i]; }
      }
    }
  }

  lemma {:induction false} NothingSignificant(input: Bytes)
    ensures Significant(input) == [] <==> forall i | 0 <= i < |input| :: SymbolOf(input[i]).None?
  {
    if input != [] {
      NothingSignificant(input[1..]);
      forall i | 0 < i < |input| ensures input[1..][i - 1] == input[i] {}
      if Significant(input) == [] {
        forall i | 0 <= i < |input| ensures SymbolOf(input[i]).None? {
          if i > 0 { assert SymbolOf(input[1..][i - 1]).None?; }
        }
      }
    }
  }

  lemma TrailsStep(input: Bytes)
    requires input != []
    ensures PaddingTrails(input) <==> PaddingTrails(input[1..]) && (input[0] == PAD ==> Significant(input[1..]) == [])
  {
    hide SymbolOf;
    NothingSignificant(input[1..]);
    forall i | 0 < i < |input| ensures input[1..][i - 1] == input[i] {}
    var rest := input[1..];
    if PaddingTrails(rest) && (input[0] == PAD ==> Significant(rest) == []) {
      forall i, j | 0 <= i < j < |input| && input[i] == PAD ensures SymbolOf(input[j]).None? {
        assert input[j] == rest[j - 1];
        if i > 0 { assert input[i] == rest[i - 1]; }
      }
    }
  }

  /** Exactly what is accepted, and what it decodes to. */
  lemma DecodesExactlyWhen(input: Bytes)
    ensures Decode(input).Ok? <==>
              |input| <= MAX_INPUT_CHARS && Clean(input) && PaddingTrails(input) && WholeBytes(|Significant(input)|)
    ensures Decode(input).Ok? ==> Decode(input).value == BytesOf(Significant(input))
  {
    hide BytesOf, WholeBytes, Symbols, Significant;
    ScanIs(input, 0, false);
    assert input[0..] == input;
  }

  function Upper(ch: byte): byte { if 'a' as int <= ch <= 'z' as int then ch - 32 else ch }

  function Stripped(input: Bytes): Bytes {
    if input == [] then [] else (if IsNoise(input[0]) then [] else [Upper(input[0])]) + Stripped(input[1..])
  }

  lemma {:induction false} StrippedDecides(a: Bytes, b: Bytes)
    requires Clean(a) && Clean(b) && Stripped(a) == Stripped(b)
    ensures Significant(a) == Significant(b)
    decreases |a| + |b|
  {
    hide IsSeparator, SymbolOf, Upper;
    if a != [] && IsNoise(a[0]) {
      CleanStep(a);
      assert Stripped(a) == Stripped(a[1..]) && Significant(a) == Significant(a[1..]);
      StrippedDecides(a[1..], b);
    } else if b != [] && IsNoise(b[0]) {
      CleanStep(b);
      assert Stripped(b) == Stripped(b[1..]) && Significant(b) == Significant(b[1..]);
      StrippedDecides(a, b[1..]);
    } else if a != [] && b != [] {
      CleanStep(a);
      CleanStep(b);
      assert Stripped(a)[0] == Upper(a[0]) && Stripped(b)[0] == Upper(b[0]);
      assert Stripped(a)[1..] == Stripped(a[1..]) && Stripped(b)[1..] == Stripped(b[1..]);
      CaseIsIgnored(a[0], b[0]);
      StrippedDecides(a[1..], b[1..]);
    } else {
      assert a == [] || Stripped(a) != [];
      assert b == [] || Stripped(b) != [];
    }
  }

  lemma CaseIsIgnored(a: byte, b: byte)
    requires Upper(a) == Upper(b)
    ensures SymbolOf(a) == SymbolOf(b)
  {
  }

  /** Case, separators and trailing padding change nothing. */
  lemma NoiseIsIgnored(a: Bytes, b: Bytes)
    requires Decode(a).Ok? && Stripped(a) == Stripped(b)
    requires |b| <= MAX_INPUT_CHARS && Clean(b) && PaddingTrails(b)
    ensures Decode(b) == Decode(a)
  {
    hide Decode, Stripped, Significant, BytesOf;
    DecodesExactlyWhen(a);
    DecodesExactlyWhen(b);
    StrippedDecides(a, b);
  }

  /** Trailing bits that make up no byte are lost, and nothing else: re-encoding gives a text that
      decodes to the same bytes. */
  lemma ReencodingKeepsTheBytes(input: Bytes)
    requires Decode(input).Ok?
    ensures Decode(Encode(Decode(input).value)) == Decode(input)
  {
    hide Decode, Encode, ShiftRight, Number32, LowBytes;
    var bytes := Decode(input).value;
    DecodesExactlyWhen(input);
    var chars := |Significant(input)|;
    assert |bytes| == 5 * chars / 8;
    EncodedLength(bytes);
    assert Width(5 * chars / 8) <= chars;
    EncodingRoundTrips(bytes);
  }

  lemma EncodedLength(bytes: Bytes)
    ensures |Encode(bytes)| == Width(|bytes|)
  {
  }

  // ----- the alphabet and the bits ------------------------------------------------------------------

  /** Table 3 of RFC 4648, with small letters read as capitals. */
  lemma AlphabetIs(ch: byte, n: Symbol)
    ensures Letter(n) as char == "ABCDEFGHIJKLMNOPQRSTUVWXYZ234567"[n]
    ensures SymbolOf(ch) == Some(n) <==> ch == Letter(n) || (n < 26 && ch == Letter(n) + 32)
  {
  }

  /** The low `width` bits, the highest first. */
  function BitsOf(n: nat, width: nat): (bits: seq<bool>)
    ensures |bits| == width
  {
    if width == 0 then [] else BitsOf(n / 2, width - 1) + [n % 2 == 1]
  }

  function ByteBits(bytes: Bytes): (bits: seq<bool>)
    ensures |bits| == 8 * |bytes|
  {
    if bytes == [] then [] else ByteBits(bytes[..|bytes| - 1]) + BitsOf(bytes[|bytes| - 1], 8)
  }

  function SymbolBits(ns: seq<Symbol>): (bits: seq<bool>)
    ensures |bits| == 5 * |ns|
  {
    if ns == [] then [] else SymbolBits(ns[..|ns| - 1]) + BitsOf(ns[|ns| - 1], 5)
  }

  lemma {:induction false} BitsSplit(n: nat, high: nat, low: nat)
    ensures BitsOf(n, high + low) == BitsOf(ShiftRight(n, low), high) + BitsOf(n, low)
  {
    if low > 0 { BitsSplit(n / 2, high, low - 1); }
  }

  /** What lies above the low bits does not show in them. */
  lemma {:induction false} LowBits(high: nat, v: nat, low: nat)
    ensures BitsOf(ShiftLeft(high, low) + v, low) == BitsOf(v, low)
  {
    if low > 0 {
      LowBits(high, v / 2, low - 1);
      assert (2 * ShiftLeft(high, low - 1) + v) / 2 == ShiftLeft(high, low - 1) + v / 2;
    }
  }

  lemma {:induction false} DigitBits(n: nat, width: nat)
    ensures SymbolBits(Digits32(n, width)) == BitsOf(n, 5 * width)
  {
    hide BitsOf, ShiftRight, ShiftLeft;
    if width == 0 {
      NoBits(n);
    } else {
      DigitBits(n / 32, width - 1);
      BitsSplit(n, 5 * (width - 1), 5);
      ShiftRightUnits(n);
      ShiftLeftUnits(n / 32);
      LowBits(n / 32, n % 32, 5);
      assert Digits32(n, width)[..width - 1] == Digits32(n / 32, width - 1);
    }
  }

  lemma NoBits(n: nat)
    ensures BitsOf(n, 0) == []
  {
  }

  lemma {:induction false} NumberBits(ns: seq<Symbol>)
    ensures SymbolBits(ns) == BitsOf(Number32(ns), 5 * |ns|)
  {
    hide BitsOf, ShiftRight, ShiftLeft;
    if ns == [] {
      NoBits(0);
    } else {
      var (m, v) := (Number32(ns[..|ns| - 1]), ns[|ns| - 1]);
      NumberBits(ns[..|ns| - 1]);
      BitsSplit(32 * m + v, 5 * (|ns| - 1), 5);
      ShiftRightUnits(32 * m + v);
      ShiftLeftUnits(m);
      LowBits(m, v, 5);
    }
  }

  lemma ShiftLeftByte(n: nat)
    ensures ShiftLeft(n, 8) == 256 * n
  {
    ShiftLeftUnits(n);
  }

  lemma {:induction false} LowByteBits(n: nat, width: nat)
    ensures ByteBits(LowBytes(n, width)) == BitsOf(n, 8 * width)
  {
    hide BitsOf, ShiftRight, ShiftLeft;
    if width == 0 {
      NoBits(n);
    } else {
      LowByteBits(n / 256, width - 1);
      BitsSplit(n, 8 * (width - 1), 8);
      ShiftRightUnits(n);
      ShiftLeftByte(n / 256);
      LowBits(n / 256, n % 256, 8);
      assert LowBytes(n, width)[..width - 1] == LowBytes(n / 256, width - 1);
    }
  }

  lemma {:induction false} ZeroBits(n: nat, low: nat)
    ensures forall i | 0 <= i < low :: !BitsOf(ShiftLeft(n, low), low)[i]
  {
    if low > 0 {
      ZeroBits(n, low - 1);
      assert 2 * ShiftLeft(n, low - 1) / 2 == ShiftLeft(n, low - 1);
    }
  }

  /** Five bits a letter, from the top, and zeros for what is missing of the last. */
  lemma EncodesTheBits(bytes: Bytes) returns (ns: seq<Symbol>)
    ensures Encode(bytes) == Letters(ns)
    ensures ByteBits(bytes) <= SymbolBits(ns) && |SymbolBits(ns)| - |ByteBits(bytes)| < 5
    ensures forall i | |ByteBits(bytes)| <= i < |SymbolBits(ns)| :: !SymbolBits(ns)[i]
  {
    hide BitsOf, ShiftRight, ShiftLeft, Digits32, FromBigEndian, Letters, SymbolBits, ByteBits;
    var (n, w, s) := (FromBigEndian(bytes), Width(|bytes|), Slack(|bytes|));
    ns := Digits32(ShiftLeft(n, s), w);
    WidthIsExact(|bytes|);
    DigitBits(ShiftLeft(n, s), w);
    BitsSplit(ShiftLeft(n, s), 8 * |bytes|, s);
    ShiftBack(n, s);
    LowByteBits(n, |bytes|);
    BytesAreLowBytes(bytes);
    ZeroBits(n, s);
  }

  /** What decodes gives back the bits of its letters, less those that fill no byte. */
  lemma DecodesTheBits(input: Bytes)
    requires Decode(input).Ok?
    ensures var (bits, bytes) := (SymbolBits(Significant(input)), Decode(input).value);
            ByteBits(bytes) <= bits && |bits| - |ByteBits(bytes)| < 8
  {
    hide BitsOf, ShiftRight, Number32, LowBytes, Decode, Significant, SymbolBits, ByteBits;
    DecodesExactlyWhen(input);
    var ns := Significant(input);
    var r := 5 * |ns| % 8;
    NumberBits(ns);
    BitsSplit(Number32(ns), 8 * (5 * |ns| / 8), r);
    LowByteBits(ShiftRight(Number32(ns), r), 5 * |ns| / 8);
  }

  /** Padding fills the last group of eight and no more. */
  lemma PaddingFillsTheGroup(bytes: Bytes)
    ensures var (plain, padded) := (Encode(bytes), EncodePadded(bytes));
            && plain <= padded && |padded| % 8 == 0 && |padded| - |plain| < 8
            && forall i | |plain| <= i < |padded| :: padded[i] == PAD
  {
    hide Encode;
    var n := (8 - |Encode(bytes)| % 8) % 8;
    forall i | 0 <= i < n ensures Padding(n)[i] == PAD { PaddingAt(n, i); }
  }

  // ----- what is refused ------------------------------------------------------------------------------

  /** The first letter after padding, or the first byte that is neither a letter nor noise. */
  ghost predicate FaultAt(input: Bytes, offset: nat, e: Base32Error) {
    && offset < |input| && Clean(input[..offset]) && PaddingTrails(input[..offset])
    && if SymbolOf(input[offset]).Some? then PAD in input[..offset] && e == PaddingInMiddle(offset)
       else !IsNoise(input[offset]) && e == InvalidChar(input[offset], offset)
  }

  lemma Grows(seen: Bytes, ch: byte)
    requires Clean(seen) && PaddingTrails(seen) && (SymbolOf(ch).Some? || IsNoise(ch)) && (SymbolOf(ch).Some? ==> PAD !in seen)
    ensures Clean(seen + [ch]) && PaddingTrails(seen + [ch])
  {
    hide SymbolOf, IsSeparator, IsNoise;
    forall i, j | 0 <= i < j < |seen + [ch]| && (seen + [ch])[i] == PAD ensures SymbolOf((seen + [ch])[j]).None? {
      assert (seen + [ch])[i] == seen[i] && seen[i] in seen;
    }
  }

  lemma {:induction false} ScanFails(input: Bytes, offset: nat, padded: bool)
    requires offset <= |input| && Symbols(input, offset, padded).Err?
    requires Clean(input[..offset]) && PaddingTrails(input[..offset]) && (padded <==> PAD in input[..offset])
    ensures exists k :: 0 <= k < |input| && FaultAt(input, k, Symbols(input, offset, padded).error)
    decreases |input| - offset
  {
    hide IsSeparator, SymbolOf, Clean, PaddingTrails;
    var ch := input[offset];
    var seen := input[..offset];
    assert input[..offset + 1] == seen + [ch];
    PadIsNoLetter();
    if SymbolOf(ch).Some? && padded {
      assert FaultAt(input, offset, PaddingInMiddle(offset));
    } else if SymbolOf(ch).Some? || IsNoise(ch) {
      Grows(seen, ch);
      ScanFails(input, offset + 1, padded || ch == PAD);
    } else {
      assert FaultAt(input, offset, InvalidChar(ch, offset));
    }
  }

  lemma PadIsNoLetter()
    ensures SymbolOf(PAD).None? && !IsSeparator(PAD)
  {
  }

  /** Every refusal names what is wrong: the length, the first fault, or the count of letters. */
  lemma FailsTruly(input: Bytes)
    requires Decode(input).Err?
    ensures match Decode(input).error
            case TooLong(n) => n == |input| > 4096
            case InvalidLength(n) => |input| <= 4096 && Clean(input) && PaddingTrails(input) && n == |Significant(input)| && n % 8 in {1, 3, 6}
            case e => |input| <= 4096 && exists k :: 0 <= k < |input| && FaultAt(input, k, e)
  {
    hide Symbols, Significant;
    ScanIs(input, 0, false);
    assert input[0..] == input && input[..0] == [];
    if Symbols(input, 0, false).Err? { ScanFails(input, 0, false); }
  }
}

/** Percent-encoding, strict in both directions (crates/misty-otp/src/percent.rs).  Whether decoded
    bytes are acceptable text -- valid UTF-8 with no control or spoofing character -- is a parameter. */
module Percent {
  import opened Foundations
  import opened Texts

  const PERCENT: byte := 0x25

  datatype TextError = NotUtf8 | ControlChar(code: nat)

  datatype PercentError = BadPercentEscape(offset: nat) | BadText(error: TextError)

  predicate IsAlphanumeric(b: byte) {
    'a' as int <= b <= 'z' as int || 'A' as int <= b <= 'Z' as int || '0' as int <= b <= '9' as int
  }

  /** What is written as itself: letters, digits and `-._~@`. */
  predicate IsPlain(b: byte) { IsAlphanumeric(b) || b in [0x2d, 0x2e, 0x5f, 0x7e, 0x40] }

  function HexNibble(b: byte): Option<nat> {
    if '0' as int <= b <= '9' as int then Some(b - '0' as int)
    else if 'a' as int <= b <= 'f' as int then Some(b - 'a' as int + 10)
    else if 'A' as int <= b <= 'F' as int then Some(b - 'A' as int + 10)
    else None
  }

  function HexUpper(nibble: nat): byte
    requires nibble < 16
  {
    if nibble < 10 then '0' as int + nibble else 'A' as int + nibble - 10
  }

  /** The bytes `input` stands for from `index` on. */
  function Unescape(input: Bytes, index: nat): Result<Bytes, PercentError>
    requires index <= |input|
    decreases |input| - index
  {
    if index == |input| then Ok([])
    else if input[index] != PERCENT then Prepend([input[index]], Unescape(input, index + 1))
    else if index + 2 < |input| && HexNibble(input[index + 1]).Some? && HexNibble(input[index + 2]).Some? then
      Prepend([EscapedByte(input[index + 1], input[index + 2])], Unescape(input, index + 3))
    else Err(BadPercentEscape(index))
  }

  function EscapedByte(high: byte, low: byte): byte
    requires HexNibble(high).Some? && HexNibble(low).Some?
  {
    16 * HexNibble(high).value + HexNibble(low).value
  }

  type TextCheck = Bytes -> Option<TextError>

  function Decode(check: TextCheck, input: Bytes): Result<Bytes, PercentError> {
    match Unescape(input, 0)
    case Err(e) => Err(e)
    case Ok(text) => if check(text).Some? then Err(BadText(check(text).value)) else Ok(text)
  }

  function EscapeByte(b: byte): Bytes { if IsPlain(b) then [b] else [PERCENT, HexUpper(b / 16), HexUpper(b % 16)] }

  function Encode(value: Bytes): Bytes {
    if value == [] then [] else EscapeByte(value[0]) + Encode(value[1..])
  }

  // ----- the loops ---------------------------------------------------------------------------------

  method DecodeText(check: TextCheck, input: Bytes) returns (r: Result<Bytes, PercentError>)
    ensures r == Decode(check, input)
  {
    hide HexNibble, EscapedByte;
    var decoded: Bytes := [];
    var index := 0;
    PrependNone(Unescape(input, 0));
    while index < |input|
      invariant 0 <= index <= |input|
      invariant Unescape(input, 0) == Prepend(decoded, Unescape(input, index))
      decreases |input| - index
    {
      if input[index] == PERCENT {
        if index + 2 >= |input| || HexNibble(input[index + 1]).None? || HexNibble(input[index + 2]).None? {
          return Err(BadPercentEscape(index));
        }
        var b := EscapedByte(input[index + 1], input[index + 2]);
        PrependTwice(decoded, [b], Unescape(input, index + 3));
        decoded := decoded + [b];
        index := index + 3;
      } else {
        PrependTwice(decoded, [input[index]], Unescape(input, index + 1));
        decoded := decoded + [input[index]];
        index := index + 1;
      }
    }
    assert decoded + [] == decoded;
    var error := check(decoded);
    if error.Some? {
      return Err(BadText(error.value));
    }
    return Ok(decoded);
  }

  lemma {:induction false} EncodeConcat(a: Bytes, b: Bytes)
    ensures Encode(a + b) == Encode(a) + Encode(b)
    decreases |a|
  {
    if a == [] {
      assert a + b == b;
    } else {
      assert (a + b)[1..] == a[1..] + b;
      EncodeConcat(a[1..], b);
    }
  }

  method EncodeBytes(value: Bytes) returns (out: Bytes)
    ensures out == Encode(value)
  {
    out := [];
    var i := 0;
    while i < |value|
      invariant 0 <= i <= |value|
      invariant out == Encode(value[..i])
    {
      var b := value[i];
      assert value[..i + 1] == value[..i] + [b];
      EncodeConcat(value[..i], [b]);
      assert Encode([b]) == EscapeByte(b) + Encode([b][1..]);
      if IsPlain(b) {
        out := out + [b];
      } else {
        out := out + [PERCENT];
        out := out + [HexUpper(b / 16)];
        out := out + [HexUpper(b % 16)];
      }
      i := i + 1;
    }
    assert value[..|value|] == value;
  }

  // ----- the two together ----------------------------------------------------------------------------

  lemma NibblesRoundTrip(b: byte)
    ensures HexNibble(HexUpper(b / 16)) == Some(b / 16) && HexNibble(HexUpper(b % 16)) == Some(b % 16)
    ensures EscapedByte(HexUpper(b / 16), HexUpper(b % 16)) == b
  {
  }

  /** Unescaping is undone wherever the encoding stands. */
  lemma {:induction false} EscapesUnescape(input: Bytes, index: nat, value: Bytes)
    requires index <= |input| && input[index..] == Encode(value)
    ensures Unescape(input, index) == Ok(value)
    decreases |value|
  {
    hide HexNibble, HexUpper;
    if value != [] {
      var (b, escaped) := (value[0], EscapeByte(value[0]));
      var n := |escaped|;
      assert input[index..][..n] == escaped && input[index + n..] == Encode(value[1..]);
      assert forall i | 0 <= i < n :: input[index + i] == escaped[i];
      assert input[index + 0] == escaped[0];
      NibblesRoundTrip(b);
      if !IsPlain(b) {
        assert input[index + 1] == escaped[1] && input[index + 2] == escaped[2];
      }
      EscapesUnescape(input, index + n, value[1..]);
      assert value == [b] + value[1..];
    }
  }

  /** Every acceptable text survives the trip. */
  lemma EncodingRoundTrips(check: TextCheck, value: Bytes)
    requires check(value).None?
    ensures Decode(check, Encode(value)) == Ok(value)
  {
    assert Encode(value)[0..] == Encode(value);
    EscapesUnescape(Encode(value), 0, value);
  }

  /** Nothing structural is ever written: only plain characters, and the escape itself. */
  lemma {:induction false} EncodingIsSafe(value: Bytes)
    ensures forall i | 0 <= i < |Encode(value)| :: IsPlain(Encode(value)[i]) || Encode(value)[i] == PERCENT
    ensures |Encode(value)| >= |value|
  {
    if value != [] {
      EncodingIsSafe(value[1..]);
      var (head, tail) := (EscapeByte(value[0]), Encode(value[1..]));
      forall i | 0 <= i < |Encode(value)| ensures IsPlain(Encode(value)[i]) || Encode(value)[i] == PERCENT {
        if i < |head| { assert Encode(value)[i] == head[i]; } else { assert Encode(value)[i] == tail[i - |head|]; }
      }
    }
  }

  lemma {:induction false} PlainIsUntouched(value: Bytes)
    requires forall i | 0 <= i < |value| :: IsPlain(value[i])
    ensures Encode(value) == value
  {
    if value != [] {
      PlainIsUntouched(value[1..]);
      assert value == [value[0]] + value[1..];
    }
  }

  // ----- exactly which texts are read, and how each is written -----------------------------------------

  /** A piece of encoded text: a byte standing for itself, or an escape with its two digits. */
  datatype Token = Literal(b: byte) | Escape(high: byte, low: byte)

  /** `b` is a hexadecimal digit, in either case, worth `n`. */
  ghost predicate IsHexDigit(b: byte, n: nat) {
    n < 16 && (b == Ascii("0123456789abcdef")[n] || b == Ascii("0123456789ABCDEF")[n])
  }

  ghost predicate IsEscape(high: byte, low: byte, b: byte) {
    exists h: nat, l: nat :: IsHexDigit(high, h) && IsHexDigit(low, l) && b == 16 * h + l
  }

  /** Token by token, `raw` spells `text`. */
  ghost predicate Spelled(tokens: seq<Token>, raw: Bytes, text: Bytes)
    decreases |tokens|
  {
    if tokens == [] then raw == [] && text == []
    else
      text != [] &&
      match tokens[0]
      case Literal(b) => b != PERCENT && b == text[0] && raw != [] && raw[0] == b && Spelled(tokens[1..], raw[1..], text[1..])
      case Escape(high, low) =>
        && IsEscape(high, low, text[0])
        && |raw| >= 3 && raw[..3] == [PERCENT, high, low] && Spelled(tokens[1..], raw[3..], text[1..])
  }

  /** A percent sign without two digits after it. */
  ghost predicate BadEscape(raw: Bytes) {
    && raw != [] && raw[0] == PERCENT
    && !(|raw| >= 3 && (exists h :: IsHexDigit(raw[1], h)) && (exists l :: IsHexDigit(raw[2], l)))
  }

  lemma NibbleIsDigit(b: byte, n: nat)
    ensures HexNibble(b) == Some(n) <==> IsHexDigit(b, n)
  {
  }

  lemma NibbleOfDigit(b: byte)
    ensures HexNibble(b).Some? <==> exists n :: IsHexDigit(b, n)
  {
    if HexNibble(b).Some? {
      NibbleIsDigit(b, HexNibble(b).value);
    } else if n :| IsHexDigit(b, n) {
      NibbleIsDigit(b, n);
    }
  }

  lemma EscapeMeans(high: byte, low: byte, b: byte)
    ensures HexNibble(high).Some? && HexNibble(low).Some? && EscapedByte(high, low) == b
            <==> IsEscape(high, low, b)
  {
    hide HexNibble;
    if HexNibble(high).Some? && HexNibble(low).Some? {
      NibbleIsDigit(high, HexNibble(high).value);
      NibbleIsDigit(low, HexNibble(low).value);
    }
    if h: nat, l: nat :| IsHexDigit(high, h) && IsHexDigit(low, l) && b == 16 * h + l {
      NibbleIsDigit(high, h);
      NibbleIsDigit(low, l);
    }
  }

  lemma {:induction false} SpelledUnescapes(tokens: seq<Token>, input: Bytes, index: nat, text: Bytes)
    requires index <= |input| && Spelled(tokens, input[index..], text)
    ensures Unescape(input, index) == Ok(text)
    decreases |tokens|
  {
    hide HexNibble, EscapedByte, IsHexDigit, IsEscape;
    if tokens != [] {
      var raw := input[index..];
      assert text == [text[0]] + text[1..];
      assert raw[0] == input[index];
      match tokens[0]
      case Literal(b) =>
        assert raw[1..] == input[index + 1..];
        SpelledUnescapes(tokens[1..], input, index + 1, text[1..]);
      case Escape(high, low) =>
        assert raw[..3][1] == input[index + 1] && raw[..3][2] == input[index + 2] && raw[..3][0] == input[index];
        assert raw[3..] == input[index + 3..];
        EscapeMeans(high, low, text[0]);
        SpelledUnescapes(tokens[1..], input, index + 3, text[1..]);
    }
  }

  /** What `tokens` spell of `input` from `index` on, up to where reading ended. */
  ghost predicate ReadTo(tokens: seq<Token>, input: Bytes, index: nat, r: Result<Bytes, PercentError>)
    requires index <= |input|
  {
    match r
    case Ok(text) => Spelled(tokens, input[index..|input|], text)
    case Err(e) => e.BadPercentEscape? && index <= e.offset <= |input| && BadEscape(input[e.offset..])
                   && exists text :: Spelled(tokens, input[index..e.offset], text)
  }

  /** Reading ends with the text some tokens spell, or at the first percent sign that is no escape. */
  lemma {:induction false} UnescapesTo(input: Bytes, index: nat) returns (tokens: seq<Token>)
    requires index <= |input|
    ensures ReadTo(tokens, input, index, Unescape(input, index))
    decreases |input| - index
  {
    hide HexNibble, EscapedByte, IsHexDigit, IsEscape;
    var raw := input[index..];
    if index == |input| {
      tokens := [];
    } else if input[index] != PERCENT {
      var rest := UnescapesTo(input, index + 1);
      tokens := Before(Literal(input[index]), rest, input, index, index + 1, input[index]);
      Extends(tokens, rest, input, index, index + 1, input[index]);
    } else if index + 2 < |input| && HexNibble(input[index + 1]).Some? && HexNibble(input[index + 2]).Some? {
      var b := EscapedByte(input[index + 1], input[index + 2]);
      EscapeMeans(input[index + 1], input[index + 2], b);
      var rest := UnescapesTo(input, index + 3);
      tokens := Before(Escape(input[index + 1], input[index + 2]), rest, input, index, index + 3, b);
      Extends(tokens, rest, input, index, index + 3, b);
    } else {
      tokens := [];
      assert input[index..index] == [];
      assert Spelled(tokens, input[index..index], []);
      if |raw| >= 3 {
        NibbleOfDigit(raw[1]);
        NibbleOfDigit(raw[2]);
      }
    }
  }

  lemma Extends(more: seq<Token>, tokens: seq<Token>, input: Bytes, index: nat, next: nat, b: byte)
    requires index < next <= |input| && ReadTo(tokens, input, next, Unescape(input, next))
    requires forall end, text :: next <= end <= |input| && Spelled(tokens, input[next..end], text) ==> Spelled(more, input[index..end], [b] + text)
    ensures ReadTo(more, input, index, Prepend([b], Unescape(input, next)))
  {
    hide Spelled, BadEscape, Unescape;
    var r := Unescape(input, next);
    if r.Err? {
      var text :| Spelled(tokens, input[next..r.error.offset], text);
      assert Spelled(more, input[index..r.error.offset], [b] + text);
    }
  }

  /** One more token in front. */
  lemma Before(token: Token, tokens: seq<Token>, input: Bytes, index: nat, next: nat, b: byte) returns (more: seq<Token>)
    requires index < next <= |input|
    requires match token
             case Literal(c) => next == index + 1 && input[index] == c == b != PERCENT
             case Escape(high, low) =>
               && next == index + 3 && input[index..next] == [PERCENT, high, low]
               && IsEscape(high, low, b)
    ensures more == [token] + tokens
    ensures forall end, text :: next <= end <= |input| && Spelled(tokens, input[next..end], text) ==> Spelled(more, input[index..end], [b] + text)
  {
    hide IsHexDigit;
    more := [token] + tokens;
    forall end, text | next <= end <= |input| && Spelled(tokens, input[next..end], text) ensures Spelled(more, input[index..end], [b] + text) {
      assert more[1..] == tokens && ([b] + text)[1..] == text;
      assert input[index..end][next - index..] == input[next..end];
      assert input[index..end][..next - index] == input[index..next];
    }
  }

  ghost predicate Spells(raw: Bytes, text: Bytes) { exists tokens :: Spelled(tokens, raw, text) }

  /** The first percent sign that two hexadecimal digits do not follow. */
  ghost predicate FirstBadEscape(input: Bytes, offset: nat) {
    offset <= |input| && BadEscape(input[offset..]) && exists before :: Spells(input[..offset], before)
  }

  lemma UnescapesExactlyWhen(input: Bytes, text: Bytes)
    ensures Unescape(input, 0) == Ok(text) <==> Spells(input, text)
  {
    hide Unescape, BadEscape, Spelled;
    assert input[0..] == input == input[0..|input|];
    if Unescape(input, 0) == Ok(text) {
      var tokens := UnescapesTo(input, 0);
    } else if tokens :| Spelled(tokens, input, text) {
      SpelledUnescapes(tokens, input, 0, text);
    }
  }

  lemma FailsExactlyWhen(input: Bytes, offset: nat)
    ensures Unescape(input, 0) == Err(BadPercentEscape(offset)) <==> FirstBadEscape(input, offset)
    ensures Unescape(input, 0).Err? ==> Unescape(input, 0).error.BadPercentEscape?
  {
    hide Unescape, BadEscape, Spelled;
    if Unescape(input, 0).Err? {
      var tokens := UnescapesTo(input, 0);
      var at := Unescape(input, 0).error.offset;
      var before :| Spelled(tokens, input[0..at], before);
      assert input[0..at] == input[..at];
      assert Spells(input[..at], before);
    }
    if FirstBadEscape(input, offset) {
      var before :| Spells(input[..offset], before);
      var tokens :| Spelled(tokens, input[..offset], before);
      assert input[0..offset] == input[..offset];
      StopsAt(tokens, input, 0, offset, before);
    }
  }

  /** Exactly the texts that are taken and what each stands for; and the offset reported for the others is
      that of the first percent sign two hexadecimal digits do not follow. */
  lemma DecodesExactlyWhen(check: TextCheck, input: Bytes, text: Bytes, offset: nat, e: TextError)
    ensures Decode(check, input) == Ok(text) <==> Spells(input, text) && check(text).None?
    ensures Decode(check, input) == Err(BadPercentEscape(offset)) <==> FirstBadEscape(input, offset)
    ensures Decode(check, input) == Err(BadText(e)) <==> exists t :: Spells(input, t) && check(t) == Some(e)
  {
    hide Unescape, Spells, FirstBadEscape;
    UnescapesExactlyWhen(input, text);
    FailsExactlyWhen(input, offset);
    if Unescape(input, 0).Ok? { UnescapesExactlyWhen(input, Unescape(input, 0).value); }
    if t :| Spells(input, t) && check(t) == Some(e) { UnescapesExactlyWhen(input, t); }
  }

  lemma {:induction false} StopsAt(tokens: seq<Token>, input: Bytes, index: nat, offset: nat, text: Bytes)
    requires index <= offset <= |input| && Spelled(tokens, input[index..offset], text) && BadEscape(input[offset..])
    ensures Unescape(input, index) == Err(BadPercentEscape(offset))
    decreases |tokens|
  {
    hide HexNibble, EscapedByte, IsHexDigit, IsEscape;
    var raw := input[index..offset];
    if tokens == [] {
      var rest := input[offset..];
      assert offset == index && rest[0] == input[index];
      if |rest| >= 3 {
        assert rest[1] == input[index + 1] && rest[2] == input[index + 2];
        NibbleOfDigit(rest[1]);
        NibbleOfDigit(rest[2]);
      }
    } else {
      assert raw[0] == input[index];
      match tokens[0]
      case Literal(b) =>
        assert raw[1..] == input[index + 1..offset];
        StopsAt(tokens[1..], input, index + 1, offset, text[1..]);
      case Escape(high, low) =>
        assert raw[..3][1] == input[index + 1] && raw[..3][2] == input[index + 2] && raw[..3][0] == input[index];
        assert raw[3..] == input[index + 3..offset];
        EscapeMeans(high, low, text[0]);
        StopsAt(tokens[1..], input, index + 3, offset, text[1..]);
    }
  }

  /** The characters written as themselves. */
  predicate IsUnreserved(b: byte) {
    || b as char in "ABCDEFGHIJKLM" || b as char in "NOPQRSTUVWXYZ"
    || b as char in "abcdefghijklm" || b as char in "nopqrstuvwxyz"
    || b as char in "0123456789-._~@"
  }

  /** How a byte is written: as itself if it is one of these, as an escape with upper-case digits if not. */
  ghost predicate IsWritten(token: Token, b: byte) {
    match token
    case Literal(c) => c == b && IsUnreserved(b)
    case Escape(high, low) =>
      && !IsUnreserved(b)
      && high == Ascii("0123456789ABCDEF")[b / 16] && low == Ascii("0123456789ABCDEF")[b % 16]
  }

  lemma PlainIsListed(b: byte)
    ensures IsPlain(b) <==> IsUnreserved(b)
  {
    UpperIsListed(b);
    LowerIsListed(b);
    OthersAreListed(b);
  }

  lemma UpperIsListed(b: byte)
    ensures 'A' as int <= b <= 'M' as int <==> b as char in "ABCDEFGHIJKLM"
    ensures 'N' as int <= b <= 'Z' as int <==> b as char in "NOPQRSTUVWXYZ"
  {
    if 'A' as int <= b <= 'M' as int { assert "ABCDEFGHIJKLM"[b - 'A' as int] == b as char; }
    if 'N' as int <= b <= 'Z' as int { assert "NOPQRSTUVWXYZ"[b - 'N' as int] == b as char; }
  }

  lemma LowerIsListed(b: byte)
    ensures 'a' as int <= b <= 'm' as int <==> b as char in "abcdefghijklm"
    ensures 'n' as int <= b <= 'z' as int <==> b as char in "nopqrstuvwxyz"
  {
    if 'a' as int <= b <= 'm' as int { assert "abcdefghijklm"[b - 'a' as int] == b as char; }
    if 'n' as int <= b <= 'z' as int { assert "nopqrstuvwxyz"[b - 'n' as int] == b as char; }
  }

  lemma OthersAreListed(b: byte)
    ensures '0' as int <= b <= '9' as int || b in [0x2d, 0x2e, 0x5f, 0x7e, 0x40] <==> b as char in "0123456789-._~@"
  {
    if '0' as int <= b <= '9' as int { assert "0123456789-._~@"[b - '0' as int] == b as char; }
  }

  /** Exactly how each byte of a text is written. */
  lemma {:induction false} EncodesAs(value: Bytes) returns (tokens: seq<Token>)
    ensures |tokens| == |value| && (forall i | 0 <= i < |value| :: IsWritten(tokens[i], value[i]))
    ensures Spelled(tokens, Encode(value), value)
  {
    hide IsPlain, HexUpper, IsHexDigit, IsUnreserved;
    tokens := [];
    if value != [] {
      var b := value[0];
      var rest := EncodesAs(value[1..]);
      PlainIsListed(b);
      WrittenDigit(b / 16);
      WrittenDigit(b % 16);
      var token := if IsPlain(b) then Literal(b) else Escape(HexUpper(b / 16), HexUpper(b % 16));
      tokens := [token] + rest;
      assert tokens[1..] == rest;
      var raw := Encode(value);
      if IsPlain(b) {
        PercentIsNotPlain();
        assert raw[1..] == Encode(value[1..]);
      } else {
        assert raw[..3] == [PERCENT, HexUpper(b / 16), HexUpper(b % 16)];
        assert raw[3..] == Encode(value[1..]);
        assert b == 16 * (b / 16) + b % 16;
      }
      forall i | 0 <= i < |value| ensures IsWritten(tokens[i], value[i]) {
        if i > 0 { assert tokens[i] == rest[i - 1] && value[i] == value[1..][i - 1]; }
      }
    }
  }

  lemma WrittenDigit(n: nat)
    requires n < 16
    ensures HexUpper(n) == Ascii("0123456789ABCDEF")[n] && IsHexDigit(HexUpper(n), n)
  {
  }

  lemma PercentIsNotPlain()
    ensures !IsPlain(PERCENT)
  {
  }
}

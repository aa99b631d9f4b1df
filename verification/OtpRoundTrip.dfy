/** Printing undone by parsing: whatever parses, prints to something that parses without a warning to
    its export form and prints the same again. */
module OtpRoundTrips {
  import opened Foundations
  import opened Decimals
  import opened Texts
  import opened OtpConfigs
  import opened OtpUris
  import Base32
  import Base32Laws
  import Percent

  /** Printable ASCII is acceptable text; the rest of the check may be anything. */
  ghost predicate PlainTextPasses(check: Percent.TextCheck) {
    forall t: Bytes :: (forall i | 0 <= i < |t| :: 0x20 <= t[i] < 0x7f) ==> check(t).None?
  }

  predicate ExtraFits(check: Percent.TextCheck, pair: (Bytes, Bytes)) {
    pair.0 != [] && KnownParam(pair.0).None? && check(pair.0).None? && check(pair.1).None?
  }

  /** What every model that came out of the parser satisfies. */
  ghost predicate WellFormed(check: Percent.TextCheck, u: OtpUri) {
    && Normal(u.config) && u.config.counter < 0x1_0000_0000_0000_0000
    && (u.issuer.Some? ==> u.issuer.value != [] && check(u.issuer.value).None?)
    && check(u.account).None?
    && (u.config.pin.Some? && u.config.kind.PinEncoding() == PlainText ==> check(u.config.pin.value).None?)
    && (forall i | 0 <= i < |u.extra| :: ExtraFits(check, u.extra[i]))
    && |ToUri(u)| <= MAX_URI_LEN
  }

  // ----- parsing yields well-formed models -------------------------------------------------------------

  predicate QueryFits(check: Percent.TextCheck, q: Query) {
    && (forall p | p in q.slots :: check(q.slots[p]).None?)
    && (forall i | 0 <= i < |q.extra| :: ExtraFits(check, q.extra[i]))
  }

  lemma UnescapedIsNotEmpty(raw: Bytes)
    requires raw != [] && Percent.Unescape(raw, 0).Ok?
    ensures Percent.Unescape(raw, 0).value != []
  {
  }

  lemma AddPairFits(check: Percent.TextCheck, q: Query, pair: Bytes)
    requires QueryFits(check, q) && AddPair(check, q, pair).Ok?
    ensures QueryFits(check, AddPair(check, q, pair).value)
  {
    hide KnownParam, SplitOnce, Percent.Unescape;
    if pair != [] {
      var (rawName, rawValue) := Or(SplitOnce(pair, [EQUALS]), (pair, []));
      UnescapedIsNotEmpty(rawName);
    }
  }

  lemma {:induction false} AddPairsFit(check: Percent.TextCheck, q: Query, pairs: seq<Bytes>)
    requires QueryFits(check, q) && AddPairs(check, q, pairs).Ok?
    ensures QueryFits(check, AddPairs(check, q, pairs).value)
    decreases |pairs|
  {
    hide AddPair, QueryFits;
    if pairs != [] {
      AddPairFits(check, q, pairs[0]);
      AddPairsFit(check, AddPair(check, q, pairs[0]).value, pairs[1..]);
    }
  }

  lemma InterpretedFits(check: Percent.TextCheck, kind: OtpKind, q: Query)
    requires QueryFits(check, q) && Interpret(kind, q).Ok?
    ensures var c := Interpret(kind, q).value.0;
            && Normal(c) && c.kind == kind && c.counter < 0x1_0000_0000_0000_0000
            && (c.pin.Some? && kind.PinEncoding() == PlainText ==> check(c.pin.value).None?)
  {
    hide Base32.Decode, HexDecode, ParseHashAlg, ParseDecimal, CheckLen, Normal;
  }

  /** Everything the parser returns can be printed back. */
  lemma ParsedIsWellFormed(check: Percent.TextCheck, input: Bytes)
    requires Parse(check, input).Ok?
    ensures WellFormed(check, Parse(check, input).value.0)
  {
    hide Locate, Interpret, ToUri, AddPairs, SplitAll, SplitOnce, Percent.Unescape, Normal;
    var located := Locate(input).value;
    var query := ParseQuery(check, located.query).value;
    AddPairsFit(check, Query(map[], []), SplitAll(located.query, AMPERSAND));
    InterpretedFits(check, located.kind, query);
  }

  // ----- what is written is safe ------------------------------------------------------------------------

  /** Nothing that could be taken for structure. */
  predicate Safe(text: Bytes) { forall i | 0 <= i < |text| :: Percent.IsPlain(text[i]) || text[i] == Percent.PERCENT }

  predicate Plain(text: Bytes) { forall i | 0 <= i < |text| :: Percent.IsPlain(text[i]) }

  predicate Structural(b: byte) { b in [HASH, AMPERSAND, SLASH, COLON, EQUALS, QUESTION] }

  lemma SafeLacks(text: Bytes, b: byte)
    requires Safe(text) && Structural(b)
    ensures Lacks(text, b)
  {
  }

  lemma {:induction false} LettersArePlain(ns: seq<Base32.Symbol>)
    ensures Plain(Base32.Letters(ns))
  {
    if ns != [] { LettersArePlain(ns[..|ns| - 1]); }
  }

  lemma DigitsArePlain(n: nat)
    ensures Plain(Digits(n))
  {
    var t := Digits(n);
    assert forall i | 0 <= i < |t| :: IsDigit(t[i]);
  }

  lemma ParamNameIsPlain(param: Param)
    ensures Plain(param.Name()) && param.Name() != []
  {
  }

  lemma HashNameIsPlain(alg: HashAlg)
    ensures Plain(alg.Name())
  {
  }

  lemma UriTypeIsPlain(kind: OtpKind)
    ensures Plain(kind.UriType())
  {
  }

  lemma FieldIsPlain(encoding: SecretEncoding, bytes: Bytes)
    requires encoding != PlainText
    ensures Plain(EncodeField(encoding, bytes))
  {
    hide Base32.Letters, Base32.Digits32;
    match encoding
    case Base32Text =>
      LettersArePlain(Base32.Digits32(Base32.ShiftLeft(FromBigEndian(bytes), Base32.Slack(|bytes|)), Base32.Width(|bytes|)));
    case HexText => HexRoundTrips(bytes);
  }

  // ----- what each written parameter means --------------------------------------------------------------

  /** A name and a value that read back as `meant`. */
  ghost predicate Reads(check: Percent.TextCheck, written: (Bytes, Bytes), meant: (Bytes, Bytes)) {
    && Safe(written.0) && Safe(written.1) && written.0 != []
    && Percent.Decode(check, written.0) == Ok(meant.0) && Percent.Decode(check, written.1) == Ok(meant.1)
  }

  lemma PlainPasses(check: Percent.TextCheck, text: Bytes)
    requires PlainTextPasses(check) && Plain(text)
    ensures check(text).None? && Safe(text) && Percent.Encode(text) == text
  {
    Percent.PlainIsUntouched(text);
    forall i | 0 <= i < |text| ensures 0x20 <= text[i] < 0x7f {
      assert Percent.IsPlain(text[i]);
    }
  }

  lemma PlainReads(check: Percent.TextCheck, name: Bytes, value: Bytes)
    requires PlainTextPasses(check) && Plain(name) && Plain(value) && name != []
    ensures Reads(check, (name, value), (name, value))
  {
    hide Percent.Decode, Percent.Encode, Plain, Safe, PlainTextPasses;
    PlainPasses(check, name);
    PlainPasses(check, value);
    Percent.EncodingRoundTrips(check, name);
    Percent.EncodingRoundTrips(check, value);
  }

  lemma EncodedReads(check: Percent.TextCheck, name: Bytes, value: Bytes)
    requires check(value).None? && name != []
    requires Safe(name) && Percent.Decode(check, name) == Ok(name)
    ensures Reads(check, (name, Percent.Encode(value)), (name, value))
  {
    Percent.EncodingRoundTrips(check, value);
    Percent.EncodingIsSafe(value);
  }

  ghost function MeantPin(c: OtpConfig): Bytes {
    if c.pin.None? then [] else if c.kind.PinEncoding() == PlainText then c.pin.value else EncodeField(c.kind.PinEncoding(), c.pin.value)
  }

  ghost function MeantIssuer(u: OtpUri): Bytes { if u.issuer.Some? then u.issuer.value else [] }

  /** The parameters as the parser is to read them. */
  ghost function Meant(u: OtpUri): seq<(Bytes, Bytes)> {
    var kind := u.config.kind.SerializesAs();
    When(true, Secret, EncodeField(kind.SecretEncoding(), u.config.secret))
    + When(u.issuer.Some?, Issuer, MeantIssuer(u))
    + When(kind.FixedAlgorithm().None?, Algorithm, u.config.algorithm.Name())
    + When(kind.FixedDigits().None?, DigitCount, Digits(u.config.digits))
    + When(kind.FixedPeriod().None?, Period, Digits(u.config.period))
    + When(kind.UsesCounter(), Counter, Digits(u.config.counter))
    + When(u.config.pin.Some?, Pin, MeantPin(u.config))
    + u.extra
  }

  ghost predicate AllRead(check: Percent.TextCheck, written: seq<(Bytes, Bytes)>, meant: seq<(Bytes, Bytes)>) {
    |written| == |meant| && forall i | 0 <= i < |written| :: Reads(check, written[i], meant[i])
  }

  lemma AllReadConcat(check: Percent.TextCheck, a: seq<(Bytes, Bytes)>, b: seq<(Bytes, Bytes)>, x: seq<(Bytes, Bytes)>, y: seq<(Bytes, Bytes)>)
    requires AllRead(check, a, x) && AllRead(check, b, y)
    ensures AllRead(check, a + b, x + y)
  {
    hide Reads;
  }

  lemma PlainParamReads(check: Percent.TextCheck, condition: bool, param: Param, value: Bytes)
    requires PlainTextPasses(check) && (condition ==> Plain(value))
    ensures AllRead(check, When(condition, param, value), When(condition, param, value))
  {
    hide Reads;
    ParamNameIsPlain(param);
    if condition { PlainReads(check, param.Name(), value); }
  }

  lemma TextParamReads(check: Percent.TextCheck, condition: bool, param: Param, value: Bytes, encoded: Bytes)
    requires PlainTextPasses(check) && (condition ==> check(value).None? && encoded == Percent.Encode(value))
    ensures AllRead(check, When(condition, param, encoded), When(condition, param, value))
  {
    hide Percent.Encode, Percent.Decode;
    ParamNameIsPlain(param);
    if condition {
      PlainReads(check, param.Name(), []);
      EncodedReads(check, param.Name(), value);
    }
  }

  lemma ExtraReads(check: Percent.TextCheck, extra: seq<(Bytes, Bytes)>)
    requires forall i | 0 <= i < |extra| :: ExtraFits(check, extra[i])
    ensures AllRead(check, EncodedExtra(extra), extra)
  {
    forall i | 0 <= i < |extra| ensures Reads(check, EncodedExtra(extra)[i], extra[i]) {
      hide Percent.Encode, Percent.Decode, KnownParam;
      assert ExtraFits(check, extra[i]);
      Percent.EncodingRoundTrips(check, extra[i].0);
      Percent.EncodingRoundTrips(check, extra[i].1);
      Percent.EncodingIsSafe(extra[i].0);
      Percent.EncodingIsSafe(extra[i].1);
    }
  }

  lemma WrittenReads(check: Percent.TextCheck, u: OtpUri)
    requires PlainTextPasses(check) && WellFormed(check, u)
    ensures AllRead(check, Written(u), Meant(u))
  {
    hide AllRead, When, EncodedExtra, ExtraFits, EncodeField, PlainTextPasses, ToUri;
    var c := u.config;
    var kind := c.kind.SerializesAs();
    ExportKeepsTheToken(c);
    HashNameIsPlain(c.algorithm);
    DigitsArePlain(c.digits);
    DigitsArePlain(c.period);
    DigitsArePlain(c.counter);
    FieldIsPlain(kind.SecretEncoding(), c.secret);
    PlainParamReads(check, true, Secret, EncodeField(kind.SecretEncoding(), c.secret));
    TextParamReads(check, u.issuer.Some?, Issuer, MeantIssuer(u), EncodedIssuer(u));
    PlainParamReads(check, kind.FixedAlgorithm().None?, Algorithm, c.algorithm.Name());
    PlainParamReads(check, kind.FixedDigits().None?, DigitCount, Digits(c.digits));
    PlainParamReads(check, kind.FixedPeriod().None?, Period, Digits(c.period));
    PlainParamReads(check, kind.UsesCounter(), Counter, Digits(c.counter));
    PinReads(check, u);
    ExtraReads(check, u.extra);
    var (a, x) := (When(true, Secret, EncodeField(kind.SecretEncoding(), c.secret)), When(true, Secret, EncodeField(kind.SecretEncoding(), c.secret)));
    AllReadConcat(check, a, When(u.issuer.Some?, Issuer, EncodedIssuer(u)), x, When(u.issuer.Some?, Issuer, MeantIssuer(u)));
    a, x := a + When(u.issuer.Some?, Issuer, EncodedIssuer(u)), x + When(u.issuer.Some?, Issuer, MeantIssuer(u));
    a, x := MoreRead(check, a, x, When(kind.FixedAlgorithm().None?, Algorithm, c.algorithm.Name()));
    a, x := MoreRead(check, a, x, When(kind.FixedDigits().None?, DigitCount, Digits(c.digits)));
    a, x := MoreRead(check, a, x, When(kind.FixedPeriod().None?, Period, Digits(c.period)));
    a, x := MoreRead(check, a, x, When(kind.UsesCounter(), Counter, Digits(c.counter)));
    AllReadConcat(check, a, When(c.pin.Some?, Pin, EncodedPin(c)), x, When(c.pin.Some?, Pin, MeantPin(c)));
    a, x := a + When(c.pin.Some?, Pin, EncodedPin(c)), x + When(c.pin.Some?, Pin, MeantPin(c));
    AllReadConcat(check, a, EncodedExtra(u.extra), x, u.extra);
  }

  lemma MoreRead(check: Percent.TextCheck, a: seq<(Bytes, Bytes)>, x: seq<(Bytes, Bytes)>, more: seq<(Bytes, Bytes)>)
    returns (b: seq<(Bytes, Bytes)>, y: seq<(Bytes, Bytes)>)
    requires AllRead(check, a, x) && AllRead(check, more, more)
    ensures b == a + more && y == x + more && AllRead(check, b, y)
  {
    AllReadConcat(check, a, more, x, more);
    b, y := a + more, x + more;
  }

  lemma PinReads(check: Percent.TextCheck, u: OtpUri)
    requires PlainTextPasses(check) && WellFormed(check, u)
    ensures AllRead(check, When(u.config.pin.Some?, Pin, EncodedPin(u.config)), When(u.config.pin.Some?, Pin, MeantPin(u.config)))
  {
    hide AllRead, When, PlainTextPasses, ToUri, ExtraFits, Plain;
    var c := u.config;
    ExportKeepsTheToken(c);
    if c.pin.Some? && c.kind.PinEncoding() != PlainText {
      FieldIsPlain(c.kind.PinEncoding(), c.pin.value);
      PlainParamReads(check, true, Pin, EncodedPin(c));
    } else {
      TextParamReads(check, c.pin.Some?, Pin, MeantPin(c), EncodedPin(c));
    }
  }

  // ----- the query reads back -----------------------------------------------------------------------------

  /** The query's parameters, decoded, one after the other. */
  function AddAll(q: Query, pairs: seq<(Bytes, Bytes)>): Outcome<Query>
    decreases |pairs|
  {
    if pairs == [] then Ok(q)
    else
      var next :- Add(q, pairs[0].0, pairs[0].1);
      AddAll(next, pairs[1..])
  }

  lemma {:induction false} AddAllConcat(q: Query, a: seq<(Bytes, Bytes)>, b: seq<(Bytes, Bytes)>)
    requires AddAll(q, a).Ok?
    ensures AddAll(q, a + b) == AddAll(AddAll(q, a).value, b)
    decreases |a|
  {
    hide Add;
    if a == [] {
      assert a + b == b;
    } else {
      assert (a + b)[1..] == a[1..] + b;
      AddAllConcat(Add(q, a[0].0, a[0].1).value, a[1..], b);
    }
  }

  lemma PairReads(check: Percent.TextCheck, q: Query, written: (Bytes, Bytes), meant: (Bytes, Bytes))
    requires Reads(check, written, meant)
    ensures AddPair(check, q, PairText(written)) == Add(q, meant.0, meant.1)
    ensures Lacks(PairText(written), AMPERSAND) && Lacks(PairText(written), HASH)
  {
    hide Percent.Decode, Add, Safe;
    SafeLacks(written.0, EQUALS);
    SafeLacks(written.0, AMPERSAND);
    SafeLacks(written.1, AMPERSAND);
    SafeLacks(written.0, HASH);
    SafeLacks(written.1, HASH);
    SplitsAtFirst(written.0, [EQUALS], written.1);
  }

  lemma {:induction false} PairsRead(check: Percent.TextCheck, q: Query, written: seq<(Bytes, Bytes)>, meant: seq<(Bytes, Bytes)>)
    requires AllRead(check, written, meant)
    ensures AddPairs(check, q, PairTexts(written)) == AddAll(q, meant)
    decreases |written|
  {
    hide AddPair, Add, Reads, PairText;
    if written != [] {
      PairReads(check, q, written[0], meant[0]);
      assert PairTexts(written)[1..] == PairTexts(written[1..]);
      var next := Add(q, meant[0].0, meant[0].1);
      if next.Ok? { PairsRead(check, next.value, written[1..], meant[1..]); }
    }
  }

  lemma {:induction false} JoinLacks(parts: seq<Bytes>, separator: byte, b: byte)
    requires b != separator && forall i | 0 <= i < |parts| :: Lacks(parts[i], b)
    ensures Lacks(Join(parts, separator), b)
  {
    if |parts| > 1 { JoinLacks(parts[1..], separator, b); }
  }

  lemma QueryReads(check: Percent.TextCheck, written: seq<(Bytes, Bytes)>, meant: seq<(Bytes, Bytes)>)
    requires AllRead(check, written, meant) && written != []
    ensures ParseQuery(check, Join(PairTexts(written), AMPERSAND)) == AddAll(Query(map[], []), meant)
    ensures Lacks(Join(PairTexts(written), AMPERSAND), HASH)
  {
    hide Reads, AddPairs, AddAll, Join, SplitAll, PairText;
    var parts := PairTexts(written);
    forall i | 0 <= i < |parts| ensures Lacks(parts[i], AMPERSAND) && Lacks(parts[i], HASH) {
      PairReads(check, Query(map[], []), written[i], meant[i]);
    }
    SplitUndoesJoin(parts, AMPERSAND);
    JoinLacks(parts, AMPERSAND, HASH);
    PairsRead(check, Query(map[], []), written, meant);
  }

  // ----- the slots it fills -----------------------------------------------------------------------------------

  function Fill(slots: map<Param, Bytes>, condition: bool, param: Param, value: Bytes): map<Param, Bytes> {
    if condition then slots[param := value] else slots
  }

  ghost function QueryOf(u: OtpUri): Query {
    var kind := u.config.kind.SerializesAs();
    var s0 := Fill(map[], true, Secret, EncodeField(kind.SecretEncoding(), u.config.secret));
    var s1 := Fill(s0, u.issuer.Some?, Issuer, MeantIssuer(u));
    var s2 := Fill(s1, kind.FixedAlgorithm().None?, Algorithm, u.config.algorithm.Name());
    var s3 := Fill(s2, kind.FixedDigits().None?, DigitCount, Digits(u.config.digits));
    var s4 := Fill(s3, kind.FixedPeriod().None?, Period, Digits(u.config.period));
    var s5 := Fill(s4, kind.UsesCounter(), Counter, Digits(u.config.counter));
    Query(Fill(s5, u.config.pin.Some?, Pin, MeantPin(u.config)), u.extra)
  }

  lemma ParamIsKnown(param: Param)
    ensures KnownParam(param.Name()) == Some(param)
  {
    var n := Lower(param.Name());
    assert n == param.Name();
    match param
    case Secret =>
    case Issuer => assert n[0] != Secret.Name()[0];
    case Algorithm =>
    case DigitCount =>
      assert n[0] != Secret.Name()[0];
      assert n[0] != Issuer.Name()[0];
    case Period =>
      assert n[0] != Secret.Name()[0];
      assert n[0] != Issuer.Name()[0];
      assert n[0] != DigitCount.Name()[0];
    case Counter =>
    case Pin =>
  }

  /** One more parameter read into an empty slot. */
  lemma Fills(slots: map<Param, Bytes>, pairs: seq<(Bytes, Bytes)>, condition: bool, param: Param, value: Bytes)
    requires AddAll(Query(map[], []), pairs) == Ok(Query(slots, [])) && param !in slots
    ensures AddAll(Query(map[], []), pairs + When(condition, param, value)) == Ok(Query(Fill(slots, condition, param, value), []))
  {
    hide KnownParam;
    ParamIsKnown(param);
    if condition {
      AddAllConcat(Query(map[], []), pairs, [(param.Name(), value)]);
      assert [(param.Name(), value)][1..] == [];
    } else {
      assert pairs + [] == pairs;
    }
  }

  lemma {:induction false} ExtraAppends(check: Percent.TextCheck, q: Query, extra: seq<(Bytes, Bytes)>)
    requires forall i | 0 <= i < |extra| :: ExtraFits(check, extra[i])
    ensures AddAll(q, extra) == Ok(q.(extra := q.extra + extra))
    decreases |extra|
  {
    hide KnownParam;
    if extra == [] {
      assert q.extra + [] == q.extra;
    } else {
      assert ExtraFits(check, extra[0]);
      ExtraAppends(check, q.(extra := q.extra + [extra[0]]), extra[1..]);
      assert q.extra + [extra[0]] + extra[1..] == q.extra + extra;
    }
  }

  lemma MeantFillsQuery(check: Percent.TextCheck, u: OtpUri)
    requires forall i | 0 <= i < |u.extra| :: ExtraFits(check, u.extra[i])
    ensures AddAll(Query(map[], []), Meant(u)) == Ok(QueryOf(u))
  {
    hide AddAll, When, EncodeField, ExtraFits, Digits, Lower;
    var kind := u.config.kind.SerializesAs();
    var pairs: seq<(Bytes, Bytes)> := [];
    var slots: map<Param, Bytes> := map[];
    NothingAdds();
    pairs, slots := Filled(pairs, slots, true, Secret, EncodeField(kind.SecretEncoding(), u.config.secret));
    assert [] + When(true, Secret, EncodeField(kind.SecretEncoding(), u.config.secret)) == When(true, Secret, EncodeField(kind.SecretEncoding(), u.config.secret));
    pairs, slots := Filled(pairs, slots, u.issuer.Some?, Issuer, MeantIssuer(u));
    pairs, slots := Filled(pairs, slots, kind.FixedAlgorithm().None?, Algorithm, u.config.algorithm.Name());
    pairs, slots := Filled(pairs, slots, kind.FixedDigits().None?, DigitCount, Digits(u.config.digits));
    pairs, slots := Filled(pairs, slots, kind.FixedPeriod().None?, Period, Digits(u.config.period));
    pairs, slots := Filled(pairs, slots, kind.UsesCounter(), Counter, Digits(u.config.counter));
    pairs, slots := Filled(pairs, slots, u.config.pin.Some?, Pin, MeantPin(u.config));
    AddAllConcat(Query(map[], []), pairs, u.extra);
    ExtraAppends(check, Query(slots, []), u.extra);
    assert [] + u.extra == u.extra;
  }

  lemma NothingAdds()
    ensures AddAll(Query(map[], []), []) == Ok(Query(map[], []))
  {
  }

  lemma Filled(pairs: seq<(Bytes, Bytes)>, slots: map<Param, Bytes>, condition: bool, param: Param, value: Bytes)
    returns (morePairs: seq<(Bytes, Bytes)>, moreSlots: map<Param, Bytes>)
    requires AddAll(Query(map[], []), pairs) == Ok(Query(slots, [])) && param !in slots
    ensures morePairs == pairs + When(condition, param, value) && moreSlots == Fill(slots, condition, param, value)
    ensures AddAll(Query(map[], []), morePairs) == Ok(Query(moreSlots, []))
    ensures moreSlots.Keys <= slots.Keys + {param}
  {
    Fills(slots, pairs, condition, param, value);
    morePairs, moreSlots := pairs + When(condition, param, value), Fill(slots, condition, param, value);
  }

  // ----- the configuration reads back ------------------------------------------------------------------------

  lemma FieldRoundTrips(encoding: SecretEncoding, bytes: Bytes)
    requires encoding == HexText ==> 0 < |bytes| <= MAX_SECRET_LEN
    requires encoding == Base32Text ==> |Base32.Encode(bytes)| <= Base32.MAX_INPUT_CHARS
    ensures encoding != PlainText ==> DecodeField(encoding, EncodeField(encoding, bytes)) == Ok(bytes)
  {
    hide Base32.Encode, Base32.Decode;
    match encoding
    case Base32Text => Base32Laws.EncodingRoundTrips(bytes);
    case HexText => HexRoundTrips(bytes);
    case PlainText =>
  }

  lemma SecretFits(bytes: Bytes)
    requires |bytes| <= MAX_SECRET_LEN
    ensures |Base32.Encode(bytes)| <= Base32.MAX_INPUT_CHARS
  {
    Base32Laws.EncodedLength(bytes);
  }

  lemma NumberRoundTrips(n: nat)
    requires n < 0x1_0000_0000_0000_0000
    ensures ParseU64(Digits(n)) == Some(n)
  {
    PrintedParses(n);
    assert IsDigit(Digits(n)[0]);
  }

  /** `text` spells `n`: digits alone, or digits after one plus sign. */
  ghost predicate Spells(text: Bytes, n: nat) {
    || (AllDigits(text) && ValueOf(text) == n)
    || (text != [] && text[0] == PLUS && AllDigits(text[1..]) && ValueOf(text[1..]) == n)
  }

  /** The number parser is documented to reject signs.  Exactly the texts it takes, and for what value: it
      rejects a minus sign, and a second plus sign, but a single plus sign passes. */
  lemma NumberIsTakenExactlyWhen(text: Bytes, n: nat)
    ensures ParseU64(text) == Some(n) <==> Spells(text, n) && n < 0x1_0000_0000_0000_0000
  {
    assert !IsDigit(PLUS);
    assert text != [] && text[0] == PLUS ==> !AllDigits(text);
  }

  /** The signed texts among them. */
  lemma PlusSignIsTaken(n: nat)
    requires n < 0x1_0000_0000_0000_0000
    ensures ParseU64([PLUS] + Digits(n)) == Some(n)
  {
    PrintedParses(n);
    assert ([PLUS] + Digits(n))[1..] == Digits(n);
  }

  lemma {:induction false} JoinHolds(parts: seq<Bytes>, separator: byte, i: nat)
    requires i < |parts|
    ensures |parts[i]| <= |Join(parts, separator)|
  {
    if |parts| > 1 && i > 0 { JoinHolds(parts[1..], separator, i - 1); }
  }

  /** A PIN that was written fits wherever the whole URI fits. */
  lemma PinFits(u: OtpUri)
    requires u.config.pin.Some? && |ToUri(u)| <= MAX_URI_LEN
    ensures |EncodedPin(u.config)| <= MAX_URI_LEN
  {
    hide EncodeField, Digits, EncodedExtra, Join, Percent.Encode;
    var kind := u.config.kind.SerializesAs();
    var before :=
      When(true, Secret, EncodeField(kind.SecretEncoding(), u.config.secret))
      + When(u.issuer.Some?, Issuer, EncodedIssuer(u))
      + When(kind.FixedAlgorithm().None?, Algorithm, u.config.algorithm.Name())
      + When(kind.FixedDigits().None?, DigitCount, Digits(u.config.digits))
      + When(kind.FixedPeriod().None?, Period, Digits(u.config.period))
      + When(kind.UsesCounter(), Counter, Digits(u.config.counter));
    assert Written(u)[|before|] == (Pin.Name(), EncodedPin(u.config));
    JoinHolds(PairTexts(Written(u)), AMPERSAND, |before|);
  }

  /** Which slots a printed model fills, and with what. */
  lemma SlotsOf(u: OtpUri)
    ensures var kind := u.config.kind.SerializesAs();
            var q := QueryOf(u);
            && Slot(q, Secret) == Some(EncodeField(kind.SecretEncoding(), u.config.secret))
            && Slot(q, Issuer) == (if u.issuer.Some? then u.issuer else None)
            && Slot(q, Algorithm) == (if kind.FixedAlgorithm().None? then Some(u.config.algorithm.Name()) else None)
            && Slot(q, DigitCount) == (if kind.FixedDigits().None? then Some(Digits(u.config.digits)) else None)
            && Slot(q, Period) == (if kind.FixedPeriod().None? then Some(Digits(u.config.period)) else None)
            && Slot(q, Counter) == (if kind.UsesCounter() then Some(Digits(u.config.counter)) else None)
            && Slot(q, Pin) == (if u.config.pin.Some? then Some(MeantPin(u.config)) else None)
  {
    hide EncodeField, Digits;
  }

  lemma PinRoundTrips(u: OtpUri)
    requires u.config.pin.Some? && Normal(u.config) && |ToUri(u)| <= MAX_URI_LEN
    ensures DecodeField(u.config.kind.PinEncoding(), MeantPin(u.config)) == Ok(u.config.pin.value)
  {
    hide Base32.Encode, ToUri;
    PinFits(u);
    ExportKeepsTheToken(u.config);
    FieldRoundTrips(u.config.kind.PinEncoding(), u.config.pin.value);
  }

  /** The config a printed model describes is its export form's, with nothing overridden. */
  lemma InterpretsBack(check: Percent.TextCheck, u: OtpUri)
    requires WellFormed(check, u)
    ensures Interpret(u.config.kind.SerializesAs(), QueryOf(u)) == Ok((ExportForm(u).config, []))
  {
    hide QueryOf, EncodeField, DecodeField, Digits, ParseU64, ParseHashAlg, ExtraFits, ToUri, MeantPin, Build;
    var kind := u.config.kind.SerializesAs();
    var (c, w) := (u.config, ExportForm(u).config);
    SlotsOf(u);
    ExportKeepsTheToken(c);
    SecretFits(c.secret);
    FieldRoundTrips(kind.SecretEncoding(), c.secret);
    HashNameRoundTrips(c.algorithm);
    NumberRoundTrips(c.digits);
    NumberRoundTrips(c.period);
    NumberRoundTrips(c.counter);
    if c.pin.Some? { PinRoundTrips(u); }
    RebuildsFromOpenParameters(w);
    var q := QueryOf(u);
    var counter := if kind.UsesCounter() then Some(w.counter) else None;
    assert ParseNumber(q, Counter) == Ok(counter) && Or(counter, 0) == w.counter;
    assert Pin in q.slots <==> w.pin.Some?;
    assert Interpret(kind, q).Ok?;
    assert Interpret(kind, q).value.0 == w;
    assert Interpret(kind, q).value.1 == [];
  }

  /** Nothing the input asks for is changed without saying so: each warning is given exactly when the
      value asked for is not the value the model has, or the kind has no use for it; whatever draws no
      warning is in the model as it was given. */
  lemma WarnsExactlyWhenOverridden(kind: OtpKind, q: Query)
    requires Interpret(kind, q).Ok?
    ensures var (c, warnings) := Interpret(kind, q).value;
            && (IgnoredParam(Algorithm) in warnings <==> Algorithm in q.slots && ParseHashAlg(q.slots[Algorithm]) != Some(c.algorithm))
            && (IgnoredParam(DigitCount) in warnings <==> DigitCount in q.slots && ParseU64(q.slots[DigitCount]) != Some(c.digits))
            && (IgnoredParam(Period) in warnings <==> Period in q.slots && ParseU64(q.slots[Period]) != Some(c.period))
            && (IgnoredParam(Counter) in warnings <==> Counter in q.slots && !kind.UsesCounter())
            && (IgnoredParam(Pin) in warnings <==> Pin in q.slots && !kind.UsesPin())
            && DecodeField(kind.SecretEncoding(), q.slots[Secret]) == Ok(c.secret)
            && (kind.UsesCounter() ==> Counter in q.slots && ParseU64(q.slots[Counter]) == Some(c.counter))
            && (kind.UsesPin() && Pin in q.slots ==>
                  DecodeField(kind.PinEncoding(), q.slots[Pin]).Ok? && c.pin == NonEmpty(Some(DecodeField(kind.PinEncoding(), q.slots[Pin]).value)))
  {
    hide DecodeField, ParseHashAlg, ParseU64, CheckLen, Normal, Build, Overrides, Overridden;
    var algorithm := DecodeAlgorithm(q).value;
    var (digits, period, counter) := (ParseNumber(q, DigitCount).value, ParseNumber(q, Period).value, ParseNumber(q, Counter).value);
    var pin := if Pin in q.slots then Some(DecodeField(kind.PinEncoding(), q.slots[Pin]).value) else None;
    var c := Interpret(kind, q).value.0;
    OverridesListed(kind, algorithm, digits, period, counter, pin);
    BuiltAsAsked(kind, c.secret, algorithm, digits, period, Or(counter, 0), pin);
  }

  lemma OverridesListed(kind: OtpKind, algorithm: Option<HashAlg>, digits: Option<nat>, period: Option<nat>, counter: Option<nat>, pin: Option<Bytes>)
    ensures var warnings := Overrides(kind, algorithm, digits, period, counter, pin);
            && (IgnoredParam(Algorithm) in warnings <==> Overridden(algorithm, kind.FixedAlgorithm()))
            && (IgnoredParam(DigitCount) in warnings <==> Overridden(digits, kind.FixedDigits()))
            && (IgnoredParam(Period) in warnings <==> Overridden(period, kind.FixedPeriod()))
            && (IgnoredParam(Counter) in warnings <==> counter.Some? && !kind.UsesCounter())
            && (IgnoredParam(Pin) in warnings <==> pin.Some? && !kind.UsesPin())
  {
    hide Overridden, Warn;
    var (a, b, c, d, e) := (Warn(Overridden(algorithm, kind.FixedAlgorithm()), Algorithm), Warn(Overridden(digits, kind.FixedDigits()), DigitCount),
                            Warn(Overridden(period, kind.FixedPeriod()), Period), Warn(counter.Some? && !kind.UsesCounter(), Counter),
                            Warn(pin.Some? && !kind.UsesPin(), Pin));
    forall p: Param ensures IgnoredParam(p) in Overrides(kind, algorithm, digits, period, counter, pin)
                            <==> IgnoredParam(p) in a || IgnoredParam(p) in b || IgnoredParam(p) in c || IgnoredParam(p) in d || IgnoredParam(p) in e {
      InEither(a + b + c + d, e, IgnoredParam(p));
      InEither(a + b + c, d, IgnoredParam(p));
      InEither(a + b, c, IgnoredParam(p));
      InEither(a, b, IgnoredParam(p));
    }
    WarnsOnly(Overridden(algorithm, kind.FixedAlgorithm()), Algorithm);
    WarnsOnly(Overridden(digits, kind.FixedDigits()), DigitCount);
    WarnsOnly(Overridden(period, kind.FixedPeriod()), Period);
    WarnsOnly(counter.Some? && !kind.UsesCounter(), Counter);
    WarnsOnly(pin.Some? && !kind.UsesPin(), Pin);
  }

  lemma InEither(a: seq<UriWarning>, b: seq<UriWarning>, w: UriWarning)
    ensures w in a + b <==> w in a || w in b
  {
  }

  lemma WarnsOnly(condition: bool, param: Param)
    ensures forall p: Param :: IgnoredParam(p) in Warn(condition, param) <==> condition && p == param
  {
  }

  lemma BuiltAsAsked(kind: OtpKind, secret: Bytes, algorithm: Option<HashAlg>, digits: Option<nat>, period: Option<nat>, counter: nat, pin: Option<Bytes>)
    requires Build(kind, secret, algorithm, digits, period, counter, pin).Ok?
    ensures var c := Build(kind, secret, algorithm, digits, period, counter, pin).value;
            && (algorithm.Some? ==> (Overridden(algorithm, kind.FixedAlgorithm()) <==> algorithm != Some(c.algorithm)))
            && (digits.Some? ==> (Overridden(digits, kind.FixedDigits()) <==> digits != Some(c.digits)))
            && (period.Some? ==> (Overridden(period, kind.FixedPeriod()) <==> period != Some(c.period)))
            && (algorithm.None? ==> !Overridden(algorithm, kind.FixedAlgorithm()))
            && (digits.None? ==> !Overridden(digits, kind.FixedDigits())) && (period.None? ==> !Overridden(period, kind.FixedPeriod()))
            && (kind.UsesCounter() ==> c.counter == counter) && (kind.UsesPin() ==> c.pin == NonEmpty(pin))
  {
  }

  // ----- finding the parts --------------------------------------------------------------------------------------

  lemma LabelLacks(u: OtpUri, b: byte)
    requires b == HASH || b == QUESTION
    ensures Lacks(LabelText(u), b)
  {
    hide Percent.Encode, Safe;
    Percent.EncodingIsSafe(u.account);
    assert Safe(Percent.Encode(u.account)) by { Unfolds(Percent.Encode(u.account)); }
    SafeLacks(Percent.Encode(u.account), b);
    if u.issuer.Some? {
      Percent.EncodingIsSafe(u.issuer.value);
      Unfolds(Percent.Encode(u.issuer.value));
      SafeLacks(Percent.Encode(u.issuer.value), b);
    }
  }

  lemma Unfolds(text: Bytes)
    requires forall i | 0 <= i < |text| :: Percent.IsPlain(text[i]) || text[i] == Percent.PERCENT
    ensures Safe(text)
  {
  }

  lemma PlainLacks(text: Bytes, b: byte)
    requires Plain(text) && Structural(b)
    ensures Lacks(text, b)
  {
  }

  lemma LocatesBack(u: OtpUri, query: Bytes)
    requires Lacks(query, HASH)
    ensures var kind := u.config.kind.SerializesAs();
            Locate(Ascii("otpauth") + Ascii("://") + (kind.UriType() + [SLASH] + LabelText(u) + [QUESTION] + query))
            == Ok(Located(kind, LabelText(u), query, false))
  {
    hide FromUriType, LabelText, Plain;
    var kind := u.config.kind.SerializesAs();
    var (authority, name) := (kind.UriType(), LabelText(u));
    var rest := authority + [SLASH] + name + [QUESTION] + query;
    UriTypeRoundTrips(kind);
    UriTypeIsPlain(kind);
    PlainLacks(authority, HASH);
    PlainLacks(authority, QUESTION);
    PlainLacks(authority, SLASH);
    hide OtpKind.UriType;
    LabelLacks(u, HASH);
    LabelLacks(u, QUESTION);
    SchemeStrips(rest);
    NothingToSplit(rest, [HASH]);
    SplitsAtFirst(authority + [SLASH] + name, [QUESTION], query);
    SplitsAtFirst(authority, [SLASH], name);
  }

  lemma SchemeStrips(rest: Bytes)
    ensures StripScheme(Ascii("otpauth") + Ascii("://") + rest) == Ok(rest)
  {
    assert Ascii("://")[0] == COLON;
    assert Lacks(Ascii("otpauth"), COLON);
    SplitsAtFirst(Ascii("otpauth"), Ascii("://"), rest);
  }

  lemma LabelReadsBack(check: Percent.TextCheck, u: OtpUri)
    requires WellFormed(check, u)
    ensures DecodeLabel(check, LabelText(u)) == Ok((u.issuer, u.account))
  {
    hide Percent.Encode, Percent.Decode, Safe, ToUri, ExtraFits, Normal;
    Percent.EncodingRoundTrips(check, u.account);
    Percent.EncodingIsSafe(u.account);
    Unfolds(Percent.Encode(u.account));
    SafeLacks(Percent.Encode(u.account), COLON);
    if u.issuer.Some? {
      var issuer := Percent.Encode(u.issuer.value);
      Percent.EncodingRoundTrips(check, u.issuer.value);
      Percent.EncodingIsSafe(u.issuer.value);
      Unfolds(issuer);
      SafeLacks(issuer, COLON);
      SplitsAtFirst(issuer, [COLON], Percent.Encode(u.account));
    } else {
      assert [] + Percent.Encode(u.account) == Percent.Encode(u.account);
      NothingToSplit(Percent.Encode(u.account), [COLON]);
    }
  }

  // ----- the round trip -------------------------------------------------------------------------------------------

  /** The export form prints exactly like the model it stands for. */
  lemma ExportPrintsTheSame(u: OtpUri)
    requires Normal(u.config)
    ensures ToUri(ExportForm(u)) == ToUri(u)
  {
    hide EncodeField, Digits, Percent.Encode, Join, PairTexts, EncodedExtra, When;
    ExportKeepsTheToken(u.config);
    assert Written(ExportForm(u)) == Written(u);
  }

  lemma WellFormedRoundTrips(check: Percent.TextCheck, u: OtpUri)
    requires PlainTextPasses(check) && WellFormed(check, u)
    ensures Parse(check, ToUri(u)) == Ok((ExportForm(u), []))
  {
    hide AllRead, QueryOf, Meant, Written, Interpret, Locate, DecodeLabel, ParseQuery, PlainTextPasses, Join, PairTexts, AddAll, LabelText, ExtraFits, Normal;
    var kind := u.config.kind.SerializesAs();
    var query := Join(PairTexts(Written(u)), AMPERSAND);
    WrittenReads(check, u);
    assert Written(u) != [] by { WroteSomething(u); }
    QueryReads(check, Written(u), Meant(u));
    MeantFillsQuery(check, u);
    LocatesBack(u, query);
    LabelReadsBack(check, u);
    InterpretsBack(check, u);
    SlotsOf(u);
    QueryKeepsExtra(u);
    ExportPrintsTheSame(u);
    assert Locate(ToUri(u)) == Ok(Located(kind, LabelText(u), query, false));
    assert ParseQuery(check, query) == Ok(QueryOf(u));
    assert ChooseIssuer(u.issuer, NonEmpty(Slot(QueryOf(u), Issuer))) == (u.issuer, []);
    assert OtpUri(ExportForm(u).config, u.issuer, u.account, u.extra) == ExportForm(u);
    assert Parse(check, ToUri(u)).Ok?;
    assert Parse(check, ToUri(u)).value.1 == [];
  }

  lemma WroteSomething(u: OtpUri)
    ensures Written(u) != []
  {
  }

  lemma QueryKeepsExtra(u: OtpUri)
    ensures QueryOf(u).extra == u.extra
  {
  }

  /** For every input that parses, whatever the kind, the names and the vendor parameters: what it
      parsed to prints to a URI that parses, without a single warning, to exactly its export form;
      and that prints the same URI. */
  lemma UriRoundTrip(check: Percent.TextCheck, input: Bytes)
    requires PlainTextPasses(check) && Parse(check, input).Ok?
    ensures var u := Parse(check, input).value.0;
            && Parse(check, ToUri(u)) == Ok((ExportForm(u), []))
            && ToUri(ExportForm(u)) == ToUri(u)
            && (u.config.kind.SerializesAs() == u.config.kind ==> ExportForm(u) == u)
  {
    hide Parse, ToUri, Normal;
    ParsedIsWellFormed(check, input);
    var u := Parse(check, input).value.0;
    WellFormedRoundTrips(check, u);
    ExportPrintsTheSame(u);
  }
}

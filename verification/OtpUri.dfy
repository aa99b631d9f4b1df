/** `otpauth://` URIs: the parser, the printer, and what printing then parsing gives
    (crates/misty-otp/src/uri.rs).  Text is its UTF-8 bytes; `check` is the test percent-decoding puts
    decoded text to. */
module OtpUris {
  import opened Foundations
  import opened Decimals
  import opened Texts
  import opened OtpConfigs
  import Base32
  import Percent

  const MAX_URI_LEN := 4096

  const HASH: byte := 0x23
  const AMPERSAND: byte := 0x26
  const SLASH: byte := 0x2f
  const COLON: byte := 0x3a
  const EQUALS: byte := 0x3d
  const QUESTION: byte := 0x3f
  const PLUS: byte := 0x2b

  datatype Param = Secret | Issuer | Algorithm | DigitCount | Period | Counter | Pin {
    function Name(): Bytes {
      match this
      case Secret => Ascii("secret")
      case Issuer => Ascii("issuer")
      case Algorithm => Ascii("algorithm")
      case DigitCount => Ascii("digits")
      case Period => Ascii("period")
      case Counter => Ascii("counter")
      case Pin => Ascii("pin")
    }
  }

  datatype UriError =
    | TooLong(len: nat)
    | CanonicalTooLong(len: nat)
    | NotOtpauth
    | MigrationUri
    | UnknownKind
    | MissingParam(param: Param)
    | DuplicateParam(param: Param)
    | InvalidParam(param: Param)
    | MalformedQuery
    | BadText(cause: Percent.PercentError)
    | BadBase32(base32: Base32.Base32Error)
    | InvalidHexSecret
    | BadConfig(config: ConfigError)

  datatype UriWarning = IssuerMismatch(fromLabel: Bytes, fromParameter: Bytes) | IgnoredParam(param: Param) | FragmentIgnored

  datatype OtpUri = OtpUri(config: OtpConfig, issuer: Option<Bytes>, account: Bytes, extra: seq<(Bytes, Bytes)>)

  type Outcome<T> = Result<T, UriError>

  // ----- the query string --------------------------------------------------------------------------

  datatype Query = Query(slots: map<Param, Bytes>, extra: seq<(Bytes, Bytes)>)

  /** Known names match case-insensitively. */
  function KnownParam(name: Bytes): Option<Param> {
    var lower := Lower(name);
    if lower == Secret.Name() then Some(Secret)
    else if lower == Issuer.Name() then Some(Issuer)
    else if lower == Algorithm.Name() then Some(Algorithm)
    else if lower == DigitCount.Name() then Some(DigitCount)
    else if lower == Period.Name() then Some(Period)
    else if lower == Counter.Name() then Some(Counter)
    else if lower == Pin.Name() then Some(Pin)
    else None
  }

  /** A parameter that comes twice is an error: neither value wins. */
  function SetOnce(q: Query, param: Param, value: Bytes): Outcome<Query> {
    if param in q.slots then Err(DuplicateParam(param)) else Ok(q.(slots := q.slots[param := value]))
  }

  function DecodeText(check: Percent.TextCheck, raw: Bytes): Outcome<Bytes> {
    match Percent.Decode(check, raw)
    case Err(e) => Err(BadText(e))
    case Ok(text) => Ok(text)
  }

  function Add(q: Query, name: Bytes, value: Bytes): Outcome<Query> {
    match KnownParam(name)
    case Some(param) => SetOnce(q, param, value)
    case None => Ok(q.(extra := q.extra + [(name, value)]))
  }

  function AddPair(check: Percent.TextCheck, q: Query, pair: Bytes): Outcome<Query> {
    if pair == [] then Ok(q)
    else
      var (rawName, rawValue) := Or(SplitOnce(pair, [EQUALS]), (pair, []));
      if rawName == [] then Err(MalformedQuery)
      else
        var name :- DecodeText(check, rawName);
        var value :- DecodeText(check, rawValue);
        Add(q, name, value)
  }

  function AddPairs(check: Percent.TextCheck, q: Query, pairs: seq<Bytes>): Outcome<Query>
    decreases |pairs|
  {
    if pairs == [] then Ok(q)
    else
      var next :- AddPair(check, q, pairs[0]);
      AddPairs(check, next, pairs[1..])
  }

  function ParseQuery(check: Percent.TextCheck, text: Bytes): Outcome<Query> {
    AddPairs(check, Query(map[], []), SplitAll(text, AMPERSAND))
  }

  method ParseQueryText(check: Percent.TextCheck, text: Bytes) returns (r: Outcome<Query>)
    ensures r == ParseQuery(check, text)
  {
    hide AddPair, SplitAll;
    var parsed := Query(map[], []);
    var pairs := SplitAll(text, AMPERSAND);
    var i := 0;
    assert pairs[0..] == pairs;
    while i < |pairs|
      invariant 0 <= i <= |pairs|
      invariant AddPairs(check, parsed, pairs[i..]) == ParseQuery(check, text)
    {
      assert pairs[i..][1..] == pairs[i + 1..];
      var next := AddPair(check, parsed, pairs[i]);
      if next.Err? {
        return Err(next.error);
      }
      parsed := next.value;
      i := i + 1;
    }
    return Ok(parsed);
  }

  // ----- one field ---------------------------------------------------------------------------------

  function DecodeField(encoding: SecretEncoding, value: Bytes): Outcome<Bytes> {
    match encoding
    case Base32Text =>
      (match Base32.Decode(value)
       case Err(e) => Err(BadBase32(e))
       case Ok(bytes) => Ok(bytes))
    case HexText =>
      if |value| > 2 * MAX_SECRET_LEN then Err(BadConfig(SecretTooLong(|value| / 2)))
      else
        (match HexDecode(value)
         case None => Err(InvalidHexSecret)
         case Some(bytes) => if CheckLen(bytes).Err? then Err(BadConfig(CheckLen(bytes).error)) else Ok(bytes))
    case PlainText => Ok(value)
  }

  function EncodeField(encoding: SecretEncoding, bytes: Bytes): Bytes {
    match encoding
    case Base32Text => Base32.Encode(bytes)
    case HexText => HexEncode(bytes)
    case PlainText => Percent.Encode(bytes)
  }

  /** `str::parse::<u64>`: decimal digits that fit, after an optional plus sign. */
  function ParseU64(text: Bytes): Option<nat> {
    var digits := if text != [] && text[0] == PLUS then text[1..] else text;
    var n := ParseDecimal(digits);
    if n.Some? && n.value < 0x1_0000_0000_0000_0000 then n else None
  }

  function ParseNumber(q: Query, param: Param): Outcome<Option<nat>> {
    if param !in q.slots then Ok(None)
    else
      match ParseU64(q.slots[param])
      case None => Err(InvalidParam(param))
      case Some(n) => Ok(Some(n))
  }

  // ----- the parts of a URI ------------------------------------------------------------------------

  datatype Located = Located(kind: OtpKind, name: Bytes, query: Bytes, fragment: bool)

  function StripScheme(input: Bytes): Outcome<Bytes> {
    match SplitOnce(input, Ascii("://"))
    case None => Err(NotOtpauth)
    case Some((scheme, rest)) =>
      if SameIgnoringCase(scheme, Ascii("otpauth-migration")) then Err(MigrationUri)
      else if !SameIgnoringCase(scheme, Ascii("otpauth")) then Err(NotOtpauth)
      else Ok(rest)
  }

  function Locate(input: Bytes): Outcome<Located> {
    var afterScheme :- StripScheme(input);
    var fragment := SplitOnce(afterScheme, [HASH]);
    var rest := if fragment.Some? then fragment.value.0 else afterScheme;
    var (path, query) := Or(SplitOnce(rest, [QUESTION]), (rest, []));
    var (authority, labelText) := Or(SplitOnce(path, [SLASH]), (path, []));
    match FromUriType(authority)
    case None => Err(UnknownKind)
    case Some(kind) => Ok(Located(kind, labelText, query, fragment.Some?))
  }

  /** The label is split before it is decoded, so only a separator is a raw colon. */
  function DecodeLabel(check: Percent.TextCheck, labelText: Bytes): Outcome<(Option<Bytes>, Bytes)> {
    match SplitOnce(labelText, [COLON])
    case None =>
      var account :- DecodeText(check, labelText);
      Ok((None, account))
    case Some((rawIssuer, rawAccount)) =>
      var issuer :- DecodeText(check, rawIssuer);
      var account :- DecodeText(check, rawAccount);
      Ok((NonEmpty(Some(issuer)), account))
  }

  // ----- what the query means ------------------------------------------------------------------------

  function DecodeAlgorithm(q: Query): Outcome<Option<HashAlg>> {
    if Algorithm !in q.slots then Ok(None)
    else
      match ParseHashAlg(q.slots[Algorithm])
      case None => Err(InvalidParam(Algorithm))
      case Some(alg) => Ok(Some(alg))
  }

  function Overridden<T(==)>(given: Option<T>, fixed: Option<T>): bool { given.Some? && fixed.Some? && given != fixed }

  function Warn(condition: bool, param: Param): seq<UriWarning> { if condition then [IgnoredParam(param)] else [] }

  /** One warning for each value given that the kind fixes or has no use for. */
  function Overrides(kind: OtpKind, algorithm: Option<HashAlg>, digits: Option<nat>, period: Option<nat>, counter: Option<nat>, pin: Option<Bytes>): seq<UriWarning> {
    Warn(Overridden(algorithm, kind.FixedAlgorithm()), Algorithm)
    + Warn(Overridden(digits, kind.FixedDigits()), DigitCount)
    + Warn(Overridden(period, kind.FixedPeriod()), Period)
    + Warn(counter.Some? && !kind.UsesCounter(), Counter)
    + Warn(pin.Some? && !kind.UsesPin(), Pin)
  }

  /** The configuration the query describes, and a warning for everything the kind overrides. */
  function Interpret(kind: OtpKind, q: Query): Outcome<(OtpConfig, seq<UriWarning>)> {
    if Secret !in q.slots then Err(MissingParam(Secret))
    else
      var secret :- DecodeField(kind.SecretEncoding(), q.slots[Secret]);
      var algorithm :- DecodeAlgorithm(q);
      var digits :- ParseNumber(q, DigitCount);
      if digits.Some? && digits.value > 255 then Err(BadConfig(InvalidDigits(digits.value)))
      else
        var period :- ParseNumber(q, Period);
        if period.Some? && period.value > 65535 then Err(BadConfig(InvalidPeriod(period.value)))
        else
          var counter :- ParseNumber(q, Counter);
          if kind.UsesCounter() && counter.None? then Err(MissingParam(Counter))
          else
            var pin :- if Pin in q.slots then
                         (match DecodeField(kind.PinEncoding(), q.slots[Pin])
                          case Err(e) => Err(e)
                          case Ok(bytes) => Ok(Some(bytes)))
                       else Ok(None);
            match Build(kind, secret, algorithm, digits, period, Or(counter, 0), pin)
            case Err(e) => Err(BadConfig(e))
            case Ok(config) =>
              Ok((config, Overrides(kind, algorithm, digits, period, counter, pin)))
  }

  /** The parameter wins over the label, with a warning if they differ. */
  function ChooseIssuer(labelText: Option<Bytes>, parameter: Option<Bytes>): (Option<Bytes>, seq<UriWarning>) {
    if labelText.Some? && parameter.Some? then
      (parameter, if labelText != parameter then [IssuerMismatch(labelText.value, parameter.value)] else [])
    else if labelText.Some? then (labelText, []) else (parameter, [])
  }

  function Slot(q: Query, param: Param): Option<Bytes> { if param in q.slots then Some(q.slots[param]) else None }

  // ----- the printer -------------------------------------------------------------------------------

  function When(condition: bool, param: Param, value: Bytes): seq<(Bytes, Bytes)> {
    if condition then [(param.Name(), value)] else []
  }

  function EncodedPin(c: OtpConfig): Bytes {
    if c.pin.Some? then EncodeField(c.kind.SerializesAs().PinEncoding(), c.pin.value) else []
  }

  function EncodedIssuer(u: OtpUri): Bytes { if u.issuer.Some? then Percent.Encode(u.issuer.value) else [] }

  function EncodedExtra(extra: seq<(Bytes, Bytes)>): (r: seq<(Bytes, Bytes)>)
    ensures |r| == |extra|
  {
    seq(|extra|, i requires 0 <= i < |extra| => (Percent.Encode(extra[i].0), Percent.Encode(extra[i].1)))
  }

  /** The parameters as written, in order: what the kind leaves open, then the vendor's own. */
  function Written(u: OtpUri): seq<(Bytes, Bytes)> {
    var kind := u.config.kind.SerializesAs();
    When(true, Secret, EncodeField(kind.SecretEncoding(), u.config.secret))
    + When(u.issuer.Some?, Issuer, EncodedIssuer(u))
    + When(kind.FixedAlgorithm().None?, Algorithm, u.config.algorithm.Name())
    + When(kind.FixedDigits().None?, DigitCount, Digits(u.config.digits))
    + When(kind.FixedPeriod().None?, Period, Digits(u.config.period))
    + When(kind.UsesCounter(), Counter, Digits(u.config.counter))
    + When(u.config.pin.Some?, Pin, EncodedPin(u.config))
    + EncodedExtra(u.extra)
  }

  function PairText(pair: (Bytes, Bytes)): Bytes { pair.0 + [EQUALS] + pair.1 }

  function PairTexts(pairs: seq<(Bytes, Bytes)>): (texts: seq<Bytes>)
    ensures |texts| == |pairs| && forall i | 0 <= i < |pairs| :: texts[i] == PairText(pairs[i])
  {
    seq(|pairs|, i requires 0 <= i < |pairs| => PairText(pairs[i]))
  }

  function LabelText(u: OtpUri): Bytes {
    (if u.issuer.Some? then Percent.Encode(u.issuer.value) + [COLON] else []) + Percent.Encode(u.account)
  }

  function ToUri(u: OtpUri): Bytes {
    Ascii("otpauth") + Ascii("://")
    + (u.config.kind.SerializesAs().UriType() + [SLASH] + LabelText(u) + [QUESTION] + Join(PairTexts(Written(u)), AMPERSAND))
  }

  /** The model a printed URI parses back into. */
  function ExportForm(u: OtpUri): OtpUri {
    var wire := u.config.kind.SerializesAs();
    if wire == u.config.kind then u else u.(config := WithKind(u.config, wire))
  }

  // ----- the parser --------------------------------------------------------------------------------

  function Parse(check: Percent.TextCheck, input: Bytes): Outcome<(OtpUri, seq<UriWarning>)> {
    if |input| > MAX_URI_LEN then Err(TooLong(|input|))
    else
      var located :- Locate(input);
      var (labelIssuer, account) :- DecodeLabel(check, located.name);
      var query :- ParseQuery(check, located.query);
      var (config, overridden) :- Interpret(located.kind, query);
      var (issuer, mismatch) := ChooseIssuer(labelIssuer, NonEmpty(Slot(query, Issuer)));
      var uri := OtpUri(config, issuer, account, query.extra);
      if |ToUri(uri)| > MAX_URI_LEN then Err(CanonicalTooLong(|ToUri(uri)|))
      else Ok((uri, (if located.fragment then [FragmentIgnored] else []) + overridden + mismatch))
  }

  lemma {:induction false} JoinSnoc(parts: seq<Bytes>, part: Bytes, separator: byte)
    requires parts != []
    ensures Join(parts + [part], separator) == Join(parts, separator) + [separator] + part
  {
    if |parts| == 1 {
      assert (parts + [part])[1..] == [part];
    } else {
      assert (parts + [part])[1..] == parts[1..] + [part];
      JoinSnoc(parts[1..], part, separator);
    }
  }

  /** The buffer holds a URI as far as these parameters. */
  ghost predicate Printed(prefix: Bytes, pairs: seq<(Bytes, Bytes)>, buffer: Bytes) {
    pairs != [] && buffer == prefix + Join(PairTexts(pairs), AMPERSAND)
  }

  lemma PrintedFirst(prefix: Bytes, name: Bytes, value: Bytes)
    ensures Printed(prefix, [(name, value)], prefix + name + [EQUALS] + value)
  {
    assert Join(PairTexts([(name, value)]), AMPERSAND) == name + [EQUALS] + value;
  }

  lemma PrintedNext(prefix: Bytes, pairs: seq<(Bytes, Bytes)>, buffer: Bytes, name: Bytes, value: Bytes)
    requires Printed(prefix, pairs, buffer)
    ensures Printed(prefix, pairs + [(name, value)], buffer + [AMPERSAND] + name + [EQUALS] + value)
  {
    hide Join;
    assert PairTexts(pairs + [(name, value)]) == PairTexts(pairs) + [PairText((name, value))];
    JoinSnoc(PairTexts(pairs), PairText((name, value)), AMPERSAND);
  }

  method PushParam(ghost prefix: Bytes, ghost pairs: seq<(Bytes, Bytes)>, buffer: Bytes, condition: bool, param: Param, value: Bytes)
    returns (out: Bytes)
    requires Printed(prefix, pairs, buffer)
    ensures Printed(prefix, pairs + When(condition, param, value), out)
  {
    hide Printed, PairTexts;
    out := buffer;
    if condition {
      PrintedNext(prefix, pairs, buffer, param.Name(), value);
      out := out + [AMPERSAND] + param.Name() + [EQUALS] + value;
    } else {
      assert pairs + [] == pairs;
    }
  }

  method PrintUri(u: OtpUri) returns (out: Bytes)
    ensures out == ToUri(u)
  {
    hide *;
    var kind := u.config.kind.SerializesAs();
    out := Ascii("otpauth") + Ascii("://") + kind.UriType() + [SLASH];
    if u.issuer.Some? {
      out := out + Percent.Encode(u.issuer.value) + [COLON];
    }
    out := out + Percent.Encode(u.account) + [QUESTION];
    ghost var prefix := out;
    ghost var pairs := [(Secret.Name(), EncodeField(kind.SecretEncoding(), u.config.secret))];
    out := out + Secret.Name() + [EQUALS] + EncodeField(kind.SecretEncoding(), u.config.secret);
    PrintedFirst(prefix, Secret.Name(), EncodeField(kind.SecretEncoding(), u.config.secret));
    out := PushParam(prefix, pairs, out, u.issuer.Some?, Issuer, EncodedIssuer(u));
    pairs := pairs + When(u.issuer.Some?, Issuer, EncodedIssuer(u));
    out := PushParam(prefix, pairs, out, kind.FixedAlgorithm().None?, Algorithm, u.config.algorithm.Name());
    pairs := pairs + When(kind.FixedAlgorithm().None?, Algorithm, u.config.algorithm.Name());
    out := PushParam(prefix, pairs, out, kind.FixedDigits().None?, DigitCount, Digits(u.config.digits));
    pairs := pairs + When(kind.FixedDigits().None?, DigitCount, Digits(u.config.digits));
    out := PushParam(prefix, pairs, out, kind.FixedPeriod().None?, Period, Digits(u.config.period));
    pairs := pairs + When(kind.FixedPeriod().None?, Period, Digits(u.config.period));
    out := PushParam(prefix, pairs, out, kind.UsesCounter(), Counter, Digits(u.config.counter));
    pairs := pairs + When(kind.UsesCounter(), Counter, Digits(u.config.counter));
    out := PushParam(prefix, pairs, out, u.config.pin.Some?, Pin, EncodedPin(u.config));
    pairs := pairs + When(u.config.pin.Some?, Pin, EncodedPin(u.config));
    out := PrintExtra(prefix, pairs, out, u.extra);
    pairs := pairs + EncodedExtra(u.extra);
    PrintedIsUri(u, prefix, pairs, out);
  }

  lemma PrintedIsUri(u: OtpUri, prefix: Bytes, pairs: seq<(Bytes, Bytes)>, out: Bytes)
    requires Printed(prefix, pairs, out)
    requires var start := Ascii("otpauth") + Ascii("://") + u.config.kind.SerializesAs().UriType() + [SLASH];
             prefix == (if u.issuer.Some? then start + Percent.Encode(u.issuer.value) + [COLON] else start) + Percent.Encode(u.account) + [QUESTION]
    requires var kind := u.config.kind.SerializesAs();
             pairs == [(Secret.Name(), EncodeField(kind.SecretEncoding(), u.config.secret))]
                      + When(u.issuer.Some?, Issuer, EncodedIssuer(u))
                      + When(kind.FixedAlgorithm().None?, Algorithm, u.config.algorithm.Name())
                      + When(kind.FixedDigits().None?, DigitCount, Digits(u.config.digits))
                      + When(kind.FixedPeriod().None?, Period, Digits(u.config.period))
                      + When(kind.UsesCounter(), Counter, Digits(u.config.counter))
                      + When(u.config.pin.Some?, Pin, EncodedPin(u.config))
                      + EncodedExtra(u.extra)
    ensures out == ToUri(u)
  {
    hide Join, PairTexts, Percent.Encode, EncodeField, Digits, EncodedExtra;
    assert pairs == Written(u);
  }

  method PrintExtra(ghost prefix: Bytes, ghost pairs: seq<(Bytes, Bytes)>, buffer: Bytes, extra: seq<(Bytes, Bytes)>) returns (out: Bytes)
    requires Printed(prefix, pairs, buffer)
    ensures Printed(prefix, pairs + EncodedExtra(extra), out)
  {
    hide Printed, PairTexts, Percent.Encode;
    out := buffer;
    var i := 0;
    assert extra[..0] == [] && pairs + EncodedExtra([]) == pairs;
    while i < |extra|
      invariant 0 <= i <= |extra|
      invariant Printed(prefix, pairs + EncodedExtra(extra[..i]), out)
    {
      var (name, value) := (Percent.Encode(extra[i].0), Percent.Encode(extra[i].1));
      PrintedNext(prefix, pairs + EncodedExtra(extra[..i]), out, name, value);
      assert pairs + EncodedExtra(extra[..i + 1]) == pairs + EncodedExtra(extra[..i]) + [(name, value)];
      out := out + [AMPERSAND] + name + [EQUALS] + value;
      i := i + 1;
    }
    assert extra[..|extra|] == extra;
  }

  method ParseWithWarnings(check: Percent.TextCheck, input: Bytes) returns (r: Outcome<(OtpUri, seq<UriWarning>)>)
    ensures r == Parse(check, input)
  {
    hide Locate, DecodeLabel, Interpret, ToUri, ParseQuery;
    if |input| > MAX_URI_LEN {
      return Err(TooLong(|input|));
    }
    var warnings: seq<UriWarning> := [];
    var located := Locate(input);
    if located.Err? {
      return Err(located.error);
    }
    if located.value.fragment {
      warnings := warnings + [FragmentIgnored];
    }
    var names := DecodeLabel(check, located.value.name);
    if names.Err? {
      return Err(names.error);
    }
    var query := ParseQueryText(check, located.value.query);
    if query.Err? {
      return Err(query.error);
    }
    var read := Interpret(located.value.kind, query.value);
    if read.Err? {
      return Err(read.error);
    }
    warnings := warnings + read.value.1;
    var (issuer, mismatch) := ChooseIssuer(names.value.0, NonEmpty(Slot(query.value, Issuer)));
    warnings := warnings + mismatch;
    assert [] + [FragmentIgnored] == [FragmentIgnored];
    var uri := OtpUri(read.value.0, issuer, names.value.1, query.value.extra);
    var canonical := PrintUri(uri);
    if |canonical| > MAX_URI_LEN {
      return Err(CanonicalTooLong(|canonical|));
    }
    return Ok((uri, warnings));
  }
}

/** The parameters of one token and what each kind fixes (crates/misty-otp/src/config.rs, secret.rs). */
module OtpConfigs {
  import opened Foundations
  import opened Texts
  import opened Percent

  const MIN_DIGITS := 1
  const MAX_DIGITS := 10
  const MIN_PERIOD := 1
  const MAX_PERIOD := 3600
  const MAX_SECRET_LEN := 1024

  datatype HashAlg = Sha1 | Sha256 | Sha512 {
    function Name(): Bytes {
      match this
      case Sha1 => Ascii("SHA1")
      case Sha256 => Ascii("SHA256")
      case Sha512 => Ascii("SHA512")
    }
  }

  predicate SameIgnoringCase(a: Bytes, b: Bytes) { Lower(a) == Lower(b) }

  function ParseHashAlg(text: Bytes): Option<HashAlg> {
    if SameIgnoringCase(text, Ascii("SHA1")) || SameIgnoringCase(text, Ascii("SHA-1")) then Some(Sha1)
    else if SameIgnoringCase(text, Ascii("SHA256")) || SameIgnoringCase(text, Ascii("SHA-256")) then Some(Sha256)
    else if SameIgnoringCase(text, Ascii("SHA512")) || SameIgnoringCase(text, Ascii("SHA-512")) then Some(Sha512)
    else None
  }

  datatype SecretEncoding = Base32Text | HexText | PlainText

  datatype OtpKind = Totp | Hotp | Steam | Motp | Blizzard | Yandex {
    function UriType(): Bytes {
      match this
      case Totp => Ascii("totp")
      case Hotp => Ascii("hotp")
      case Steam => Ascii("steam")
      case Motp => Ascii("motp")
      case Blizzard => Ascii("blizzard")
      case Yandex => Ascii("yaotp")
    }

    /** Battle.net tokens are written as the plain TOTP they are. */
    function SerializesAs(): OtpKind { if this == Blizzard then Totp else this }

    function DefaultDigits(): nat { if Totp? || Hotp? || Motp? then 6 else if Steam? then 5 else 8 }

    function DefaultPeriod(): nat { if Motp? then 10 else 30 }

    function DefaultAlgorithm(): HashAlg { if Yandex? then Sha256 else Sha1 }

    function FixedDigits(): Option<nat> { if Totp? || Hotp? then None else Some(DefaultDigits()) }

    function FixedPeriod(): Option<nat> { if Totp? then None else Some(DefaultPeriod()) }

    function FixedAlgorithm(): Option<HashAlg> { if Totp? || Hotp? then None else Some(DefaultAlgorithm()) }

    predicate UsesCounter() { Hotp? }

    predicate UsesPin() { Motp? || Yandex? }

    function SecretEncoding(): SecretEncoding { if Motp? then HexText else Base32Text }

    function PinEncoding(): SecretEncoding { if Yandex? then Base32Text else PlainText }
  }

  /** `yandex` is an alias; otherwise the kind whose own name this is. */
  function FromUriType(authority: Bytes): Option<OtpKind> {
    if SameIgnoringCase(authority, Ascii("yandex")) then Some(Yandex)
    else if SameIgnoringCase(authority, Totp.UriType()) then Some(Totp)
    else if SameIgnoringCase(authority, Hotp.UriType()) then Some(Hotp)
    else if SameIgnoringCase(authority, Steam.UriType()) then Some(Steam)
    else if SameIgnoringCase(authority, Motp.UriType()) then Some(Motp)
    else if SameIgnoringCase(authority, Blizzard.UriType()) then Some(Blizzard)
    else if SameIgnoringCase(authority, Yandex.UriType()) then Some(Yandex)
    else None
  }

  datatype OtpConfig = OtpConfig(
    kind: OtpKind,
    secret: Bytes,
    algorithm: HashAlg,
    digits: nat,
    period: nat,
    counter: nat,
    pin: Option<Bytes>)

  datatype ConfigError = EmptySecret | SecretTooLong(len: nat) | InvalidDigits(value: nat) | InvalidPeriod(value: nat)

  function CheckLen(secret: Bytes): Result<(), ConfigError> {
    if secret == [] then Err(EmptySecret) else if |secret| > MAX_SECRET_LEN then Err(SecretTooLong(|secret|)) else Ok(())
  }

  function CheckDigits(digits: nat): Result<nat, ConfigError> {
    if MIN_DIGITS <= digits <= MAX_DIGITS then Ok(digits) else Err(InvalidDigits(digits))
  }

  function CheckPeriod(period: nat): Result<nat, ConfigError> {
    if MIN_PERIOD <= period <= MAX_PERIOD then Ok(period) else Err(InvalidPeriod(period))
  }

  function Or<T>(fixed: Option<T>, other: T): T { if fixed.Some? then fixed.value else other }

  function NonEmpty(pin: Option<Bytes>): Option<Bytes> { if pin == Some([]) then None else pin }

  /** What every configuration the builder accepts satisfies. */
  predicate Normal(c: OtpConfig) {
    && 0 < |c.secret| <= MAX_SECRET_LEN
    && MIN_DIGITS <= c.digits <= MAX_DIGITS && MIN_PERIOD <= c.period <= MAX_PERIOD
    && c.digits == Or(c.kind.FixedDigits(), c.digits)
    && c.period == Or(c.kind.FixedPeriod(), c.period)
    && c.algorithm == Or(c.kind.FixedAlgorithm(), c.algorithm)
    && (c.counter != 0 ==> c.kind.UsesCounter())
    && (c.pin.Some? ==> c.kind.UsesPin() && c.pin.value != [])
  }

  /** Range checks apply even to what the kind is about to override. */
  function Build(kind: OtpKind, secret: Bytes, algorithm: Option<HashAlg>, digits: Option<nat>, period: Option<nat>,
                 counter: nat, pin: Option<Bytes>): (r: Result<OtpConfig, ConfigError>)
    ensures r.Ok? ==> Normal(r.value) && r.value.kind == kind && r.value.secret == secret
    ensures r.Ok? && digits.Some? ==> MIN_DIGITS <= digits.value <= MAX_DIGITS
    ensures r.Ok? && period.Some? ==> MIN_PERIOD <= period.value <= MAX_PERIOD
  {
    var _ :- CheckLen(secret);
    var checkedDigits :- if digits.Some? then CheckDigits(digits.value) else Ok(kind.DefaultDigits());
    var checkedPeriod :- if period.Some? then CheckPeriod(period.value) else Ok(kind.DefaultPeriod());
    Ok(OtpConfig(
         kind, secret,
         Or(kind.FixedAlgorithm(), Or(algorithm, kind.DefaultAlgorithm())),
         Or(kind.FixedDigits(), checkedDigits),
         Or(kind.FixedPeriod(), checkedPeriod),
         if kind.UsesCounter() then counter else 0,
         if kind.UsesPin() then NonEmpty(pin) else None))
  }

  function WithKind(c: OtpConfig, kind: OtpKind): OtpConfig {
    OtpConfig(
      kind, c.secret,
      Or(kind.FixedAlgorithm(), c.algorithm), Or(kind.FixedDigits(), c.digits), Or(kind.FixedPeriod(), c.period),
      if kind.UsesCounter() then c.counter else 0,
      if kind.UsesPin() then c.pin else None)
  }

  /** Stating every parameter a kind leaves open, and none it fixes, rebuilds the configuration. */
  lemma RebuildsFromOpenParameters(c: OtpConfig)
    requires Normal(c)
    ensures Build(c.kind, c.secret,
                  if c.kind.FixedAlgorithm().None? then Some(c.algorithm) else None,
                  if c.kind.FixedDigits().None? then Some(c.digits) else None,
                  if c.kind.FixedPeriod().None? then Some(c.period) else None,
                  c.counter, c.pin) == Ok(c)
  {
  }

  /** Writing a kind as another must not lose the secret or the PIN. */
  lemma ExportKeepsTheToken(c: OtpConfig)
    requires Normal(c)
    ensures var w := WithKind(c, c.kind.SerializesAs());
            && Normal(w) && w.secret == c.secret && w.algorithm == c.algorithm && w.digits == c.digits
            && w.period == c.period && w.counter == c.counter && w.pin == c.pin
            && w.kind.SecretEncoding() == c.kind.SecretEncoding() && w.kind.PinEncoding() == c.kind.PinEncoding()
            && w.kind.SerializesAs() == w.kind
            && (c.kind == c.kind.SerializesAs() ==> w == c)
  {
  }

  // ----- names -------------------------------------------------------------------------------------

  lemma UriTypeRoundTrips(kind: OtpKind)
    ensures FromUriType(kind.UriType()) == Some(kind)
  {
    var t := kind.UriType();
    var y := Ascii("yandex");
    assert Lower(t)[0] != Lower(y)[0] || |t| != |y|;
    match kind
    case Totp =>
    case Hotp => assert Lower(t)[0] != Lower(Totp.UriType())[0];
    case Steam => assert |t| == 5;
    case Motp =>
      assert Lower(t)[0] != Lower(Totp.UriType())[0];
      assert Lower(t)[0] != Lower(Hotp.UriType())[0];
    case Blizzard =>
    case Yandex => assert Lower(t)[0] != Lower(Steam.UriType())[0];
  }

  lemma HashNameRoundTrips(alg: HashAlg)
    ensures ParseHashAlg(alg.Name()) == Some(alg)
  {
    var t := alg.Name();
    match alg
    case Sha1 =>
    case Sha256 =>
    case Sha512 => assert Lower(t)[3] != Lower(Ascii("SHA256"))[3];
  }

  // ----- hex ---------------------------------------------------------------------------------------

  function HexLower(n: nat): byte
    requires n < 16
  {
    if n < 10 then '0' as int + n else 'a' as int + n - 10
  }

  function HexDecode(text: Bytes): Option<Bytes> {
    if text == [] then Some([])
    else if |text| == 1 || HexNibble(text[0]).None? || HexNibble(text[1]).None? then None
    else
      match HexDecode(text[2..])
      case None => None
      case Some(rest) => Some([16 * HexNibble(text[0]).value + HexNibble(text[1]).value] + rest)
  }

  function HexEncode(bytes: Bytes): (text: Bytes)
    ensures |text| == 2 * |bytes|
  {
    if bytes == [] then [] else [HexLower(bytes[0] / 16), HexLower(bytes[0] % 16)] + HexEncode(bytes[1..])
  }

  lemma {:induction false} HexRoundTrips(bytes: Bytes)
    ensures HexDecode(HexEncode(bytes)) == Some(bytes)
    ensures forall i | 0 <= i < |HexEncode(bytes)| :: HexNibble(HexEncode(bytes)[i]).Some?
  {
    if bytes != [] {
      HexRoundTrips(bytes[1..]);
      var (text, rest) := (HexEncode(bytes), HexEncode(bytes[1..]));
      assert text[2..] == rest;
      assert bytes == [bytes[0]] + bytes[1..];
      forall i | 0 <= i < |text| ensures HexNibble(text[i]).Some? {
        if i >= 2 { assert text[i] == rest[i - 2]; }
      }
    }
  }
}

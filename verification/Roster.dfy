/** The device roster: what a signature over it covers, and when it verifies
    (crates/misty-crypto/src/identity.rs).

    A signature is symbolic: it is the key it was made with and the message it was made over.  Which
    byte strings are Ed25519 points is a parameter. */
module Rosters {
  import opened Foundations
  import opened Texts

  const MAX_NAME_LEN := 64
  const MAX_PLATFORM_LEN := 32

  function RosterContext(): Bytes { Ascii("misty/roster/v1") }

  type DeviceId = s: Bytes | |s| == 16 witness [0, 0, 0, 0, 0, 0, 0, 0, 0, 0, 0, 0, 0, 0, 0, 0]

  type Key = s: Bytes | |s| == 32 witness [0, 0, 0, 0, 0, 0, 0, 0, 0, 0, 0, 0, 0, 0, 0, 0, 0, 0, 0, 0, 0, 0, 0, 0, 0, 0, 0, 0, 0, 0, 0, 0]

  type Int64 = x: int | -0x8000_0000_0000_0000 <= x < 0x8000_0000_0000_0000

  datatype DeviceRecord = DeviceRecord(
    deviceId: DeviceId,
    ed25519: Key,
    name: Bytes,
    platform: Bytes,
    enrolledAt: Int64,
    enrolledBy: Option<DeviceId>)

  datatype Signature = Signature(key: Key, message: Bytes)

  datatype Roster = Roster(devices: seq<DeviceRecord>, signedBy: Option<DeviceId>, signature: Option<Signature>)

  datatype RosterError =
    | StringTooLong
    | BadVerifyingKey
    | DuplicateDevice(device: DeviceId)
    | Unsigned
    | SignerNotInRoster(signer: DeviceId)
    | SignatureInvalid

  // ----- the bytes a signature covers ----------------------------------------------------------------

  lemma Widths()
    ensures Pow256(4) == 0x1_0000_0000 && Pow256(8) == 0x1_0000_0000_0000_0000
  {
    assert Pow256(2) == 65536;
    assert Pow256(4) == 65536 * 65536;
    assert Pow256(6) == 65536 * Pow256(4);
  }

  /** A length as four bytes, saturating. */
  function Length32(n: nat): (s: Bytes)
    ensures |s| == 4
  {
    Widths();
    LittleEndian(if n < 0x1_0000_0000 then n else 0xffff_ffff, 4)
  }

  /** Two's complement, eight bytes. */
  function Time64(t: Int64): (s: Bytes)
    ensures |s| == 8
  {
    Widths();
    LittleEndian(if t < 0 then t + 0x1_0000_0000_0000_0000 else t, 8)
  }

  function PrefixedText(text: Bytes): Bytes { Length32(|text|) + text }

  function Enroller(id: Option<DeviceId>): Bytes { if id.None? then [0] else [1] + id.value }

  function RecordBytes(r: DeviceRecord): Bytes {
    r.deviceId + r.ed25519 + PrefixedText(r.name) + PrefixedText(r.platform) + Time64(r.enrolledAt) + Enroller(r.enrolledBy)
  }

  function RecordsBytes(rs: seq<DeviceRecord>): Bytes {
    if rs == [] then [] else RecordsBytes(rs[..|rs| - 1]) + RecordBytes(rs[|rs| - 1])
  }

  function SigningBytes(devices: seq<DeviceRecord>, signer: DeviceId): Bytes {
    RosterContext() + Length32(|devices|) + signer + RecordsBytes(devices)
  }

  // ----- validation and verification -----------------------------------------------------------------

  function ValidateRecord(validKey: Key -> bool, r: DeviceRecord): Option<RosterError> {
    if |r.name| > MAX_NAME_LEN || |r.platform| > MAX_PLATFORM_LEN then Some(StringTooLong)
    else if !validKey(r.ed25519) then Some(BadVerifyingKey)
    else None
  }

  predicate Repeats(devices: seq<DeviceRecord>, i: nat)
    requires i < |devices|
  {
    exists j | i < j < |devices| :: devices[j].deviceId == devices[i].deviceId
  }

  function ValidateFrom(validKey: Key -> bool, devices: seq<DeviceRecord>, i: nat): Option<RosterError>
    requires i <= |devices|
    decreases |devices| - i
  {
    if i == |devices| then None
    else if ValidateRecord(validKey, devices[i]).Some? then ValidateRecord(validKey, devices[i])
    else if Repeats(devices, i) then Some(DuplicateDevice(devices[i].deviceId))
    else ValidateFrom(validKey, devices, i + 1)
  }

  function Find(devices: seq<DeviceRecord>, id: DeviceId): (r: Option<DeviceRecord>)
    ensures r.Some? ==> r.value in devices && r.value.deviceId == id
    ensures r.None? ==> forall d | d in devices :: d.deviceId != id
  {
    if devices == [] then None else if devices[0].deviceId == id then Some(devices[0]) else Find(devices[1..], id)
  }

  function Verify(validKey: Key -> bool, r: Roster): Result<DeviceRecord, RosterError> {
    var invalid := ValidateFrom(validKey, r.devices, 0);
    if invalid.Some? then Err(invalid.value)
    else if r.signedBy.None? || r.signature.None? then Err(Unsigned)
    else
      var record := Find(r.devices, r.signedBy.value);
      if record.None? then Err(SignerNotInRoster(r.signedBy.value))
      else if !validKey(record.value.ed25519) then Err(BadVerifyingKey)
      else if r.signature.value != Signature(record.value.ed25519, SigningBytes(r.devices, r.signedBy.value)) then Err(SignatureInvalid)
      else Ok(record.value)
  }

  // ----- what validation means -------------------------------------------------------------------------

  /** Bounded strings, real keys, no device twice. */
  ghost predicate Sound(validKey: Key -> bool, devices: seq<DeviceRecord>) {
    && (forall i | 0 <= i < |devices| ::
          |devices[i].name| <= MAX_NAME_LEN && |devices[i].platform| <= MAX_PLATFORM_LEN && validKey(devices[i].ed25519))
    && (forall i, j | 0 <= i < j < |devices| :: devices[i].deviceId != devices[j].deviceId)
  }

  ghost predicate SoundFrom(validKey: Key -> bool, devices: seq<DeviceRecord>, i: nat) {
    && (forall k | i <= k < |devices| :: ValidateRecord(validKey, devices[k]).None?)
    && (forall j, k | i <= j < k < |devices| :: devices[j].deviceId != devices[k].deviceId)
  }

  lemma {:induction false} ValidatesFrom(validKey: Key -> bool, devices: seq<DeviceRecord>, i: nat)
    requires i <= |devices|
    ensures ValidateFrom(validKey, devices, i).None? <==> SoundFrom(validKey, devices, i)
    decreases |devices| - i
  {
    if i < |devices| { ValidatesFrom(validKey, devices, i + 1); }
  }

  lemma ValidatesExactlyWhen(validKey: Key -> bool, devices: seq<DeviceRecord>)
    ensures ValidateFrom(validKey, devices, 0).None? <==> Sound(validKey, devices)
  {
    ValidatesFrom(validKey, devices, 0);
    if Sound(validKey, devices) {
      assert forall k | 0 <= k < |devices| :: ValidateRecord(validKey, devices[k]).None?;
    }
  }

  ghost predicate RecordFault(validKey: Key -> bool, devices: seq<DeviceRecord>, i: nat, e: RosterError)
    requires i < |devices|
  {
    match e
    case StringTooLong => |devices[i].name| > 64 || |devices[i].platform| > 32
    case BadVerifyingKey => |devices[i].name| <= 64 && |devices[i].platform| <= 32 && !validKey(devices[i].ed25519)
    case DuplicateDevice(id) =>
      && devices[i].deviceId == id && (exists j | i < j < |devices| :: devices[j].deviceId == id)
      && |devices[i].name| <= 64 && |devices[i].platform| <= 32 && validKey(devices[i].ed25519)
    case _ => false
  }

  ghost predicate FaultyAt(validKey: Key -> bool, devices: seq<DeviceRecord>, i: nat, e: RosterError) {
    && i < |devices| && RecordFault(validKey, devices, i, e)
    && forall k, f | 0 <= k < i :: !RecordFault(validKey, devices, k, f)
  }

  lemma NoRecordFault(validKey: Key -> bool, devices: seq<DeviceRecord>, i: nat)
    requires i < |devices| && ValidateRecord(validKey, devices[i]).None? && !Repeats(devices, i)
    ensures forall e :: !RecordFault(validKey, devices, i, e)
  {
  }

  lemma {:induction false} ValidationStopsAt(validKey: Key -> bool, devices: seq<DeviceRecord>, i: nat)
    requires i <= |devices| && ValidateFrom(validKey, devices, i).Some?
    requires forall k, f | 0 <= k < i :: !RecordFault(validKey, devices, k, f)
    ensures exists k :: FaultyAt(validKey, devices, k, ValidateFrom(validKey, devices, i).value)
    decreases |devices| - i
  {
    var e := ValidateFrom(validKey, devices, i).value;
    if ValidateRecord(validKey, devices[i]).None? && !Repeats(devices, i) {
      hide RecordFault, ValidateRecord, Repeats;
      NoRecordFault(validKey, devices, i);
      ValidationStopsAt(validKey, devices, i + 1);
    } else {
      assert RecordFault(validKey, devices, i, e);
      assert FaultyAt(validKey, devices, i, e);
    }
  }

  /** A roster verifies exactly when it is sound and bears the signature of a listed device over its own
      list; and an error says what is missing, or which of the first faulty record's faults there is. */
  lemma VerifiesExactlyWhen(validKey: Key -> bool, r: Roster)
    ensures match Verify(validKey, r)
            case Ok(d) =>
              Sound(validKey, r.devices) && d in r.devices && r.signedBy == Some(d.deviceId)
              && r.signature == Some(Signature(d.ed25519, SigningBytes(r.devices, d.deviceId)))
            case Err(Unsigned) => Sound(validKey, r.devices) && (r.signedBy.None? || r.signature.None?)
            case Err(SignerNotInRoster(id)) =>
              && Sound(validKey, r.devices) && r.signature.Some? && r.signedBy == Some(id)
              && forall d | d in r.devices :: d.deviceId != id
            case Err(SignatureInvalid) =>
              && Sound(validKey, r.devices) && r.signature.Some? && r.signedBy.Some?
              && exists d | d in r.devices && d.deviceId == r.signedBy.value ::
                   r.signature.value != Signature(d.ed25519, SigningBytes(r.devices, d.deviceId))
            case Err(e) => exists k :: FaultyAt(validKey, r.devices, k, e)
  {
    hide SigningBytes, ValidateFrom, RecordFault, FaultyAt;
    ValidatesExactlyWhen(validKey, r.devices);
    if ValidateFrom(validKey, r.devices, 0).Some? {
      ValidationStopsAt(validKey, r.devices, 0);
      var k :| FaultyAt(validKey, r.devices, k, ValidateFrom(validKey, r.devices, 0).value);
      KindsOfFault(validKey, r.devices, k, ValidateFrom(validKey, r.devices, 0).value);
    } else if r.signedBy.Some? && Find(r.devices, r.signedBy.value).Some? {
      var d := Find(r.devices, r.signedBy.value).value;
      var i :| 0 <= i < |r.devices| && r.devices[i] == d;
      assert validKey(r.devices[i].ed25519);
    }
  }

  lemma KindsOfFault(validKey: Key -> bool, devices: seq<DeviceRecord>, i: nat, e: RosterError)
    requires FaultyAt(validKey, devices, i, e)
    ensures !e.Unsigned? && !e.SignerNotInRoster? && !e.SignatureInvalid?
  {
  }

  // ----- the encoding is unambiguous ---------------------------------------------------------------------

  lemma PrefixesAgree(a: Bytes, b: Bytes, x: Bytes, y: Bytes)
    requires a + x == b + y && |a| == |b|
    ensures a == b && x == y
  {
    assert (a + x)[..|a|] == a && (b + y)[..|b|] == b;
    assert (a + x)[|a|..] == x && (b + y)[|b|..] == y;
  }

  lemma Length32Injective(a: nat, b: nat)
    requires a < 0x1_0000_0000 && b < 0x1_0000_0000 && Length32(a) == Length32(b)
    ensures a == b
  {
    Widths();
    LittleEndianInjective(a, b, 4);
  }

  lemma Time64Injective(a: Int64, b: Int64)
    requires Time64(a) == Time64(b)
    ensures a == b
  {
    Widths();
    LittleEndianInjective(if a < 0 then a + 0x1_0000_0000_0000_0000 else a, if b < 0 then b + 0x1_0000_0000_0000_0000 else b, 8);
  }

  /** A length prefix says where a text ends, whatever follows it. */
  lemma TextEnds(a: Bytes, b: Bytes, x: Bytes, y: Bytes)
    requires |a| < 0x1_0000_0000 && |b| < 0x1_0000_0000
    requires PrefixedText(a) + x == PrefixedText(b) + y
    ensures a == b && x == y
  {
    hide Length32;
    assert PrefixedText(a) + x == Length32(|a|) + (a + x) && PrefixedText(b) + y == Length32(|b|) + (b + y);
    PrefixesAgree(Length32(|a|), Length32(|b|), a + x, b + y);
    Length32Injective(|a|, |b|);
    PrefixesAgree(a, b, x, y);
  }

  lemma EnrollerEnds(a: Option<DeviceId>, b: Option<DeviceId>, x: Bytes, y: Bytes)
    requires Enroller(a) + x == Enroller(b) + y
    ensures a == b && x == y
  {
    assert (Enroller(a) + x)[0] == (Enroller(b) + y)[0];
    PrefixesAgree(Enroller(a), Enroller(b), x, y);
    if a.Some? { assert Enroller(a)[1..] == a.value && Enroller(b)[1..] == b.value; }
  }

  /** A record says where it ends. */
  lemma RecordEnds(a: DeviceRecord, b: DeviceRecord, x: Bytes, y: Bytes)
    requires |a.name| < 0x1_0000_0000 && |a.platform| < 0x1_0000_0000 && |b.name| < 0x1_0000_0000 && |b.platform| < 0x1_0000_0000
    requires RecordBytes(a) + x == RecordBytes(b) + y
    ensures a == b && x == y
  {
    hide PrefixedText, Time64, Enroller;
    var (ae, be) := (Enroller(a.enrolledBy) + x, Enroller(b.enrolledBy) + y);
    var (at, bt) := (Time64(a.enrolledAt) + ae, Time64(b.enrolledAt) + be);
    var (ap, bp) := (PrefixedText(a.platform) + at, PrefixedText(b.platform) + bt);
    var (an, bn) := (PrefixedText(a.name) + ap, PrefixedText(b.name) + bp);
    assert RecordBytes(a) + x == a.deviceId + (a.ed25519 + an) && RecordBytes(b) + y == b.deviceId + (b.ed25519 + bn);
    PrefixesAgree(a.deviceId, b.deviceId, a.ed25519 + an, b.ed25519 + bn);
    PrefixesAgree(a.ed25519, b.ed25519, an, bn);
    TextEnds(a.name, b.name, ap, bp);
    TextEnds(a.platform, b.platform, at, bt);
    PrefixesAgree(Time64(a.enrolledAt), Time64(b.enrolledAt), ae, be);
    Time64Injective(a.enrolledAt, b.enrolledAt);
    EnrollerEnds(a.enrolledBy, b.enrolledBy, x, y);
  }

  predicate Bounded(rs: seq<DeviceRecord>) {
    forall i | 0 <= i < |rs| :: |rs[i].name| < 0x1_0000_0000 && |rs[i].platform| < 0x1_0000_0000
  }

  lemma {:induction false} RecordsFromFront(rs: seq<DeviceRecord>)
    requires rs != []
    ensures RecordsBytes(rs) == RecordBytes(rs[0]) + RecordsBytes(rs[1..])
  {
    hide RecordBytes;
    if |rs| == 1 {
      assert rs[..0] == [] && rs[1..] == [];
    } else {
      var (init, tail) := (rs[..|rs| - 1], rs[1..]);
      RecordsFromFront(init);
      assert init[1..] == tail[..|tail| - 1] && tail[|tail| - 1] == rs[|rs| - 1] && init[0] == rs[0];
      assert RecordBytes(rs[0]) + RecordsBytes(init[1..]) + RecordBytes(rs[|rs| - 1])
             == RecordBytes(rs[0]) + (RecordsBytes(init[1..]) + RecordBytes(rs[|rs| - 1]));
    }
  }

  lemma NoRecords()
    ensures RecordsBytes([]) == []
  {
  }

  lemma RecordIsNotEmpty(r: DeviceRecord)
    ensures RecordBytes(r) != []
  {
  }

  lemma {:induction false} RecordsInjective(a: seq<DeviceRecord>, b: seq<DeviceRecord>)
    requires Bounded(a) && Bounded(b) && RecordsBytes(a) == RecordsBytes(b)
    ensures a == b
    decreases |a|
  {
    hide RecordBytes, RecordsBytes;
    NoRecords();
    if a != [] {
      RecordsFromFront(a);
      RecordIsNotEmpty(a[0]);
    }
    if b != [] {
      RecordsFromFront(b);
      RecordIsNotEmpty(b[0]);
    }
    if a != [] && b != [] {
      RecordEnds(a[0], b[0], RecordsBytes(a[1..]), RecordsBytes(b[1..]));
      RecordsInjective(a[1..], b[1..]);
      assert a == [a[0]] + a[1..] && b == [b[0]] + b[1..];
    }
  }

  /** Two rosters that would be signed with the same bytes have the same signer and the same devices,
      field by field. */
  lemma SigningBytesInjective(a: seq<DeviceRecord>, signerA: DeviceId, b: seq<DeviceRecord>, signerB: DeviceId)
    requires Bounded(a) && Bounded(b) && SigningBytes(a, signerA) == SigningBytes(b, signerB)
    ensures signerA == signerB && a == b
  {
    hide RecordsBytes, Length32, Ascii;
    var (x, y) := (signerA + RecordsBytes(a), signerB + RecordsBytes(b));
    assert SigningBytes(a, signerA) == RosterContext() + (Length32(|a|) + x) && SigningBytes(b, signerB) == RosterContext() + (Length32(|b|) + y);
    PrefixesAgree(RosterContext(), RosterContext(), Length32(|a|) + x, Length32(|b|) + y);
    PrefixesAgree(Length32(|a|), Length32(|b|), x, y);
    PrefixesAgree(signerA, signerB, RecordsBytes(a), RecordsBytes(b));
    RecordsInjective(a, b);
  }

  // ----- where each part lies ----------------------------------------------------------------------------

  /** The bytes of `s` from `at` on that are `part`. */
  predicate Holds(s: Bytes, at: nat, part: Bytes) { at + |part| <= |s| && s[at..at + |part|] == part }

  predicate HoldsByte(s: Bytes, at: nat, b: byte) { at < |s| && s[at] == b }

  function Saturated32(n: nat): nat { if n < 0x1_0000_0000 then n else 0xffff_ffff }

  /** Four bytes, the least significant first. */
  predicate HoldsNumber32(s: Bytes, at: nat, n: nat) {
    at + 4 <= |s| && n == s[at] + 0x100 * s[at + 1] as int + 0x1_0000 * s[at + 2] as int + 0x100_0000 * s[at + 3] as int
  }

  /** Eight bytes, the least significant first, the top bit standing for minus two to the sixty-third. */
  predicate HoldsTime(s: Bytes, at: nat, t: Int64) {
    && at + 8 <= |s|
    && FromLittleEndian(s[at..at + 8]) - (if s[at + 7] >= 0x80 then 0x1_0000_0000_0000_0000 else 0) == t
  }

  function SizeOf(r: DeviceRecord): nat { 65 + |r.name| + |r.platform| + if r.enrolledBy.Some? then 16 else 0 }

  /** Where record `i` starts: the context, the count and the signer take 35 bytes. */
  function OffsetOf(devices: seq<DeviceRecord>, i: nat): nat
    requires i <= |devices|
  {
    if i == 0 then 35 else OffsetOf(devices, i - 1) + SizeOf(devices[i - 1])
  }

  predicate HoldsRecord(s: Bytes, at: nat, r: DeviceRecord) {
    var platformAt := at + 52 + |r.name|;
    var timeAt := platformAt + 4 + |r.platform|;
    && Holds(s, at, r.deviceId) && Holds(s, at + 16, r.ed25519)
    && HoldsNumber32(s, at + 48, Saturated32(|r.name|)) && Holds(s, at + 52, r.name)
    && HoldsNumber32(s, platformAt, Saturated32(|r.platform|)) && Holds(s, platformAt + 4, r.platform)
    && HoldsTime(s, timeAt, r.enrolledAt)
    && HoldsByte(s, timeAt + 8, if r.enrolledBy.Some? then 1 else 0)
    && (r.enrolledBy.Some? ==> Holds(s, timeAt + 9, r.enrolledBy.value))
  }

  lemma Length32Reads(n: nat)
    ensures HoldsNumber32(Length32(n), 0, Saturated32(n))
  {
    Widths();
    LittleEndianRoundTrip(Saturated32(n), 4);
    var s := Length32(n);
    assert FromLittleEndian(s) == s[0] + 256 * FromLittleEndian(s[1..]);
    assert FromLittleEndian(s[1..]) == s[1] + 256 * FromLittleEndian(s[2..]) by { assert s[1..][1..] == s[2..]; }
    assert FromLittleEndian(s[2..]) == s[2] + 256 * FromLittleEndian(s[3..]) by { assert s[2..][1..] == s[3..]; }
    assert FromLittleEndian(s[3..]) == s[3] by { assert s[3..][1..] == []; }
  }

  lemma Time64Reads(t: Int64)
    ensures HoldsTime(Time64(t), 0, t)
  {
    Widths();
    var n := if t < 0 then t + 0x1_0000_0000_0000_0000 else t;
    var s := LittleEndian(n, 8);
    LittleEndianRoundTrip(n, 8);
    assert s[0..8] == s;
    TopByte(n, 8);
  }

  /** The last byte is the number's top digit. */
  lemma {:induction false} TopByte(n: nat, width: nat)
    requires 0 < width && n < Pow256(width)
    ensures LittleEndian(n, width)[width - 1] == n / Pow256(width - 1)
  {
    if width > 1 {
      TopByte(n / 256, width - 1);
      DivideTwice(n, Pow256(width - 2));
    } else {
      assert Pow256(0) == 1;
    }
  }

  lemma DivideTwice(n: nat, p: nat)
    requires p > 0
    ensures n / 256 / p == n / (256 * p)
  {
    var q := n / 256 / p;
    var (r, u) := (n % 256, (n / 256) % p);
    assert n == 256 * (q * p + u) + r;
    assert 256 * (q * p) == q * (256 * p);
    DivisionIs(n, 256 * p, q, 256 * u + r);
  }

  lemma DivisionIs(n: nat, d: nat, q: nat, r: nat)
    requires d > 0 && n == q * d + r && r < d
    ensures n / d == q
  {
    var (k, m) := (n / d, n % d);
    assert n == k * d + m;
    assert (q - k) * d == m - r;
    Multiples(q - k, d);
  }

  lemma Multiples(k: int, d: nat)
    ensures k > 0 ==> k * d >= d
    ensures k < 0 ==> k * d + d <= 0
  {
  }

  lemma Lies(before: Bytes, part: Bytes, after: Bytes)
    ensures Holds(before + part + after, |before|, part)
  {
  }

  lemma NumberLies(before: Bytes, n: nat, after: Bytes)
    ensures HoldsNumber32(before + Length32(n) + after, |before|, Saturated32(n))
  {
    hide Length32;
    Length32Reads(n);
  }

  lemma TimeLies(before: Bytes, t: Int64, after: Bytes)
    ensures HoldsTime(before + Time64(t) + after, |before|, t)
  {
    hide Time64;
    Time64Reads(t);
    assert (before + Time64(t) + after)[|before|..|before| + 8] == Time64(t)[0..8];
  }

  lemma TextLies(before: Bytes, text: Bytes, after: Bytes)
    ensures var s := before + PrefixedText(text) + after;
            HoldsNumber32(s, |before|, Saturated32(|text|)) && Holds(s, |before| + 4, text)
    ensures |PrefixedText(text)| == 4 + |text|
  {
    hide Length32, HoldsNumber32, Holds;
    var s := before + PrefixedText(text) + after;
    assert s == before + Length32(|text|) + (text + after);
    NumberLies(before, |text|, text + after);
    assert s == before + Length32(|text|) + text + after;
    Lies(before + Length32(|text|), text, after);
  }

  lemma EnrollerLies(before: Bytes, id: Option<DeviceId>, after: Bytes)
    ensures var s := before + Enroller(id) + after;
            && HoldsByte(s, |before|, if id.Some? then 1 else 0)
            && (id.Some? ==> Holds(s, |before| + 1, id.value))
    ensures |Enroller(id)| == if id.Some? then 17 else 1
  {
    if id.Some? {
      assert before + Enroller(id) + after == before + [1] + id.value + after;
    }
  }

  lemma Regroup(a: Bytes, b: Bytes, c: Bytes)
    ensures a + (b + c) == a + b + c
  {
  }

  lemma RecordFromFront(r: DeviceRecord, after: Bytes)
    ensures RecordBytes(r) + after
            == r.deviceId + (r.ed25519 + (PrefixedText(r.name) + (PrefixedText(r.platform) + (Time64(r.enrolledAt) + (Enroller(r.enrolledBy) + after)))))
  {
    hide PrefixedText, Time64, Enroller;
  }

  lemma RecordLies(before: Bytes, r: DeviceRecord, after: Bytes)
    ensures HoldsRecord(before + RecordBytes(r) + after, |before|, r) && |RecordBytes(r)| == SizeOf(r)
  {
    hide PrefixedText, Time64, Enroller, HoldsNumber32, HoldsTime, Holds, HoldsByte, Saturated32;
    var s := before + RecordBytes(r) + after;
    var (name, platform, time, enroller) := (PrefixedText(r.name), PrefixedText(r.platform), Time64(r.enrolledAt), Enroller(r.enrolledBy));
    var a5 := enroller + after;
    var a4 := time + a5;
    var a3 := platform + a4;
    var a2 := name + a3;
    var a1 := r.ed25519 + a2;
    RecordFromFront(r, after);
    Regroup(before, RecordBytes(r), after);
    Regroup(before, r.deviceId, a1);
    Regroup(before + r.deviceId, r.ed25519, a2);
    Regroup(before + r.deviceId + r.ed25519, name, a3);
    Regroup(before + r.deviceId + r.ed25519 + name, platform, a4);
    Regroup(before + r.deviceId + r.ed25519 + name + platform, time, a5);
    Regroup(before + r.deviceId + r.ed25519 + name + platform + time, enroller, after);
    Lies(before, r.deviceId, a1);
    Lies(before + r.deviceId, r.ed25519, a2);
    TextLies(before + r.deviceId + r.ed25519, r.name, a3);
    TextLies(before + r.deviceId + r.ed25519 + name, r.platform, a4);
    TimeLies(before + r.deviceId + r.ed25519 + name + platform, r.enrolledAt, a5);
    EnrollerLies(before + r.deviceId + r.ed25519 + name + platform + time, r.enrolledBy, after);
  }

  lemma {:induction false} RecordsSplit(devices: seq<DeviceRecord>, i: nat)
    requires i <= |devices|
    ensures RecordsBytes(devices) == RecordsBytes(devices[..i]) + RecordsBytes(devices[i..])
    ensures 35 + |RecordsBytes(devices[..i])| == OffsetOf(devices, i)
  {
    hide RecordBytes;
    if i == 0 {
      assert devices[0..] == devices && devices[..0] == [];
      assert [] + RecordsBytes(devices) == RecordsBytes(devices);
    } else {
      RecordsSplit(devices, i - 1);
      RecordsFromFront(devices[i - 1..]);
      assert devices[i - 1..][1..] == devices[i..];
      assert devices[..i][..i - 1] == devices[..i - 1];
      RecordLies([], devices[i - 1], []);
      assert RecordsBytes(devices[..i]) == RecordsBytes(devices[..i - 1]) + RecordBytes(devices[i - 1]);
    }
  }

  /** Every byte of what is signed, by its position: the context, the number of devices, the signer, and
      then the devices in order, field by field. */
  lemma SigningBytesLayout(devices: seq<DeviceRecord>, signer: DeviceId)
    ensures var s := SigningBytes(devices, signer);
            && Holds(s, 0, Ascii("misty/roster/v1"))
            && HoldsNumber32(s, 15, Saturated32(|devices|))
            && Holds(s, 19, signer)
            && (forall i | 0 <= i < |devices| :: HoldsRecord(s, OffsetOf(devices, i), devices[i]))
            && |s| == OffsetOf(devices, |devices|)
  {
    hide RecordsBytes, RecordBytes, Length32, HoldsRecord, HoldsNumber32, OffsetOf, Ascii, Saturated32;
    var s := SigningBytes(devices, signer);
    var (context, count, records) := (RosterContext(), Length32(|devices|), RecordsBytes(devices));
    assert s == [] + context + (count + signer + records);
    Lies([], context, count + signer + records);
    assert s == context + count + (signer + records);
    NumberLies(context, |devices|, signer + records);
    Lies(context + count, signer, records);
    forall i | 0 <= i < |devices| ensures HoldsRecord(s, OffsetOf(devices, i), devices[i]) {
      RecordsSplit(devices, i);
      RecordsFromFront(devices[i..]);
      var before := context + count + signer + RecordsBytes(devices[..i]);
      assert s == before + RecordBytes(devices[i]) + RecordsBytes(devices[i..][1..]);
      RecordLies(before, devices[i], RecordsBytes(devices[i..][1..]));
    }
    RecordsSplit(devices, |devices|);
    assert devices[..|devices|] == devices;
  }

  // ----- the roster a device keeps ---------------------------------------------------------------------

  /** The roster as its methods change it. */
  class RosterKeeper {
    var devices: seq<DeviceRecord>
    var signedBy: Option<DeviceId>
    var signature: Option<Signature>

    ghost function Contents(): Roster
      reads this
    {
      Roster(devices, signedBy, signature)
    }

    constructor (devices: seq<DeviceRecord>)
      ensures Contents() == Roster(devices, None, None)
    {
      this.devices := devices;
      signedBy, signature := None, None;
    }

    method SigningBytesFor(signer: DeviceId) returns (out: Bytes)
      ensures out == SigningBytes(devices, signer)
    {
      hide RecordBytes, Length32;
      out := RosterContext();
      out := out + Length32(|devices|);
      out := out + signer;
      var i := 0;
      while i < |devices|
        invariant 0 <= i <= |devices|
        invariant out == RosterContext() + Length32(|devices|) + signer + RecordsBytes(devices[..i])
      {
        assert devices[..i + 1][..i] == devices[..i] && devices[..i + 1][i] == devices[i];
        out := out + RecordBytes(devices[i]);
        i := i + 1;
      }
      assert devices[..|devices|] == devices;
    }

    method Validate(validKey: Key -> bool) returns (error: Option<RosterError>)
      ensures error == ValidateFrom(validKey, devices, 0)
    {
      var i := 0;
      while i < |devices|
        invariant 0 <= i <= |devices|
        invariant ValidateFrom(validKey, devices, i) == ValidateFrom(validKey, devices, 0)
      {
        error := ValidateRecord(validKey, devices[i]);
        if error.Some? {
          return;
        }
        var j := i + 1;
        while j < |devices|
          invariant i < j <= |devices|
          invariant forall k | i < k < j :: devices[k].deviceId != devices[i].deviceId
        {
          if devices[j].deviceId == devices[i].deviceId {
            return Some(DuplicateDevice(devices[i].deviceId));
          }
          j := j + 1;
        }
        i := i + 1;
      }
      return None;
    }

    /** A device is added once, and any change takes the signature away. */
    method Add(validKey: Key -> bool, record: DeviceRecord) returns (error: Option<RosterError>)
      modifies this
      ensures error == (if ValidateRecord(validKey, record).Some? then ValidateRecord(validKey, record)
                        else if Find(old(devices), record.deviceId).Some? then Some(DuplicateDevice(record.deviceId))
                        else None)
      ensures error.Some? ==> Contents() == old(Contents())
      ensures error.None? ==> Contents() == Roster(old(devices) + [record], None, None)
      ensures error.None? && Sound(validKey, old(devices)) ==> Sound(validKey, devices)
    {
      error := ValidateRecord(validKey, record);
      if error.Some? {
        return;
      }
      if Find(devices, record.deviceId).Some? {
        return Some(DuplicateDevice(record.deviceId));
      }
      devices := devices + [record];
      signedBy, signature := None, None;
    }

    method Remove(id: DeviceId) returns (removed: bool)
      modifies this
      ensures Contents() == Roster(Without(old(devices), id), None, None)
      ensures removed <==> Find(old(devices), id).Some?
      ensures Find(devices, id).None?
    {
      var kept: seq<DeviceRecord> := [];
      var i := 0;
      while i < |devices|
        invariant 0 <= i <= |devices| && devices == old(devices)
        invariant kept == Without(devices[..i], id)
      {
        assert devices[..i + 1][..i] == devices[..i] && devices[..i + 1][i] == devices[i];
        if devices[i].deviceId != id {
          kept := kept + [devices[i]];
        }
        i := i + 1;
      }
      assert devices[..|devices|] == devices;
      WithoutCounts(devices, id);
      AbsentIsNotFound(devices, id);
      removed := |kept| != |devices|;
      devices, signedBy, signature := kept, None, None;
    }

    /** Only a member signs, under the key its own record states. */
    method Sign(validKey: Key -> bool, signer: DeviceId, key: Key) returns (error: Option<RosterError>)
      modifies this
      ensures devices == old(devices)
      ensures error.Some? ==> Contents() == old(Contents())
      ensures error.None? ==> Verify(validKey, Contents()).Ok? && signedBy == Some(signer)
                              && Verify(validKey, Contents()).value.ed25519 == key
      ensures error.None? <==>
                ValidateFrom(validKey, devices, 0).None? && Find(devices, signer).Some? && Find(devices, signer).value.ed25519 == key
    {
      error := Validate(validKey);
      if error.Some? {
        return;
      }
      var record := Find(devices, signer);
      if record.None? {
        return Some(SignerNotInRoster(signer));
      }
      if record.value.ed25519 != key {
        return Some(SignatureInvalid);
      }
      ValidatesExactlyWhen(validKey, devices);
      var message := SigningBytesFor(signer);
      signedBy, signature := Some(signer), Some(Signature(key, message));
    }
  }

  function Without(devices: seq<DeviceRecord>, id: DeviceId): (kept: seq<DeviceRecord>)
    ensures forall d | d in kept :: d.deviceId != id && d in devices
    ensures forall d | d in devices && d.deviceId != id :: d in kept
  {
    if devices == [] then []
    else
      var last := devices[|devices| - 1];
      Without(devices[..|devices| - 1], id) + if last.deviceId == id then [] else [last]
  }

  predicate Absent(devices: seq<DeviceRecord>, id: DeviceId) {
    forall i | 0 <= i < |devices| :: devices[i].deviceId != id
  }

  lemma {:induction false} WithoutCounts(devices: seq<DeviceRecord>, id: DeviceId)
    ensures |Without(devices, id)| <= |devices|
    ensures |Without(devices, id)| == |devices| <==> Absent(devices, id)
  {
    if devices != [] {
      var (init, last) := (devices[..|devices| - 1], devices[|devices| - 1]);
      WithoutCounts(init, id);
      assert Absent(devices, id) <==> Absent(init, id) && last.deviceId != id by {
        assert forall i | 0 <= i < |init| :: devices[i] == init[i];
      }
    }
  }

  lemma AbsentIsNotFound(devices: seq<DeviceRecord>, id: DeviceId)
    ensures Find(devices, id).None? <==> Absent(devices, id)
  {
    if Find(devices, id).None? {
      assert forall i | 0 <= i < |devices| :: devices[i] in devices;
    }
  }
}

/** What an enrolling device publishes and the code is computed over (crates/misty-crypto/src/enrollment.rs). */
module Enrollments {
  import opened Foundations
  import opened Texts
  import opened Rosters

  function RequestContext(): Bytes { Ascii("misty/enroll-request/v1") }

  type EnrollId = s: Bytes | |s| == 16 witness [0, 0, 0, 0, 0, 0, 0, 0, 0, 0, 0, 0, 0, 0, 0, 0]

  datatype EnrollmentRequest = EnrollmentRequest(
    enrollId: EnrollId,
    deviceId: DeviceId,
    x25519: Key,
    ed25519: Key,
    name: Bytes,
    platform: Bytes)

  function CanonicalBytes(r: EnrollmentRequest): Bytes {
    RequestContext() + r.enrollId + r.deviceId + r.x25519 + r.ed25519 + PrefixedText(r.name) + PrefixedText(r.platform)
  }

  predicate Valid(r: EnrollmentRequest) { |r.name| <= MAX_NAME_LEN && |r.platform| <= MAX_PLATFORM_LEN }

  /** The fields pushed one after another, the two texts in a loop. */
  method CanonicalBytesOf(r: EnrollmentRequest) returns (out: Bytes)
    ensures out == CanonicalBytes(r)
  {
    hide Length32;
    out := RequestContext();
    out := out + r.enrollId;
    out := out + r.deviceId;
    out := out + r.x25519;
    out := out + r.ed25519;
    ghost var start := out;
    var fields := [r.name, r.platform];
    var i := 0;
    while i < |fields|
      invariant 0 <= i <= 2
      invariant out == (if i == 0 then start else if i == 1 then start + PrefixedText(r.name)
                        else start + PrefixedText(r.name) + PrefixedText(r.platform))
    {
      out := out + Length32(|fields[i]|);
      out := out + fields[i];
      i := i + 1;
    }
  }

  /** Two validated requests with one canonical encoding are one request. */
  lemma CanonicalBytesInjective(a: EnrollmentRequest, b: EnrollmentRequest)
    requires Valid(a) && Valid(b) && CanonicalBytes(a) == CanonicalBytes(b)
    ensures a == b
  {
    hide PrefixedText, Ascii;
    var c := RequestContext();
    var (ap, bp) := (PrefixedText(a.platform), PrefixedText(b.platform));
    var (an, bn) := (PrefixedText(a.name) + ap, PrefixedText(b.name) + bp);
    var (ae, be) := (a.ed25519 + an, b.ed25519 + bn);
    var (ax, bx) := (a.x25519 + ae, b.x25519 + be);
    var (ad, bd) := (a.deviceId + ax, b.deviceId + bx);
    assert CanonicalBytes(a) == c + (a.enrollId + ad) && CanonicalBytes(b) == c + (b.enrollId + bd);
    PrefixesAgree(c, c, a.enrollId + ad, b.enrollId + bd);
    PrefixesAgree(a.enrollId, b.enrollId, ad, bd);
    PrefixesAgree(a.deviceId, b.deviceId, ax, bx);
    PrefixesAgree(a.x25519, b.x25519, ae, be);
    PrefixesAgree(a.ed25519, b.ed25519, an, bn);
    TextEnds(a.name, b.name, ap, bp);
    assert ap + [] == ap && bp + [] == bp;
    TextEnds(a.platform, b.platform, [], []);
  }

  /** Every byte the confirmation code is computed over, by its position. */
  lemma CanonicalBytesLayout(r: EnrollmentRequest)
    ensures var s := CanonicalBytes(r);
            var platformAt := 123 + |r.name|;
            && Holds(s, 0, Ascii("misty/enroll-request/v1"))
            && Holds(s, 23, r.enrollId) && Holds(s, 39, r.deviceId) && Holds(s, 55, r.x25519) && Holds(s, 87, r.ed25519)
            && HoldsNumber32(s, 119, Saturated32(|r.name|)) && Holds(s, 123, r.name)
            && HoldsNumber32(s, platformAt, Saturated32(|r.platform|)) && Holds(s, platformAt + 4, r.platform)
            && |s| == platformAt + 4 + |r.platform|
  {
    hide PrefixedText, HoldsNumber32, Saturated32, Ascii;
    var s := CanonicalBytes(r);
    var start := RequestContext() + r.enrollId + r.deviceId + r.x25519 + r.ed25519;
    TextLies(start, r.name, PrefixedText(r.platform));
    TextLies(start + PrefixedText(r.name), r.platform, []);
    assert start + PrefixedText(r.name) + PrefixedText(r.platform) + [] == s;
  }

  /** No request is ever mistaken for a roster: the two encodings start differently. */
  lemma DomainsAreSeparate(r: EnrollmentRequest, devices: seq<DeviceRecord>, signer: DeviceId)
    ensures CanonicalBytes(r) != SigningBytes(devices, signer)
  {
    hide PrefixedText, RecordsBytes, Length32;
    assert CanonicalBytes(r)[6] == RequestContext()[6];
    assert SigningBytes(devices, signer)[6] == RosterContext()[6];
    assert RequestContext()[6] != RosterContext()[6];
  }
}

/** HOTP resynchronisation (section 7.4 of RFC 4226; crates/misty-otp/src/generate.rs): a look-ahead
    scan that never stops early on a match, so that timing says nothing about where one was. */
module Resync {
  import opened Foundations

  const MAX_RESYNC_WINDOW := 1000
  const MAX_COUNTER := 0xffff_ffff_ffff_ffff

  /** The code a counter value produces, if it produces one. */
  type Codes = nat -> Option<Bytes>

  /** The scan reaches `c`: it is inside the clamped window, fits 64 bits, and no counter on the way
      failed to produce a code. */
  ghost predicate Reached(codes: Codes, counter: nat, window: nat, c: nat) {
    && counter <= c <= counter + (if window < MAX_RESYNC_WINDOW then window else MAX_RESYNC_WINDOW)
    && c <= MAX_COUNTER
    && forall k | counter <= k <= c :: codes(k).Some?
  }

  method ResyncCounter(usesCounter: bool, counter: nat, codes: Codes, observed: Bytes, window: nat) returns (r: Option<nat>)
    ensures !usesCounter ==> r.None?
    ensures r.Some? ==>
              && Reached(codes, counter, window, r.value) && codes(r.value) == Some(observed)
              && forall c: nat | Reached(codes, counter, window, c) && codes(c) == Some(observed) :: r.value <= c
    ensures usesCounter && r.None? ==> forall c: nat | Reached(codes, counter, window, c) :: codes(c) != Some(observed)
  {
    if !usesCounter {
      return None;
    }
    var clamped := if window < MAX_RESYNC_WINDOW then window else MAX_RESYNC_WINDOW;
    var found := false;
    var matched := 0;
    var step := 0;
    while step <= clamped
      invariant 0 <= step <= clamped + 1
      invariant forall k | counter <= k < counter + step :: k <= MAX_COUNTER && codes(k).Some?
      invariant found ==> counter <= matched < counter + step && codes(matched) == Some(observed)
      invariant forall k | counter <= k < counter + step && codes(k) == Some(observed) :: found && matched <= k
    {
      if counter + step > MAX_COUNTER {
        break;
      }
      var candidate := codes(counter + step);
      if candidate.None? {
        break;
      }
      var hit := candidate.value == observed;
      matched := if hit && !found then counter + step else matched;
      found := found || hit;
      step := step + 1;
    }
    return if found then Some(matched) else None;
  }
}

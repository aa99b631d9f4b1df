/** Replacing the roster: what `check_successor` accepts (crates/misty-sync/src/roster.rs), and what
    that means over every run of a vault whose server may offer anything. */
module TrustChain {
  import opened Foundations
  import opened Rosters

  datatype Rejection = NotSigned | InvalidSignature | SignerNotTrusted

  function CheckSuccessor(validKey: Key -> bool, current: Roster, next: Roster): Result<(), Rejection> {
    match Verify(validKey, next)
    case Err(e) => if e == Unsigned then Err(NotSigned) else Err(InvalidSignature)
    case Ok(signer) =>
      match Find(current.devices, signer.deviceId)
      case None => Err(SignerNotTrusted)
      case Some(known) => if known.ed25519 != signer.ed25519 then Err(SignerNotTrusted) else Ok(())
  }

  /** The successor is sound, and a device both rosters list under one key signed exactly its list. */
  ghost predicate Chains(validKey: Key -> bool, current: Roster, next: Roster) {
    && Sound(validKey, next.devices) && next.signedBy.Some? && next.signature.Some?
    && var earlier := Find(current.devices, next.signedBy.value);
       var later := Find(next.devices, next.signedBy.value);
       earlier.Some? && later.Some? && earlier.value.ed25519 == later.value.ed25519
       && next.signature.value == Signature(earlier.value.ed25519, SigningBytes(next.devices, next.signedBy.value))
  }

  lemma AcceptsExactlyWhen(validKey: Key -> bool, current: Roster, next: Roster)
    ensures CheckSuccessor(validKey, current, next).Ok? <==> Chains(validKey, current, next)
  {
    hide SigningBytes;
    ValidatesExactlyWhen(validKey, next.devices);
    if next.signedBy.Some? {
      var record := Find(next.devices, next.signedBy.value);
      if Sound(validKey, next.devices) && record.Some? {
        var i :| 0 <= i < |next.devices| && next.devices[i] == record.value;
        assert validKey(next.devices[i].ed25519);
      }
    }
  }

  /** And how the others are turned away: unsigned, or signed by a device the current roster does not list
      under that key, or not properly signed at all. */
  lemma RejectsExactlyWhen(validKey: Key -> bool, current: Roster, next: Roster)
    ensures CheckSuccessor(validKey, current, next) == Err(NotSigned)
            <==> Sound(validKey, next.devices) && (next.signedBy.None? || next.signature.None?)
    ensures CheckSuccessor(validKey, current, next) == Err(SignerNotTrusted)
            <==> && Sound(validKey, next.devices) && next.signedBy.Some? && next.signature.Some? && Find(next.devices, next.signedBy.value).Some?
                 && var signer := Find(next.devices, next.signedBy.value).value;
                    && next.signature.value == Signature(signer.ed25519, SigningBytes(next.devices, signer.deviceId))
                    && var known := Find(current.devices, signer.deviceId);
                       known.None? || known.value.ed25519 != signer.ed25519
  {
    hide SigningBytes;
    ValidatesExactlyWhen(validKey, next.devices);
    if ValidateFrom(validKey, next.devices, 0).Some? {
      ValidationStopsAt(validKey, next.devices, 0);
      var k :| FaultyAt(validKey, next.devices, k, ValidateFrom(validKey, next.devices, 0).value);
      KindsOfFault(validKey, next.devices, k, ValidateFrom(validKey, next.devices, 0).value);
    } else if next.signedBy.Some? && Find(next.devices, next.signedBy.value).Some? {
      var d := Find(next.devices, next.signedBy.value).value;
      var i :| 0 <= i < |next.devices| && next.devices[i] == d;
      assert validKey(next.devices[i].ed25519);
    }
  }

  // ----- runs --------------------------------------------------------------------------------------

  /** A device list some uncorrupted device decided to sign. */
  datatype Intent = Intent(key: Key, devices: seq<DeviceRecord>, signer: DeviceId)

  /** A roster, with the keys the adversary held when it was adopted. */
  datatype Adopted = Adopted(roster: Roster, corruptThen: set<Key>)

  /** Everything that has happened: the rosters adopted, every signature in existence, what honest
      devices meant by theirs, and the keys an adversary holds. */
  datatype World = World(chain: seq<Adopted>, made: set<Signature>, intended: set<Intent>, corrupt: set<Key>)

  datatype Event =
    | SignRoster(key: Key, devices: seq<DeviceRecord>, signer: DeviceId)
    | SignOther(key: Key, message: Bytes)
    | Corrupt(key: Key)
    | Forge(key: Key, message: Bytes)
    | Adopt(next: Roster)

  predicate StartsWith(message: Bytes, prefix: Bytes) { |prefix| <= |message| && message[..|prefix|] == prefix }

  predicate Possible(validKey: Key -> bool, w: World, e: Event) {
    match e
    case SignRoster(key, devices, signer) =>
      && key !in w.corrupt && ValidateFrom(validKey, devices, 0).None?
      && Find(devices, signer).Some? && Find(devices, signer).value.ed25519 == key
    // Everything else a device signs is for another purpose, and says so at its start.
    case SignOther(key, message) => key !in w.corrupt && !StartsWith(message, RosterContext())
    case Corrupt(key) => true
    case Forge(key, message) => key in w.corrupt
    // The server may offer anything at all, but cannot conjure a signature nobody made.
    case Adopt(next) =>
      && w.chain != [] && (next.signature.Some? ==> next.signature.value in w.made)
      && CheckSuccessor(validKey, w.chain[|w.chain| - 1].roster, next).Ok?
  }

  function Next(w: World, e: Event): World {
    match e
    case SignRoster(key, devices, signer) =>
      w.(made := w.made + {Signature(key, SigningBytes(devices, signer))}, intended := w.intended + {Intent(key, devices, signer)})
    case SignOther(key, message) => w.(made := w.made + {Signature(key, message)})
    case Corrupt(key) => w.(corrupt := w.corrupt + {key})
    case Forge(key, message) => w.(made := w.made + {Signature(key, message)})
    case Adopt(next) => w.(chain := w.chain + [Adopted(next, w.corrupt)])
  }

  function RunFrom(validKey: Key -> bool, w: World, events: seq<Event>): Option<World>
    decreases |events|
  {
    if events == [] then Some(w)
    else if Possible(validKey, w, events[0]) then RunFrom(validKey, Next(w, events[0]), events[1..])
    else None
  }

  /** A vault trusting one roster, before anything was signed. */
  function Start(first: Roster): World { World([Adopted(first, {})], {}, {}, {}) }

  ghost predicate Meant(w: World, s: Signature) {
    exists i | i in w.intended :: i.key == s.key && s.message == SigningBytes(i.devices, i.signer)
  }

  ghost predicate Accounted(w: World, s: Signature) {
    s.key in w.corrupt || !StartsWith(s.message, RosterContext()) || Meant(w, s)
  }

  ghost predicate Keys(r: Roster, k: Key) { exists i | 0 <= i < |r.devices| :: r.devices[i].ed25519 == k }

  /** `next` replaced `current` because a device listed in `current` signed it; and unless the adversary
      then held a key listed in `current`, that device meant precisely this list. */
  ghost predicate Linked(validKey: Key -> bool, intended: set<Intent>, current: Roster, next: Adopted) {
    var r := next.roster;
    && Chains(validKey, current, r)
    && ((forall k | k in next.corruptThen :: !Keys(current, k)) ==>
          Intent(r.signature.value.key, r.devices, r.signedBy.value) in intended
          && Keys(current, r.signature.value.key))
  }

  ghost predicate WorldInv(validKey: Key -> bool, w: World) {
    && w.chain != []
    && (forall s | s in w.made :: Accounted(w, s))
    && (forall i | i in w.intended :: Bounded(i.devices))
    && (forall i | 0 <= i < |w.chain| - 1 :: Linked(validKey, w.intended, w.chain[i].roster, w.chain[i + 1]))
  }

  lemma SoundIsBounded(validKey: Key -> bool, devices: seq<DeviceRecord>)
    requires Sound(validKey, devices)
    ensures Bounded(devices)
  {
  }

  lemma SigningBytesStart(devices: seq<DeviceRecord>, signer: DeviceId)
    ensures StartsWith(SigningBytes(devices, signer), RosterContext())
  {
    hide RecordsBytes, Length32;
    var c := RosterContext();
    assert SigningBytes(devices, signer)[..|c|] == c;
  }

  /** Adoption under honest keys: the signature was made by a listed device for exactly this list. */
  lemma AdoptionIsLinked(validKey: Key -> bool, w: World, next: Roster)
    requires WorldInv(validKey, w) && Possible(validKey, w, Adopt(next))
    ensures Linked(validKey, w.intended, w.chain[|w.chain| - 1].roster, Adopted(next, w.corrupt))
  {
    hide SigningBytes, CheckSuccessor;
    var current := w.chain[|w.chain| - 1].roster;
    AcceptsExactlyWhen(validKey, current, next);
    var s := next.signature.value;
    var record := Find(current.devices, next.signedBy.value).value;
    var i :| 0 <= i < |current.devices| && current.devices[i] == record;
    assert Keys(current, s.key);
    if forall k | k in w.corrupt :: !Keys(current, k) {
      assert Accounted(w, s);
      SigningBytesStart(next.devices, next.signedBy.value);
      var meant :| meant in w.intended && meant.key == s.key && s.message == SigningBytes(meant.devices, meant.signer);
      SoundIsBounded(validKey, next.devices);
      SigningBytesInjective(meant.devices, meant.signer, next.devices, next.signedBy.value);
      assert meant == Intent(s.key, next.devices, next.signedBy.value);
    }
  }

  lemma StaysAccounted(w: World, t: World, s: Signature)
    requires Accounted(w, s) && w.corrupt <= t.corrupt && w.intended <= t.intended
    ensures Accounted(t, s)
  {
    hide SigningBytes, StartsWith;
  }

  lemma LinksStay(validKey: Key -> bool, before: set<Intent>, after: set<Intent>, current: Roster, next: Adopted)
    requires Linked(validKey, before, current, next) && before <= after
    ensures Linked(validKey, after, current, next)
  {
    hide Chains, Keys;
  }

  lemma EventKeepsInv(validKey: Key -> bool, w: World, e: Event)
    requires WorldInv(validKey, w) && Possible(validKey, w, e)
    ensures WorldInv(validKey, Next(w, e))
  {
    hide SigningBytes, StartsWith, Linked, Accounted, CheckSuccessor;
    var t := Next(w, e);
    if e.Adopt? { AdoptionIsLinked(validKey, w, e.next); }
    forall i | 0 <= i < |t.chain| - 1 ensures Linked(validKey, t.intended, t.chain[i].roster, t.chain[i + 1]) {
      if i < |w.chain| - 1 { assert Linked(validKey, w.intended, w.chain[i].roster, w.chain[i + 1]); }
      LinksStay(validKey, w.intended, t.intended, t.chain[i].roster, t.chain[i + 1]);
    }
    forall s | s in t.made ensures Accounted(t, s) {
      if s in w.made { StaysAccounted(w, t, s); } else { NewIsAccounted(validKey, w, e, s); }
    }
    if e.SignRoster? {
      ValidatesExactlyWhen(validKey, e.devices);
      SoundIsBounded(validKey, e.devices);
    }
  }

  lemma NewIsAccounted(validKey: Key -> bool, w: World, e: Event, s: Signature)
    requires Possible(validKey, w, e) && s in Next(w, e).made && s !in w.made
    ensures Accounted(Next(w, e), s)
  {
    hide SigningBytes, CheckSuccessor, StartsWith;
    if e.SignRoster? {
      assert Intent(e.key, e.devices, e.signer) in Next(w, e).intended;
    }
  }

  lemma {:induction false} RunKeepsInv(validKey: Key -> bool, w: World, events: seq<Event>)
    requires WorldInv(validKey, w) && RunFrom(validKey, w, events).Some?
    ensures WorldInv(validKey, RunFrom(validKey, w, events).value)
    decreases |events|
  {
    hide WorldInv, Possible, Next;
    if events != [] {
      EventKeepsInv(validKey, w, events[0]);
      RunKeepsInv(validKey, Next(w, events[0]), events[1..]);
    }
  }

  /** In every run, every adopted roster was signed by a device its predecessor lists, under the key it
      lists for it; and unless the adversary then held a key listed in the predecessor, that device
      decided to sign exactly this device list. */
  lemma TrustChains(validKey: Key -> bool, first: Roster, events: seq<Event>, i: nat)
    requires RunFrom(validKey, Start(first), events).Some?
    requires i + 1 < |RunFrom(validKey, Start(first), events).value.chain|
    ensures var w := RunFrom(validKey, Start(first), events).value;
            var (current, next) := (w.chain[i].roster, w.chain[i + 1].roster);
            && Chains(validKey, current, next)
            && ((forall k | k in w.chain[i + 1].corruptThen :: !Keys(current, k)) ==>
                  Intent(next.signature.value.key, next.devices, next.signedBy.value) in w.intended
                  && Keys(current, next.signature.value.key))
  {
    hide RunFrom, Chains, Keys;
    assert WorldInv(validKey, Start(first));
    RunKeepsInv(validKey, Start(first), events);
    var w := RunFrom(validKey, Start(first), events).value;
    assert Linked(validKey, w.intended, w.chain[i].roster, w.chain[i + 1]);
  }
}

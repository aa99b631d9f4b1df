/** The hybrid logical clock every mutable field is stamped with, and what a whole fleet of such
    clocks guarantees about the readings it issues. */
module HybridClock {
  import opened Foundations

  /** 2020-01-01T00:00:00Z, inclusive. */
  const MIN_WALL_MS: nat := 1_577_836_800_000
  /** 2100-01-01T00:00:00Z, exclusive. */
  const MAX_WALL_MS: nat := 4_102_444_800_000
  const MAX_COUNTER: nat := 0xFFFF

  /** A device id is sixteen bytes compared bytewise, which is its big-endian value compared as a number. */
  type DeviceId = nat

  /** `wall_ms` is a `u64`, `counter` a `u16`; `Reading.Fits` states the widths. */
  datatype Reading = Reading(wallMs: nat, counter: nat, device: DeviceId) {
    predicate InWindow() { MIN_WALL_MS <= wallMs < MAX_WALL_MS }

    predicate Fits() { wallMs < Pow256(8) && counter < Pow256(2) && device < Pow256(16) }

    /** The derived `Ord`: lexicographic over wall clock, counter, device. */
    predicate Less(that: Reading) {
      || wallMs < that.wallMs
      || (wallMs == that.wallMs && counter < that.counter)
      || (wallMs == that.wallMs && counter == that.counter && device < that.device)
    }

    predicate Leq(that: Reading) { this == that || Less(that) }

    /** The comparison `observe` makes, which leaves the device out. */
    predicate TimeLeq(that: Reading) {
      wallMs < that.wallMs || (wallMs == that.wallMs && counter <= that.counter)
    }

    /** The 26 stored bytes. */
    function ToSortBytes(): (s: Bytes)
      requires Fits()
      ensures |s| == 26
    {
      BigEndian(wallMs, 8) + BigEndian(counter, 2) + BigEndian(device, 16)
    }
  }

  datatype ClockError = OutOfRange | WrongLength | ClockExhausted

  /** Reading the stored bytes back, refusing a wall clock outside the window. */
  function FromSlice(s: Bytes): (r: Result<Reading, ClockError>)
  {
    if |s| != 26 then Err(WrongLength)
    else
      var h := Reading(FromBigEndian(s[..8]), FromBigEndian(s[8..10]), FromBigEndian(s[10..]));
      if h.InWindow() then Ok(h) else Err(OutOfRange)
  }

  /** Storing then loading is the identity exactly for readings inside the window. */
  lemma SortBytesRoundTrip(h: Reading)
    requires h.Fits()
    ensures FromSlice(h.ToSortBytes()) == if h.InWindow() then Ok(h) else Err(OutOfRange)
  {
    var s := h.ToSortBytes();
    assert s[..8] == BigEndian(h.wallMs, 8);
    assert s[8..10] == BigEndian(h.counter, 2);
    assert s[10..] == BigEndian(h.device, 16);
    BigEndianRoundTrip(h.wallMs, 8);
    BigEndianRoundTrip(h.counter, 2);
    BigEndianRoundTrip(h.device, 16);
  }

  /** A database that can only compare blobs bytewise still orders readings correctly. */
  lemma SortBytesOrder(a: Reading, b: Reading)
    requires a.Fits() && b.Fits()
    ensures LexLess(a.ToSortBytes(), b.ToSortBytes()) <==> a.Less(b)
  {
    hide LexLess, BigEndian, FromBigEndian, Pow256;
    var (aw, ac, ad) := (BigEndian(a.wallMs, 8), BigEndian(a.counter, 2), BigEndian(a.device, 16));
    var (bw, bc, bd) := (BigEndian(b.wallMs, 8), BigEndian(b.counter, 2), BigEndian(b.device, 16));
    BigEndianOrder(a.wallMs, b.wallMs, 8);
    BigEndianOrder(a.counter, b.counter, 2);
    BigEndianOrder(a.device, b.device, 16);
    assert a.ToSortBytes() == aw + (ac + ad) && b.ToSortBytes() == bw + (bc + bd);
    LexConcat(aw, bw, ac + ad, bc + bd);
    LexConcat(ac, bc, ad, bd);
    BigEndianRoundTrip(a.wallMs, 8);
    BigEndianRoundTrip(b.wallMs, 8);
    BigEndianRoundTrip(a.counter, 2);
    BigEndianRoundTrip(b.counter, 2);
  }

  function Zero(device: DeviceId): Reading { Reading(MIN_WALL_MS, 0, device) }

  function Clamp(wallMs: nat): nat {
    if wallMs < MIN_WALL_MS then MIN_WALL_MS
    else if wallMs >= MAX_WALL_MS then MAX_WALL_MS - 1
    else wallMs
  }

  /** What a clock that last showed `last` issues next. */
  function Ticked(last: Reading, wallMs: nat): (r: Result<Reading, ClockError>)
    requires last.InWindow() && last.counter <= MAX_COUNTER
    ensures r.Ok? ==> r.value.InWindow() && r.value.counter <= MAX_COUNTER && r.value.device == last.device
    ensures r.Ok? ==> last.Less(r.value)
    ensures r.Err? <==> Clamp(wallMs) <= last.wallMs == MAX_WALL_MS - 1 && last.counter == MAX_COUNTER
  {
    var wall := Clamp(wallMs);
    if wall > last.wallMs then Ok(Reading(wall, 0, last.device))
    else if last.counter < MAX_COUNTER then Ok(last.(counter := last.counter + 1))
    else if last.wallMs + 1 < MAX_WALL_MS then Ok(Reading(last.wallMs + 1, 0, last.device))
    else Err(ClockExhausted)
  }

  /** A reading the clock may issue: its own, in the window, later than everything it has shown, and
      not behind the wall clock unless that is past the window's end. */
  predicate MayIssue(last: Reading, wallMs: nat, r: Reading) {
    && r.InWindow() && r.counter <= MAX_COUNTER && r.device == last.device
    && last.Less(r)
    && (r.wallMs >= wallMs || r.wallMs == MAX_WALL_MS - 1)
  }

  /** A tick issues the least reading it may, and is exhausted exactly when there is none. */
  lemma TickIssuesTheLeast(last: Reading, wallMs: nat)
    requires last.InWindow() && last.counter <= MAX_COUNTER
    ensures match Ticked(last, wallMs)
            case Ok(r) => MayIssue(last, wallMs, r) && forall s | MayIssue(last, wallMs, s) :: r.Leq(s)
            case Err(e) => e == ClockExhausted && forall s :: !MayIssue(last, wallMs, s)
  {
  }

  /** A new clock shows the least reading of its device. */
  lemma ZeroIsLeast(r: Reading)
    requires r.InWindow()
    ensures Zero(r.device).InWindow() && Zero(r.device).Leq(r) && Zero(r.device).device == r.device
  {
  }

  /** What a clock shows after being shown `remote`. */
  function Observed(last: Reading, remote: Reading): (r: Reading)
    ensures r.device == last.device
    ensures last.TimeLeq(r)
    ensures remote.InWindow() ==> remote.TimeLeq(r)
    ensures r == last || (r.wallMs == remote.wallMs && r.counter == remote.counter && remote.InWindow())
  {
    if remote.InWindow() && !remote.TimeLeq(last)
    then Reading(remote.wallMs, remote.counter, last.device)
    else last
  }

  /** A device's own clock: every write it makes is stamped by `Tick`, every reading it meets goes through `Observe`. */
  class HlcClock {
    const deviceId: DeviceId
    var last: Reading

    ghost predicate Valid()
      reads this
    {
      last.device == deviceId && last.InWindow() && last.counter <= MAX_COUNTER
    }

    constructor (deviceId: DeviceId)
      ensures Valid() && this.deviceId == deviceId && last == Zero(deviceId)
    {
      this.deviceId := deviceId;
      last := Zero(deviceId);
    }

    /** Reopening a vault: the highest stored reading is folded in. */
    constructor Resumed(deviceId: DeviceId, last: Reading)
      requires last.counter <= MAX_COUNTER
      ensures Valid() && this.deviceId == deviceId && this.last == Observed(Zero(deviceId), last)
    {
      this.deviceId := deviceId;
      this.last := Zero(deviceId);
      new;
      Observe(last);
    }

    method Tick(wallMs: nat) returns (r: Result<Reading, ClockError>)
      requires Valid()
      modifies this
      ensures Valid()
      ensures r == Ticked(old(last), wallMs)
      ensures last == if r.Ok? then r.value else old(last)
    {
      var wall := wallMs;
      if wall < MIN_WALL_MS { wall := MIN_WALL_MS; }
      if wall > MAX_WALL_MS - 1 { wall := MAX_WALL_MS - 1; }
      var next: Reading;
      if wall > last.wallMs {
        next := Reading(wall, 0, deviceId);
      } else if last.counter + 1 <= MAX_COUNTER {
        next := Reading(last.wallMs, last.counter + 1, deviceId);
      } else {
        next := Reading(last.wallMs + 1, 0, deviceId);
        if !next.InWindow() { return Err(ClockExhausted); }
      }
      last := next;
      r := Ok(next);
    }

    method Observe(remote: Reading)
      requires Valid() && remote.counter <= MAX_COUNTER
      modifies this
      ensures Valid()
      ensures last == Observed(old(last), remote)
    {
      if !remote.InWindow() { return; }
      if remote.wallMs > last.wallMs || (remote.wallMs == last.wallMs && remote.counter > last.counter) {
        last := Reading(remote.wallMs, remote.counter, deviceId);
      }
    }
  }

  // ---------------------------------------------------------------------------------------------
  // A fleet of clocks. Devices tick with arbitrary wall clocks, show each other the readings they
  // issued, are shown readings nobody in the fleet issued, crash and resume from storage.
  // ---------------------------------------------------------------------------------------------

  /** A reading once issued, with the indices of the issued readings that happened before it. */
  datatype Event = Event(reading: Reading, past: set<nat>)

  /** `knows[d]` is the set of events whose effects device `d` has seen and not lost in a restart. */
  datatype Fleet = Fleet(clocks: map<DeviceId, Reading>, knows: map<DeviceId, set<nat>>, history: seq<Event>)

  datatype Step =
    | Enroll(d: DeviceId)
    | Issue(d: DeviceId, wallMs: nat)
    | Receive(d: DeviceId, event: nat)
    | ShownForeign(d: DeviceId, reading: Reading)
    | Restart(d: DeviceId, stored: Reading)

  const EmptyFleet := Fleet(map[], map[], [])

  /** Storage covers everything the device itself issued; nothing is asked about what it was shown. */
  ghost predicate Covers(f: Fleet, d: DeviceId, stored: Reading) {
    forall i | 0 <= i < |f.history| && f.history[i].reading.device == d :: f.history[i].reading.TimeLeq(stored)
  }

  ghost predicate Enabled(f: Fleet, s: Step) {
    match s
    case Enroll(d) => d !in f.clocks && d !in f.knows
    case Issue(d, wallMs) => Running(f, d) && Ticked(f.clocks[d], wallMs).Ok?
    case Receive(d, e) => Running(f, d) && e < |f.history|
    case ShownForeign(d, r) => Running(f, d) && r.counter <= MAX_COUNTER
    case Restart(d, stored) => Running(f, d) && stored.InWindow() && stored.counter <= MAX_COUNTER && Covers(f, d, stored)
  }

  ghost predicate Running(f: Fleet, d: DeviceId) {
    d in f.clocks && d in f.knows && f.clocks[d].InWindow() && f.clocks[d].counter <= MAX_COUNTER
  }

  ghost function After(f: Fleet, s: Step): Fleet
    requires Enabled(f, s)
  {
    match s
    case Enroll(d) => Fleet(f.clocks[d := Zero(d)], f.knows[d := {}], f.history)
    case Issue(d, wallMs) =>
      var r := Ticked(f.clocks[d], wallMs).value;
      Fleet(f.clocks[d := r], f.knows[d := f.knows[d] + {|f.history|}], f.history + [Event(r, f.knows[d])])
    case Receive(d, e) =>
      Fleet(f.clocks[d := Observed(f.clocks[d], f.history[e].reading)],
            f.knows[d := f.knows[d] + {e} + f.history[e].past],
            f.history)
    case ShownForeign(d, r) => f.(clocks := f.clocks[d := Observed(f.clocks[d], r)])
    case Restart(d, stored) =>
      var kept := set i | i in f.knows[d] && i < |f.history| && f.history[i].reading.TimeLeq(stored);
      Fleet(f.clocks[d := Observed(Zero(d), stored)], f.knows[d := kept], f.history)
  }

  /** The fleet after a run, or nothing if some step was not enabled. */
  ghost function RunFrom(f: Fleet, steps: seq<Step>): Option<Fleet>
    decreases |steps|
  {
    if steps == [] then Some(f)
    else if Enabled(f, steps[0]) then RunFrom(After(f, steps[0]), steps[1..])
    else None
  }

  /** Every device shows its own id and is at least as late as everything it knows. */
  ghost predicate ClocksLead(f: Fleet) {
    && f.clocks.Keys == f.knows.Keys
    && forall d | d in f.clocks ::
         && f.clocks[d].device == d && f.clocks[d].InWindow() && f.clocks[d].counter <= MAX_COUNTER
         && forall i | i in f.knows[d] :: i < |f.history| && f.history[i].reading.TimeLeq(f.clocks[d])
  }

  /** A device never forgets what it issued itself. */
  ghost predicate OwnKnown(f: Fleet) {
    forall i | 0 <= i < |f.history| ::
      && f.history[i].reading.InWindow() && f.history[i].reading.counter <= MAX_COUNTER
      && f.history[i].reading.device in f.knows && i in f.knows[f.history[i].reading.device]
  }

  /** Happened-before implies a strictly smaller reading. */
  ghost predicate Causal(history: seq<Event>) {
    forall j, i | 0 <= j < |history| && i in history[j].past :: i < j && history[i].reading.Less(history[j].reading)
  }

  /** Readings of one device happen in the order they are issued. */
  ghost predicate ProgramOrder(history: seq<Event>) {
    forall i, j | 0 <= i < j < |history| && history[i].reading.device == history[j].reading.device ::
      i in history[j].past
  }

  /** Happened-before is transitive: what an event saw, its observers saw. */
  ghost predicate PastClosed(history: seq<Event>) {
    forall j, i, h | 0 <= j < |history| && i in history[j].past && 0 <= i < |history| && h in history[i].past ::
      h in history[j].past
  }

  ghost predicate FleetInv(f: Fleet) {
    && ClocksLead(f)
    && OwnKnown(f)
    && Causal(f.history)
    && ProgramOrder(f.history)
    && PastClosed(f.history)
    && forall d, i, h | d in f.knows && i in f.knows[d] && 0 <= i < |f.history| && h in f.history[i].past :: h in f.knows[d]
  }

  lemma IssueKeepsHistory(f: Fleet, d: DeviceId, wallMs: nat)
    requires FleetInv(f) && Enabled(f, Issue(d, wallMs))
    ensures var history := After(f, Issue(d, wallMs)).history;
            Causal(history) && ProgramOrder(history) && PastClosed(history)
  {
    var (n, history) := (|f.history|, After(f, Issue(d, wallMs)).history);
    assert history[n] == Event(Ticked(f.clocks[d], wallMs).value, f.knows[d]);
    forall i | i in history[n].past
      ensures i < n && history[i].reading.Less(history[n].reading)
    {
      assert f.history[i].reading.TimeLeq(f.clocks[d]);
    }
  }

  lemma IssueKeepsInv(f: Fleet, d: DeviceId, wallMs: nat)
    requires FleetInv(f) && Enabled(f, Issue(d, wallMs))
    ensures FleetInv(After(f, Issue(d, wallMs)))
  {
    IssueKeepsHistory(f, d, wallMs);
    var (n, g) := (|f.history|, After(f, Issue(d, wallMs)));
    assert g.history[n] == Event(Ticked(f.clocks[d], wallMs).value, f.knows[d]);
    assert forall i | 0 <= i < n :: g.history[i] == f.history[i];
    assert OwnKnown(g);
    assert ClocksLead(g);
  }

  lemma ReceiveKeepsInv(f: Fleet, d: DeviceId, e: nat)
    requires FleetInv(f) && Enabled(f, Receive(d, e))
    ensures FleetInv(After(f, Receive(d, e)))
  {
    var g := After(f, Receive(d, e));
    forall i | i in g.knows[d]
      ensures i < |g.history| && g.history[i].reading.TimeLeq(g.clocks[d])
    {
      if i in f.history[e].past {
        assert f.history[i].reading.Less(f.history[e].reading);
      }
    }
    assert ClocksLead(g);
    assert OwnKnown(g);
  }

  lemma RestartKeepsInv(f: Fleet, d: DeviceId, stored: Reading)
    requires FleetInv(f) && Enabled(f, Restart(d, stored))
    ensures FleetInv(After(f, Restart(d, stored)))
  {
    var g := After(f, Restart(d, stored));
    assert ClocksLead(g);
    forall i | 0 <= i < |g.history|
      ensures g.history[i].reading.device in g.knows && i in g.knows[g.history[i].reading.device]
    {
      assert i in f.knows[f.history[i].reading.device];
    }
    forall i, h | i in g.knows[d] && 0 <= i < |g.history| && h in g.history[i].past
      ensures h in g.knows[d]
    {
      assert f.history[h].reading.Less(f.history[i].reading);
    }
  }

  lemma StepKeepsInv(f: Fleet, s: Step)
    requires FleetInv(f) && Enabled(f, s)
    ensures FleetInv(After(f, s))
  {
    match s
    case Enroll(d) =>
      assert ClocksLead(After(f, s));
    case Issue(d, wallMs) => IssueKeepsInv(f, d, wallMs);
    case Receive(d, e) => ReceiveKeepsInv(f, d, e);
    case ShownForeign(d, r) =>
      assert ClocksLead(After(f, s));
    case Restart(d, stored) => RestartKeepsInv(f, d, stored);
  }

  /** In every run, from any step sequence: issued readings are pairwise distinct, and happened-before
      (which includes program order and is transitive) implies a strictly smaller reading. */
  lemma {:induction false} RunsAreCausal(f: Fleet, steps: seq<Step>)
    requires FleetInv(f)
    ensures RunFrom(f, steps).Some? ==> FleetInv(RunFrom(f, steps).value)
    decreases |steps|
  {
    if steps != [] && Enabled(f, steps[0]) {
      StepKeepsInv(f, steps[0]);
      RunsAreCausal(After(f, steps[0]), steps[1..]);
    }
  }

  lemma FleetGuarantee(steps: seq<Step>)
    requires RunFrom(EmptyFleet, steps).Some?
    ensures var history := RunFrom(EmptyFleet, steps).value.history;
            && Causal(history) && ProgramOrder(history) && PastClosed(history)
            && forall i, j | 0 <= i < j < |history| :: history[i].reading != history[j].reading
  {
    RunsAreCausal(EmptyFleet, steps);
    var history := RunFrom(EmptyFleet, steps).value.history;
    forall i, j | 0 <= i < j < |history|
      ensures history[i].reading != history[j].reading
    {
      if history[i].reading.device == history[j].reading.device {
        assert i in history[j].past;
      }
    }
  }
}

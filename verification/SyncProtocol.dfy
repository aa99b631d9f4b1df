/** Any number of devices editing, pulling and pushing against one compare-and-swap server, with
    requests and answers delayed, repeated or lost, and devices crashing between any two durable
    writes.

    Values are drawn from any type with an order and a partial join above both sides, because the engine
    never looks inside an envelope it has verified; `ItemsAreLawful` shows that vault items are one.  An envelope is a value
    together with everything else its bytes depend on (nonce, signer, epoch), and a fingerprint is
    taken to identify the envelope. */
module SyncProtocol {
  import opened Foundations
  import VaultItem

  type ItemId = VaultItem.ItemId

  type DeviceName = nat

  /** `join` is absent where two values refuse to merge. */
  datatype Lattice<!V(!new)> = Lattice(leq: (V, V) -> bool, join: (V, V) -> Option<V>)

  ghost predicate Lawful<V(!new)>(l: Lattice<V>) {
    && (forall a :: l.leq(a, a))
    && (forall a, b, c | l.leq(a, b) && l.leq(b, c) :: l.leq(a, c))
    && (forall a, b | l.join(a, b).Some? :: l.leq(a, l.join(a, b).value) && l.leq(b, l.join(a, b).value))
    && (forall a :: l.join(a, a) == Some(a))
  }

  /** Every item, under the merge as it is; tombstones are compared by their clocks alone. */
  const ItemLattice: Lattice<VaultItem.Item> := Lattice(
    (a, b) => VaultItem.Held(a, b),
    (a, b) => if VaultItem.MergeItem(a, b).Ok? then Some(VaultItem.MergeItem(a, b).value) else None)

  lemma ItemsAreLawful()
    ensures Lawful(ItemLattice)
  {
    hide VaultItem.MergeItem, VaultItem.Held;
    forall a: VaultItem.Item ensures VaultItem.Held(a, a) && VaultItem.MergeItem(a, a) == Ok(a) {
      VaultItem.HeldReflexive(a);
      VaultItem.HeldExactly(a, a);
    }
    forall a: VaultItem.Item, b: VaultItem.Item, c: VaultItem.Item | VaultItem.Held(a, b) && VaultItem.Held(b, c)
      ensures VaultItem.Held(a, c)
    {
      VaultItem.HeldTransitive(a, b, c);
    }
    forall a: VaultItem.Item, b: VaultItem.Item | VaultItem.MergeItem(a, b).Ok?
      ensures VaultItem.Held(a, VaultItem.MergeItem(a, b).value) && VaultItem.Held(b, VaultItem.MergeItem(a, b).value)
    {
      VaultItem.MergedIsHeld(b, a);
    }
  }

  /** One item is below another exactly when merging it in would change nothing. */
  lemma ItemsAreOrderedByMerging(a: VaultItem.Item, b: VaultItem.Item)
    ensures ItemLattice.leq(a, b) <==> ItemLattice.join(b, a) == Some(b)
  {
    VaultItem.HeldExactly(a, b);
  }

  datatype Envelope<V> = Envelope(value: V, seal: nat)

  // ----- the server ------------------------------------------------------------------------------

  datatype Row<V> = Row(version: nat, seqNo: nat, envelope: Envelope<V>)

  /** `stored` remembers every version of every item, which the real server forgets. */
  datatype Server<V> = Server(rows: map<ItemId, Row<V>>, head: nat, stored: map<(ItemId, nat), Envelope<V>>)

  /** Zero demands that the row be absent; anything else is an `If-Match`. */
  datatype Request<V> = Request(item: ItemId, precondition: nat, envelope: Envelope<V>)

  datatype Answer<V> =
    | Applied(version: nat, seqNo: nat)
    | Conflict(version: nat, envelope: Envelope<V>)
    | Absent

  function VersionOf<V>(s: Server<V>, k: ItemId): nat { if k in s.rows then s.rows[k].version else 0 }

  /** The transaction behind `PUT`: compare the version, then allocate a sequence number and store. */
  function Put<V>(s: Server<V>, r: Request<V>): (Server<V>, Answer<V>) {
    if VersionOf(s, r.item) == r.precondition then
      var version := r.precondition + 1;
      var row := Row(version, s.head + 1, r.envelope);
      (Server(s.rows[r.item := row], s.head + 1, s.stored[(r.item, version) := r.envelope]), Applied(version, s.head + 1))
    else if r.item in s.rows then (s, Conflict(s.rows[r.item].version, s.rows[r.item].envelope))
    else (s, Absent)
  }

  // ----- a device --------------------------------------------------------------------------------

  datatype KnownRow<V> = KnownRow(version: nat, fingerprint: Envelope<V>)

  /** The engine's whole state; a cursor of zero is "from the start". */
  datatype SyncState<V> = SyncState(cursor: nat, known: map<ItemId, KnownRow<V>>)

  datatype Task<V> =
    | Idle
    | PageHeld(page: map<ItemId, Row<V>>, next: nat)
    | PageMerged(page: map<ItemId, Row<V>>, next: nat)
    | Waiting(request: nat)
    | ConflictHeld(item: ItemId, version: nat, envelope: Envelope<V>)
    | ConflictMerged(item: ItemId, version: nat, envelope: Envelope<V>)

  /** The vault commits on its own; the sync state lives in memory and is saved as a whole. */
  datatype Device<V> = Device(vault: map<ItemId, Envelope<V>>, memory: SyncState<V>, disk: SyncState<V>, task: Task<V>)

  function NewState<V>(): SyncState<V> { SyncState(0, map[]) }

  /** The outbound queue is derived: pending is "not the envelope the server last confirmed". */
  predicate Pending<V(==)>(d: Device<V>, k: ItemId)
    requires k in d.vault
  {
    !(k in d.memory.known && d.memory.known[k].fingerprint == d.vault[k])
  }

  /** What merging one remote envelope stores: the peer's own bytes where the merged value is the
      peer's, a fresh seal by this device otherwise. */
  function Absorbed<V(==,!new)>(l: Lattice<V>, vault: map<ItemId, Envelope<V>>, k: ItemId, remote: Envelope<V>, seal: nat): Option<Envelope<V>> {
    if k !in vault then Some(remote)
    else
      match l.join(vault[k].value, remote.value)
      case None => None
      case Some(v) => Some(if v == remote.value then remote else Envelope(v, seal))
  }

  // ----- the system ------------------------------------------------------------------------------

  datatype System<V> = System(
    server: Server<V>,
    devices: map<DeviceName, Device<V>>,
    requests: seq<Request<V>>,
    answers: seq<(nat, Answer<V>)>)

  datatype Step<V> =
    | Enroll(d: DeviceName)
    | Edit(d: DeviceName, item: ItemId, envelope: Envelope<V>)
    | Fetch(d: DeviceName, next: nat)
    | MergePage(d: DeviceName, seals: map<ItemId, nat>)
    | RecordPage(d: DeviceName)
    | Send(d: DeviceName, item: ItemId)
    | Serve(request: nat)
    | Receive(d: DeviceName, answer: Answer<V>)
    | MergeConflict(d: DeviceName, seal: nat)
    | RecordConflict(d: DeviceName)
    | Save(d: DeviceName)
    | GiveUp(d: DeviceName)
    | Crash(d: DeviceName)

  ghost function InitialServer<V>(): Server<V> { Server(map[], 0, map[]) }

  ghost function Initial<V>(): System<V> { System(InitialServer(), map[], [], []) }

  /** The rows the change feed shows between two cursors. */
  ghost function Feed<V>(s: Server<V>, cursor: nat, next: nat): map<ItemId, Row<V>> {
    map k | k in s.rows && cursor < s.rows[k].seqNo <= next :: s.rows[k]
  }

  ghost predicate Enabled<V(!new)>(l: Lattice<V>, s: System<V>, step: Step<V>) {
    match step
    case Enroll(d) => d !in s.devices
    // A local write never discards what it was made on top of.
    case Edit(d, k, e) => d in s.devices && (k in s.devices[d].vault ==> l.leq(s.devices[d].vault[k].value, e.value))
    case Fetch(d, next) => d in s.devices && s.devices[d].task.Idle? && s.devices[d].memory.cursor <= next <= s.server.head
    case MergePage(d, seals) =>
      && d in s.devices && s.devices[d].task.PageHeld?
      && forall k | k in s.devices[d].task.page ::
           k in seals && Absorbed(l, s.devices[d].vault, k, s.devices[d].task.page[k].envelope, seals[k]).Some?
    case RecordPage(d) => d in s.devices && s.devices[d].task.PageMerged?
    case Send(d, k) => d in s.devices && s.devices[d].task.Idle? && k in s.devices[d].vault && Pending(s.devices[d], k)
    case Serve(r) => r < |s.requests|
    case Receive(d, a) => d in s.devices && s.devices[d].task.Waiting? && (s.devices[d].task.request, a) in s.answers && s.devices[d].task.request < |s.requests|
    case MergeConflict(d, seal) =>
      d in s.devices && s.devices[d].task.ConflictHeld?
      && Absorbed(l, s.devices[d].vault, s.devices[d].task.item, s.devices[d].task.envelope, seal).Some?
    case RecordConflict(d) => d in s.devices && s.devices[d].task.ConflictMerged?
    case Save(d) => d in s.devices
    case GiveUp(d) => d in s.devices
    case Crash(d) => d in s.devices
  }

  ghost function DeviceAfter<V(!new)>(l: Lattice<V>, s: System<V>, step: Step<V>): Device<V>
    requires Enabled(l, s, step) && !step.Serve?
  {
    match step
    case Enroll(_) => Device(map[], NewState(), NewState(), Idle)
    case Edit(d, k, e) => var v := s.devices[d]; v.(vault := v.vault[k := e])
    case Fetch(d, next) => var v := s.devices[d]; v.(task := PageHeld(Feed(s.server, v.memory.cursor, next), next))
    case MergePage(d, seals) =>
      var v := s.devices[d];
      var merged := map k | k in v.task.page :: Absorbed(l, v.vault, k, v.task.page[k].envelope, seals[k]).value;
      v.(vault := v.vault + merged, task := PageMerged(v.task.page, v.task.next))
    case RecordPage(d) =>
      var v := s.devices[d];
      var rows := map k | k in v.task.page :: KnownRow(v.task.page[k].version, v.task.page[k].envelope);
      v.(memory := SyncState(v.task.next, v.memory.known + rows), task := Idle)
    case Send(d, k) => s.devices[d].(task := Waiting(|s.requests|))
    case Receive(d, a) =>
      var v := s.devices[d];
      var r := s.requests[v.task.request];
      (match a
       case Applied(version, _) => v.(memory := v.memory.(known := v.memory.known[r.item := KnownRow(version, r.envelope)]), task := Idle)
       case Conflict(version, e) => v.(task := ConflictHeld(r.item, version, e))
       case Absent => v.(task := Idle))
    case MergeConflict(d, seal) =>
      var v := s.devices[d];
      var (k, e) := (v.task.item, v.task.envelope);
      v.(vault := v.vault[k := Absorbed(l, v.vault, k, e, seal).value], task := ConflictMerged(k, v.task.version, e))
    case RecordConflict(d) =>
      var v := s.devices[d];
      v.(memory := v.memory.(known := v.memory.known[v.task.item := KnownRow(v.task.version, v.task.envelope)]), task := Idle)
    case Save(d) => var v := s.devices[d]; v.(disk := v.memory)
    case GiveUp(d) => s.devices[d].(task := Idle)
    case Crash(d) => var v := s.devices[d]; v.(memory := v.disk, task := Idle)
  }

  ghost function After<V(!new)>(l: Lattice<V>, s: System<V>, step: Step<V>): System<V>
    requires Enabled(l, s, step)
  {
    if step.Serve? then
      var (server, answer) := Put(s.server, s.requests[step.request]);
      s.(server := server, answers := s.answers + [(step.request, answer)])
    else
      var t := s.(devices := s.devices[step.d := DeviceAfter(l, s, step)]);
      if step.Send? then
        var d := s.devices[step.d];
        t.(requests := s.requests + [Request(step.item, if step.item in d.memory.known then d.memory.known[step.item].version else 0, d.vault[step.item])])
      else t
  }

  ghost function RunFrom<V(!new)>(l: Lattice<V>, s: System<V>, steps: seq<Step<V>>): Option<System<V>>
    decreases |steps|
  {
    if steps == [] then Some(s)
    else if Enabled(l, s, steps[0]) then RunFrom(l, After(l, s, steps[0]), steps[1..])
    else None
  }

  // ----- the invariant ---------------------------------------------------------------------------

  /** Versions of an item are stored consecutively from one, and never drop in the value order. */
  ghost predicate ServerInv<V(!new)>(l: Lattice<V>, s: Server<V>) {
    && (forall k | k in s.rows ::
          s.rows[k].version >= 1 && 1 <= s.rows[k].seqNo <= s.head
          && (k, s.rows[k].version) in s.stored && s.stored[(k, s.rows[k].version)] == s.rows[k].envelope)
    && (forall k, i | (k, i) in s.stored ::
          k in s.rows && 1 <= i <= s.rows[k].version && l.leq(s.stored[(k, i)].value, s.rows[k].envelope.value))
    && (forall k, i, j | (k, i) in s.stored && (k, j) in s.stored && i <= j :: l.leq(s.stored[(k, i)].value, s.stored[(k, j)].value))
  }

  ghost predicate Stored<V>(s: Server<V>, k: ItemId, version: nat, e: Envelope<V>) {
    (k, version) in s.stored && s.stored[(k, version)] == e
  }

  ghost predicate Covered<V(!new)>(l: Lattice<V>, vault: map<ItemId, Envelope<V>>, k: ItemId, e: Envelope<V>) {
    k in vault && l.leq(e.value, vault[k].value)
  }

  /** A device recording version `v` holds at least the value the server had at `v`. */
  ghost predicate KnownInv<V(!new)>(l: Lattice<V>, s: Server<V>, vault: map<ItemId, Envelope<V>>, state: SyncState<V>) {
    forall k | k in state.known ::
      Stored(s, k, state.known[k].version, state.known[k].fingerprint) && Covered(l, vault, k, state.known[k].fingerprint)
  }

  /** Every server row at or below the cursor is recorded with its current version and fingerprint. */
  ghost predicate CursorInv<V>(s: Server<V>, state: SyncState<V>) {
    && state.cursor <= s.head
    && forall k | k in s.rows && s.rows[k].seqNo <= state.cursor ::
         k in state.known && state.known[k] == KnownRow(s.rows[k].version, s.rows[k].envelope)
  }

  ghost predicate RequestInv<V(!new)>(l: Lattice<V>, s: Server<V>, r: Request<V>) {
    r.precondition == 0
    || ((r.item, r.precondition) in s.stored && l.leq(s.stored[(r.item, r.precondition)].value, r.envelope.value))
  }

  /** What an answer says was true when it was given, and the row has only moved past the asker's cursor since. */
  ghost predicate AnswerInv<V>(s: Server<V>, r: Request<V>, a: Answer<V>, cursor: nat) {
    match a
    case Applied(version, seqNo) => r.item in s.rows && s.rows[r.item].seqNo > cursor
    case Conflict(version, e) => r.item in s.rows && (s.rows[r.item].version == version || s.rows[r.item].seqNo > cursor)
    case Absent => true
  }

  ghost predicate AnswerStored<V>(s: Server<V>, r: Request<V>, a: Answer<V>) {
    match a
    case Applied(version, seqNo) => Stored(s, r.item, version, r.envelope)
    case Conflict(version, e) => Stored(s, r.item, version, e)
    case Absent => true
  }

  ghost predicate PageInv<V>(s: Server<V>, cursor: nat, page: map<ItemId, Row<V>>, next: nat) {
    && cursor <= next <= s.head
    && (forall k | k in page ::
          && Stored(s, k, page[k].version, page[k].envelope)
          && k in s.rows && (page[k] == s.rows[k] || s.rows[k].seqNo > next))
    && (forall k | k in s.rows && cursor < s.rows[k].seqNo <= next :: k in page)
  }

  ghost predicate ConflictInv<V>(s: Server<V>, cursor: nat, k: ItemId, version: nat, e: Envelope<V>) {
    && Stored(s, k, version, e)
    && k in s.rows && (s.rows[k].version == version || s.rows[k].seqNo > cursor)
  }

  ghost predicate TaskInv<V(!new)>(l: Lattice<V>, s: System<V>, d: Device<V>) {
    match d.task
    case Idle => true
    case PageHeld(page, next) => PageInv(s.server, d.memory.cursor, page, next)
    case PageMerged(page, next) =>
      PageInv(s.server, d.memory.cursor, page, next) && forall k | k in page :: Covered(l, d.vault, k, page[k].envelope)
    case Waiting(r) => r < |s.requests| && Covered(l, d.vault, s.requests[r].item, s.requests[r].envelope)
                       && forall p | p in s.answers && p.0 == r :: AnswerInv(s.server, s.requests[r], p.1, d.memory.cursor)
    case ConflictHeld(k, version, e) => ConflictInv(s.server, d.memory.cursor, k, version, e)
    case ConflictMerged(k, version, e) => ConflictInv(s.server, d.memory.cursor, k, version, e) && Covered(l, d.vault, k, e)
  }

  ghost predicate DeviceInv<V(!new)>(l: Lattice<V>, s: System<V>, d: Device<V>) {
    && KnownInv(l, s.server, d.vault, d.memory) && KnownInv(l, s.server, d.vault, d.disk)
    && CursorInv(s.server, d.memory) && CursorInv(s.server, d.disk)
    && TaskInv(l, s, d)
  }

  ghost predicate Inv<V(!new)>(l: Lattice<V>, s: System<V>) {
    && ServerInv(l, s.server)
    && (forall i | 0 <= i < |s.requests| :: RequestInv(l, s.server, s.requests[i]))
    && (forall p | p in s.answers :: p.0 < |s.requests| && AnswerStored(s.server, s.requests[p.0], p.1))
    && (forall d | d in s.devices :: DeviceInv(l, s, s.devices[d]))
  }

  // ----- the server only moves forward -----------------------------------------------------------

  ghost predicate Grows<V>(s: Server<V>, t: Server<V>) {
    && s.head <= t.head
    && (forall p | p in s.stored :: p in t.stored && t.stored[p] == s.stored[p])
    && (forall k | k in s.rows :: k in t.rows && (t.rows[k] == s.rows[k] || t.rows[k].seqNo > s.head))
    && (forall k | k in t.rows && k !in s.rows :: t.rows[k].seqNo > s.head)
  }

  lemma PutGrows<V(!new)>(l: Lattice<V>, s: Server<V>, r: Request<V>)
    requires ServerInv(l, s)
    ensures Grows(s, Put(s, r).0)
    ensures AnswerStored(Put(s, r).0, r, Put(s, r).1)
    ensures forall cursor: nat | cursor <= s.head :: AnswerInv(Put(s, r).0, r, Put(s, r).1, cursor)
  {
    if VersionOf(s, r.item) == r.precondition {
      assert (r.item, r.precondition + 1) !in s.stored;
    }
  }

  lemma PutKeepsServerInv<V(!new)>(l: Lattice<V>, s: Server<V>, r: Request<V>)
    requires Lawful(l) && ServerInv(l, s) && RequestInv(l, s, r)
    ensures ServerInv(l, Put(s, r).0)
  {
    var t := Put(s, r).0;
    if VersionOf(s, r.item) == r.precondition {
      var (k, v) := (r.item, r.precondition + 1);
      if k in s.rows {
        assert l.leq(s.rows[k].envelope.value, r.envelope.value);
        forall i | (k, i) in s.stored ensures l.leq(s.stored[(k, i)].value, r.envelope.value) {
          assert l.leq(s.stored[(k, i)].value, s.rows[k].envelope.value);
        }
      }
      forall j, i | (j, i) in t.stored
        ensures j in t.rows && 1 <= i <= t.rows[j].version && l.leq(t.stored[(j, i)].value, t.rows[j].envelope.value)
      {
        if (j, i) != (k, v) { assert (j, i) in s.stored; }
      }
      forall j, i, h | (j, i) in t.stored && (j, h) in t.stored && i <= h
        ensures l.leq(t.stored[(j, i)].value, t.stored[(j, h)].value)
      {
        if (j, i) != (k, v) { assert (j, i) in s.stored; }
        if (j, h) != (k, v) { assert (j, h) in s.stored; }
      }
    }
  }

  lemma GrowthKeepsState<V(!new)>(l: Lattice<V>, s: Server<V>, t: Server<V>, vault: map<ItemId, Envelope<V>>, state: SyncState<V>)
    requires Grows(s, t) && KnownInv(l, s, vault, state) && CursorInv(s, state)
    ensures KnownInv(l, t, vault, state) && CursorInv(t, state)
  {
  }

  lemma GrowthKeepsTask<V(!new)>(l: Lattice<V>, s: System<V>, t: System<V>, d: Device<V>)
    requires Grows(s.server, t.server) && TaskInv(l, s, d) && d.memory.cursor <= s.server.head
    requires t.requests == s.requests
    requires forall p | p in t.answers && p !in s.answers && p.0 < |s.requests| :: AnswerInv(t.server, s.requests[p.0], p.1, d.memory.cursor)
    ensures TaskInv(l, t, d)
  {
  }

  lemma ServeKeepsDevice<V(!new)>(l: Lattice<V>, s: System<V>, r: nat, d: DeviceName)
    requires Inv(l, s) && Enabled(l, s, Serve(r)) && d in s.devices
    ensures var t := After(l, s, Serve(r)); d in t.devices && DeviceInv(l, t, t.devices[d])
  {
    hide ServerInv, Put;
    var t := After(l, s, Serve(r));
    assert DeviceInv(l, s, s.devices[d]);
    PutGrows(l, s.server, s.requests[r]);
    GrowthKeepsState(l, s.server, t.server, s.devices[d].vault, s.devices[d].memory);
    GrowthKeepsState(l, s.server, t.server, s.devices[d].vault, s.devices[d].disk);
    GrowthKeepsTask(l, s, t, s.devices[d]);
  }

  lemma ServeKeepsInv<V(!new)>(l: Lattice<V>, s: System<V>, r: nat)
    requires Lawful(l) && Inv(l, s) && Enabled(l, s, Serve(r))
    ensures Inv(l, After(l, s, Serve(r)))
  {
    hide ServerInv, DeviceInv, Put;
    var t := After(l, s, Serve(r));
    PutGrows(l, s.server, s.requests[r]);
    PutKeepsServerInv(l, s.server, s.requests[r]);
    forall d | d in t.devices ensures DeviceInv(l, t, t.devices[d]) {
      ServeKeepsDevice(l, s, r, d);
    }
  }

  // ----- what a device does ----------------------------------------------------------------------

  /** Vault values only rise. */
  ghost predicate Rises<V(!new)>(l: Lattice<V>, v: map<ItemId, Envelope<V>>, w: map<ItemId, Envelope<V>>) {
    forall k | k in v :: Covered(l, w, k, v[k])
  }

  lemma AbsorbedRises<V(!new)>(l: Lattice<V>, vault: map<ItemId, Envelope<V>>, k: ItemId, remote: Envelope<V>, seal: nat)
    requires Lawful(l) && Absorbed(l, vault, k, remote, seal).Some?
    ensures var e := Absorbed(l, vault, k, remote, seal).value;
            l.leq(remote.value, e.value) && (k in vault ==> l.leq(vault[k].value, e.value))
  {
  }

  lemma RisingKeepsKnown<V(!new)>(l: Lattice<V>, s: Server<V>, v: map<ItemId, Envelope<V>>, w: map<ItemId, Envelope<V>>, state: SyncState<V>)
    requires Lawful(l) && Rises(l, v, w) && KnownInv(l, s, v, state)
    ensures KnownInv(l, s, w, state)
  {
    forall k | k in state.known
      ensures Stored(s, k, state.known[k].version, state.known[k].fingerprint) && Covered(l, w, k, state.known[k].fingerprint)
    {
      assert Covered(l, v, k, state.known[k].fingerprint);
      assert Covered(l, w, k, v[k]);
    }
  }

  /** Only the stepping device changes, so its invariant is all there is to show. */
  lemma OnlyOneMoves<V(!new)>(l: Lattice<V>, s: System<V>, t: System<V>, d: DeviceName)
    requires Inv(l, s) && t.server == s.server && t.answers == s.answers && t.requests == s.requests
    requires d in t.devices && t.devices == s.devices[d := t.devices[d]] && DeviceInv(l, s, t.devices[d])
    ensures Inv(l, t)
  {
    forall e | e in t.devices ensures DeviceInv(l, t, t.devices[e]) {
      assert e != d ==> DeviceInv(l, s, s.devices[e]);
    }
  }

  lemma RisingKeepsTask<V(!new)>(l: Lattice<V>, s: System<V>, d: Device<V>, w: map<ItemId, Envelope<V>>)
    requires Lawful(l) && TaskInv(l, s, d) && Rises(l, d.vault, w)
    ensures TaskInv(l, s, d.(vault := w))
  {
    forall k, e: Envelope<V> | Covered(l, d.vault, k, e) ensures Covered(l, w, k, e) {
      assert Covered(l, w, k, d.vault[k]);
    }
  }

  lemma RisingKeepsDevice<V(!new)>(l: Lattice<V>, s: System<V>, d: Device<V>, w: map<ItemId, Envelope<V>>)
    requires Lawful(l) && DeviceInv(l, s, d) && Rises(l, d.vault, w)
    ensures DeviceInv(l, s, d.(vault := w))
  {
    RisingKeepsKnown(l, s.server, d.vault, w, d.memory);
    RisingKeepsKnown(l, s.server, d.vault, w, d.disk);
    RisingKeepsTask(l, s, d, w);
  }

  lemma EditKeepsDevice<V(!new)>(l: Lattice<V>, s: System<V>, step: Step<V>)
    requires Lawful(l) && Inv(l, s) && step.Edit? && Enabled(l, s, step)
    ensures DeviceInv(l, s, DeviceAfter(l, s, step))
  {
    var d := s.devices[step.d];
    RisingKeepsDevice(l, s, d, d.vault[step.item := step.envelope]);
  }

  lemma FetchKeepsDevice<V(!new)>(l: Lattice<V>, s: System<V>, step: Step<V>)
    requires Inv(l, s) && step.Fetch? && Enabled(l, s, step)
    ensures DeviceInv(l, s, DeviceAfter(l, s, step))
  {
    assert DeviceInv(l, s, s.devices[step.d]);
  }

  /** The vault after a page: every row of the page merged into what was there. */
  ghost function PageMerge<V(!new)>(l: Lattice<V>, vault: map<ItemId, Envelope<V>>, page: map<ItemId, Row<V>>, seals: map<ItemId, nat>): map<ItemId, Envelope<V>>
    requires forall k | k in page :: k in seals && Absorbed(l, vault, k, page[k].envelope, seals[k]).Some?
  {
    vault + map k | k in page :: Absorbed(l, vault, k, page[k].envelope, seals[k]).value
  }

  lemma PageMergeRises<V(!new)>(l: Lattice<V>, vault: map<ItemId, Envelope<V>>, page: map<ItemId, Row<V>>, seals: map<ItemId, nat>)
    requires Lawful(l)
    requires forall k | k in page :: k in seals && Absorbed(l, vault, k, page[k].envelope, seals[k]).Some?
    ensures Rises(l, vault, PageMerge(l, vault, page, seals))
    ensures forall k | k in page :: Covered(l, PageMerge(l, vault, page, seals), k, page[k].envelope)
  {
    forall k | k in page
      ensures var e := Absorbed(l, vault, k, page[k].envelope, seals[k]).value;
              l.leq(page[k].envelope.value, e.value) && (k in vault ==> l.leq(vault[k].value, e.value))
    {
      AbsorbedRises(l, vault, k, page[k].envelope, seals[k]);
    }
  }

  lemma MergePageKeepsDevice<V(!new)>(l: Lattice<V>, s: System<V>, step: Step<V>)
    requires Lawful(l) && Inv(l, s) && step.MergePage? && Enabled(l, s, step)
    ensures DeviceInv(l, s, DeviceAfter(l, s, step))
  {
    var d := s.devices[step.d];
    var w := PageMerge(l, d.vault, d.task.page, step.seals);
    assert DeviceAfter(l, s, step) == d.(vault := w, task := PageMerged(d.task.page, d.task.next));
    PageMergeRises(l, d.vault, d.task.page, step.seals);
    RisingKeepsDevice(l, s, d, w);
  }

  lemma RecordPageKeepsDevice<V(!new)>(l: Lattice<V>, s: System<V>, step: Step<V>)
    requires Inv(l, s) && step.RecordPage? && Enabled(l, s, step)
    ensures DeviceInv(l, s, DeviceAfter(l, s, step))
  {
    var d := s.devices[step.d];
    assert DeviceInv(l, s, d);
    var after := DeviceAfter(l, s, step).memory;
    forall k | k in after.known
      ensures Stored(s.server, k, after.known[k].version, after.known[k].fingerprint) && Covered(l, d.vault, k, after.known[k].fingerprint)
    {
      if k in d.task.page { assert Stored(s.server, k, d.task.page[k].version, d.task.page[k].envelope); }
    }
    forall k | k in s.server.rows && s.server.rows[k].seqNo <= after.cursor
      ensures k in after.known && after.known[k] == KnownRow(s.server.rows[k].version, s.server.rows[k].envelope)
    {
      if k !in d.task.page { assert s.server.rows[k].seqNo <= d.memory.cursor; }
    }
  }

  lemma ReceiveKeepsDevice<V(!new)>(l: Lattice<V>, s: System<V>, step: Step<V>)
    requires Inv(l, s) && step.Receive? && Enabled(l, s, step)
    ensures DeviceInv(l, s, DeviceAfter(l, s, step))
  {
    var d := s.devices[step.d];
    assert DeviceInv(l, s, d);
    assert (d.task.request, step.answer) in s.answers;
    assert AnswerStored(s.server, s.requests[d.task.request], step.answer);
    assert AnswerInv(s.server, s.requests[d.task.request], step.answer, d.memory.cursor);
  }

  lemma MergeConflictKeepsDevice<V(!new)>(l: Lattice<V>, s: System<V>, step: Step<V>)
    requires Lawful(l) && Inv(l, s) && step.MergeConflict? && Enabled(l, s, step)
    ensures DeviceInv(l, s, DeviceAfter(l, s, step))
  {
    var d := s.devices[step.d];
    var (k, e) := (d.task.item, d.task.envelope);
    AbsorbedRises(l, d.vault, k, e, step.seal);
    RisingKeepsDevice(l, s, d, d.vault[k := Absorbed(l, d.vault, k, e, step.seal).value]);
  }

  lemma RecordConflictKeepsDevice<V(!new)>(l: Lattice<V>, s: System<V>, step: Step<V>)
    requires Inv(l, s) && step.RecordConflict? && Enabled(l, s, step)
    ensures DeviceInv(l, s, DeviceAfter(l, s, step))
  {
    var d := s.devices[step.d];
    assert DeviceInv(l, s, d);
    assert ConflictInv(s.server, d.memory.cursor, d.task.item, d.task.version, d.task.envelope);
  }

  lemma LocalStepKeepsDevice<V(!new)>(l: Lattice<V>, s: System<V>, step: Step<V>)
    requires Inv(l, s) && Enabled(l, s, step) && (step.Enroll? || step.Save? || step.GiveUp? || step.Crash?)
    ensures DeviceInv(l, s, DeviceAfter(l, s, step))
  {
    if !step.Enroll? { assert DeviceInv(l, s, s.devices[step.d]); }
  }

  /** A request carries at least the value its precondition names: the whole of lost-update prevention. */
  lemma SendKeepsInv<V(!new)>(l: Lattice<V>, s: System<V>, step: Step<V>)
    requires Lawful(l) && Inv(l, s) && step.Send? && Enabled(l, s, step)
    ensures Inv(l, After(l, s, step))
  {
    var t := After(l, s, step);
    var d := s.devices[step.d];
    assert DeviceInv(l, s, d);
    assert RequestInv(l, s.server, t.requests[|s.requests|]) by {
      if step.item in d.memory.known {
        assert Covered(l, d.vault, step.item, d.memory.known[step.item].fingerprint);
      }
    }
    forall e | e in t.devices ensures DeviceInv(l, t, t.devices[e]) {
      assert DeviceInv(l, s, s.devices[e]);
    }
  }

  lemma DeviceStepKeepsInv<V(!new)>(l: Lattice<V>, s: System<V>, step: Step<V>)
    requires Lawful(l) && Inv(l, s) && Enabled(l, s, step) && !step.Serve? && !step.Send?
    ensures Inv(l, After(l, s, step))
  {
    hide *;
    match step {
      case Edit(_, _, _) => EditKeepsDevice(l, s, step);
      case Fetch(_, _) => FetchKeepsDevice(l, s, step);
      case MergePage(_, _) => MergePageKeepsDevice(l, s, step);
      case RecordPage(_) => RecordPageKeepsDevice(l, s, step);
      case Receive(_, _) => ReceiveKeepsDevice(l, s, step);
      case MergeConflict(_, _) => MergeConflictKeepsDevice(l, s, step);
      case RecordConflict(_) => RecordConflictKeepsDevice(l, s, step);
      case _ => LocalStepKeepsDevice(l, s, step);
    }
    AfterIsLocal(l, s, step);
    OnlyOneMoves(l, s, After(l, s, step), step.d);
  }

  lemma AfterIsLocal<V(!new)>(l: Lattice<V>, s: System<V>, step: Step<V>)
    requires Enabled(l, s, step) && !step.Serve? && !step.Send?
    ensures After(l, s, step) == s.(devices := s.devices[step.d := DeviceAfter(l, s, step)])
  {
  }

  lemma StepKeepsInv<V(!new)>(l: Lattice<V>, s: System<V>, step: Step<V>)
    requires Lawful(l) && Inv(l, s) && Enabled(l, s, step)
    ensures Inv(l, After(l, s, step))
    ensures Grows(s.server, After(l, s, step).server)
  {
    hide Inv, ServerInv, DeviceInv, DeviceAfter, Put;
    match step
    case Serve(r) =>
      InvParts(l, s);
      ServeKeepsInv(l, s, r);
      PutGrows(l, s.server, s.requests[r]);
    case Send(_, _) => SendKeepsInv(l, s, step);
    case _ => DeviceStepKeepsInv(l, s, step);
  }

  lemma InvParts<V(!new)>(l: Lattice<V>, s: System<V>)
    requires Inv(l, s)
    ensures ServerInv(l, s.server)
    ensures forall d | d in s.devices :: DeviceInv(l, s, s.devices[d])
  {
  }

  // ----- whole runs ------------------------------------------------------------------------------

  lemma {:induction false} RunKeepsInv<V(!new)>(l: Lattice<V>, s: System<V>, steps: seq<Step<V>>)
    requires Lawful(l) && Inv(l, s) && RunFrom(l, s, steps).Some?
    ensures Inv(l, RunFrom(l, s, steps).value)
    ensures Grows(s.server, RunFrom(l, s, steps).value.server)
    decreases |steps|
  {
    hide Inv, Enabled, After;
    if steps != [] {
      StepKeepsInv(l, s, steps[0]);
      RunKeepsInv(l, After(l, s, steps[0]), steps[1..]);
    }
  }

  lemma InitialInv<V(!new)>(l: Lattice<V>)
    ensures Inv(l, Initial<V>())
  {
  }

  ghost predicate IsRun<V(!new)>(l: Lattice<V>, s: System<V>, steps: seq<Step<V>>, t: System<V>) {
    RunFrom(l, s, steps) == Some(t)
  }

  ghost predicate Leads<V(!new)>(l: Lattice<V>, s: System<V>, t: System<V>) {
    exists steps :: IsRun(l, s, steps, t)
  }

  ghost predicate Reachable<V(!new)>(l: Lattice<V>, s: System<V>) {
    Leads(l, Initial<V>(), s)
  }

  lemma ReachableInv<V(!new)>(l: Lattice<V>, s: System<V>)
    requires Lawful(l) && Reachable(l, s)
    ensures Inv(l, s)
  {
    hide RunFrom, Inv;
    var steps :| IsRun(l, Initial<V>(), steps, s);
    InitialInv(l);
    RunKeepsInv(l, Initial<V>(), steps);
  }

  lemma LeadsKeepsInv<V(!new)>(l: Lattice<V>, s: System<V>, t: System<V>)
    requires Lawful(l) && Inv(l, s) && Leads(l, s, t)
    ensures Inv(l, t) && Grows(s.server, t.server)
  {
    hide RunFrom, Inv;
    var steps :| IsRun(l, s, steps, t);
    RunKeepsInv(l, s, steps);
  }

  lemma {:induction false} RunsCompose<V(!new)>(l: Lattice<V>, s: System<V>, first: seq<Step<V>>, t: System<V>, second: seq<Step<V>>)
    requires IsRun(l, s, first, t)
    ensures RunFrom(l, s, first + second) == RunFrom(l, t, second)
    decreases |first|
  {
    hide Enabled, After;
    if first == [] {
      assert first + second == second;
    } else {
      RunsCompose(l, After(l, s, first[0]), first[1..], t, second);
      assert (first + second)[1..] == first[1..] + second;
    }
  }

  lemma LeadsTransitive<V(!new)>(l: Lattice<V>, s: System<V>, t: System<V>, u: System<V>)
    requires Leads(l, s, t) && Leads(l, t, u)
    ensures Leads(l, s, u)
  {
    hide RunFrom;
    var first :| IsRun(l, s, first, t);
    var second :| IsRun(l, t, second, u);
    RunsCompose(l, s, first, t, second);
    assert IsRun(l, s, first + second, u);
  }

  /** Whatever every device does in whatever order, and however often devices crash, the server's
      value for an item never drops, and its version never decreases. */
  lemma NoLostUpdate<V(!new)>(l: Lattice<V>, s: System<V>, t: System<V>, k: ItemId)
    requires Lawful(l) && Reachable(l, s) && Leads(l, s, t) && k in s.server.rows
    ensures k in t.server.rows && s.server.rows[k].version <= t.server.rows[k].version
    ensures l.leq(s.server.rows[k].envelope.value, t.server.rows[k].envelope.value)
  {
    hide Leads, Reachable;
    ReachableInv(l, s);
    LeadsKeepsInv(l, s, t);
    assert (k, s.server.rows[k].version) in t.server.stored;
  }

  /** A write the server once acknowledged is contained in its value for good. */
  lemma AcknowledgedWritesStay<V(!new)>(l: Lattice<V>, s: System<V>, request: nat, version: nat, seqNo: nat)
    requires Lawful(l) && Reachable(l, s) && (request, Applied(version, seqNo)) in s.answers
    ensures request < |s.requests|
    ensures var r := s.requests[request];
            && r.item in s.server.rows && version <= s.server.rows[r.item].version
            && l.leq(r.envelope.value, s.server.rows[r.item].envelope.value)
  {
    hide Reachable;
    ReachableInv(l, s);
    assert AnswerStored(s.server, s.requests[request], Applied(version, seqNo));
    assert (s.requests[request].item, version) in s.server.stored;
  }

  /** What a device holds is either still queued, or contained in the server's value. */
  lemma NothingIsForgotten<V(!new)>(l: Lattice<V>, s: System<V>, d: DeviceName, k: ItemId)
    requires Lawful(l) && Reachable(l, s) && d in s.devices && k in s.devices[d].vault
    ensures Pending(s.devices[d], k)
            || (k in s.server.rows && l.leq(s.devices[d].vault[k].value, s.server.rows[k].envelope.value))
  {
    hide Reachable;
    ReachableInv(l, s);
    var known := s.devices[d].memory.known;
    assert DeviceInv(l, s, s.devices[d]);
    if !Pending(s.devices[d], k) {
      assert Stored(s.server, k, known[k].version, known[k].fingerprint);
    }
  }

  /** Nothing queued, and the cursor at the head of the feed. */
  ghost predicate Quiescent<V(!new)>(s: System<V>, d: DeviceName) {
    && d in s.devices && s.devices[d].memory.cursor == s.server.head
    && forall k | k in s.devices[d].vault :: !Pending(s.devices[d], k)
  }

  ghost function Envelopes<V(!new)>(s: Server<V>): map<ItemId, Envelope<V>> { map k | k in s.rows :: s.rows[k].envelope }

  lemma QuiescentHoldsRows<V(!new)>(l: Lattice<V>, s: System<V>, d: DeviceName)
    requires Inv(l, s) && Quiescent(s, d)
    ensures s.devices[d].vault == Envelopes(s.server)
  {
    assert DeviceInv(l, s, s.devices[d]);
    var (vault, known) := (s.devices[d].vault, s.devices[d].memory.known);
    forall k | k in vault ensures k in s.server.rows {
      assert !Pending(s.devices[d], k);
      assert Stored(s.server, k, known[k].version, known[k].fingerprint);
    }
    forall k | k in s.server.rows ensures k in vault && vault[k] == s.server.rows[k].envelope {
      assert Covered(l, vault, k, known[k].fingerprint);
      assert !Pending(s.devices[d], k);
    }
  }

  /** A quiescent device holds exactly the server's envelopes, so any two agree byte for byte. */
  lemma QuiescentAgreement<V(!new)>(l: Lattice<V>, s: System<V>, d: DeviceName)
    requires Lawful(l) && Reachable(l, s) && Quiescent(s, d)
    ensures s.devices[d].vault == Envelopes(s.server)
  {
    hide Reachable, Inv;
    ReachableInv(l, s);
    QuiescentHoldsRows(l, s, d);
  }

  // ----- what a device once held -------------------------------------------------------------------

  lemma RisesTransitive<V(!new)>(l: Lattice<V>, u: map<ItemId, Envelope<V>>, v: map<ItemId, Envelope<V>>, w: map<ItemId, Envelope<V>>)
    requires Lawful(l) && Rises(l, u, v) && Rises(l, v, w)
    ensures Rises(l, u, w)
  {
    forall k | k in u ensures Covered(l, w, k, u[k]) {
      assert Covered(l, v, k, u[k]) && Covered(l, w, k, v[k]);
    }
  }

  lemma StepRaisesVaults<V(!new)>(l: Lattice<V>, s: System<V>, step: Step<V>, d: DeviceName)
    requires Lawful(l) && Enabled(l, s, step) && d in s.devices
    ensures d in After(l, s, step).devices && Rises(l, s.devices[d].vault, After(l, s, step).devices[d].vault)
  {
    var before := s.devices[d];
    if step.MergePage? && step.d == d {
      PageMergeRises(l, before.vault, before.task.page, step.seals);
      assert After(l, s, step).devices[d].vault == PageMerge(l, before.vault, before.task.page, step.seals);
    } else if step.MergeConflict? && step.d == d {
      AbsorbedRises(l, before.vault, before.task.item, before.task.envelope, step.seal);
    }
  }

  /** A device's vault never drops a value either, crashes included. */
  lemma {:induction false} VaultsNeverDrop<V(!new)>(l: Lattice<V>, s: System<V>, steps: seq<Step<V>>, d: DeviceName)
    requires Lawful(l) && RunFrom(l, s, steps).Some? && d in s.devices
    ensures var t := RunFrom(l, s, steps).value; d in t.devices && Rises(l, s.devices[d].vault, t.devices[d].vault)
    decreases |steps|
  {
    hide Enabled, After, Rises, Covered;
    if steps == [] {
      RisesReflexive(l, s.devices[d].vault);
    } else {
      var u := After(l, s, steps[0]);
      StepRaisesVaults(l, s, steps[0], d);
      VaultsNeverDrop(l, u, steps[1..], d);
      RisesTransitive(l, s.devices[d].vault, u.devices[d].vault, RunFrom(l, s, steps).value.devices[d].vault);
    }
  }

  lemma RisesReflexive<V(!new)>(l: Lattice<V>, v: map<ItemId, Envelope<V>>)
    requires Lawful(l)
    ensures Rises(l, v, v)
  {
  }

  /** Whatever a device held at any moment is contained in every quiescent device's value once it
      has gone quiescent itself, whatever happened in between. */
  lemma EveryEditArrives<V(!new)>(l: Lattice<V>, s: System<V>, t: System<V>, author: DeviceName, reader: DeviceName, k: ItemId)
    requires Lawful(l) && Reachable(l, s) && Leads(l, s, t)
    requires author in s.devices && k in s.devices[author].vault
    requires Quiescent(t, author) && Quiescent(t, reader)
    ensures Covered(l, t.devices[reader].vault, k, s.devices[author].vault[k])
  {
    hide RunFrom, Inv;
    var steps :| IsRun(l, s, steps, t);
    VaultsNeverDrop(l, s, steps, author);
    LeadsTransitive(l, Initial<V>(), s, t);
    QuiescentAgreement(l, t, author);
    QuiescentAgreement(l, t, reader);
    assert Covered(l, t.devices[author].vault, k, s.devices[author].vault[k]);
  }
}

/** One vault item and the join of two versions of it: seventeen last-writer-wins registers, two
    max-wins scalars, a min-wins scalar, a per-device counter, three observed-remove sets and a
    tombstone.  `Leq` is the order the join is measured against: it is defined field by field,
    without mentioning the join. */
module VaultItem {
  import opened Foundations
  import opened HybridClock

  /** Sixteen bytes compared bytewise, as their big-endian value. */
  type ItemId = nat

  type Secret = Bytes

  datatype Register =
    | Kind | Algorithm | Digits | Period | Pin | Issuer | Account | Nickname | Note | Icon | Color
    | Favorite | ManualOrder | Archived | Hidden | RequiresRevealAuth | TrashedAt

  /** A value, in its stored encoding, with the clock of the write that produced it. */
  datatype Lww = Lww(value: Bytes, hlc: Reading)

  datatype SetEntry = SetEntry(added: Reading, removed: Option<Reading>)

  type OrSet = map<Bytes, SetEntry>

  datatype TombstoneReason = User | TrashExpired

  datatype Tombstone = Tombstone(hlc: Reading, reason: TombstoneReason)

  datatype Item = Item(
    id: ItemId,
    secret: Secret,
    registers: map<Register, Lww>,
    hotpCounter: nat,
    lastUsedAt: Option<int>,
    createdAt: int,
    usage: map<DeviceId, nat>,
    groups: OrSet,
    tags: OrSet,
    origins: OrSet,
    deleted: Option<Tombstone>)

  datatype MergeError = IdMismatch | SecretIsImmutable | ClockCollision

  // ----- the merge, as the code performs it ------------------------------------------------------

  /** Two versions of a register carry one clock and two values. */
  predicate Collide(a: map<Register, Lww>, b: map<Register, Lww>) {
    exists f | f in a && f in b :: a[f].hlc == b[f].hlc && a[f].value != b[f].value
  }

  function MergeRegisters(a: map<Register, Lww>, b: map<Register, Lww>): map<Register, Lww> {
    map f | f in a.Keys + b.Keys ::
      if f !in a then b[f] else if f in b && a[f].hlc.Less(b[f].hlc) then b[f] else a[f]
  }

  function MergeUsage(a: map<DeviceId, nat>, b: map<DeviceId, nat>): map<DeviceId, nat> {
    map d | d in a.Keys + b.Keys ::
      if d !in a then b[d] else if d in b && a[d] < b[d] then b[d] else a[d]
  }

  function LaterRemove(a: Option<Reading>, b: Option<Reading>): Option<Reading> {
    if b.Some? && (a.None? || a.value.Less(b.value)) then b else a
  }

  function MergeEntry(a: SetEntry, b: SetEntry): SetEntry {
    SetEntry(if a.added.Less(b.added) then b.added else a.added, LaterRemove(a.removed, b.removed))
  }

  function MergeSet(a: OrSet, b: OrSet): OrSet {
    map e | e in a.Keys + b.Keys ::
      if e !in a then b[e] else if e in b then MergeEntry(a[e], b[e]) else a[e]
  }

  function MergeStone(a: Option<Tombstone>, b: Option<Tombstone>): Option<Tombstone> {
    if b.Some? && (a.None? || a.value.hlc.Less(b.value.hlc)) then b else a
  }

  function MaxUsed(a: Option<int>, b: Option<int>): Option<int> {
    if b.Some? && (a.None? || a.value < b.value) then b else a
  }

  /** `Item::merge`: refuses two ids, two secrets, and two values under one clock. */
  function MergeItem(local: Item, remote: Item): (r: Result<Item, MergeError>)
    ensures r.Ok? ==> r.value.id == local.id == remote.id && r.value.secret == local.secret == remote.secret
    ensures r.Err? && local.id == remote.id && local.secret == remote.secret ==> r.error == ClockCollision
  {
    if local.id != remote.id then Err(IdMismatch)
    else if local.secret != remote.secret then Err(SecretIsImmutable)
    else if Collide(local.registers, remote.registers) then Err(ClockCollision)
    else Ok(Joined(local, remote))
  }

  function Joined(local: Item, remote: Item): Item {
    Item(local.id, local.secret,
         MergeRegisters(local.registers, remote.registers),
         if local.hotpCounter < remote.hotpCounter then remote.hotpCounter else local.hotpCounter,
         MaxUsed(local.lastUsedAt, remote.lastUsedAt),
         if remote.createdAt < local.createdAt then remote.createdAt else local.createdAt,
         MergeUsage(local.usage, remote.usage),
         MergeSet(local.groups, remote.groups),
         MergeSet(local.tags, remote.tags),
         MergeSet(local.origins, remote.origins),
         MergeStone(local.deleted, remote.deleted))
  }

  /** Two versions merge exactly when they have one id, one secret and no register with two values under
      one clock; and a refusal names the first of these that fails. */
  lemma MergesExactlyWhen(a: Item, b: Item)
    ensures MergeItem(a, b).Ok?
            <==> && a.id == b.id && a.secret == b.secret
                 && forall f | f in a.registers && f in b.registers :: a.registers[f].hlc == b.registers[f].hlc ==> a.registers[f] == b.registers[f]
    ensures MergeItem(a, b) == Err(IdMismatch) <==> a.id != b.id
    ensures MergeItem(a, b) == Err(SecretIsImmutable) <==> a.id == b.id && a.secret != b.secret
  {
    if Collide(a.registers, b.registers) {
      var f :| f in a.registers && f in b.registers && a.registers[f].hlc == b.registers[f].hlc && a.registers[f].value != b.registers[f].value;
    } else {
      forall f | f in a.registers && f in b.registers && a.registers[f].hlc == b.registers[f].hlc ensures a.registers[f] == b.registers[f] {
        assert a.registers[f].value == b.registers[f].value;
      }
    }
  }

  // ----- the information order -------------------------------------------------------------------

  /** Nothing written in `a` is missing from `b`: the same write, or one with a later clock. */
  predicate LwwLeq(a: Lww, b: Lww) { a == b || a.hlc.Less(b.hlc) }

  predicate RegistersLeq(a: map<Register, Lww>, b: map<Register, Lww>) {
    forall f | f in a :: f in b && LwwLeq(a[f], b[f])
  }

  predicate UsageLeq(a: map<DeviceId, nat>, b: map<DeviceId, nat>) {
    forall d | d in a :: d in b && a[d] <= b[d]
  }

  predicate RemoveLeq(a: Option<Reading>, b: Option<Reading>) {
    a.Some? ==> b.Some? && a.value.Leq(b.value)
  }

  predicate SetLeq(a: OrSet, b: OrSet) {
    forall e | e in a :: e in b && a[e].added.Leq(b[e].added) && RemoveLeq(a[e].removed, b[e].removed)
  }

  predicate StoneLeq(a: Option<Tombstone>, b: Option<Tombstone>) {
    a.Some? ==> b.Some? && (a == b || a.value.hlc.Less(b.value.hlc))
  }

  predicate UsedLeq(a: Option<int>, b: Option<int>) { a.Some? ==> b.Some? && a.value <= b.value }

  predicate Leq(a: Item, b: Item) {
    && a.id == b.id && a.secret == b.secret
    && RegistersLeq(a.registers, b.registers)
    && a.hotpCounter <= b.hotpCounter
    && UsedLeq(a.lastUsedAt, b.lastUsedAt)
    && b.createdAt <= a.createdAt
    && UsageLeq(a.usage, b.usage)
    && SetLeq(a.groups, b.groups) && SetLeq(a.tags, b.tags) && SetLeq(a.origins, b.origins)
    && StoneLeq(a.deleted, b.deleted)
  }

  lemma LeqReflexive(a: Item)
    ensures Leq(a, a)
  {
  }

  lemma LeqTransitive(a: Item, b: Item, c: Item)
    requires Leq(a, b) && Leq(b, c)
    ensures Leq(a, c)
  {
    SetLeqTransitive(a.groups, b.groups, c.groups);
    SetLeqTransitive(a.tags, b.tags, c.tags);
    SetLeqTransitive(a.origins, b.origins, c.origins);
  }

  lemma SetLeqTransitive(a: OrSet, b: OrSet, c: OrSet)
    requires SetLeq(a, b) && SetLeq(b, c)
    ensures SetLeq(a, c)
  {
  }

  lemma SetLeqAntisymmetric(a: OrSet, b: OrSet)
    requires SetLeq(a, b) && SetLeq(b, a)
    ensures a == b
  {
    assert a.Keys == b.Keys;
    forall e | e in a
      ensures a[e] == b[e]
    {
      assert a[e].removed == b[e].removed;
    }
  }

  lemma LeqAntisymmetric(a: Item, b: Item)
    requires Leq(a, b) && Leq(b, a)
    ensures a == b
  {
    assert a.registers == b.registers by {
      assert a.registers.Keys == b.registers.Keys;
    }
    assert a.usage == b.usage by {
      assert a.usage.Keys == b.usage.Keys;
    }
    SetLeqAntisymmetric(a.groups, b.groups);
    SetLeqAntisymmetric(a.tags, b.tags);
    SetLeqAntisymmetric(a.origins, b.origins);
  }

  // ----- the merge is the join -------------------------------------------------------------------

  /** Two tombstones written at one clock are the same tombstone. */
  predicate StonesAgree(a: Item, b: Item) {
    a.deleted.Some? && b.deleted.Some? && a.deleted.value.hlc == b.deleted.value.hlc ==> a.deleted == b.deleted
  }

  /** A merge that succeeds yields the least item holding everything both sides hold. */
  lemma MergeIsLeastUpperBound(a: Item, b: Item, c: Item)
    requires MergeItem(a, b).Ok? && StonesAgree(a, b)
    ensures Leq(MergeItem(a, b).value, c) <==> Leq(a, c) && Leq(b, c)
  {
    SetJoin(a.groups, b.groups, c.groups);
    SetJoin(a.tags, b.tags, c.tags);
    SetJoin(a.origins, b.origins, c.origins);
    RegistersJoin(a.registers, b.registers, c.registers);
    UsageJoin(a.usage, b.usage, c.usage);
  }

  /** Even where two tombstones clash, a merge never adds anything neither side had. */
  lemma MergeIsBelow(a: Item, b: Item, c: Item)
    requires MergeItem(a, b).Ok? && Leq(a, c) && Leq(b, c)
    ensures Leq(MergeItem(a, b).value, c)
  {
    SetJoin(a.groups, b.groups, c.groups);
    SetJoin(a.tags, b.tags, c.tags);
    SetJoin(a.origins, b.origins, c.origins);
    RegistersJoin(a.registers, b.registers, c.registers);
    UsageJoin(a.usage, b.usage, c.usage);
  }

  lemma SetJoin(a: OrSet, b: OrSet, c: OrSet)
    ensures SetLeq(MergeSet(a, b), c) <==> SetLeq(a, c) && SetLeq(b, c)
  {
    var m := MergeSet(a, b);
    assert m.Keys == a.Keys + b.Keys;
    if SetLeq(m, c) {
      forall e | e in a
        ensures e in c && a[e].added.Leq(c[e].added) && RemoveLeq(a[e].removed, c[e].removed)
      {
        assert e in m;
      }
      forall e | e in b
        ensures e in c && b[e].added.Leq(c[e].added) && RemoveLeq(b[e].removed, c[e].removed)
      {
        assert e in m;
      }
    }
  }

  lemma RegistersJoin(a: map<Register, Lww>, b: map<Register, Lww>, c: map<Register, Lww>)
    requires !Collide(a, b)
    ensures RegistersLeq(MergeRegisters(a, b), c) <==> RegistersLeq(a, c) && RegistersLeq(b, c)
  {
    var m := MergeRegisters(a, b);
    assert m.Keys == a.Keys + b.Keys;
    if RegistersLeq(m, c) {
      forall f | f in a
        ensures f in c && LwwLeq(a[f], c[f])
      {
        assert f in m;
      }
      forall f | f in b
        ensures f in c && LwwLeq(b[f], c[f])
      {
        assert f in m;
        assert f in a ==> a[f].hlc.Less(b[f].hlc) || b[f].hlc.Less(a[f].hlc) || a[f] == b[f];
      }
    }
  }

  lemma UsageJoin(a: map<DeviceId, nat>, b: map<DeviceId, nat>, c: map<DeviceId, nat>)
    ensures UsageLeq(MergeUsage(a, b), c) <==> UsageLeq(a, c) && UsageLeq(b, c)
  {
    var m := MergeUsage(a, b);
    assert m.Keys == a.Keys + b.Keys;
    if UsageLeq(m, c) {
      forall d | d in a
        ensures d in c && a[d] <= c[d]
      {
        assert d in m;
      }
      forall d | d in b
        ensures d in c && b[d] <= c[d]
      {
        assert d in m;
      }
    }
  }

  lemma MergeIsUpperBound(a: Item, b: Item)
    requires MergeItem(a, b).Ok? && StonesAgree(a, b)
    ensures Leq(a, MergeItem(a, b).value) && Leq(b, MergeItem(a, b).value)
  {
    LeqReflexive(MergeItem(a, b).value);
    MergeIsLeastUpperBound(a, b, MergeItem(a, b).value);
  }

  /** The code commutes except in one case: a tie between two tombstones is settled by keeping the
      local one, unlike a tie between two registers, which is refused. */
  lemma MergeCommutesExactlyWhen(a: Item, b: Item)
    ensures MergeItem(a, b) == MergeItem(b, a) <==> MergeItem(a, b).Err? || StonesAgree(a, b)
  {
    if MergeItem(a, b).Ok? && StonesAgree(a, b) {
      var (ab, ba) := (MergeItem(a, b).value, MergeItem(b, a).value);
      MergeIsUpperBound(a, b);
      MergeIsUpperBound(b, a);
      MergeIsLeastUpperBound(a, b, ba);
      MergeIsLeastUpperBound(b, a, ab);
      LeqAntisymmetric(ab, ba);
    }
  }

  const ALL_REGISTERS: set<Register> :=
    {Kind, Algorithm, Digits, Period, Pin, Issuer, Account, Nickname, Note, Icon, Color,
     Favorite, ManualOrder, Archived, Hidden, RequiresRevealAuth, TrashedAt}

  /** Every decoded item has a value and a clock in each of its seventeen registers. */
  predicate Complete(a: Item) { forall f: Register :: f in a.registers }

  /** A concrete pair of complete items on which it does not: one device, one clock, two reasons. */
  lemma TombstoneTieDoesNotCommute()
    ensures exists a: Item, b: Item ::
      && Complete(a) && Complete(b)
      && MergeItem(a, b).Ok? && MergeItem(b, a).Ok? && MergeItem(a, b) != MergeItem(b, a)
  {
    var h := Zero(7);
    var registers := map f | f in ALL_REGISTERS :: Lww([], h);
    var a := Item(1, [9], registers, 0, None, 0, map[], map[], map[], map[], Some(Tombstone(h, User)));
    var b := a.(deleted := Some(Tombstone(h, TrashExpired)));
    forall f: Register ensures f in registers {
      match f {
        case Kind => case Algorithm => case Digits => case Period => case Pin => case Issuer => case Account =>
        case Nickname => case Note => case Icon => case Color => case Favorite => case ManualOrder =>
        case Archived => case Hidden => case RequiresRevealAuth => case TrashedAt =>
      }
    }
    assert MergeItem(a, b).Ok? && MergeItem(b, a).Ok?;
    assert !StonesAgree(a, b);
    MergeCommutesExactlyWhen(a, b);
  }

  lemma JoinedTwiceIsAssociative(a: Item, b: Item, c: Item)
    requires StonesAgree(a, b) && StonesAgree(b, c) && StonesAgree(a, c)
    requires MergeItem(a, b).Ok? && MergeItem(b, c).Ok?
    requires MergeItem(MergeItem(a, b).value, c).Ok? && MergeItem(a, MergeItem(b, c).value).Ok?
    ensures MergeItem(MergeItem(a, b).value, c) == MergeItem(a, MergeItem(b, c).value)
  {
    var (ab, bc) := (MergeItem(a, b).value, MergeItem(b, c).value);
    var (l, r) := (MergeItem(ab, c).value, MergeItem(a, bc).value);
    assert StonesAgree(ab, c) && StonesAgree(a, bc);
    MergeIsUpperBound(ab, c);
    MergeIsUpperBound(a, bc);
    MergeIsLeastUpperBound(a, b, l);
    MergeIsLeastUpperBound(b, c, l);
    MergeIsLeastUpperBound(a, bc, l);
    MergeIsLeastUpperBound(b, c, r);
    MergeIsLeastUpperBound(a, b, r);
    MergeIsLeastUpperBound(ab, c, r);
    LeqAntisymmetric(l, r);
  }

  function MergeThen(first: Result<Item, MergeError>, second: Item): Result<Item, MergeError> {
    match first
    case Err(e) => Err(e)
    case Ok(v) => MergeItem(v, second)
  }

  function MergeOnto(first: Item, second: Result<Item, MergeError>): Result<Item, MergeError> {
    match second
    case Err(e) => Err(e)
    case Ok(v) => MergeItem(first, v)
  }

  /** Associativity, tied tombstones included: both groupings of any three items give one result wherever
      both are accepted, and both are where no two of the three collide. */
  lemma MergeIsAssociative(a: Item, b: Item, c: Item)
    ensures MergeThen(MergeItem(a, b), c).Ok? && MergeOnto(a, MergeItem(b, c)).Ok? ==>
              MergeThen(MergeItem(a, b), c) == MergeOnto(a, MergeItem(b, c))
    ensures MergeItem(a, b).Ok? && MergeItem(b, c).Ok? && MergeItem(a, c).Ok? ==>
              MergeThen(MergeItem(a, b), c).Ok? && MergeOnto(a, MergeItem(b, c)).Ok?
  {
    if MergeThen(MergeItem(a, b), c).Ok? && MergeOnto(a, MergeItem(b, c)).Ok? {
      var (x, y, z) := (Undeleted(a), Undeleted(b), Undeleted(c));
      var (ab, bc) := (MergeItem(a, b).value, MergeItem(b, c).value);
      MergeUndeleted(a, b);
      MergeUndeleted(b, c);
      MergeUndeleted(ab, c);
      MergeUndeleted(a, bc);
      JoinedTwiceIsAssociative(x, y, z);
      assert MergeStone(MergeStone(a.deleted, b.deleted), c.deleted) == MergeStone(a.deleted, MergeStone(b.deleted, c.deleted));
      SameUpToStone(MergeItem(ab, c).value, MergeItem(a, bc).value);
    }
  }

  function Undeleted(a: Item): Item { a.(deleted := None) }

  /** Tombstones and the rest are merged apart. */
  lemma MergeUndeleted(a: Item, b: Item)
    ensures MergeItem(a, b).Ok? <==> MergeItem(Undeleted(a), Undeleted(b)).Ok?
    ensures MergeItem(a, b).Ok? ==>
              && MergeItem(Undeleted(a), Undeleted(b)).value == Undeleted(MergeItem(a, b).value)
              && MergeItem(a, b).value.deleted == MergeStone(a.deleted, b.deleted)
  {
  }

  lemma SameUpToStone(a: Item, b: Item)
    requires Undeleted(a) == Undeleted(b) && a.deleted == b.deleted
    ensures a == b
  {
  }

  // ----- what a merge would add ------------------------------------------------------------------------

  /** Merging `a` into `b` would change nothing: below it, save that of two tombstones written at one
      clock the one already there stays. */
  predicate Held(a: Item, b: Item) {
    && Leq(a.(deleted := None), b.(deleted := None))
    && (a.deleted.Some? ==> b.deleted.Some? && a.deleted.value.hlc.Leq(b.deleted.value.hlc))
  }

  lemma BelowMerges(a: Item, b: Item)
    requires Leq(a, b)
    ensures MergeItem(b, a) == Ok(b)
  {
    assert MergeItem(b, a).Ok? && StonesAgree(b, a);
    LeqReflexive(b);
    MergeIsUpperBound(b, a);
    MergeIsBelow(b, a, b);
    LeqAntisymmetric(b, MergeItem(b, a).value);
  }

  lemma HeldExactly(a: Item, b: Item)
    ensures MergeItem(b, a) == Ok(b) <==> Held(a, b)
  {
    var (x, y) := (a.(deleted := None), b.(deleted := None));
    assert MergeItem(b, a).Ok? == MergeItem(y, x).Ok?;
    if MergeItem(b, a).Ok? {
      assert Joined(b, a).(deleted := None) == Joined(y, x);
    }
    if Held(a, b) {
      BelowMerges(x, y);
      assert Joined(b, a) == b;
    }
    if MergeItem(b, a) == Ok(b) {
      MergeIsUpperBound(y, x);
    }
  }

  lemma MergedIsHeld(a: Item, b: Item)
    requires MergeItem(b, a).Ok?
    ensures Held(a, MergeItem(b, a).value) && Held(b, MergeItem(b, a).value)
  {
    var (x, y) := (a.(deleted := None), b.(deleted := None));
    MergeIsUpperBound(y, x);
    assert Joined(b, a).(deleted := None) == Joined(y, x);
  }

  lemma HeldTransitive(a: Item, b: Item, c: Item)
    requires Held(a, b) && Held(b, c)
    ensures Held(a, c)
  {
    LeqTransitive(a.(deleted := None), b.(deleted := None), c.(deleted := None));
  }

  lemma HeldReflexive(a: Item)
    ensures Held(a, a)
  {
    LeqReflexive(a.(deleted := None));
  }

  // ----- one clock names one write ---------------------------------------------------------------

  /** What `HlcClock` guarantees about writes it stamped: a clock is never reused for another value. */
  predicate SameClockSameWrite(a: Item, b: Item) {
    !Collide(a.registers, b.registers) && StonesAgree(a, b)
  }

  ghost predicate Disciplined(s: set<Item>) {
    forall a, b | a in s && b in s :: SameClockSameWrite(a, b)
  }

  /** Every clocked write in `v` is a write of some item of `s`. */
  ghost predicate WritesFrom(s: set<Item>, v: Item) {
    && (forall f | f in v.registers :: exists a | a in s :: f in a.registers && a.registers[f] == v.registers[f])
    && (v.deleted.Some? ==> exists a | a in s :: a.deleted == v.deleted)
  }

  lemma DisciplineReaches(s: set<Item>, v: Item, w: Item)
    requires Disciplined(s) && WritesFrom(s, v) && WritesFrom(s, w)
    ensures SameClockSameWrite(v, w)
  {
    forall f | f in v.registers && f in w.registers
      ensures !(v.registers[f].hlc == w.registers[f].hlc && v.registers[f].value != w.registers[f].value)
    {
      var a :| a in s && f in a.registers && a.registers[f] == v.registers[f];
      var b :| b in s && f in b.registers && b.registers[f] == w.registers[f];
      assert SameClockSameWrite(a, b);
    }
    if v.deleted.Some? && w.deleted.Some? {
      var a :| a in s && a.deleted == v.deleted;
      var b :| b in s && b.deleted == w.deleted;
      assert SameClockSameWrite(a, b);
    }
  }

  lemma MergeKeepsWrites(s: set<Item>, v: Item, w: Item)
    requires WritesFrom(s, v) && WritesFrom(s, w) && MergeItem(v, w).Ok?
    ensures WritesFrom(s, MergeItem(v, w).value)
  {
    var m := MergeItem(v, w).value;
    forall f | f in m.registers
      ensures exists a | a in s :: f in a.registers && a.registers[f] == m.registers[f]
    {
      assert (f in v.registers && m.registers[f] == v.registers[f]) || (f in w.registers && m.registers[f] == w.registers[f]);
    }
  }
}

/** The protocol over vaults that fork.  Two secrets meeting under one id are both kept: a merge may
    put the smaller one in the row and move the other, and whatever that displaces, to derived ids, so
    that one page changes rows it does not mention.  The server, the requests, the answers, the cursors
    and the crashes are the protocol's; a row may change in one more way than there, and what is never
    lost is a credential, along its chain of derived ids, rather than the value of a row. */
module ForkingProtocol {
  import opened Foundations
  import opened VaultItem
  import opened ItemSets
  import Protocol = SyncProtocol

  type Envelope = Protocol.Envelope<Item>

  type Rows = map<ItemId, Envelope>

  type System = Protocol.System<Item>

  type Device = Protocol.Device<Item>

  // ----- how a row may change -------------------------------------------------------------------------

  /** More of the same credential, or a smaller one in its place. */
  predicate RowLeq(a: Item, b: Item) {
    a.id == b.id && if a.secret == b.secret then Leq(a, b) else LexLess(b.secret, a.secret)
  }

  /** The protocol needs the order alone; what merging does is said by `Merged`. */
  const RowOrder: Protocol.Lattice<Item> := Protocol.Lattice(
    (a, b) => RowLeq(a, b),
    (a, b) => if RowLeq(a, b) then Some(b) else None)

  lemma RowsDescendTransitively(a: Item, b: Item, c: Item)
    requires RowLeq(a, b) && RowLeq(b, c)
    ensures RowLeq(a, c)
  {
    hide LexLess;
    if a.secret == b.secret == c.secret {
      LeqTransitive(a, b, c);
    } else if a.secret != b.secret && b.secret != c.secret {
      LexTransitive(c.secret, b.secret, a.secret);
    }
    LexTotal(a.secret, a.secret);
  }

  lemma RowOrderIsLawful()
    ensures Protocol.Lawful(RowOrder)
  {
    hide RowLeq;
    forall a: Item ensures RowLeq(a, a) { RowLeqReflexive(a); }
    forall a: Item, b: Item, c: Item | RowLeq(a, b) && RowLeq(b, c) ensures RowLeq(a, c) { RowsDescendTransitively(a, b, c); }
  }

  lemma RowLeqReflexive(a: Item)
    ensures RowLeq(a, a)
  {
    LeqReflexive(a);
  }

  // ----- merging what arrived -----------------------------------------------------------------------------

  function AbsorbEach(fork: ForkIds, m: Items, q: seq<Item>): Option<Items> {
    if q == [] then Some(m)
    else
      match AbsorbEach(fork, m, q[..|q| - 1])
      case None => None
      case Some(n) => Outcome(Absorbing(fork, n, q[|q| - 1]).error, Absorbing(fork, n, q[|q| - 1]).items)
  }

  function Ids(s: seq<ItemId>): set<ItemId> { set k | k in s }

  /** The rows written on the way. */
  function Touched(fork: ForkIds, m: Items, q: seq<Item>): set<ItemId> {
    if q == [] then {}
    else
      match AbsorbEach(fork, m, q[..|q| - 1])
      case None => {}
      case Some(n) => Touched(fork, m, q[..|q| - 1]) + Ids(Absorbing(fork, n, q[|q| - 1]).touched)
  }

  ghost function ItemsOf(v: Rows): Items { map k | k in v :: v[k].value }

  ghost predicate Enumerates(order: seq<ItemId>, ids: set<ItemId>) { forall k :: k in order <==> k in ids }

  ghost function Values(incoming: Rows, order: seq<ItemId>): seq<Item>
    requires forall k | k in order :: k in incoming
  {
    seq(|order|, i requires 0 <= i < |order| => incoming[order[i]].value)
  }

  /** A row that came out as it arrived keeps the bytes it arrived in; any other is sealed anew. */
  ghost function Reseal(item: Item, k: ItemId, incoming: Rows, seals: map<ItemId, nat>): Envelope {
    if k in incoming && incoming[k].value == item then incoming[k]
    else Protocol.Envelope(item, if k in seals then seals[k] else 0)
  }

  ghost function Stored(vault: Rows, n: Items, touched: set<ItemId>, incoming: Rows, seals: map<ItemId, nat>): Rows {
    map k | k in n :: if k in vault && k !in touched then vault[k] else Reseal(n[k], k, incoming, seals)
  }

  /** A vault after merging what arrived, in the order given. */
  ghost function Merged(fork: ForkIds, vault: Rows, incoming: Rows, order: seq<ItemId>, seals: map<ItemId, nat>): Option<Rows>
    requires forall k | k in order :: k in incoming
  {
    var q := Values(incoming, order);
    match AbsorbEach(fork, ItemsOf(vault), q)
    case None => None
    case Some(n) => Some(Stored(vault, n, Touched(fork, ItemsOf(vault), q), incoming, seals))
  }

  // ----- the system ------------------------------------------------------------------------------------------

  /** The derivation of ids, and all versions anyone ever writes. */
  datatype World = World(fork: ForkIds, family: set<Item>)

  datatype Step =
    | Plain(step: Protocol.Step<Item>)
    | Edit(d: Protocol.DeviceName, item: ItemId, envelope: Envelope)
    | MergePage(d: Protocol.DeviceName, order: seq<ItemId>, seals: map<ItemId, nat>)
    | MergeConflict(d: Protocol.DeviceName, seals: map<ItemId, nat>)

  ghost function Envelopes(page: map<ItemId, Protocol.Row<Item>>): Rows { map k | k in page :: page[k].envelope }

  /** Decoded under its own id, and only then merged. */
  ghost predicate Addressed(v: Rows) { forall k | k in v :: v[k].value.id == k }

  ghost predicate Enabled(w: World, s: System, step: Step) {
    match step
    case Plain(p) => !p.Edit? && !p.MergePage? && !p.MergeConflict? && Protocol.Enabled(RowOrder, s, p)
    case Edit(d, k, e) =>
      && d in s.devices && e.value.id == k && WritesFrom(w.family, e.value)
      && (k in s.devices[d].vault ==> Leq(s.devices[d].vault[k].value, e.value))
    case MergePage(d, order, seals) =>
      && d in s.devices && s.devices[d].task.PageHeld?
      && var page := Envelopes(s.devices[d].task.page);
         Addressed(page) && Enumerates(order, page.Keys) && Merged(w.fork, s.devices[d].vault, page, order, seals).Some?
    case MergeConflict(d, seals) =>
      && d in s.devices && s.devices[d].task.ConflictHeld?
      && var (k, e) := (s.devices[d].task.item, s.devices[d].task.envelope);
         e.value.id == k && Merged(w.fork, s.devices[d].vault, map[k := e], [k], seals).Some?
  }

  ghost function DeviceAfter(w: World, s: System, step: Step): Device
    requires Enabled(w, s, step) && !step.Plain?
  {
    var v := s.devices[step.d];
    match step
    case Edit(_, k, e) => v.(vault := v.vault[k := e])
    case MergePage(_, order, seals) =>
      v.(vault := Merged(w.fork, v.vault, Envelopes(v.task.page), order, seals).value, task := Protocol.PageMerged(v.task.page, v.task.next))
    case MergeConflict(_, seals) =>
      var (k, e) := (v.task.item, v.task.envelope);
      v.(vault := Merged(w.fork, v.vault, map[k := e], [k], seals).value, task := Protocol.ConflictMerged(k, v.task.version, e))
  }

  ghost function After(w: World, s: System, step: Step): System
    requires Enabled(w, s, step)
  {
    if step.Plain? then Protocol.After(RowOrder, s, step.step)
    else s.(devices := s.devices[step.d := DeviceAfter(w, s, step)])
  }

  ghost function RunFrom(w: World, s: System, steps: seq<Step>): Option<System>
    decreases |steps|
  {
    if steps == [] then Some(s)
    else if Enabled(w, s, steps[0]) then RunFrom(w, After(w, s, steps[0]), steps[1..])
    else None
  }

  ghost predicate IsRun(w: World, s: System, steps: seq<Step>, t: System) { RunFrom(w, s, steps) == Some(t) }

  ghost predicate Leads(w: World, s: System, t: System) { exists steps :: IsRun(w, s, steps, t) }

  ghost predicate Reachable(w: World, s: System) { Leads(w, Protocol.Initial<Item>(), s) }

  // ----- absorbing one after another ------------------------------------------------------------------------------

  /** What `n` is after absorbing `q` into `m`: it accounts for both, invents nothing, and rows not
      written are as they were. */
  ghost predicate Accounts(w: World, m: Items, q: seq<Item>, n: Items, touched: set<ItemId>) {
    && Keyed(n) && AllFrom(w.family, n) && Below(w.fork, m, n)
    && (forall x | x in q :: Holds(w.fork, n, x))
    && (forall k | k in n && k !in touched :: k in m && n[k] == m[k])
  }

  lemma HoldsUpward(fork: ForkIds, m: Items, n: Items, x: Item)
    requires Keyed(m) && Keyed(n) && Below(fork, m, n) && Holds(fork, m, x)
    ensures Holds(fork, n, x)
  {
    var i: nat :| Reaches(fork, m, x, i);
    ReachesUpward(fork, m, n, x, i);
  }

  lemma AbsorbedAccounts(w: World, m: Items, x: Item)
    requires Disciplined(w.family) && Keyed(m) && AllFrom(w.family, m) && WritesFrom(w.family, x) && Absorbing(w.fork, m, x).error.None?
    ensures var r := Absorbing(w.fork, m, x); Accounts(w, m, [x], r.items, Ids(r.touched))
  {
    hide Absorbing, Disciplined, WritesFrom, Holds, WritesConserved, Explained, SecretsOf, BoundsSurvive, FailsOnlyFor;
    AbsorbingJoins(w.fork, m, x);
    DisciplineOfWrites(w.family, m.Values + {x});
    var r := Absorbing(w.fork, m, x);
    WritesTrace(w.family, m, map[x.id := x], x.id, r.items);
    BelowReflexive(w.fork, r.items);
    assert Bounds(w.fork, m, [x], r.items);
    assert x in [x];
  }

  lemma AccountsMore(w: World, m: Items, q: seq<Item>, n: Items, touched: set<ItemId>, x: Item, r: Items, more: set<ItemId>)
    requires Keyed(m) && Accounts(w, m, q, n, touched) && Accounts(w, n, [x], r, more)
    ensures Accounts(w, m, q + [x], r, touched + more)
  {
    hide Holds, WritesFrom;
    BelowTransitive(w.fork, m, n, r);
    forall y | y in q + [x] ensures Holds(w.fork, r, y) {
      if y in q { HoldsUpward(w.fork, n, r, y); } else { assert y in [x]; }
    }
  }

  lemma {:induction false} AbsorbEachAccounts(w: World, m: Items, q: seq<Item>)
    requires Disciplined(w.family) && Keyed(m) && AllFrom(w.family, m) && forall x | x in q :: WritesFrom(w.family, x)
    ensures AbsorbEach(w.fork, m, q).Some? ==> Accounts(w, m, q, AbsorbEach(w.fork, m, q).value, Touched(w.fork, m, q))
    decreases |q|
  {
    hide Absorbing, Disciplined, WritesFrom;
    if q == [] {
      BelowReflexive(w.fork, m);
    } else if AbsorbEach(w.fork, m, q).Some? {
      hide Accounts;
      var (init, last) := (q[..|q| - 1], q[|q| - 1]);
      AbsorbEachAccounts(w, m, init);
      var n := AbsorbEach(w.fork, m, init).value;
      AccountsFor(w, m, init, n, Touched(w.fork, m, init));
      AbsorbedAccounts(w, n, last);
      AccountsMore(w, m, init, n, Touched(w.fork, m, init), last, Absorbing(w.fork, n, last).items, Ids(Absorbing(w.fork, n, last).touched));
      assert q == init + [last];
    }
  }

  lemma AccountsFor(w: World, m: Items, q: seq<Item>, n: Items, touched: set<ItemId>)
    requires Accounts(w, m, q, n, touched)
    ensures Keyed(n) && AllFrom(w.family, n)
  {
  }

  /** A set that accounts for an item has a row at its id, with it or with a smaller secret. */
  lemma HeldAtRow(fork: ForkIds, n: Items, x: Item)
    requires Keyed(n) && Holds(fork, n, x)
    ensures x.id in n && RowLeq(x, n[x.id])
  {
    hide Leq, LexLess;
    HoldsUnfolds(fork, n, x);
  }

  // ----- what a merge does to a vault --------------------------------------------------------------------------------

  ghost predicate Good(w: World, k: ItemId, e: Envelope) { e.value.id == k && WritesFrom(w.family, e.value) }

  ghost predicate GoodRows(w: World, v: Rows) { forall k | k in v :: Good(w, k, v[k]) }

  ghost predicate VaultRises(w: World, v: Rows, u: Rows) {
    GoodRows(w, u) && Below(w.fork, ItemsOf(v), ItemsOf(u)) && Protocol.Rises(RowOrder, v, u)
  }

  lemma GoodItems(w: World, v: Rows)
    requires GoodRows(w, v)
    ensures Keyed(ItemsOf(v)) && AllFrom(w.family, ItemsOf(v)) && ItemsOf(v).Keys == v.Keys && Addressed(v)
  {
  }

  /** Accounting for every item is rising in every row. */
  lemma BelowRises(w: World, v: Rows, u: Rows)
    requires GoodRows(w, v) && GoodRows(w, u) && Below(w.fork, ItemsOf(v), ItemsOf(u))
    ensures VaultRises(w, v, u)
  {
    hide Holds, WritesFrom, RowLeq;
    GoodItems(w, u);
    forall k | k in v ensures Protocol.Covered(RowOrder, u, k, v[k]) {
      assert ItemsOf(v)[k] == v[k].value;
      HeldAtRow(w.fork, ItemsOf(u), v[k].value);
    }
  }

  lemma ValuesAreGood(w: World, incoming: Rows, order: seq<ItemId>)
    requires GoodRows(w, incoming) && Enumerates(order, incoming.Keys)
    ensures forall x | x in Values(incoming, order) :: WritesFrom(w.family, x) && x.id in incoming && incoming[x.id].value == x
    ensures forall k | k in incoming :: incoming[k].value in Values(incoming, order) && incoming[k].value.id == k
  {
    hide WritesFrom;
    var q := Values(incoming, order);
    forall x | x in q ensures WritesFrom(w.family, x) && x.id in incoming && incoming[x.id].value == x {
      var i :| 0 <= i < |q| && q[i] == x;
      assert order[i] in order && Good(w, order[i], incoming[order[i]]);
    }
    forall k | k in incoming ensures incoming[k].value in q && incoming[k].value.id == k {
      var i :| 0 <= i < |order| && order[i] == k;
      assert q[i] in q && Good(w, k, incoming[k]);
    }
  }

  /** The items of the merged vault are the items absorbed. */
  lemma MergedItems(w: World, vault: Rows, incoming: Rows, order: seq<ItemId>, seals: map<ItemId, nat>)
    requires Disciplined(w.family) && GoodRows(w, vault) && GoodRows(w, incoming) && Enumerates(order, incoming.Keys)
    ensures var (q, u) := (Values(incoming, order), Merged(w.fork, vault, incoming, order, seals));
            && (u.Some? <==> AbsorbEach(w.fork, ItemsOf(vault), q).Some?)
            && (u.Some? ==> ItemsOf(u.value) == AbsorbEach(w.fork, ItemsOf(vault), q).value && u.value.Keys == ItemsOf(u.value).Keys
                            && Accounts(w, ItemsOf(vault), q, ItemsOf(u.value), Touched(w.fork, ItemsOf(vault), q)))
  {
    hide WritesFrom, Disciplined, AbsorbEach, Touched, Accounts, Values, Stored;
    GoodItems(w, vault);
    ValuesAreGood(w, incoming, order);
    var (m, q) := (ItemsOf(vault), Values(incoming, order));
    AbsorbEachAccounts(w, m, q);
    if AbsorbEach(w.fork, m, q).Some? {
      StoredItems(w, vault, q, AbsorbEach(w.fork, m, q).value, Touched(w.fork, m, q), incoming, seals);
    }
  }

  lemma StoredItems(w: World, vault: Rows, q: seq<Item>, n: Items, touched: set<ItemId>, incoming: Rows, seals: map<ItemId, nat>)
    requires Accounts(w, ItemsOf(vault), q, n, touched)
    ensures var u := Stored(vault, n, touched, incoming, seals); ItemsOf(u) == n && u.Keys == n.Keys
  {
    hide Below, Holds, AllFrom;
    var u := Stored(vault, n, touched, incoming, seals);
    forall k | k in u ensures u[k].value == n[k] {
      assert k in vault ==> ItemsOf(vault)[k] == vault[k].value;
    }
  }

  lemma MergeAccounts(w: World, vault: Rows, incoming: Rows, order: seq<ItemId>, seals: map<ItemId, nat>)
    requires Disciplined(w.family) && GoodRows(w, vault) && GoodRows(w, incoming) && Enumerates(order, incoming.Keys)
    requires Merged(w.fork, vault, incoming, order, seals).Some?
    ensures var u := Merged(w.fork, vault, incoming, order, seals).value;
            && VaultRises(w, vault, u)
            && forall k | k in incoming :: Holds(w.fork, ItemsOf(u), incoming[k].value) && Protocol.Covered(RowOrder, u, k, incoming[k])
  {
    hide Holds, WritesFrom, RowLeq, Disciplined, AbsorbEach, Touched, Below, LexLess, Merged, Values;
    MergedItems(w, vault, incoming, order, seals);
    ValuesAreGood(w, incoming, order);
    var u := Merged(w.fork, vault, incoming, order, seals).value;
    forall k | k in u ensures Good(w, k, u[k]) { assert ItemsOf(u)[k] == u[k].value; }
    BelowRises(w, vault, u);
    forall k | k in incoming
      ensures Holds(w.fork, ItemsOf(u), incoming[k].value) && Protocol.Covered(RowOrder, u, k, incoming[k])
    {
      HeldAtRow(w.fork, ItemsOf(u), incoming[k].value);
      assert ItemsOf(u)[k] == u[k].value;
    }
  }

  lemma EditAccounts(w: World, vault: Rows, k: ItemId, e: Envelope)
    requires GoodRows(w, vault) && Good(w, k, e) && (k in vault ==> Leq(vault[k].value, e.value))
    ensures VaultRises(w, vault, vault[k := e])
  {
    hide WritesFrom, Leq, RowLeq, LexLess;
    var (m, u) := (ItemsOf(vault), vault[k := e]);
    assert GoodRows(w, u);
    forall j | j in m ensures Holds(w.fork, ItemsOf(u), m[j]) {
      HoldsUnfolds(w.fork, ItemsOf(u), m[j]);
      LeqReflexive(m[j]);
      if j == k { LeqIsSameCredential(vault[k].value, e.value); }
    }
    BelowRises(w, vault, u);
  }

  lemma LeqIsSameCredential(a: Item, b: Item)
    requires Leq(a, b)
    ensures a.id == b.id && a.secret == b.secret
  {
  }

  // ----- the invariant --------------------------------------------------------------------------------------------------

  /** Some device's vault accounts for the item. */
  ghost predicate SomeoneHolds(w: World, s: System, x: Item) {
    exists d :: d in s.devices && Holds(w.fork, ItemsOf(s.devices[d].vault), x)
  }

  /** The protocol's own invariant for rows that may descend, and what forks add to it: every item in the
      system is at its own id and of the family, and no version ever sent or stored is without a holder. */
  ghost predicate Inv(w: World, s: System) {
    && Protocol.Inv(RowOrder, s)
    && (forall d | d in s.devices :: GoodRows(w, s.devices[d].vault))
    && (forall p | p in s.server.stored :: Good(w, p.0, s.server.stored[p]) && SomeoneHolds(w, s, s.server.stored[p].value))
    && (forall i | 0 <= i < |s.requests| :: Good(w, s.requests[i].item, s.requests[i].envelope) && SomeoneHolds(w, s, s.requests[i].envelope.value))
  }

  /** No device disappears, and no vault drops a credential. */
  ghost predicate AllRise(w: World, s: System, t: System) {
    forall d | d in s.devices :: d in t.devices && VaultRises(w, s.devices[d].vault, t.devices[d].vault)
  }

  lemma HoldersStay(w: World, s: System, t: System, x: Item)
    requires AllRise(w, s, t) && (forall d | d in s.devices :: GoodRows(w, s.devices[d].vault)) && SomeoneHolds(w, s, x)
    ensures SomeoneHolds(w, t, x)
  {
    hide Holds, WritesFrom, Below, Protocol.Rises;
    var d :| d in s.devices && Holds(w.fork, ItemsOf(s.devices[d].vault), x);
    GoodItems(w, s.devices[d].vault);
    GoodItems(w, t.devices[d].vault);
    HoldsUpward(w.fork, ItemsOf(s.devices[d].vault), ItemsOf(t.devices[d].vault), x);
  }

  lemma OwnRowIsHeld(w: World, v: Rows, k: ItemId)
    requires GoodRows(w, v) && k in v
    ensures Holds(w.fork, ItemsOf(v), v[k].value)
  {
    hide Holds, WritesFrom;
    GoodItems(w, v);
    BelowReflexive(w.fork, ItemsOf(v));
    assert ItemsOf(v)[k] == v[k].value;
  }

  lemma VaultStays(w: World, v: Rows)
    requires GoodRows(w, v)
    ensures VaultRises(w, v, v)
  {
    hide Holds, WritesFrom, RowLeq;
    GoodItems(w, v);
    BelowReflexive(w.fork, ItemsOf(v));
    BelowRises(w, v, v);
  }

  lemma VaultRisesTransitively(w: World, u: Rows, v: Rows, x: Rows)
    requires GoodRows(w, u) && VaultRises(w, u, v) && VaultRises(w, v, x)
    ensures VaultRises(w, u, x)
  {
    hide Holds, WritesFrom, RowLeq, Below, Protocol.Rises;
    GoodItems(w, u);
    GoodItems(w, v);
    GoodItems(w, x);
    BelowTransitive(w.fork, ItemsOf(u), ItemsOf(v), ItemsOf(x));
    BelowRises(w, u, x);
  }

  lemma PageIsGood(w: World, s: System, d: Protocol.DeviceName)
    requires Inv(w, s) && d in s.devices && s.devices[d].task.PageHeld?
    ensures GoodRows(w, Envelopes(s.devices[d].task.page))
  {
    hide SomeoneHolds, Good;
    var page := s.devices[d].task.page;
    assert Protocol.DeviceInv(RowOrder, s, s.devices[d]);
    forall k | k in page ensures Good(w, k, page[k].envelope) {
      assert Protocol.Stored(s.server, k, page[k].version, page[k].envelope);
      assert (k, page[k].version) in s.server.stored;
    }
  }

  lemma ConflictIsGood(w: World, s: System, d: Protocol.DeviceName)
    requires Inv(w, s) && d in s.devices && s.devices[d].task.ConflictHeld?
    ensures Good(w, s.devices[d].task.item, s.devices[d].task.envelope)
  {
    hide SomeoneHolds, Good;
    var t := s.devices[d].task;
    assert Protocol.DeviceInv(RowOrder, s, s.devices[d]);
    assert (t.item, t.version) in s.server.stored;
  }

  /** What each of the three steps that touch a vault does to it. */
  lemma VaultStep(w: World, s: System, step: Step)
    requires Disciplined(w.family) && Inv(w, s) && Enabled(w, s, step) && !step.Plain?
    ensures var (before, after) := (s.devices[step.d], DeviceAfter(w, s, step));
            && VaultRises(w, before.vault, after.vault) && after.memory == before.memory && after.disk == before.disk
            && match step
               case Edit(_, _, _) => after.task == before.task
               case MergePage(_, _, _) =>
                 && after.task == Protocol.PageMerged(before.task.page, before.task.next)
                 && forall k | k in before.task.page :: Protocol.Covered(RowOrder, after.vault, k, before.task.page[k].envelope)
               case MergeConflict(_, _) =>
                 && after.task == Protocol.ConflictMerged(before.task.item, before.task.version, before.task.envelope)
                 && Protocol.Covered(RowOrder, after.vault, before.task.item, before.task.envelope)
  {
    hide Protocol.Inv, Disciplined, WritesFrom, Merged, RowLeq, Leq, VaultRises, SomeoneHolds;
    var v := s.devices[step.d];
    match step
    case Edit(_, k, e) => EditAccounts(w, v.vault, k, e);
    case MergePage(_, order, seals) =>
      PageIsGood(w, s, step.d);
      var page := Envelopes(v.task.page);
      MergeAccounts(w, v.vault, page, order, seals);
      forall k | k in v.task.page ensures Protocol.Covered(RowOrder, DeviceAfter(w, s, step).vault, k, v.task.page[k].envelope) {
        assert page[k] == v.task.page[k].envelope;
      }
    case MergeConflict(_, seals) =>
      ConflictIsGood(w, s, step.d);
      var incoming := map[v.task.item := v.task.envelope];
      assert v.task.item in incoming && incoming.Keys == {v.task.item};
      MergeAccounts(w, v.vault, incoming, [v.task.item], seals);
  }

  lemma VaultStepKeepsDevice(w: World, s: System, step: Step)
    requires Disciplined(w.family) && Inv(w, s) && Enabled(w, s, step) && !step.Plain?
    ensures Protocol.DeviceInv(RowOrder, s, DeviceAfter(w, s, step))
  {
    hide Disciplined, WritesFrom, RowLeq, Enabled, DeviceAfter, GoodRows, SomeoneHolds, Below, Good;
    VaultStep(w, s, step);
    RowOrderIsLawful();
    StepsADevice(w, s, step);
    var (before, after) := (s.devices[step.d], DeviceAfter(w, s, step));
    InvOfDevice(s, step.d);
    Protocol.RisingKeepsDevice(RowOrder, s, before, after.vault);
    DeviceKeepsTask(w, s, step);
  }

  lemma InvOfDevice(s: System, d: Protocol.DeviceName)
    requires Protocol.Inv(RowOrder, s) && d in s.devices
    ensures Protocol.DeviceInv(RowOrder, s, s.devices[d])
  {
  }

  lemma StepsADevice(w: World, s: System, step: Step)
    requires Enabled(w, s, step) && !step.Plain?
    ensures step.d in s.devices
    ensures step.MergePage? ==> s.devices[step.d].task.PageHeld?
    ensures step.MergeConflict? ==> s.devices[step.d].task.ConflictHeld?
  {
  }

  /** With the vault raised, the task moves on. */
  lemma DeviceKeepsTask(w: World, s: System, step: Step)
    requires Disciplined(w.family) && Inv(w, s) && Enabled(w, s, step) && !step.Plain?
    requires Protocol.DeviceInv(RowOrder, s, s.devices[step.d].(vault := DeviceAfter(w, s, step).vault))
    ensures Protocol.DeviceInv(RowOrder, s, DeviceAfter(w, s, step))
  {
    hide Disciplined, WritesFrom, RowLeq, Enabled, DeviceAfter, GoodRows, SomeoneHolds, Below, Good, Protocol.Covered, Protocol.KnownInv, Protocol.CursorInv,
         Protocol.PageInv, Protocol.ConflictInv, Protocol.Inv, VaultRises, Inv;
    VaultStep(w, s, step);
    StepsADevice(w, s, step);
    var (before, after) := (s.devices[step.d], DeviceAfter(w, s, step));
    assert after == before.(vault := after.vault, task := after.task);
  }

  lemma VaultStepKeepsInv(w: World, s: System, step: Step)
    requires Disciplined(w.family) && Inv(w, s) && Enabled(w, s, step) && !step.Plain?
    ensures Inv(w, After(w, s, step)) && AllRise(w, s, After(w, s, step)) && After(w, s, step).server == s.server
  {
    hide Disciplined, WritesFrom, RowLeq, Enabled, DeviceAfter, SomeoneHolds, Below, Good, Protocol.Inv, Protocol.DeviceInv, Protocol.Rises, GoodRows;
    StepsADevice(w, s, step);
    VaultStep(w, s, step);
    VaultStepKeepsDevice(w, s, step);
    var t := After(w, s, step);
    assert t == s.(devices := s.devices[step.d := DeviceAfter(w, s, step)]);
    Protocol.OnlyOneMoves(RowOrder, s, t, step.d);
    forall d | d in s.devices ensures VaultRises(w, s.devices[d].vault, t.devices[d].vault) {
      if d != step.d { VaultStays(w, s.devices[d].vault); }
    }
    HoldersKept(w, s, t);
  }

  lemma HoldersKept(w: World, s: System, t: System)
    requires Inv(w, s) && AllRise(w, s, t)
    ensures forall p | p in s.server.stored :: SomeoneHolds(w, t, s.server.stored[p].value)
    ensures forall i | 0 <= i < |s.requests| :: SomeoneHolds(w, t, s.requests[i].envelope.value)
  {
    hide SomeoneHolds, Protocol.Inv, Good, VaultRises;
    forall p | p in s.server.stored ensures SomeoneHolds(w, t, s.server.stored[p].value) { HoldersStay(w, s, t, s.server.stored[p].value); }
    forall i | 0 <= i < |s.requests| ensures SomeoneHolds(w, t, s.requests[i].envelope.value) { HoldersStay(w, s, t, s.requests[i].envelope.value); }
  }

  // ----- the steps that touch no vault ----------------------------------------------------------------------------------

  lemma PlainKeepsVaults(w: World, s: System, p: Protocol.Step<Item>)
    requires Enabled(w, s, Plain(p))
    ensures var t := Protocol.After(RowOrder, s, p);
            && (forall d | d in s.devices :: d in t.devices && t.devices[d].vault == s.devices[d].vault)
            && (forall d | d in t.devices && d !in s.devices :: t.devices[d].vault == map[])
  {
    hide Protocol.Put, Protocol.Feed;
  }

  /** A version is stored by serving a request, and a request carries a row of a vault. */
  lemma PlainStores(w: World, s: System, p: Protocol.Step<Item>)
    requires Enabled(w, s, Plain(p))
    ensures var t := Protocol.After(RowOrder, s, p);
            && (forall v | v in t.server.stored ::
                  (v in s.server.stored && t.server.stored[v] == s.server.stored[v])
                  || exists i :: 0 <= i < |s.requests| && s.requests[i].item == v.0 && s.requests[i].envelope == t.server.stored[v])
            && (forall i | 0 <= i < |t.requests| ::
                  (i < |s.requests| && t.requests[i] == s.requests[i])
                  || exists d :: d in s.devices && t.requests[i].item in s.devices[d].vault
                                 && t.requests[i].envelope == s.devices[d].vault[t.requests[i].item])
  {
    hide Protocol.Feed;
    var t := Protocol.After(RowOrder, s, p);
    if p.Serve? {
      var r := s.requests[p.request];
      assert r.item == r.item && r.envelope == r.envelope;
    }
  }

  lemma PlainStepKeepsInv(w: World, s: System, p: Protocol.Step<Item>)
    requires Inv(w, s) && Enabled(w, s, Plain(p))
    ensures Inv(w, After(w, s, Plain(p))) && AllRise(w, s, After(w, s, Plain(p)))
    ensures Protocol.Grows(s.server, After(w, s, Plain(p)).server)
  {
    hide WritesFrom, RowLeq, SomeoneHolds, Below, Good, Protocol.Inv, Protocol.DeviceInv, Protocol.Rises, GoodRows, VaultRises, Protocol.After, Protocol.Enabled, Protocol.Grows;
    RowOrderIsLawful();
    Protocol.StepKeepsInv(RowOrder, s, p);
    PlainKeepsVaults(w, s, p);
    PlainStores(w, s, p);
    var t := Protocol.After(RowOrder, s, p);
    forall d | d in s.devices ensures VaultRises(w, s.devices[d].vault, t.devices[d].vault) { VaultStays(w, s.devices[d].vault); }
    forall d | d in t.devices ensures GoodRows(w, t.devices[d].vault) { if d !in s.devices { NoRowsAreGood(w); } }
    HoldersKept(w, s, t);
    forall i | 0 <= i < |t.requests|
      ensures Good(w, t.requests[i].item, t.requests[i].envelope) && SomeoneHolds(w, t, t.requests[i].envelope.value)
    {
      if !(i < |s.requests| && t.requests[i] == s.requests[i]) {
        var d :| d in s.devices && t.requests[i].item in s.devices[d].vault && t.requests[i].envelope == s.devices[d].vault[t.requests[i].item];
        RowHasHolder(w, t, d, t.requests[i].item);
      }
    }
    forall v | v in t.server.stored ensures Good(w, v.0, t.server.stored[v]) && SomeoneHolds(w, t, t.server.stored[v].value) {
      if !(v in s.server.stored && t.server.stored[v] == s.server.stored[v]) {
        var i :| 0 <= i < |s.requests| && s.requests[i].item == v.0 && s.requests[i].envelope == t.server.stored[v];
      }
    }
  }

  lemma NoRowsAreGood(w: World)
    ensures GoodRows(w, map[])
  {
  }

  lemma RowHasHolder(w: World, s: System, d: Protocol.DeviceName, k: ItemId)
    requires d in s.devices && GoodRows(w, s.devices[d].vault) && k in s.devices[d].vault
    ensures Good(w, k, s.devices[d].vault[k]) && SomeoneHolds(w, s, s.devices[d].vault[k].value)
  {
    hide Holds, WritesFrom;
    OwnRowIsHeld(w, s.devices[d].vault, k);
  }

  /** Every step of every device and of the server, forks and crashes included. */
  lemma StepKeepsInv(w: World, s: System, step: Step)
    requires Disciplined(w.family) && Inv(w, s) && Enabled(w, s, step)
    ensures Inv(w, After(w, s, step)) && AllRise(w, s, After(w, s, step))
    ensures Protocol.Grows(s.server, After(w, s, step).server)
  {
    hide Inv, Enabled, Disciplined, AllRise;
    if step.Plain? {
      PlainStepKeepsInv(w, s, step.step);
    } else {
      VaultStepKeepsInv(w, s, step);
    }
  }

  // ----- whole runs --------------------------------------------------------------------------------------------------------

  lemma InvGivesGood(w: World, s: System)
    requires Inv(w, s)
    ensures Protocol.Inv(RowOrder, s) && forall d | d in s.devices :: GoodRows(w, s.devices[d].vault)
  {
  }

  lemma EveryoneStays(w: World, s: System)
    requires Inv(w, s)
    ensures AllRise(w, s, s)
  {
    hide Protocol.Inv, SomeoneHolds, Good, VaultRises, GoodRows;
    forall d | d in s.devices ensures VaultRises(w, s.devices[d].vault, s.devices[d].vault) { VaultStays(w, s.devices[d].vault); }
  }

  lemma {:induction false} RunKeepsInv(w: World, s: System, steps: seq<Step>)
    requires Disciplined(w.family) && Inv(w, s) && RunFrom(w, s, steps).Some?
    ensures var t := RunFrom(w, s, steps).value; Inv(w, t) && AllRise(w, s, t) && Protocol.Grows(s.server, t.server)
    decreases |steps|
  {
    hide Inv, Enabled, After, Disciplined, VaultRises, GoodRows, Protocol.Inv;
    if steps == [] {
      EveryoneStays(w, s);
    } else {
      var u := After(w, s, steps[0]);
      StepKeepsInv(w, s, steps[0]);
      RunKeepsInv(w, u, steps[1..]);
      var t := RunFrom(w, s, steps).value;
      InvGivesGood(w, s);
      forall d | d in s.devices ensures d in t.devices && VaultRises(w, s.devices[d].vault, t.devices[d].vault) {
        VaultRisesTransitively(w, s.devices[d].vault, u.devices[d].vault, t.devices[d].vault);
      }
    }
  }

  lemma LeadsKeepsInv(w: World, s: System, t: System)
    requires Disciplined(w.family) && Inv(w, s) && Leads(w, s, t)
    ensures Inv(w, t) && AllRise(w, s, t) && Protocol.Grows(s.server, t.server)
  {
    hide RunFrom, Inv, Disciplined, AllRise;
    var steps :| IsRun(w, s, steps, t);
    RunKeepsInv(w, s, steps);
  }

  lemma ReachableInv(w: World, s: System)
    requires Disciplined(w.family) && Reachable(w, s)
    ensures Inv(w, s)
  {
    hide Leads, Disciplined;
    Protocol.InitialInv(RowOrder);
    LeadsKeepsInv(w, Protocol.Initial<Item>(), s);
  }

  // ----- the guarantees ------------------------------------------------------------------------------------------------------

  /** Over every run a row of the server only ever gains writes of its credential or gives way to a smaller
      secret, and its version never decreases. */
  lemma RowsOnlyDescend(w: World, s: System, t: System, k: ItemId)
    requires Disciplined(w.family) && Reachable(w, s) && Leads(w, s, t) && k in s.server.rows
    ensures k in t.server.rows && s.server.rows[k].version <= t.server.rows[k].version
    ensures RowLeq(s.server.rows[k].envelope.value, t.server.rows[k].envelope.value)
  {
    hide Leads, Reachable, Disciplined, RowLeq, SomeoneHolds, GoodRows, AllRise;
    ReachableInv(w, s);
    LeadsKeepsInv(w, s, t);
    assert (k, s.server.rows[k].version) in s.server.stored;
    assert RowOrder.leq(s.server.rows[k].envelope.value, t.server.rows[k].envelope.value);
  }

  /** Over every run, crashes included, no vault drops a credential or a write: it is found at its id or
      further along its chain of derived ids. */
  lemma VaultsNeverDrop(w: World, s: System, t: System, d: Protocol.DeviceName)
    requires Disciplined(w.family) && Reachable(w, s) && Leads(w, s, t) && d in s.devices
    ensures d in t.devices && Below(w.fork, ItemsOf(s.devices[d].vault), ItemsOf(t.devices[d].vault))
    ensures SecretsOf(ItemsOf(s.devices[d].vault)) <= SecretsOf(ItemsOf(t.devices[d].vault))
  {
    hide Leads, Reachable, Disciplined, Inv, Below, GoodRows, SecretsOf;
    ReachableInv(w, s);
    LeadsKeepsInv(w, s, t);
    BelowKeepsSecrets(w.fork, ItemsOf(s.devices[d].vault), ItemsOf(t.devices[d].vault));
  }

  lemma BelowKeepsSecrets(fork: ForkIds, m: Items, n: Items)
    requires Below(fork, m, n)
    ensures SecretsOf(m) <= SecretsOf(n)
  {
    hide Reaches;
    forall x | x in SecretsOf(m) ensures x in SecretsOf(n) {
      var k :| k in m && m[k].secret == x;
      var i: nat :| Reaches(fork, n, m[k], i);
      ReachesSecret(fork, n, m[k], i);
    }
  }

  lemma {:induction false} ReachesSecret(fork: ForkIds, m: Items, v: Item, n: nat)
    requires Reaches(fork, m, v, n)
    ensures v.secret in SecretsOf(m)
    decreases n
  {
    if m[v.id].secret != v.secret { ReachesSecret(fork, m, v.(id := fork(v.id, v.secret).value), n - 1); }
  }

  /** A quiescent device holds exactly the server's envelopes, forks or not, so any two agree byte for byte. */
  lemma QuiescentAgreement(w: World, s: System, d: Protocol.DeviceName)
    requires Disciplined(w.family) && Reachable(w, s) && Protocol.Quiescent(s, d)
    ensures s.devices[d].vault == Protocol.Envelopes(s.server)
  {
    hide Reachable, Disciplined;
    ReachableInv(w, s);
    Protocol.QuiescentHoldsRows(RowOrder, s, d);
  }

  /** Whatever a device ever held, every write of every credential, is accounted for in the server's rows
      once the device is quiescent, and in the vault of every other device that then is. */
  lemma CredentialsArrive(w: World, s: System, t: System, author: Protocol.DeviceName, reader: Protocol.DeviceName)
    requires Disciplined(w.family) && Reachable(w, s) && Leads(w, s, t) && author in s.devices
    requires Protocol.Quiescent(t, author) && Protocol.Quiescent(t, reader)
    ensures t.devices[reader].vault == t.devices[author].vault == Protocol.Envelopes(t.server)
    ensures Below(w.fork, ItemsOf(s.devices[author].vault), ItemsOf(Protocol.Envelopes(t.server)))
    ensures SecretsOf(ItemsOf(s.devices[author].vault)) <= SecretsOf(ItemsOf(t.devices[reader].vault))
  {
    hide Disciplined, RunFrom, Below, SecretsOf, Protocol.Quiescent;
    VaultsNeverDrop(w, s, t, author);
    LeadsTransitively(w, Protocol.Initial<Item>(), s, t);
    QuiescentAgreement(w, t, author);
    QuiescentAgreement(w, t, reader);
  }

  lemma {:induction false} RunsCompose(w: World, s: System, first: seq<Step>, t: System, second: seq<Step>)
    requires IsRun(w, s, first, t)
    ensures RunFrom(w, s, first + second) == RunFrom(w, t, second)
    decreases |first|
  {
    hide Enabled, After;
    if first == [] {
      assert first + second == second;
    } else {
      RunsCompose(w, After(w, s, first[0]), first[1..], t, second);
      assert (first + second)[1..] == first[1..] + second;
    }
  }

  lemma LeadsTransitively(w: World, s: System, t: System, u: System)
    requires Leads(w, s, t) && Leads(w, t, u)
    ensures Leads(w, s, u)
  {
    hide RunFrom;
    var first :| IsRun(w, s, first, t);
    var second :| IsRun(w, t, second, u);
    RunsCompose(w, s, first, t, second);
    assert IsRun(w, s, first + second, u);
  }

  /** While a credential that was moved is on its way to its new row, the server may lack it; but every
      version it ever stored, acknowledged or since replaced, is accounted for in some device's vault. */
  lemma NothingVanishes(w: World, s: System, t: System, k: ItemId, version: nat)
    requires Disciplined(w.family) && Reachable(w, s) && Leads(w, s, t) && (k, version) in s.server.stored
    ensures SomeoneHolds(w, t, s.server.stored[(k, version)].value)
  {
    hide Reachable, Leads, Disciplined, Protocol.Inv, SomeoneHolds, AllRise, Good, GoodRows;
    ReachableInv(w, s);
    LeadsKeepsInv(w, s, t);
    HoldersKept(w, s, t);
  }

  // ----- merges that must succeed ----------------------------------------------------------------------------------------------

  /** With derived ids that always exist and never collide, and credentials at home, no page and no
      conflict is refused, whatever secrets meet in it. */
  lemma {:induction false} NothingIsRefused(w: World, m: Items, q: seq<Item>)
    requires Disciplined(w.family) && CollisionFree(w.fork) && Total(w.fork)
    requires Keyed(m) && AllFrom(w.family, m) && AllAtHome(w.fork, m)
    requires forall x | x in q :: WritesFrom(w.family, x) && AtHome(w.fork, x)
    ensures AbsorbEach(w.fork, m, q).Some? && AllAtHome(w.fork, AbsorbEach(w.fork, m, q).value)
    decreases |q|
  {
    hide Absorbing, Disciplined, WritesFrom, CollisionFree, Total, AtHome, Accounts, IsJoin, WritesConserved, Explained, SecretsOf, BoundsSurvive, Recorded;
    if q != [] {
      var (init, last) := (q[..|q| - 1], q[|q| - 1]);
      NothingIsRefused(w, m, init);
      AbsorbEachAccounts(w, m, init);
      var n := AbsorbEach(w.fork, m, init).value;
      AccountsFor(w, m, init, n, Touched(w.fork, m, init));
      DisciplineOfWrites(w.family, n.Values + {last});
      assert last in q;
      AbsorbingJoins(w.fork, n, last);
    }
  }

  lemma NoMergeIsRefused(w: World, vault: Rows, incoming: Rows, order: seq<ItemId>, seals: map<ItemId, nat>)
    requires Disciplined(w.family) && CollisionFree(w.fork) && Total(w.fork) && GoodRows(w, vault) && GoodRows(w, incoming)
    requires Enumerates(order, incoming.Keys) && AllAtHome(w.fork, ItemsOf(vault)) && AllAtHome(w.fork, ItemsOf(incoming))
    ensures var u := Merged(w.fork, vault, incoming, order, seals);
            u.Some? && AllAtHome(w.fork, ItemsOf(u.value))
  {
    hide Disciplined, WritesFrom, CollisionFree, Total, AtHome, AbsorbEach, Touched, Values, Merged, Accounts;
    GoodItems(w, vault);
    ValuesAreGood(w, incoming, order);
    forall x | x in Values(incoming, order) ensures AtHome(w.fork, x) {
      assert ItemsOf(incoming)[x.id] == x;
    }
    NothingIsRefused(w, ItemsOf(vault), Values(incoming, order));
    MergedItems(w, vault, incoming, order, seals);
  }
}

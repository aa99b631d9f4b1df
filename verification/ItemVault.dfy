/** The vault's merge of a batch of remote items (crates/misty-vault/src/vault/sync.rs, `merge_remote`
    over `ItemSet::absorb`), and the promises of it that a pull and a push rely on: for every set whose
    items are at home, and every arrival that is, forks and tombstone ties included. */
module ItemVaults {
  import opened Foundations
  import opened VaultItem
  import opened ItemSets
  import opened SyncPull
  import opened PullGuarantees
  import opened ChangeFeeds
  import opened HonestFeeds
  import opened CrashRecovery

  type Decoder = Bytes -> Option<Item>

  /** An item must decode, and under the id it came with. */
  function DecodeRemote(decode: Decoder, r: Remote): Option<Item> {
    if decode(r.envelope).Some? && decode(r.envelope).value.id == r.itemId then decode(r.envelope) else None
  }

  function AbsorbOne(decode: Decoder, fork: ForkIds, m: Items, r: Remote): Option<Items> {
    match DecodeRemote(decode, r)
    case None => None
    case Some(item) => Outcome(Absorbing(fork, m, item).error, Absorbing(fork, m, item).items)
  }

  /** Merged into a copy: one refusal and nothing changes. */
  function AbsorbAll(decode: Decoder, fork: ForkIds, m: Items, batch: seq<Remote>): Option<Items> {
    if batch == [] then Some(m)
    else
      match AbsorbAll(decode, fork, m, batch[..|batch| - 1])
      case None => None
      case Some(before) => AbsorbOne(decode, fork, before, batch[|batch| - 1])
  }

  type KindOf = Bytes -> Option<Kind>

  type Authenticate = (ItemId, Bytes) -> Option<Rejection>

  function ItemSetting(kindOf: KindOf, authenticate: Authenticate, decode: Decoder, fork: ForkIds): Setting<Items> {
    Setting(kindOf, authenticate, (m, batch) => AbsorbAll(decode, fork, m, batch))
  }

  // ----- what an item adds to a set ------------------------------------------------------------------------

  lemma HeldElsewhere(a: Item, b: Item, j: ItemId)
    requires Held(a, b)
    ensures Held(a.(id := j), b.(id := j))
  {
  }

  /** Absorbing `x` would change nothing: its own credential, at its id or at the id it would move to,
      already holds it. */
  ghost predicate HeldIn(fork: ForkIds, m: Items, x: Item) {
    && x.id in m
    && if m[x.id].secret == x.secret then Held(x, m[x.id])
       else
         && LexLess(m[x.id].secret, x.secret) && fork(x.id, x.secret).Some?
         && var j := fork(x.id, x.secret).value;
            j in m && m[j].secret == x.secret && Held(x.(id := j), m[j])
  }

  /** How a row looks after something was absorbed: more of the same credential, or displaced by a smaller
      one and found at its derived id. */
  ghost predicate RowSurvives(fork: ForkIds, m: Items, n: Items, k: ItemId)
    requires k in m
  {
    && k in n
    && (Held(m[k], n[k])
        || (&& LexLess(n[k].secret, m[k].secret) && fork(k, m[k].secret).Some?
            && var j := fork(k, m[k].secret).value;
               j in n && Held(m[k].(id := j), n[j])))
  }

  lemma HeldIsSameCredential(a: Item, b: Item)
    requires Held(a, b)
    ensures a.id == b.id && a.secret == b.secret
  {
  }

  lemma PlacingHolds(m: Items, c: Item, k: ItemId)
    requires Keyed(m) && (c.id in m ==> m[c.id].secret == c.secret) && Placed(m, c).Some?
    ensures var n := Placed(m, c).value;
            && n.Keys == m.Keys + {c.id} && Held(c, n[c.id])
            && (k in m ==> Held(m[k], n[k])) && (k in m && k != c.id ==> n[k] == m[k])
  {
    hide MergeItem, Held;
    HeldReflexive(c);
    if k in m { HeldReflexive(m[k]); }
    if c.id in m { MergedIsHeld(c, m[c.id]); }
  }

  lemma DifferentSecretsAreOrdered(m: Items, x: Item)
    requires Keyed(m) && Diverges(m, x)
    ensures LexLess(Keeper(m, x).secret, Mover(m, x).secret) && Keeper(m, x).id == Mover(m, x).id == x.id
    ensures (Keeper(m, x) == m[x.id] && Mover(m, x) == x) || (Keeper(m, x) == x && Mover(m, x) == m[x.id])
    ensures Keeper(m, x) == m[x.id] <==> LexLess(m[x.id].secret, x.secret)
  {
    LexTotal(m[x.id].secret, x.secret);
  }

  lemma SecretsDiffer(a: Secret, b: Secret)
    requires LexLess(a, b)
    ensures a != b && !LexLess(b, a)
  {
    LexTotal(a, b);
  }

  /** What an absorb leaves is held: the item that came, and every row that was there. */
  lemma AbsorbedIsHeld(fork: ForkIds, m: Items, x: Item, k: ItemId)
    requires Keyed(m) && Orderly(fork, m, x) && PlacedOrMoved(fork, m, x).Some?
    ensures HeldIn(fork, PlacedOrMoved(fork, m, x).value, x)
    ensures k in m ==> RowSurvives(fork, m, PlacedOrMoved(fork, m, x).value, k)
  {
    hide Placed, Held, Orderly, LocalKeepsId, Keeper, Mover;
    var n := PlacedOrMoved(fork, m, x).value;
    if !Diverges(m, x) {
      PlacingHolds(m, x, k);
      HeldIsSameCredential(x, n[x.id]);
    } else {
      var (keeper, mover) := (Keeper(m, x), Mover(m, x));
      var j := fork(x.id, mover.secret).value;
      DifferentSecretsAreOrdered(m, x);
      SecretsDiffer(keeper.secret, mover.secret);
      OrderlyMove(fork, m, x);
      var kept := m[x.id := keeper];
      PlacingHolds(kept, mover.(id := j), k);
      PlacingHolds(kept, mover.(id := j), x.id);
      HeldIsSameCredential(mover.(id := j), n[j]);
      assert n[x.id] == keeper;
      HeldReflexive(x);
    }
  }

  /** An item already held changes nothing, and nothing else is: two steps decide it. */
  lemma HeldInExactly(fork: ForkIds, m: Items, x: Item)
    requires Keyed(m) && Orderly(fork, m, x)
    ensures PlacedOrMoved(fork, m, x) == Some(m) <==> HeldIn(fork, m, x)
  {
    hide Held, Orderly, LocalKeepsId, MergeItem, Keeper, Mover;
    if PlacedOrMoved(fork, m, x) == Some(m) { AbsorbedIsHeld(fork, m, x, x.id); }
    if HeldIn(fork, m, x) {
      if m[x.id].secret == x.secret {
        HeldExactly(x, m[x.id]);
        assert m[x.id := m[x.id]] == m;
      } else {
        DifferentSecretsAreOrdered(m, x);
        var j := fork(x.id, x.secret).value;
        HeldExactly(x.(id := j), m[j]);
        assert m[x.id := m[x.id]] == m && m[j := m[j]] == m;
      }
    }
  }

  /** What a set holds, it holds after absorbing anything else. */
  lemma HeldInIsKept(fork: ForkIds, m: Items, x: Item, q: Item)
    requires Keyed(m) && Orderly(fork, m, q) && HeldIn(fork, m, x) && PlacedOrMoved(fork, m, q).Some?
    ensures HeldIn(fork, PlacedOrMoved(fork, m, q).value, x)
  {
    hide Held, PlacedOrMoved, Orderly;
    var n := PlacedOrMoved(fork, m, q).value;
    AbsorbedIsHeld(fork, m, q, x.id);
    if Held(m[x.id], n[x.id]) { HeldIsSameCredential(m[x.id], n[x.id]); }
    if m[x.id].secret == x.secret {
      HeldStays(fork, m, n, x);
    } else {
      var j := fork(x.id, x.secret).value;
      AbsorbedIsHeld(fork, m, q, j);
      HeldIsSameCredential(x.(id := j), m[j]);
      DerivedRowStays(fork, m, q, j, x);
      HeldTransitive(x.(id := j), m[j], n[j]);
      HeldIsSameCredential(m[j], n[j]);
      SmallerStill(fork, m, n, x);
    }
  }

  lemma HeldStays(fork: ForkIds, m: Items, n: Items, x: Item)
    requires x.id in m && m[x.id].secret == x.secret && Held(x, m[x.id]) && RowSurvives(fork, m, n, x.id)
    ensures HeldIn(fork, n, x)
  {
    hide Held;
    if Held(m[x.id], n[x.id]) {
      HeldTransitive(x, m[x.id], n[x.id]);
      HeldIsSameCredential(x, n[x.id]);
    } else {
      var j := fork(x.id, x.secret).value;
      SecretsDiffer(n[x.id].secret, x.secret);
      HeldElsewhere(x, m[x.id], j);
      HeldTransitive(x.(id := j), m[x.id].(id := j), n[j]);
      HeldIsSameCredential(x.(id := j), n[j]);
    }
  }

  lemma SmallerStill(fork: ForkIds, m: Items, n: Items, x: Item)
    requires x.id in m && LexLess(m[x.id].secret, x.secret) && RowSurvives(fork, m, n, x.id)
    ensures LexLess(n[x.id].secret, x.secret) && n[x.id].secret != x.secret
  {
    hide Held;
    if Held(m[x.id], n[x.id]) {
      HeldIsSameCredential(m[x.id], n[x.id]);
    } else {
      LexTransitive(n[x.id].secret, m[x.id].secret, x.secret);
    }
    SecretsDiffer(n[x.id].secret, x.secret);
  }

  /** Nothing displaces a credential from the id derived for it. */
  lemma DerivedRowStays(fork: ForkIds, m: Items, q: Item, j: ItemId, x: Item)
    requires Keyed(m) && Orderly(fork, m, q) && PlacedOrMoved(fork, m, q).Some?
    requires fork(x.id, x.secret) == Some(j) && j in m && m[j].secret == x.secret
    requires RowSurvives(fork, m, PlacedOrMoved(fork, m, q).value, j)
    ensures Held(m[j], PlacedOrMoved(fork, m, q).value[j])
  {
    hide Held, Placed, CollisionFree, LocalKeepsId, Keeper, Mover;
    var n := PlacedOrMoved(fork, m, q).value;
    assert q in [q] && AtHome(fork, q);
    if !Diverges(m, q) {
      PlacingHolds(m, q, j);
    } else {
      assert j != q.id;
      DifferentSecretsAreOrdered(m, q);
      OrderlyMove(fork, m, q);
      var kept := m[q.id := Keeper(m, q)];
      PlacingHolds(kept, Mover(m, q).(id := fork(q.id, Mover(m, q).secret).value), j);
    }
  }

  // ----- the promises, discharged ----------------------------------------------------------------------------

  lemma {:induction false} AbsorbAllConcat(decode: Decoder, fork: ForkIds, m: Items, a: seq<Remote>, b: seq<Remote>)
    ensures AbsorbAll(decode, fork, m, a + b)
            == match AbsorbAll(decode, fork, m, a) case None => None case Some(mid) => AbsorbAll(decode, fork, mid, b)
    decreases |b|
  {
    hide AbsorbOne;
    if b == [] {
      assert a + b == a;
    } else {
      assert (a + b)[..|a + b| - 1] == a + b[..|b| - 1];
      AbsorbAllConcat(decode, fork, m, a, b[..|b| - 1]);
    }
  }

  lemma AbsorbAllOfOne(decode: Decoder, fork: ForkIds, m: Items, r: Remote)
    ensures AbsorbAll(decode, fork, m, []) == Some(m)
    ensures AbsorbAll(decode, fork, m, [r]) == AbsorbOne(decode, fork, m, r)
  {
    hide AbsorbOne;
    assert [r][..0] == [];
  }

  ghost predicate TidySet(fork: ForkIds, m: Items) { Keyed(m) && AllAtHome(fork, m) }

  /** What arrives is an item that is not where another credential belongs. */
  ghost predicate TidyRemote(decode: Decoder, fork: ForkIds, r: Remote) {
    DecodeRemote(decode, r).Some? ==> AtHome(fork, DecodeRemote(decode, r).value)
  }

  lemma TidyIsOrderly(fork: ForkIds, m: Items, x: Item)
    requires CollisionFree(fork) && TidySet(fork, m) && AtHome(fork, x)
    ensures Orderly(fork, m, x)
  {
  }

  lemma AbsorbOneIs(decode: Decoder, fork: ForkIds, m: Items, r: Remote)
    requires CollisionFree(fork) && TidySet(fork, m) && TidyRemote(decode, fork, r)
    ensures var x := DecodeRemote(decode, r);
            AbsorbOne(decode, fork, m, r) == if x.None? then None else PlacedOrMoved(fork, m, x.value)
    ensures AbsorbOne(decode, fork, m, r).Some? ==> TidySet(fork, AbsorbOne(decode, fork, m, r).value)
  {
    hide PlacedOrMoved, CollisionFree, DecodeRemote, Absorbing, Homely, BoundsSurvive, WritesConserved, SecretsOf, Recorded, Explained, IsJoin, Disciplined;
    var x := DecodeRemote(decode, r);
    if x.Some? {
      TidyIsOrderly(fork, m, x.value);
      AbsorbIsOneMoveAtMost(fork, m, x.value);
      AbsorbingJoins(fork, m, x.value);
      var n := Absorbing(fork, m, x.value).items;
      if Homely(fork, n, []) { HomelyRows(fork, n); }
    }
  }

  lemma HomelyRows(fork: ForkIds, m: Items)
    requires Homely(fork, m, [])
    ensures AllAtHome(fork, m)
  {
  }

  ghost predicate HasValue(decode: Decoder, fork: ForkIds, m: Items, r: Remote) {
    DecodeRemote(decode, r).Some? && HeldIn(fork, m, DecodeRemote(decode, r).value)
  }

  lemma HeldIsKept(decode: Decoder, fork: ForkIds, m: Items, r: Remote, q: Remote)
    requires CollisionFree(fork) && TidySet(fork, m) && TidyRemote(decode, fork, q)
    requires HasValue(decode, fork, m, r) && AbsorbOne(decode, fork, m, q).Some?
    ensures HasValue(decode, fork, AbsorbOne(decode, fork, m, q).value, r)
  {
    hide AbsorbOne, PlacedOrMoved, HeldIn, CollisionFree, DecodeRemote, AtHome, Orderly;
    AbsorbOneIs(decode, fork, m, q);
    TidyIsOrderly(fork, m, DecodeRemote(decode, q).value);
    HeldInIsKept(fork, m, DecodeRemote(decode, r).value, DecodeRemote(decode, q).value);
  }

  /** A value changes nothing exactly if it is held, and once merged it is. */
  lemma AbsorbOneRetains(decode: Decoder, fork: ForkIds, m: Items, r: Remote)
    requires CollisionFree(fork) && TidySet(fork, m) && TidyRemote(decode, fork, r)
    ensures AbsorbOne(decode, fork, m, r) == Some(m) <==> HasValue(decode, fork, m, r)
    ensures AbsorbOne(decode, fork, m, r).Some? ==> HasValue(decode, fork, AbsorbOne(decode, fork, m, r).value, r)
  {
    hide AbsorbOne, PlacedOrMoved, HeldIn, CollisionFree, DecodeRemote, AtHome, Orderly;
    AbsorbOneIs(decode, fork, m, r);
    var x := DecodeRemote(decode, r);
    if x.Some? {
      TidyIsOrderly(fork, m, x.value);
      HeldInExactly(fork, m, x.value);
      if AbsorbOne(decode, fork, m, r).Some? { AbsorbedIsHeld(fork, m, x.value, 0); }
    }
  }

  /** Every guarantee of the pull that asks something of the vault's merge gets it from sets of items at
      home, under any derivation that gives no two credentials one id. */
  lemma ItemVaultsRetain(kindOf: KindOf, authenticate: Authenticate, decode: Decoder, fork: ForkIds)
    ensures Composes(ItemSetting(kindOf, authenticate, decode, fork))
    ensures CollisionFree(fork) ==>
              Retains(ItemSetting(kindOf, authenticate, decode, fork), m => TidySet(fork, m), r => TidyRemote(decode, fork, r))
  {
    hide AbsorbOne, AbsorbAll, CollisionFree, TidySet, TidyRemote, HasValue;
    var setting := ItemSetting(kindOf, authenticate, decode, fork);
    forall m: Items, b: seq<Remote> ensures MergeBatch(setting, m, b) == AbsorbAll(decode, fork, m, b) {
      AbsorbAllOfOne(decode, fork, m, Remote(0, []));
    }
    forall m: Items, a: seq<Remote>, b: seq<Remote>
      ensures MergeBatch(setting, m, a + b) == Then(setting, MergeBatch(setting, m, a), b)
    {
      AbsorbAllConcat(decode, fork, m, a, b);
    }
    if CollisionFree(fork) {
      forall m: Items, r: Remote | TidySet(fork, m) && TidyRemote(decode, fork, r) && MergeBatch(setting, m, [r]).Some?
        ensures TidySet(fork, MergeBatch(setting, m, [r]).value) && Has(setting, MergeBatch(setting, m, [r]).value, r)
      {
        AbsorbAllOfOne(decode, fork, m, r);
        AbsorbOneIs(decode, fork, m, r);
        AbsorbOneRetains(decode, fork, m, r);
        var n := AbsorbOne(decode, fork, m, r).value;
        AbsorbAllOfOne(decode, fork, n, r);
        AbsorbOneRetains(decode, fork, n, r);
      }
      forall m: Items, r: Remote, q: Remote
        | TidySet(fork, m) && TidyRemote(decode, fork, r) && TidyRemote(decode, fork, q) && Has(setting, m, r) && MergeBatch(setting, m, [q]).Some?
        ensures Has(setting, MergeBatch(setting, m, [q]).value, r)
      {
        AbsorbAllOfOne(decode, fork, m, r);
        AbsorbAllOfOne(decode, fork, m, q);
        AbsorbOneIs(decode, fork, m, q);
        AbsorbOneRetains(decode, fork, m, r);
        HeldIsKept(decode, fork, m, r, q);
        var n := AbsorbOne(decode, fork, m, q).value;
        AbsorbAllOfOne(decode, fork, n, r);
        AbsorbOneRetains(decode, fork, n, r);
      }
    }
  }

  /** Stopped anywhere and resumed, a pull into a set of items ends where an uninterrupted one does, when
      what the feed holds is at home. */
  lemma ItemsSurviveCrashes(kindOf: KindOf, authenticate: Authenticate, decode: Decoder, fork: ForkIds,
                            entries: seq<FeedChange>, p: Pulling<Items>, smooth: Remoteness, broken: Remoteness, resumed: Remoteness,
                            limits: (nat, nat, nat), left: Durable<Items>)
    requires CollisionFree(fork) && TidySet(fork, p.vault)
    requires forall c | c in entries && c.envelope.Some? :: TidyRemote(decode, fork, Remote(c.itemId, c.envelope.value))
    requires ChangeFeeds.Ascending(entries) && p.saved == p.state
    requires Honest(smooth, entries) && Honest(broken, entries) && Honest(resumed, entries)
    requires LeftBy(ItemSetting(kindOf, authenticate, decode, fork), broken, p, limits.1, left)
    requires Pulled(ItemSetting(kindOf, authenticate, decode, fork), smooth, p, limits.0).1.None?
    requires Pulled(ItemSetting(kindOf, authenticate, decode, fork), resumed, Restarted(left), limits.2).1.None?
    ensures var setting := ItemSetting(kindOf, authenticate, decode, fork);
            var whole := Pulled(setting, smooth, p, limits.0).0;
            var second := Pulled(setting, resumed, Restarted(left), limits.2).0;
            whole.vault == second.vault && whole.state == second.state
  {
    hide Pulled, LeftBy, Honest, ChangeFeeds.Ascending, CollisionFree, TidySet, TidyRemote, Retains, Composes, ItemSetting, Restarted;
    ItemVaultsRetain(kindOf, authenticate, decode, fork);
    CrashAnywhere(ItemSetting(kindOf, authenticate, decode, fork), entries, p, smooth, broken, resumed, limits, left,
                  m => TidySet(fork, m), r => TidyRemote(decode, fork, r));
  }
}

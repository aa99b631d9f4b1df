/** The vault as a push sees it: a set of items, each beside the envelope it is stored as
    (crates/misty-vault/src/vault/sync.rs, `merge_remote` and `records_for`), and why it keeps every
    promise a push relies on. */
module ItemKeepers {
  import opened Foundations
  import opened VaultItem
  import opened ItemSets
  import opened ItemVaults
  import opened ChangeFeeds
  import opened SyncPull
  import opened SyncPush
  import opened PushProgress

  datatype Sealed = Sealed(item: Item, envelope: Bytes)

  type Rows = map<ItemId, Sealed>

  function ItemsOf(v: Rows): Items { map k | k in v :: v[k].item }

  /** Opening and decoding, encoding and sealing, and the derivation of ids for forked credentials. */
  datatype Codec = Codec(decode: Decoder, encode: Item -> Bytes, fork: ForkIds)

  // ----- merging a batch -----------------------------------------------------------------------------------

  /** The rows a batch that is absorbed writes. */
  function Touched(c: Codec, m: Items, batch: seq<Remote>): set<ItemId> {
    if batch == [] then {}
    else
      var (init, last) := (batch[..|batch| - 1], batch[|batch| - 1]);
      match (AbsorbAll(c.decode, c.fork, m, init), DecodeRemote(c.decode, last))
      case (Some(before), Some(item)) => Touched(c, m, init) + set k | k in Absorbing(c.fork, before, item).touched
      case _ => Touched(c, m, init)
  }

  /** The bytes of the last change of the batch that is exactly this item. */
  function Verbatim(c: Codec, item: Item, batch: seq<Remote>): Option<Bytes> {
    if batch == [] then None
    else
      var last := batch[|batch| - 1];
      if DecodeRemote(c.decode, last) == Some(item) then Some(last.envelope) else Verbatim(c, item, batch[..|batch| - 1])
  }

  /** A row that came out as a peer sent it keeps the peer's bytes; any other is sealed anew. */
  function Reseal(c: Codec, item: Item, batch: seq<Remote>): Sealed {
    var kept := Verbatim(c, item, batch);
    Sealed(item, if kept.Some? then kept.value else c.encode(item))
  }

  function MergeRows(c: Codec, v: Rows, batch: seq<Remote>): Option<Rows> {
    match AbsorbAll(c.decode, c.fork, ItemsOf(v), batch)
    case None => None
    case Some(n) => Some(Rewritten(c, v, n, Touched(c, ItemsOf(v), batch), batch))
  }

  function Rewritten(c: Codec, v: Rows, n: Items, touched: set<ItemId>, batch: seq<Remote>): Rows {
    map k | k in n :: if k in v && k !in touched then v[k] else Reseal(c, n[k], batch)
  }

  function StoredIn(v: Rows, k: ItemId): Option<StoredRow> { if k in v then Some(StoredRow(Kind.Item, v[k].envelope)) else None }

  function ItemKeeper(kindOf: KindOf, authenticate: Authenticate, c: Codec): Keeper<Rows> {
    Keeper(Setting(kindOf, authenticate, (v, batch) => MergeRows(c, v, batch)), StoredIn)
  }

  // ----- which vaults and envelopes the promises cover -----------------------------------------------------------

  /** `small` items can be sealed within the cap, and stay so when they are merged or moved. */
  ghost predicate Roomy(c: Codec, small: Item -> bool) {
    && (forall i :: small(i) ==> c.decode(c.encode(i)) == Some(i) && |c.encode(i)| <= MAX_ENVELOPE_LEN)
    && (forall a, b | small(a) && small(b) && MergeItem(a, b).Ok? :: small(MergeItem(a, b).value))
    && (forall a, b, j | small(a) && small(b) && a.id == b.id && LexLess(a.secret, b.secret) && c.fork(b.id, b.secret) == Some(j) ::
          small(b.(id := j)))
  }

  /** One clock names one write throughout `family`, and derived ids always exist and never collide. */
  ghost predicate Ordered(c: Codec, family: set<Item>, small: Item -> bool) {
    CollisionFree(c.fork) && Total(c.fork) && Disciplined(family) && Roomy(c, small)
  }

  ghost predicate SoundRow(c: Codec, small: Item -> bool, row: Sealed) {
    c.decode(row.envelope) == Some(row.item) && |row.envelope| <= MAX_ENVELOPE_LEN && small(row.item)
  }

  ghost predicate SoundRows(c: Codec, family: set<Item>, small: Item -> bool, v: Rows) {
    && TidySet(c.fork, ItemsOf(v)) && AllFrom(family, ItemsOf(v))
    && forall k | k in v :: SoundRow(c, small, v[k])
  }

  /** An envelope of an item of that family, addressed to where it belongs. */
  ghost predicate FamilyEnvelope(c: Codec, family: set<Item>, small: Item -> bool, k: ItemId, e: Bytes) {
    && |e| <= MAX_ENVELOPE_LEN && DecodeRemote(c.decode, Remote(k, e)).Some?
    && var x := DecodeRemote(c.decode, Remote(k, e)).value;
       AtHome(c.fork, x) && WritesFrom(family, x) && small(x)
  }

  ghost predicate HoldsValue(c: Codec, v: Rows, r: Remote) { HasValue(c.decode, c.fork, ItemsOf(v), r) }

  // ----- the promises ------------------------------------------------------------------------------------------------

  lemma PlacingStaysSmall(c: Codec, small: Item -> bool, m: Items, x: Item)
    requires Roomy(c, small) && small(x) && (forall k | k in m :: small(m[k])) && Placed(m, x).Some?
    ensures var n := Placed(m, x).value; forall k | k in n :: small(n[k])
  {
    hide MergeItem, LexLess;
    var n := Placed(m, x).value;
    forall k | k in n ensures small(n[k]) {
      if k != x.id { assert n[k] == m[k]; }
    }
  }

  lemma AbsorbingStaysSmall(c: Codec, small: Item -> bool, m: Items, x: Item)
    requires Keyed(m) && Roomy(c, small) && small(x) && (forall k | k in m :: small(m[k])) && PlacedOrMoved(c.fork, m, x).Some?
    ensures var n := PlacedOrMoved(c.fork, m, x).value; forall k | k in n :: small(n[k])
  {
    hide Placed, LocalKeepsId, Roomy, ItemSets.Keeper, Mover;
    if !Diverges(m, x) {
      PlacingStaysSmall(c, small, m, x);
    } else {
      DifferentSecretsAreOrdered(m, x);
      var (keeper, mover) := (ItemSets.Keeper(m, x), Mover(m, x));
      var j := c.fork(x.id, mover.secret).value;
      MovedIsSmall(c, small, keeper, mover, j);
      var kept := m[x.id := keeper];
      forall k | k in kept ensures small(kept[k]) {
        if k != x.id { assert kept[k] == m[k]; }
      }
      PlacingStaysSmall(c, small, kept, mover.(id := j));
    }
  }

  lemma MovedIsSmall(c: Codec, small: Item -> bool, a: Item, b: Item, j: ItemId)
    requires Roomy(c, small) && small(a) && small(b) && a.id == b.id && LexLess(a.secret, b.secret) && c.fork(b.id, b.secret) == Some(j)
    ensures small(b.(id := j))
  {
    hide MergeItem, LexLess;
  }

  lemma ItemsOfSound(c: Codec, family: set<Item>, small: Item -> bool, v: Rows)
    requires SoundRows(c, family, small, v)
    ensures ItemsOf(v).Keys == v.Keys && forall k | k in v :: ItemsOf(v)[k] == v[k].item && small(v[k].item)
  {
  }

  lemma TouchedByOne(c: Codec, m: Items, r: Remote)
    requires DecodeRemote(c.decode, r).Some?
    ensures Touched(c, m, [r]) == set k | k in Absorbing(c.fork, m, DecodeRemote(c.decode, r).value).touched
  {
    hide Absorbing, DecodeRemote;
    assert [r][..0] == [];
    assert Touched(c, m, []) == {};
    assert AbsorbAll(c.decode, c.fork, m, []) == Some(m);
  }

  lemma VerbatimOfOne(c: Codec, item: Item, r: Remote)
    ensures Verbatim(c, item, [r]) == if DecodeRemote(c.decode, r) == Some(item) then Some(r.envelope) else None
  {
    hide DecodeRemote;
    assert Verbatim(c, item, [r][..0]) == None;
  }

  /** The items after one envelope of the family was taken: never refused, tidy, and of the family. */
  lemma FamilyIsTaken(c: Codec, family: set<Item>, small: Item -> bool, m: Items, k: ItemId, e: Bytes)
    requires Ordered(c, family, small) && FamilyEnvelope(c, family, small, k, e)
    requires TidySet(c.fork, m) && AllFrom(family, m)
    ensures var x := DecodeRemote(c.decode, Remote(k, e)).value;
            var r := Absorbing(c.fork, m, x);
            && r.error.None? && AbsorbAll(c.decode, c.fork, m, [Remote(k, e)]) == Some(r.items)
            && AbsorbOne(c.decode, c.fork, m, Remote(k, e)) == Some(r.items)
            && PlacedOrMoved(c.fork, m, x) == Some(r.items)
            && TidySet(c.fork, r.items) && AllFrom(family, r.items) && Recorded(m, r.items, r.touched)
  {
    hide Absorbing, AbsorbAll, DecodeRemote, PlacedOrMoved, Disciplined, CollisionFree, Total, Roomy, AtHome, WritesFrom, WritesConserved, Recorded,
         BoundsSurvive, Explained, IsJoin, SecretsOf;
    var x := DecodeRemote(c.decode, Remote(k, e)).value;
    AbsorbAllOfOne(c.decode, c.fork, m, Remote(k, e));
    TidyIsOrderly(c.fork, m, x);
    AbsorbingJoins(c.fork, m, x);
    DisciplineOfWrites(family, m.Values + {x});
    AbsorbOneIs(c.decode, c.fork, m, Remote(k, e));
    var r := Absorbing(c.fork, m, x);
    WritesTrace(family, m, map[x.id := x], x.id, r.items);
  }

  lemma RewrittenIsSound(c: Codec, small: Item -> bool, v: Rows, n: Items, touched: set<ItemId>, r: Remote)
    requires Roomy(c, small) && |r.envelope| <= MAX_ENVELOPE_LEN && forall k | k in v :: SoundRow(c, small, v[k])
    requires forall k | k in n :: small(n[k]) && (k in v && k !in touched ==> v[k].item == n[k])
    ensures var rows := Rewritten(c, v, n, touched, [r]);
            ItemsOf(rows) == n && forall k | k in rows :: SoundRow(c, small, rows[k])
  {
    hide Verbatim, MergeItem, LexLess;
    var rows := Rewritten(c, v, n, touched, [r]);
    forall k | k in rows ensures SoundRow(c, small, rows[k]) && rows[k].item == n[k] {
      VerbatimOfOne(c, n[k], r);
    }
  }

  /** Taking one envelope of the family: the rows stay sound, and they are the items absorbed. */
  lemma RowsStaySound(c: Codec, family: set<Item>, small: Item -> bool, v: Rows, k: ItemId, e: Bytes)
    requires Ordered(c, family, small) && FamilyEnvelope(c, family, small, k, e) && SoundRows(c, family, small, v)
    ensures MergeRows(c, v, [Remote(k, e)]).Some?
    ensures var n := MergeRows(c, v, [Remote(k, e)]).value;
            SoundRows(c, family, small, n) && AbsorbOne(c.decode, c.fork, ItemsOf(v), Remote(k, e)) == Some(ItemsOf(n))
  {
    hide Absorbing, AbsorbAll, AbsorbOne, PlacedOrMoved, AtHome, WritesFrom, TidySet, AllFrom, Disciplined, CollisionFree, Total, Touched, Rewritten,
         ItemsOf, Roomy, SoundRow, DecodeRemote, StrictlyAscending, Recorded;
    var (m, r) := (ItemsOf(v), Remote(k, e));
    var x := DecodeRemote(c.decode, r).value;
    ItemsOfSound(c, family, small, v);
    FamilyIsTaken(c, family, small, m, k, e);
    TouchedByOne(c, m, r);
    var after := Absorbing(c.fork, m, x);
    TidyIsKeyed(c.fork, m);
    AbsorbingStaysSmall(c, small, m, x);
    UntouchedRows(m, after.items, after.touched, Touched(c, m, [r]));
    RewrittenIsSound(c, small, v, after.items, Touched(c, m, [r]), r);
  }

  lemma UntouchedRows(m: Items, n: Items, touched: seq<ItemId>, rows: set<ItemId>)
    requires Recorded(m, n, touched) && rows == set k | k in touched
    ensures forall k | k in n && k !in rows :: k in m && n[k] == m[k]
  {
  }

  lemma TidyIsKeyed(fork: ForkIds, m: Items)
    requires TidySet(fork, m)
    ensures Keyed(m)
  {
  }

  /** A vault of items keeps every promise a push asks for: it never refuses an envelope of the family,
      seals within the cap, and remembers what it merged, what it held and what it stores. */
  lemma ItemKeeperObliges(kindOf: KindOf, authenticate: Authenticate, c: Codec, family: set<Item>, small: Item -> bool)
    requires Ordered(c, family, small)
    ensures Obliging(ItemKeeper(kindOf, authenticate, c), v => SoundRows(c, family, small, v), (k: ItemId, e: Bytes) => FamilyEnvelope(c, family, small, k, e))
    ensures Remembers(ItemKeeper(kindOf, authenticate, c), v => SoundRows(c, family, small, v), (k: ItemId, e: Bytes) => FamilyEnvelope(c, family, small, k, e),
                      (v, r) => HoldsValue(c, v, r))
  {
    hide MergeRows, SoundRows, FamilyEnvelope, HasValue, Ordered, StoredIn;
    forall v: Rows, k: ItemId, e: Bytes | SoundRows(c, family, small, v) && FamilyEnvelope(c, family, small, k, e)
      ensures MergeRows(c, v, [Remote(k, e)]).Some? && SoundRows(c, family, small, MergeRows(c, v, [Remote(k, e)]).value)
      ensures HoldsValue(c, MergeRows(c, v, [Remote(k, e)]).value, Remote(k, e))
    {
      RowsStaySound(c, family, small, v, k, e);
      RowsRemember(c, family, small, v, k, e, Remote(k, e));
    }
    forall v: Rows, k: ItemId, e: Bytes, r: Remote | SoundRows(c, family, small, v) && FamilyEnvelope(c, family, small, k, e) && HoldsValue(c, v, r)
      ensures HoldsValue(c, MergeRows(c, v, [Remote(k, e)]).value, r)
    {
      RowsRemember(c, family, small, v, k, e, r);
    }
    forall v: Rows, k: ItemId | SoundRows(c, family, small, v)
      ensures StoredIn(v, k).Some? ==>
                |StoredIn(v, k).value.envelope| <= MAX_ENVELOPE_LEN && HoldsValue(c, v, Remote(k, StoredIn(v, k).value.envelope))
    {
      StoredIsHeld(c, family, small, v, k);
    }
  }

  lemma StoredIsHeld(c: Codec, family: set<Item>, small: Item -> bool, v: Rows, k: ItemId)
    requires SoundRows(c, family, small, v)
    ensures StoredIn(v, k).Some? ==>
              |StoredIn(v, k).value.envelope| <= MAX_ENVELOPE_LEN && HoldsValue(c, v, Remote(k, StoredIn(v, k).value.envelope))
  {
    hide Held, LexLess, AllFrom, AtHome;
    if k in v {
      HeldReflexive(v[k].item);
      assert ItemsOf(v)[k] == v[k].item;
      assert SoundRow(c, small, v[k]);
    }
  }

  lemma RowsRemember(c: Codec, family: set<Item>, small: Item -> bool, v: Rows, k: ItemId, e: Bytes, r: Remote)
    requires Ordered(c, family, small) && SoundRows(c, family, small, v) && FamilyEnvelope(c, family, small, k, e)
    requires HoldsValue(c, v, r) || r == Remote(k, e)
    ensures MergeRows(c, v, [Remote(k, e)]).Some? && HoldsValue(c, MergeRows(c, v, [Remote(k, e)]).value, r)
  {
    RowsStaySound(c, family, small, v, k, e);
    hide MergeRows, HeldIn, AbsorbOne, Disciplined, CollisionFree, Total, Roomy, WritesFrom, AllFrom, SoundRow;
    var m := ItemsOf(v);
    assert TidyRemote(c.decode, c.fork, Remote(k, e));
    if r == Remote(k, e) {
      AbsorbOneRetains(c.decode, c.fork, m, r);
    } else {
      HeldIsKept(c.decode, c.fork, m, r, Remote(k, e));
    }
  }

  /** For a vault of items: fewer than eight interruptions, and the push succeeds. */
  lemma ItemPushSurvives(kindOf: KindOf, authenticate: Authenticate, c: Codec, family: set<Item>, small: Item -> bool,
                         foreign: nat -> seq<Foreign>, p: Pushing<Rows>, k: ItemId)
    requires Ordered(c, family, small) && SoundRows(c, family, small, p.vault)
    requires var setting := ItemKeeper(kindOf, authenticate, c).setting;
             && RowPooled(setting, (k: ItemId, e: Bytes) => FamilyEnvelope(c, family, small, k, e), p.server, k)
             && Sane(setting, p.server) && Usual(p, k)
             && forall i: nat | i <= MAX_CONFLICT_RETRIES ::
                  Peers(setting, foreign(i)) && PeersPooled(setting, (k: ItemId, e: Bytes) => FamilyEnvelope(c, family, small, k, e), foreign(i), k)
    requires p.server.head + Remaining(foreign, 0) + 1 < MAX_SEQ
    requires |Overtaken(foreign, k)| < MAX_CONFLICT_RETRIES
    ensures var keeper := ItemKeeper(kindOf, authenticate, c);
            Pushed(keeper, foreign, p, k, 0).1.None? && Settled(keeper, Pushed(keeper, foreign, p, k, 0).0, k)
  {
    hide ItemKeeper, Pushed, Sane, Peers, Obliging, Settled, Usual, RowPooled, PeersPooled, Ordered, SoundRows, FamilyEnvelope, Overtaken, Remaining;
    ItemKeeperObliges(kindOf, authenticate, c, family, small);
    PushSurvivesBusyPeers(ItemKeeper(kindOf, authenticate, c), v => SoundRows(c, family, small, v),
                          (k: ItemId, e: Bytes) => FamilyEnvelope(c, family, small, k, e), foreign, p, k);
  }

  // ----- such keepers exist ------------------------------------------------------------------------------------------

  /** Two versions of an item, each with one envelope, and ids derived past the item's own. */
  function PairCodec(a: Item, b: Item): Codec {
    Codec(e => if e == [1] then Some(a) else if e == [2] then Some(b) else None,
          i => if i == a then [1] else if i == b then [2] else [],
          (k, s) => Some(a.id + 1 + Numbered(s)))
  }

  lemma PairMerges(a: Item, b: Item, x: Item, y: Item)
    requires Leq(a, b) && x in {a, b} && y in {a, b}
    ensures SameClockSameWrite(x, y) && MergeItem(x, y).Ok? && MergeItem(x, y).value in {a, b}
  {
    LeqReflexive(a);
    LeqReflexive(b);
    BelowMerges(a, b);
    BelowMerges(a, a);
    BelowMerges(b, b);
    assert SameClockSameWrite(b, a) && SameClockSameWrite(a, b);
    if x == a && y == b { MergeCommutesExactlyWhen(a, b); }
  }

  lemma PairIsOrdered(a: Item, b: Item)
    requires Leq(a, b)
    ensures Ordered(PairCodec(a, b), {a, b}, i => i in {a, b})
  {
    hide MergeItem, Leq, SameClockSameWrite;
    var c := PairCodec(a, b);
    assert a.secret == b.secret && a.id == b.id by { PairIsOneCredential(a, b); }
    forall k, s, k', s' | c.fork(k, s).Some? && c.fork(k, s) == c.fork(k', s') ensures s == s' { NumbersDiffer(s, s'); }
    forall x, y | x in {a, b} && y in {a, b} ensures SameClockSameWrite(x, y) && MergeItem(x, y).Ok? && MergeItem(x, y).value in {a, b} {
      PairMerges(a, b, x, y);
    }
    LexTotal(a.secret, a.secret);
    PairEncodes(a, b);
  }

  lemma PairIsOneCredential(a: Item, b: Item)
    requires Leq(a, b)
    ensures a.id == b.id && a.secret == b.secret
  {
  }

  lemma PairEncodes(a: Item, b: Item)
    ensures var c := PairCodec(a, b); forall i | i in {a, b} :: c.decode(c.encode(i)) == Some(i) && |c.encode(i)| <= MAX_ENVELOPE_LEN
  {
    assert MAX_ENVELOPE_LEN > 1;
  }

  /** None of this is vacuous: for any item and any version of it that holds more, a keeper storing the one
      and a server holding the other meet every assumption, and the push has a real conflict to resolve. */
  lemma ItemKeepersExist(a: Item, b: Item)
    requires Leq(a, b)
    ensures var c := PairCodec(a, b);
            var small := i => i in {a, b};
            && Ordered(c, {a, b}, small)
            && SoundRows(c, {a, b}, small, map[a.id := Sealed(a, [1])])
            && FamilyEnvelope(c, {a, b}, small, b.id, [2])
            && (a != b ==> MergeRows(c, map[a.id := Sealed(a, [1])], [Remote(b.id, [2])]) == Some(map[b.id := Sealed(b, [2])]))
  {
    PairIsOrdered(a, b);
    PairIsOneCredential(a, b);
    PairStarts(a, b);
    if a != b { PairConflicts(a, b); }
  }

  lemma PairStarts(a: Item, b: Item)
    requires a.id == b.id && a.secret == b.secret
    ensures var c := PairCodec(a, b);
            var small := i => i in {a, b};
            && SoundRows(c, {a, b}, small, map[a.id := Sealed(a, [1])])
            && FamilyEnvelope(c, {a, b}, small, b.id, [2])
  {
    assert MAX_ENVELOPE_LEN > 1;
    MembersWriteFrom({a, b}, {a, b});
    hide WritesFrom;
    var v := map[a.id := Sealed(a, [1])];
    assert ItemsOf(v) == map[a.id := a];
    assert [2] != [1] by { assert [2][0] != [1][0]; }
  }

  lemma PairConflicts(a: Item, b: Item)
    requires Leq(a, b) && a != b
    ensures MergeRows(PairCodec(a, b), map[a.id := Sealed(a, [1])], [Remote(b.id, [2])]) == Some(map[b.id := Sealed(b, [2])])
  {
    hide Leq, MergeItem, Ordered, SoundRows, Absorbing, AbsorbAll, Touched, Rewritten, PairCodec, WritesFrom, TidySet, AllFrom, AtHome;
    var (c, v, r, m) := (PairCodec(a, b), map[a.id := Sealed(a, [1])], Remote(b.id, [2]), map[a.id := a]);
    var small := i => i in {a, b};
    PairIsOrdered(a, b);
    PairIsOneCredential(a, b);
    PairStarts(a, b);
    PairDecodes(a, b);
    assert ItemsOf(v) == m;
    assert TidySet(c.fork, m) && AllFrom({a, b}, m) by { SoundIsTidy(c, {a, b}, small, v); }
    FamilyIsTaken(c, {a, b}, small, m, b.id, [2]);
    PairPlaces(c.fork, a, b);
    TouchedByOne(c, m, r);
    var after := Absorbing(c.fork, m, b);
    UntouchedRows(m, after.items, after.touched, Touched(c, m, [r]));
    assert b.id in after.items && b.id in Touched(c, m, [r]);
    PairRewrites(a, b, Touched(c, m, [r]));
  }

  lemma SoundIsTidy(c: Codec, family: set<Item>, small: Item -> bool, v: Rows)
    requires SoundRows(c, family, small, v)
    ensures TidySet(c.fork, ItemsOf(v)) && AllFrom(family, ItemsOf(v))
  {
  }

  lemma PairDecodes(a: Item, b: Item)
    requires a.id == b.id
    ensures DecodeRemote(PairCodec(a, b).decode, Remote(b.id, [2])) == Some(b)
  {
    assert [2] != [1] by { assert [2][0] != [1][0]; }
  }

  lemma PairMergesToLater(a: Item, b: Item)
    requires Leq(a, b)
    ensures MergeItem(a, b) == Ok(b)
  {
    BelowMerges(a, b);
    assert StonesAgree(a, b);
    MergeCommutesExactlyWhen(a, b);
  }

  lemma PairPlaces(fork: ForkIds, a: Item, b: Item)
    requires Leq(a, b) && a.id == b.id && a.secret == b.secret
    ensures PlacedOrMoved(fork, map[a.id := a], b) == Some(map[b.id := b])
  {
    hide MergeItem, Leq;
    PairMergesToLater(a, b);
    var m := map[a.id := a];
    assert m[b.id] == a && m[b.id := b] == map[b.id := b];
  }

  lemma PairRewrites(a: Item, b: Item, touched: set<ItemId>)
    requires a.id == b.id && b.id in touched
    ensures Rewritten(PairCodec(a, b), map[a.id := Sealed(a, [1])], map[b.id := b], touched, [Remote(b.id, [2])]) == map[b.id := Sealed(b, [2])]
  {
    hide PairCodec;
    PairDecodes(a, b);
    VerbatimOfOne(PairCodec(a, b), b, Remote(b.id, [2]));
  }
}

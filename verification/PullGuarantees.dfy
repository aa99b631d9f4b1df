/** What a pull guarantees: against any server at all, against an honest one, and across a crash. */
module PullGuarantees {
  import opened Foundations
  import opened ChangeFeeds
  import opened SyncPull

  // ----- any server: progress ---------------------------------------------------------------------

  lemma NotRolledBack(feed: ChangeFeed, cursor: int)
    requires RolledBack(feed, cursor).None?
    ensures forall c | c in feed.changes :: c.seqNo > cursor
    ensures feed.nextSeq >= cursor
  {
  }

  lemma FetchedIsWellFormed(server: Remoteness, request: nat, cursor: Option<int>, limit: nat)
    requires Fetched(server, request, cursor, limit).Ok?
    ensures WellFormed(Fetched(server, request, cursor, limit).value)
  {
    DecodedFeedIsWellFormed(server(request, cursor, limit).raw);
  }

  /** No page moves the cursor back, and a page after which the loop goes on moves it forward. */
  lemma PagesMoveForward<Vault>(setting: Setting<Vault>, p: Pulling<Vault>, feed: ChangeFeed)
    requires WellFormed(feed)
    ensures var (q, verdict) := TakePage(setting, p, feed);
            Since(q.state.cursor) >= Since(p.state.cursor)
            && (verdict.Again? ==> Since(q.state.cursor) > Since(p.state.cursor))
  {
    hide PageApplied, RolledBack, Halts, HaltAt;
    var cursor := Since(p.state.cursor);
    var used := feed.changes[..HaltAt(setting, feed.changes)];
    AppliedKeepsCursor(setting, p.(pages := p.pages + 1, changesSeen := p.changesSeen + |feed.changes|), used);
    if RolledBack(feed, cursor).None? {
      NotRolledBack(feed, cursor);
      if feed.changes != [] { assert feed.changes[0] in feed.changes; }
      if used != [] { assert used[|used| - 1] in feed.changes; }
      HaltedIsNotEmpty(setting, feed.changes);
    }
  }

  lemma AppliedKeepsCursor<Vault>(setting: Setting<Vault>, p: Pulling<Vault>, changes: seq<FeedChange>)
    ensures PageApplied(setting, p, changes).0.state.cursor == p.state.cursor
  {
  }

  lemma HaltedIsNotEmpty<Vault>(setting: Setting<Vault>, changes: seq<FeedChange>)
    ensures Halts(setting, changes) ==> HaltAt(setting, changes) > 0
    ensures !Halts(setting, changes) ==> HaltAt(setting, changes) == |changes|
  {
  }

  lemma {:induction false} PullNeverMovesBack<Vault>(setting: Setting<Vault>, server: Remoteness, p: Pulling<Vault>, limit: nat)
    ensures Since(Pulled(setting, server, p, limit).0.state.cursor) >= Since(p.state.cursor)
    decreases MAX_PAGES_PER_SYNC - p.pages, limit
  {
    hide TakePage, Fetched, Pulled;
    if p.pages >= MAX_PAGES_PER_SYNC {
      PullEnds(setting, server, p, limit);
    } else {
      PullTurn(setting, server, p, limit);
      var asked := p.(requests := p.requests + 1);
      match Fetched(server, p.requests, p.state.cursor, limit)
      case Err(error) =>
        if TooBig(error) && limit > 1 { PullNeverMovesBack(setting, server, asked, limit / 2); }
      case Ok(feed) =>
        FetchedIsWellFormed(server, p.requests, p.state.cursor, limit);
        PagesMoveForward(setting, asked, feed);
        var (q, verdict) := TakePage(setting, asked, feed);
        if verdict.Again? { PullNeverMovesBack(setting, server, q, limit); }
    }
  }

  function Log2(n: nat): nat { if n <= 1 then 0 else 1 + Log2(n / 2) }

  /** However the server answers, a pull makes at most one request per page it may still read, plus
      one per halving of the limit. */
  lemma {:induction false} PullIsBounded<Vault>(setting: Setting<Vault>, server: Remoteness, p: Pulling<Vault>, limit: nat)
    requires p.pages <= MAX_PAGES_PER_SYNC
    ensures var q := Pulled(setting, server, p, limit).0;
            q.pages <= MAX_PAGES_PER_SYNC
            && q.requests - p.requests <= MAX_PAGES_PER_SYNC - p.pages + Log2(limit)
    decreases MAX_PAGES_PER_SYNC - p.pages, limit
  {
    hide TakePage, Fetched, Pulled;
    if p.pages >= MAX_PAGES_PER_SYNC {
      PullEnds(setting, server, p, limit);
    } else {
      PullTurn(setting, server, p, limit);
      var asked := p.(requests := p.requests + 1);
      match Fetched(server, p.requests, p.state.cursor, limit)
      case Err(error) =>
        if TooBig(error) && limit > 1 { PullIsBounded(setting, server, asked, limit / 2); }
      case Ok(feed) =>
        PageKeepsRequests(setting, asked, feed);
        var (q, verdict) := TakePage(setting, asked, feed);
        if verdict.Again? { PullIsBounded(setting, server, q, limit); }
    }
  }

  lemma PageKeepsRequests<Vault>(setting: Setting<Vault>, p: Pulling<Vault>, feed: ChangeFeed)
    ensures TakePage(setting, p, feed).0.requests == p.requests
  {
  }

  // ----- any server: what was applied ---------------------------------------------------------------

  function Then<Vault>(setting: Setting<Vault>, vault: Option<Vault>, batch: seq<Remote>): Option<Vault> {
    if vault.None? then None else MergeBatch(setting, vault.value, batch)
  }

  /** Batches compose: a vault takes one batch after another exactly as it takes them together. */
  ghost predicate Composes<Vault(!new)>(setting: Setting<Vault>) {
    forall v, a, b :: MergeBatch(setting, v, a + b) == Then(setting, MergeBatch(setting, v, a), b)
  }

  /** On the vaults that are `sound`, for the values that `fit` them: merging stays sound, merging twice is
      merging once, and nothing merged is ever unmerged. */
  ghost predicate Retains<Vault(!new)>(setting: Setting<Vault>, sound: Vault -> bool, fits: Remote -> bool) {
    && (forall v, r :: sound(v) && fits(r) && MergeBatch(setting, v, [r]).Some? ==>
          sound(MergeBatch(setting, v, [r]).value) && Has(setting, MergeBatch(setting, v, [r]).value, r))
    && (forall v, r, q :: sound(v) && fits(r) && fits(q) && Has(setting, v, r) && MergeBatch(setting, v, [q]).Some? ==>
          Has(setting, MergeBatch(setting, v, [q]).value, r))
  }

  predicate Has<Vault(==)>(setting: Setting<Vault>, vault: Vault, r: Remote) {
    MergeBatch(setting, vault, [r]) == Some(vault)
  }

  ghost predicate Extends<Vault>(p: Pulling<Vault>, q: Pulling<Vault>) {
    |p.delivered| <= |q.delivered| && q.delivered[..|p.delivered|] == p.delivered
  }

  ghost function New<Vault>(p: Pulling<Vault>, q: Pulling<Vault>): seq<FeedChange>
    requires Extends(p, q)
  {
    q.delivered[|p.delivered|..]
  }

  /** `q` is `p` with some further changes applied, all of them between the two cursors and in order. */
  ghost predicate AppliedMore<Vault>(setting: Setting<Vault>, p: Pulling<Vault>, q: Pulling<Vault>) {
    && Extends(p, q)
    && Ascending(New(p, q))
    && (forall c | c in New(p, q) :: Since(p.state.cursor) < c.seqNo <= Since(q.state.cursor))
    && Since(p.state.cursor) <= Since(q.state.cursor)
    && q.state.known == Record(setting, p.state.known, New(p, q))
    && Some(q.vault) == MergeBatch(setting, p.vault, Batch(setting, New(p, q)))
  }

  lemma {:induction false} RecordConcat<Vault>(setting: Setting<Vault>, known: map<ItemId, KnownRow>, a: seq<FeedChange>, b: seq<FeedChange>)
    ensures Record(setting, known, a + b) == Record(setting, Record(setting, known, a), b)
    decreases |b|
  {
    hide RecordOne;
    if b == [] {
      assert a + b == a;
    } else {
      assert (a + b)[..|a + b| - 1] == a + b[..|b| - 1];
      RecordConcat(setting, known, a, b[..|b| - 1]);
    }
  }

  lemma {:induction false} BatchConcat<Vault>(setting: Setting<Vault>, a: seq<FeedChange>, b: seq<FeedChange>)
    ensures Batch(setting, a + b) == Batch(setting, a) + Batch(setting, b)
    decreases |b|
  {
    hide Merged;
    if b == [] {
      assert a + b == a;
    } else {
      assert (a + b)[..|a + b| - 1] == a + b[..|b| - 1];
      BatchConcat(setting, a, b[..|b| - 1]);
    }
  }

  lemma AppliedMoreTransitive<Vault(!new)>(setting: Setting<Vault>, p: Pulling<Vault>, q: Pulling<Vault>, r: Pulling<Vault>)
    requires Composes(setting) && AppliedMore(setting, p, q) && AppliedMore(setting, q, r)
    ensures AppliedMore(setting, p, r)
  {
    hide Batch, Record, MergeBatch;
    var (a, b) := (New(p, q), New(q, r));
    assert r.delivered[..|p.delivered|] == q.delivered[..|p.delivered|];
    assert New(p, r) == a + b;
    RecordConcat(setting, p.state.known, a, b);
    BatchConcat(setting, a, b);
    forall i, j | 0 <= i < j < |a + b| ensures (a + b)[i].seqNo < (a + b)[j].seqNo {
      if i < |a| <= j {
        assert (a + b)[i] in a && (a + b)[j] in b;
      }
    }
  }

  lemma AppliedNothing<Vault>(setting: Setting<Vault>, p: Pulling<Vault>, q: Pulling<Vault>)
    requires q.vault == p.vault && q.state == p.state && q.delivered == p.delivered
    ensures AppliedMore(setting, p, q)
  {
    assert New(p, q) == [];
  }

  /** The used part of a page that was not rolled back lies between the two cursors, in order. */
  lemma UsedIsBetween<Vault>(setting: Setting<Vault>, feed: ChangeFeed, cursor: int)
    requires WellFormed(feed) && RolledBack(feed, cursor).None?
    ensures var used := feed.changes[..HaltAt(setting, feed.changes)];
            && (Halts(setting, feed.changes) ==> used != [])
            && var next := if Halts(setting, feed.changes) then used[|used| - 1].seqNo else feed.nextSeq;
               Ascending(used) && cursor <= next && forall c | c in used :: cursor < c.seqNo <= next
  {
    hide RolledBack, HaltAt, Halts, Bounded;
    NotRolledBack(feed, cursor);
    HaltedIsNotEmpty(setting, feed.changes);
    var n := HaltAt(setting, feed.changes);
    var used := feed.changes[..n];
    forall i | 0 <= i < n ensures cursor < used[i].seqNo <= feed.nextSeq && used[i].seqNo <= used[n - 1].seqNo {
      assert feed.changes[i] in feed.changes;
      assert i < n - 1 ==> feed.changes[i].seqNo < feed.changes[n - 1].seqNo;
    }
  }

  lemma TakenApplies<Vault>(setting: Setting<Vault>, p: Pulling<Vault>, feed: ChangeFeed)
    requires !TakePage(setting, p, feed).1.Stopped?
    ensures var q := TakePage(setting, p, feed).0;
            var used := feed.changes[..HaltAt(setting, feed.changes)];
            && RolledBack(feed, Since(p.state.cursor)).None?
            && q.delivered == p.delivered + used
            && q.state.cursor == Some(if Halts(setting, feed.changes) then used[|used| - 1].seqNo else feed.nextSeq)
            && q.state.known == Record(setting, p.state.known, used)
            && Some(q.vault) == MergeBatch(setting, p.vault, Batch(setting, used))
  {
    hide Batch, Record, MergeBatch, RolledBack, HaltAt, Halts, Rejections, RosterUpdate;
    HaltedIsNotEmpty(setting, feed.changes);
  }

  lemma PageAppliesMore<Vault>(setting: Setting<Vault>, p: Pulling<Vault>, feed: ChangeFeed)
    requires WellFormed(feed)
    ensures AppliedMore(setting, p, TakePage(setting, p, feed).0)
  {
    hide TakePage, Batch, Record, MergeBatch, RolledBack, HaltAt, Halts, WellFormed, Ascending;
    var (q, verdict) := TakePage(setting, p, feed);
    if verdict.Stopped? {
      StoppedAppliesNothing(setting, p, feed);
      AppliedNothing(setting, p, q);
    } else {
      TakenApplies(setting, p, feed);
      UsedIsBetween(setting, feed, Since(p.state.cursor));
      assert New(p, q) == feed.changes[..HaltAt(setting, feed.changes)];
    }
  }

  lemma StoppedAppliesNothing<Vault>(setting: Setting<Vault>, p: Pulling<Vault>, feed: ChangeFeed)
    requires TakePage(setting, p, feed).1.Stopped?
    ensures var q := TakePage(setting, p, feed).0; q.vault == p.vault && q.state == p.state && q.saved == p.saved && q.delivered == p.delivered
  {
  }

  /** Against any server, a pull that ends for any reason has applied a strictly ascending run of
      changes past the old cursor and none beyond the new one: the known rows are those changes
      recorded one by one, and the vault is the old vault merged with the ones that verified. */
  lemma {:induction false} PullAppliesWhatItDelivers<Vault(!new)>(setting: Setting<Vault>, server: Remoteness, p: Pulling<Vault>, limit: nat)
    requires Composes(setting)
    ensures AppliedMore(setting, p, Pulled(setting, server, p, limit).0)
    decreases MAX_PAGES_PER_SYNC - p.pages, limit
  {
    hide TakePage, Fetched, Pulled, AppliedMore, Composes;
    if p.pages >= MAX_PAGES_PER_SYNC {
      PullEnds(setting, server, p, limit);
      AppliedNothing(setting, p, p);
    } else {
      PullTurn(setting, server, p, limit);
      var asked := p.(requests := p.requests + 1);
      AppliedNothing(setting, p, asked);
      match Fetched(server, p.requests, p.state.cursor, limit)
      case Err(error) =>
        if TooBig(error) && limit > 1 {
          PullAppliesWhatItDelivers(setting, server, asked, limit / 2);
          AppliedMoreTransitive(setting, p, asked, Pulled(setting, server, asked, limit / 2).0);
        }
      case Ok(feed) =>
        FetchedIsWellFormed(server, p.requests, p.state.cursor, limit);
        PageAppliesMore(setting, asked, feed);
        var (q, verdict) := TakePage(setting, asked, feed);
        AppliedMoreTransitive(setting, p, asked, q);
        if verdict.Again? {
          PullAppliesWhatItDelivers(setting, server, q, limit);
          AppliedMoreTransitive(setting, p, q, Pulled(setting, server, q, limit).0);
        }
    }
  }

  // ----- any server: what is recorded -------------------------------------------------------------------

  /** Nothing to verify, or within the cap, parsed, and authenticated under the id it came with. */
  predicate Acceptable<Vault>(setting: Setting<Vault>, change: FeedChange) {
    match change.envelope
    case None => true
    case Some(bytes) => |bytes| <= MAX_ENVELOPE_LEN && setting.kindOf(bytes).Some? && setting.authenticate(change.itemId, bytes).None?
  }

  /** The `i`-th change is the last acceptable one of its id. */
  ghost predicate IsLast<Vault>(setting: Setting<Vault>, changes: seq<FeedChange>, k: ItemId, i: nat) {
    && i < |changes| && changes[i].itemId == k && Acceptable(setting, changes[i])
    && forall j | i < j < |changes| && changes[j].itemId == k :: !Acceptable(setting, changes[j])
  }

  /** And the last of those that have their bytes. */
  ghost predicate IsLastWithBytes<Vault>(setting: Setting<Vault>, changes: seq<FeedChange>, k: ItemId, i: nat) {
    && i < |changes| && changes[i].itemId == k && Acceptable(setting, changes[i]) && changes[i].envelope.Some?
    && forall j | i < j < |changes| && changes[j].itemId == k && changes[j].envelope.Some? :: !Acceptable(setting, changes[j])
  }

  /** What a row is known as after changes were accepted one by one: the version, number and bytes of the
      last one, absent bytes included, and the kind of the last that had bytes, or the kind it was believed
      to have before them.  Without any, it is as it was. */
  ghost predicate KnownAfter<Vault>(setting: Setting<Vault>, known: map<ItemId, KnownRow>, changes: seq<FeedChange>, after: map<ItemId, KnownRow>, k: ItemId) {
    && (forall i: nat | IsLast(setting, changes, k, i) ::
          && k in after && after[k].version == changes[i].version && after[k].seqNo == Some(changes[i].seqNo)
          && after[k].fingerprint == changes[i].envelope)
    && (forall i: nat | IsLastWithBytes(setting, changes, k, i) ::
          k in after && setting.kindOf(changes[i].envelope.value).Some?
          && after[k].kind == KindByte(setting.kindOf(changes[i].envelope.value).value))
    && ((forall i | 0 <= i < |changes| && changes[i].itemId == k :: !(Acceptable(setting, changes[i]) && changes[i].envelope.Some?)) ==>
          (k in after ==> after[k].kind == if k in known then known[k].kind else 0))
    && ((forall i | 0 <= i < |changes| && changes[i].itemId == k :: !Acceptable(setting, changes[i])) ==>
          (k in after <==> k in known) && (k in known ==> after[k] == known[k]))
  }

  /** A recorded kind byte tells the kind, and none is the byte of a row whose kind was never known. */
  lemma KindBytesTellKinds(a: Kind, b: Kind)
    ensures KindByte(a) == KindByte(b) ==> a == b
    ensures 1 <= KindByte(a) <= 5
  {
  }

  lemma AcceptableIsNotRejected<Vault>(setting: Setting<Vault>, change: FeedChange)
    ensures Acceptable(setting, change) <==> !Rejected(setting, change)
    ensures Acceptable(setting, change) && change.envelope.Some? ==>
              VerifyChange(setting, change.itemId, change.envelope.value) == Ok(setting.kindOf(change.envelope.value).value)
  {
  }

  /** One change at a time. */
  lemma OneRecorded<Vault>(setting: Setting<Vault>, known: map<ItemId, KnownRow>, c: FeedChange)
    ensures var after := RecordOne(setting, known, c);
            && (forall k | k != c.itemId || !Acceptable(setting, c) :: (k in after <==> k in known) && (k in known ==> after[k] == known[k]))
            && (Acceptable(setting, c) ==>
                  && c.itemId in after
                  && after[c.itemId].version == c.version && after[c.itemId].seqNo == Some(c.seqNo) && after[c.itemId].fingerprint == c.envelope
                  && after[c.itemId].kind == (if c.envelope.Some? then KindByte(setting.kindOf(c.envelope.value).value)
                                              else if c.itemId in known then known[c.itemId].kind else 0))
  {
  }

  lemma {:induction false} LastIsRecorded<Vault>(setting: Setting<Vault>, known: map<ItemId, KnownRow>, changes: seq<FeedChange>, k: ItemId, i: nat)
    requires IsLast(setting, changes, k, i)
    ensures var after := Record(setting, known, changes);
            k in after && after[k].version == changes[i].version && after[k].seqNo == Some(changes[i].seqNo) && after[k].fingerprint == changes[i].envelope
    decreases |changes|
  {
    hide RecordOne, Acceptable;
    var (init, last) := (changes[..|changes| - 1], changes[|changes| - 1]);
    OneRecorded(setting, Record(setting, known, init), last);
    if i < |init| { LastIsRecorded(setting, known, init, k, i); }
  }

  lemma {:induction false} KindOfLast<Vault>(setting: Setting<Vault>, known: map<ItemId, KnownRow>, changes: seq<FeedChange>, k: ItemId, i: nat)
    requires IsLastWithBytes(setting, changes, k, i)
    ensures var after := Record(setting, known, changes);
            setting.kindOf(changes[i].envelope.value).Some? && k in after && after[k].kind == KindByte(setting.kindOf(changes[i].envelope.value).value)
    decreases |changes|
  {
    KindOfAccepted(setting, changes[i]);
    hide RecordOne, Acceptable;
    var (init, last) := (changes[..|changes| - 1], changes[|changes| - 1]);
    OneRecorded(setting, Record(setting, known, init), last);
    if i < |init| { KindOfLast(setting, known, init, k, i); }
  }

  lemma {:induction false} KindStays<Vault>(setting: Setting<Vault>, known: map<ItemId, KnownRow>, changes: seq<FeedChange>, k: ItemId)
    requires forall i | 0 <= i < |changes| && changes[i].itemId == k :: !(Acceptable(setting, changes[i]) && changes[i].envelope.Some?)
    ensures k in Record(setting, known, changes) ==> Record(setting, known, changes)[k].kind == if k in known then known[k].kind else 0
    ensures k in known ==> k in Record(setting, known, changes)
    decreases |changes|
  {
    hide RecordOne, Acceptable;
    if changes != [] {
      var (init, last) := (changes[..|changes| - 1], changes[|changes| - 1]);
      assert forall i | 0 <= i < |init| :: init[i] == changes[i];
      OneRecorded(setting, Record(setting, known, init), last);
      KindStays(setting, known, init, k);
    }
  }

  lemma {:induction false} RowStays<Vault>(setting: Setting<Vault>, known: map<ItemId, KnownRow>, changes: seq<FeedChange>, k: ItemId)
    requires forall i | 0 <= i < |changes| && changes[i].itemId == k :: !Acceptable(setting, changes[i])
    ensures var after := Record(setting, known, changes); (k in after <==> k in known) && (k in known ==> after[k] == known[k])
    decreases |changes|
  {
    hide RecordOne, Acceptable;
    if changes != [] {
      var (init, last) := (changes[..|changes| - 1], changes[|changes| - 1]);
      assert forall i | 0 <= i < |init| :: init[i] == changes[i];
      OneRecorded(setting, Record(setting, known, init), last);
      RowStays(setting, known, init, k);
    }
  }

  lemma RecordIsTheLast<Vault>(setting: Setting<Vault>, known: map<ItemId, KnownRow>, changes: seq<FeedChange>, k: ItemId)
    ensures KnownAfter(setting, known, changes, Record(setting, known, changes), k)
  {
    hide Record, Acceptable, IsLast, IsLastWithBytes;
    forall i: nat | IsLast(setting, changes, k, i)
      ensures var after := Record(setting, known, changes);
              i < |changes| && k in after && after[k].version == changes[i].version && after[k].seqNo == Some(changes[i].seqNo)
              && after[k].fingerprint == changes[i].envelope
    {
      LastIsInside(setting, changes, k, i);
      LastIsRecorded(setting, known, changes, k, i);
    }
    forall i: nat | IsLastWithBytes(setting, changes, k, i)
      ensures i < |changes| && changes[i].envelope.Some? && setting.kindOf(changes[i].envelope.value).Some? && k in Record(setting, known, changes)
              && Record(setting, known, changes)[k].kind == KindByte(setting.kindOf(changes[i].envelope.value).value)
    {
      LastIsInside(setting, changes, k, i);
      KindOfLast(setting, known, changes, k, i);
    }
    if forall i | 0 <= i < |changes| && changes[i].itemId == k :: !(Acceptable(setting, changes[i]) && changes[i].envelope.Some?) {
      KindStays(setting, known, changes, k);
    }
    if forall i | 0 <= i < |changes| && changes[i].itemId == k :: !Acceptable(setting, changes[i]) {
      RowStays(setting, known, changes, k);
    }
  }

  lemma LastIsInside<Vault>(setting: Setting<Vault>, changes: seq<FeedChange>, k: ItemId, i: nat)
    requires IsLast(setting, changes, k, i) || IsLastWithBytes(setting, changes, k, i)
    ensures i < |changes| && Acceptable(setting, changes[i])
    ensures IsLastWithBytes(setting, changes, k, i) ==> changes[i].envelope.Some?
  {
  }

  lemma KindOfAccepted<Vault>(setting: Setting<Vault>, change: FeedChange)
    requires Acceptable(setting, change) && change.envelope.Some?
    ensures setting.kindOf(change.envelope.value).Some?
  {
  }

  /** Of a page that was taken: the rows it names are known as its used changes say, reclaimed rows
      included, and no other row is touched. */
  lemma PageRecordsTheLast<Vault>(setting: Setting<Vault>, p: Pulling<Vault>, feed: ChangeFeed, k: ItemId)
    requires !TakePage(setting, p, feed).1.Stopped?
    ensures KnownAfter(setting, p.state.known, feed.changes[..HaltAt(setting, feed.changes)], TakePage(setting, p, feed).0.state.known, k)
  {
    hide TakePage, KnownAfter, Record;
    TakenApplies(setting, p, feed);
    RecordIsTheLast(setting, p.state.known, feed.changes[..HaltAt(setting, feed.changes)], k);
  }

  /** The same of a whole pull, against any server and however it ends. */
  lemma PullRecordsTheLast<Vault(!new)>(setting: Setting<Vault>, server: Remoteness, p: Pulling<Vault>, limit: nat, k: ItemId)
    requires Composes(setting)
    ensures var q := Pulled(setting, server, p, limit).0;
            Extends(p, q) && KnownAfter(setting, p.state.known, New(p, q), q.state.known, k)
  {
    hide Pulled, KnownAfter, Record;
    PullAppliesWhatItDelivers(setting, server, p, limit);
    RecordIsTheLast(setting, p.state.known, New(p, Pulled(setting, server, p, limit).0), k);
  }

  // ----- any server: what is merged, refused and noticed ----------------------------------------------------

  predicate OfKind<Vault>(setting: Setting<Vault>, change: FeedChange, kinds: set<Kind>) {
    Acceptable(setting, change) && change.envelope.Some? && setting.kindOf(change.envelope.value).Some?
    && setting.kindOf(change.envelope.value).value in kinds
  }

  function Chosen(changes: seq<FeedChange>, wanted: FeedChange -> bool): (chosen: seq<FeedChange>)
    ensures forall c | c in chosen :: c in changes && wanted(c)
  {
    if changes == [] then [] else (if wanted(changes[0]) then [changes[0]] else []) + Chosen(changes[1..], wanted)
  }

  lemma {:induction false} ChosenLast(changes: seq<FeedChange>, wanted: FeedChange -> bool)
    requires changes != []
    ensures var last := changes[|changes| - 1];
            Chosen(changes, wanted) == Chosen(changes[..|changes| - 1], wanted) + if wanted(last) then [last] else []
  {
    if |changes| > 1 {
      ChosenLast(changes[1..], wanted);
      assert changes[1..][..|changes[1..]| - 1] == changes[..|changes| - 1][1..];
    }
  }

  function Sent(changes: seq<FeedChange>): seq<Remote>
    requires forall c | c in changes :: c.envelope.Some?
  {
    seq(|changes|, i requires 0 <= i < |changes| => Remote(changes[i].itemId, changes[i].envelope.value))
  }

  /** The vault is handed every acceptable item and group of a page, in the page's order, and nothing else. */
  lemma {:induction false} BatchIsItemsAndGroups<Vault>(setting: Setting<Vault>, changes: seq<FeedChange>)
    ensures Batch(setting, changes) == Sent(Chosen(changes, c => OfKind(setting, c, {Item, Group})))
    decreases |changes|
  {
    hide VerifyChange;
    if changes != [] {
      var (init, last) := (changes[..|changes| - 1], changes[|changes| - 1]);
      var wanted := c => OfKind(setting, c, {Item, Group});
      BatchIsItemsAndGroups(setting, init);
      ChosenLast(changes, wanted);
      AcceptableIsNotRejected(setting, last);
      assert Merged(setting, last) <==> wanted(last);
    }
  }

  /** The roster noticed is the last acceptable one. */
  lemma {:induction false} RosterIsTheLast<Vault>(setting: Setting<Vault>, before: Option<(ItemId, Bytes)>, changes: seq<FeedChange>)
    ensures var rosters := Chosen(changes, c => OfKind(setting, c, {DeviceRoster}));
            var sent := Sent(rosters);
            RosterUpdate(setting, before, changes)
            == if sent == [] then before else Some((sent[|sent| - 1].itemId, sent[|sent| - 1].envelope))
    decreases |changes|
  {
    hide VerifyChange;
    if changes != [] {
      var (init, last) := (changes[..|changes| - 1], changes[|changes| - 1]);
      RosterIsTheLast(setting, before, init);
      ChosenLast(changes, c => OfKind(setting, c, {DeviceRoster}));
      AcceptableIsNotRejected(setting, last);
    }
  }

  /** Why a change is refused: the first of size, envelope and signature that fails. */
  function Refusal<Vault>(setting: Setting<Vault>, change: FeedChange): Option<Rejection> {
    match change.envelope
    case None => None
    case Some(bytes) =>
      if |bytes| > MAX_ENVELOPE_LEN then Some(TooLarge)
      else if setting.kindOf(bytes).None? then Some(BadEnvelope)
      else setting.authenticate(change.itemId, bytes)
  }

  function Refusals<Vault>(setting: Setting<Vault>, refused: seq<FeedChange>): seq<Rejection>
    requires forall c | c in refused :: Refusal(setting, c).Some?
  {
    seq(|refused|, i requires 0 <= i < |refused| => Refusal(setting, refused[i]).value)
  }

  /** Every refused change is reported, once, in order, for the first reason. */
  lemma {:induction false} RejectionsAreRefusals<Vault>(setting: Setting<Vault>, changes: seq<FeedChange>)
    ensures var refused := Chosen(changes, c => Refusal(setting, c).Some?);
            Rejections(setting, changes) == Refusals(setting, refused)
    decreases |changes|
  {
    hide VerifyChange;
    if changes != [] {
      var (init, last) := (changes[..|changes| - 1], changes[|changes| - 1]);
      RejectionsAreRefusals(setting, init);
      ChosenLast(changes, c => Refusal(setting, c).Some?);
      RefusedIsRejected(setting, last);
    }
  }

  lemma RefusedIsRejected<Vault>(setting: Setting<Vault>, change: FeedChange)
    ensures Refusal(setting, change).Some? <==> Rejected(setting, change)
    ensures Rejected(setting, change) ==> VerifyChange(setting, change.itemId, change.envelope.value).error == Refusal(setting, change).value
  {
  }

  // ----- any server: nothing unverified ---------------------------------------------------------------

  function Survivors<Vault>(setting: Setting<Vault>, changes: seq<FeedChange>): (s: seq<FeedChange>)
    ensures forall c | c in s :: c in changes && !Rejected(setting, c)
  {
    if changes == [] then []
    else
      var last := changes[|changes| - 1];
      Survivors(setting, changes[..|changes| - 1]) + if Rejected(setting, last) then [] else [last]
  }

  lemma {:induction false} RejectedChangesVanish<Vault>(setting: Setting<Vault>, known: map<ItemId, KnownRow>, changes: seq<FeedChange>)
    ensures Batch(setting, changes) == Batch(setting, Survivors(setting, changes))
    ensures Record(setting, known, changes) == Record(setting, known, Survivors(setting, changes))
  {
    if changes != [] {
      hide VerifyChange;
      var (init, last) := (changes[..|changes| - 1], changes[|changes| - 1]);
      RejectedChangesVanish(setting, known, init);
      var kept := Survivors(setting, init);
      if Rejected(setting, last) {
        assert Survivors(setting, changes) == kept;
        assert !Merged(setting, last);
      } else {
        assert (kept + [last])[..|kept + [last]| - 1] == kept;
      }
    }
  }

  /** Whatever the server answers, vault and known rows are what the surviving changes alone produce;
      every one of those was parsed, signed by a rostered device under its own id, and no larger than
      the cap, or carried no bytes at all. */
  lemma NothingUnverified<Vault(!new)>(setting: Setting<Vault>, server: Remoteness, p: Pulling<Vault>, limit: nat)
    requires Composes(setting)
    ensures var q := Pulled(setting, server, p, limit).0;
            && Extends(p, q)
            && var kept := Survivors(setting, New(p, q));
            && Some(q.vault) == MergeBatch(setting, p.vault, Batch(setting, kept))
            && q.state.known == Record(setting, p.state.known, kept)
            && forall c | c in kept && c.envelope.Some? ::
                 |c.envelope.value| <= MAX_ENVELOPE_LEN && setting.kindOf(c.envelope.value).Some?
                 && setting.authenticate(c.itemId, c.envelope.value).None?
  {
    hide Pulled, Batch, Record, MergeBatch, Survivors;
    PullAppliesWhatItDelivers(setting, server, p, limit);
    var q := Pulled(setting, server, p, limit).0;
    RejectedChangesVanish(setting, p.state.known, New(p, q));
  }

  // ----- any server: the `deleted` flag ---------------------------------------------------------------

  predicate SameButFlags(a: seq<FeedChange>, b: seq<FeedChange>) {
    |a| == |b| && forall i | 0 <= i < |a| :: a[i].(deleted := false) == b[i].(deleted := false)
  }

  predicate RawSameButFlags(a: RawChangeFeed, b: RawChangeFeed) {
    && a.nextSeq == b.nextSeq && a.hasMore == b.hasMore && a.changes.Some? == b.changes.Some?
    && (a.changes.Some? ==>
          |a.changes.value| == |b.changes.value|
          && forall i | 0 <= i < |a.changes.value| :: a.changes.value[i].(deleted := None) == b.changes.value[i].(deleted := None))
  }

  predicate AnswersSameButFlags(a: Answer, b: Answer) {
    if a.Body? && b.Body? then RawSameButFlags(a.raw, b.raw) else a == b
  }

  predicate FeedsSameButFlags(a: Result<ChangeFeed, SyncError>, b: Result<ChangeFeed, SyncError>) {
    if a.Ok? && b.Ok? then
      SameButFlags(a.value.changes, b.value.changes) && a.value.nextSeq == b.value.nextSeq && a.value.hasMore == b.value.hasMore
    else a == b
  }

  ghost predicate PullsSameButFlags<Vault>(p: Pulling<Vault>, q: Pulling<Vault>) {
    p.(delivered := []) == q.(delivered := []) && SameButFlags(p.delivered, q.delivered)
  }

  lemma {:induction false} DecodingIgnoresFlags(previous: Option<int>, a: seq<RawChange>, b: seq<RawChange>)
    requires |a| == |b| && forall i | 0 <= i < |a| :: a[i].(deleted := None) == b[i].(deleted := None)
    ensures var (x, y) := (DecodeChanges(previous, a), DecodeChanges(previous, b));
            if x.Ok? && y.Ok? then SameButFlags(x.value, y.value) else x == y
    decreases |a|
  {
    if a != [] {
      var (x, y) := (DecodeChange(previous, a[0]), DecodeChange(previous, b[0]));
      assert a[0].(deleted := None) == b[0].(deleted := None);
      assert if x.Ok? && y.Ok? then x.value.(deleted := false) == y.value.(deleted := false) else x == y;
      hide DecodeChange;
      if x.Ok? && y.Ok? {
        DecodingIgnoresFlags(Some(x.value.seqNo), a[1..], b[1..]);
      }
    }
  }

  lemma FetchingIgnoresFlags(one: Remoteness, other: Remoteness, request: nat, cursor: Option<int>, limit: nat)
    requires AnswersSameButFlags(one(request, cursor, limit), other(request, cursor, limit))
    ensures FeedsSameButFlags(Fetched(one, request, cursor, limit), Fetched(other, request, cursor, limit))
  {
    hide DecodeChanges;
    var (x, y) := (one(request, cursor, limit), other(request, cursor, limit));
    if x.Body? && y.Body? && x.raw.changes.Some? {
      DecodingIgnoresFlags(None, x.raw.changes.value, y.raw.changes.value);
    }
  }

  lemma {:induction false} PageIgnoresFlags<Vault>(setting: Setting<Vault>, known: map<ItemId, KnownRow>, roster: Option<(ItemId, Bytes)>, a: seq<FeedChange>, b: seq<FeedChange>)
    requires SameButFlags(a, b)
    ensures Batch(setting, a) == Batch(setting, b) && Rejections(setting, a) == Rejections(setting, b)
    ensures RosterUpdate(setting, roster, a) == RosterUpdate(setting, roster, b)
    ensures Record(setting, known, a) == Record(setting, known, b)
    decreases |a|
  {
    if a != [] {
      hide VerifyChange;
      var n := |a| - 1;
      assert a[n].(deleted := false) == b[n].(deleted := false);
      assert Merged(setting, a[n]) == Merged(setting, b[n]) && Rejected(setting, a[n]) == Rejected(setting, b[n]);
      PageIgnoresFlags(setting, known, roster, a[..n], b[..n]);
    }
  }

  lemma {:induction false} HaltingIgnoresFlags<Vault>(setting: Setting<Vault>, a: seq<FeedChange>, b: seq<FeedChange>)
    requires SameButFlags(a, b)
    ensures HaltAt(setting, a) == HaltAt(setting, b) && Halts(setting, a) == Halts(setting, b)
    decreases |a|
  {
    assert forall i | 0 <= i < |a| :: a[i].(deleted := false) == b[i].(deleted := false);
    assert forall i | 0 <= i < |a| :: IsRosterChange(setting, a[i]) == IsRosterChange(setting, b[i]);
    if a != [] {
      HaltingIgnoresFlags(setting, a[1..], b[1..]);
    }
  }

  lemma {:induction false} RollbackIgnoresFlags(a: ChangeFeed, b: ChangeFeed, cursor: int)
    requires SameButFlags(a.changes, b.changes) && a.nextSeq == b.nextSeq
    ensures RolledBack(a, cursor) == RolledBack(b, cursor)
    decreases |a.changes|
  {
    assert forall i | 0 <= i < |a.changes| :: a.changes[i].(deleted := false) == b.changes[i].(deleted := false);
    assert forall i | 0 <= i < |a.changes| :: a.changes[i].seqNo == b.changes[i].seqNo;
    if RolledBack(a, cursor).Some? && a.changes != [] && a.changes[0].seqNo > cursor {
      if i :| 0 <= i < |a.changes| && a.changes[i].seqNo <= cursor {
        assert a.changes[1..][i - 1].seqNo <= cursor && b.changes[1..][i - 1].seqNo <= cursor;
        RollbackIgnoresFlags(a.(changes := a.changes[1..]), b.(changes := b.changes[1..]), cursor);
      }
    }
  }

  lemma PageAppliedIgnoresFlags<Vault>(setting: Setting<Vault>, p: Pulling<Vault>, q: Pulling<Vault>, a: seq<FeedChange>, b: seq<FeedChange>)
    requires PullsSameButFlags(p, q) && SameButFlags(a, b)
    ensures PullsSameButFlags(PageApplied(setting, p, a).0, PageApplied(setting, q, b).0)
    ensures PageApplied(setting, p, a).1 == PageApplied(setting, q, b).1
  {
    hide Batch, Record, MergeBatch, Rejections, RosterUpdate;
    PageIgnoresFlags(setting, p.state.known, p.rosterUpdate, a, b);
  }

  lemma TakingIgnoresFlags<Vault>(setting: Setting<Vault>, p: Pulling<Vault>, q: Pulling<Vault>, a: ChangeFeed, b: ChangeFeed)
    requires PullsSameButFlags(p, q) && FeedsSameButFlags(Ok(a), Ok(b))
    ensures PullsSameButFlags(TakePage(setting, p, a).0, TakePage(setting, q, b).0)
    ensures TakePage(setting, p, a).1 == TakePage(setting, q, b).1
  {
    hide PageApplied, RolledBack, HaltAt, Halts;
    RollbackIgnoresFlags(a, b, Since(p.state.cursor));
    HaltingIgnoresFlags(setting, a.changes, b.changes);
    HaltedIsNotEmpty(setting, a.changes);
    var n := HaltAt(setting, a.changes);
    var (x, y) := (p.(pages := p.pages + 1, changesSeen := p.changesSeen + |a.changes|), q.(pages := q.pages + 1, changesSeen := q.changesSeen + |b.changes|));
    PageAppliedIgnoresFlags(setting, x, y, a.changes[..n], b.changes[..n]);
    assert n > 0 ==> a.changes[n - 1].(deleted := false) == b.changes[n - 1].(deleted := false);
  }

  /** A server that lies about nothing but `deleted` changes nothing: same vault, same state, same
      report, same outcome. */
  lemma {:induction false} DeletedIsNeverActedOn<Vault>(setting: Setting<Vault>, one: Remoteness, other: Remoteness, p: Pulling<Vault>, q: Pulling<Vault>, limit: nat)
    requires forall i, c, n :: AnswersSameButFlags(one(i, c, n), other(i, c, n))
    requires PullsSameButFlags(p, q)
    ensures PullsSameButFlags(Pulled(setting, one, p, limit).0, Pulled(setting, other, q, limit).0)
    ensures Pulled(setting, one, p, limit).1 == Pulled(setting, other, q, limit).1
    decreases MAX_PAGES_PER_SYNC - p.pages, limit
  {
    hide TakePage, Fetched, Pulled, SameButFlags;
    if p.pages >= MAX_PAGES_PER_SYNC {
      PullEnds(setting, one, p, limit);
      PullEnds(setting, other, q, limit);
    } else {
      PullTurn(setting, one, p, limit);
      PullTurn(setting, other, q, limit);
      FetchingIgnoresFlags(one, other, p.requests, p.state.cursor, limit);
      var (x, y) := (p.(requests := p.requests + 1), q.(requests := q.requests + 1));
      assert PullsSameButFlags(x, y);
      match Fetched(one, p.requests, p.state.cursor, limit)
      case Err(error) =>
        if TooBig(error) && limit > 1 { DeletedIsNeverActedOn(setting, one, other, x, y, limit / 2); }
      case Ok(feed) =>
        var twin := Fetched(other, p.requests, p.state.cursor, limit).value;
        TakingIgnoresFlags(setting, x, y, feed, twin);
        if TakePage(setting, x, feed).1.Again? {
          DeletedIsNeverActedOn(setting, one, other, TakePage(setting, x, feed).0, TakePage(setting, y, twin).0, limit);
        }
    }
  }
}

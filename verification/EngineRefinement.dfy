/** The engine, with its bytes, tokens and fingerprints, takes the protocol's steps: an honest page is
    a fetch, a merge, a record and a save, and an attempt to push is a send, a service, a receipt and,
    on a conflict, a merge, a record and a save. */
module EngineRefinement {
  import opened Foundations
  import opened Decimals
  import opened ChangeFeeds
  import opened SyncPull
  import opened PullGuarantees
  import opened HonestFeeds
  import opened CrashRecovery
  import opened ServerRefinement
  import Push = SyncPush
  import Progress = PushProgress
  import Protocol = SyncProtocol

  /** A vault as the bytes it stores. */
  type Rows = map<ItemId, Bytes>

  /** What the protocol sees in bytes, and what a vault seals when it has merged two envelopes. */
  datatype Coding<!V(!new)> = Coding(lattice: Protocol.Lattice<V>, read: Bytes -> Protocol.Envelope<V>, seal: (Bytes, Bytes) -> Bytes)

  /** Different bytes are different envelopes, and a fresh seal holds the merged value. */
  ghost predicate Exact<V(!new)>(c: Coding<V>) {
    && (forall a, b | c.read(a) == c.read(b) :: a == b)
    && (forall a, b :: var joined := c.lattice.join(c.read(a).value, c.read(b).value);
                       joined.Some? ==> c.read(c.seal(a, b)).value == joined.value)
  }

  /** Any way of writing values that reads back gives one: the seal number stands for the bytes. */
  lemma CodingsExist<V(!new)>(l: Protocol.Lattice<V>, decode: Bytes -> V, encode: V -> Bytes)
    requires forall v :: decode(encode(v)) == v
    ensures Exact(Coding(l, b => Protocol.Envelope(decode(b), Numbered(b)),
                         (a, b) => match l.join(decode(a), decode(b)) case None => [] case Some(v) => encode(v)))
  {
    forall a: Bytes, b: Bytes | Numbered(a) == Numbered(b) ensures a == b { NumbersDiffer(a, b); }
  }

  ghost function MergeOne<V(!new)>(c: Coding<V>, v: Rows, r: Remote): Option<Rows> {
    if r.itemId !in v then Some(v[r.itemId := r.envelope])
    else
      match c.lattice.join(c.read(v[r.itemId]).value, c.read(r.envelope).value)
      case None => None
      case Some(x) => Some(v[r.itemId := if x == c.read(r.envelope).value then r.envelope else c.seal(v[r.itemId], r.envelope)])
  }

  ghost function MergeAll<V(!new)>(c: Coding<V>, v: Rows, batch: seq<Remote>): Option<Rows> {
    if batch == [] then Some(v)
    else
      match MergeAll(c, v, batch[..|batch| - 1])
      case None => None
      case Some(before) => MergeOne(c, before, batch[|batch| - 1])
  }

  type KindOf = Bytes -> Option<Kind>

  type Authenticate = (ItemId, Bytes) -> Option<Rejection>

  ghost function EngineSetting<V(!new)>(kindOf: KindOf, authenticate: Authenticate, c: Coding<V>): Setting<Rows> {
    Setting(kindOf, authenticate, (v, batch) => MergeAll(c, v, batch))
  }

  // ----- what the protocol sees of an engine -------------------------------------------------------------

  ghost function Values<V(!new)>(c: Coding<V>, v: Rows): map<ItemId, Protocol.Envelope<V>> { map k | k in v :: c.read(v[k]) }

  ghost predicate Sees<V(!new)>(c: Coding<V>, state: SyncState, seen: Protocol.SyncState<V>) {
    && Since(state.cursor) == seen.cursor
    && state.known.Keys == seen.known.Keys
    && forall k | k in state.known :: SeesRow(c, state.known[k], seen.known[k])
  }

  ghost predicate SeesRow<V(!new)>(c: Coding<V>, row: KnownRow, seen: Protocol.KnownRow<V>) {
    row.version == Some(Digits(seen.version)) && row.fingerprint.Some? && c.read(row.fingerprint.value) == seen.fingerprint
  }

  ghost predicate Simulates<V(!new)>(c: Coding<V>, vault: Rows, state: SyncState, saved: SyncState, d: Protocol.Device<V>) {
    d.vault == Values(c, vault) && Sees(c, state, d.memory) && Sees(c, saved, d.disk)
  }

  // ----- merging -----------------------------------------------------------------------------------------------

  /** The seal number a merge of `r` uses, if it seals at all. */
  ghost function SealOf<V(!new)>(c: Coding<V>, v: Rows, r: Remote): nat {
    if r.itemId in v then c.read(c.seal(v[r.itemId], r.envelope)).seal else 0
  }

  lemma MergeOneRefines<V(!new)>(c: Coding<V>, v: Rows, r: Remote)
    requires Exact(c)
    ensures MergeOne(c, v, r).Some? ==>
              var w := MergeOne(c, v, r).value;
              && r.itemId in w && w == v[r.itemId := w[r.itemId]]
              && Protocol.Absorbed(c.lattice, Values(c, v), r.itemId, c.read(r.envelope), SealOf(c, v, r)) == Some(c.read(w[r.itemId]))
    ensures MergeOne(c, v, r).None? ==> forall n :: Protocol.Absorbed(c.lattice, Values(c, v), r.itemId, c.read(r.envelope), n).None?
  {
    if r.itemId in v {
      assert Values(c, v)[r.itemId] == c.read(v[r.itemId]);
      var joined := c.lattice.join(c.read(v[r.itemId]).value, c.read(r.envelope).value);
      if joined.Some? && joined.value != c.read(r.envelope).value {
        var sealed := c.read(c.seal(v[r.itemId], r.envelope));
        assert sealed == Protocol.Envelope(joined.value, sealed.seal);
      }
    }
  }

  ghost predicate Unique(changes: seq<FeedChange>) {
    forall i, j | 0 <= i < j < |changes| :: changes[i].itemId != changes[j].itemId
  }

  ghost predicate AllMerged<V(!new)>(setting: Setting<V>, changes: seq<FeedChange>) { forall c | c in changes :: Merged(setting, c) }

  ghost predicate Mentions(changes: seq<FeedChange>, k: ItemId) { exists c :: c in changes && c.itemId == k }

  /** What one entry of a page becomes. */
  ghost predicate EntryMerged<V(!new)>(c: Coding<V>, v: Rows, w: Rows, change: FeedChange)
    requires change.envelope.Some?
  {
    var r := Remote(change.itemId, change.envelope.value);
    && MergeOne(c, v, r).Some? && change.itemId in w
    && w[change.itemId] == MergeOne(c, v, r).value[change.itemId]
  }

  ghost predicate EntriesMerged<V(!new)>(c: Coding<V>, v: Rows, w: Rows, changes: seq<FeedChange>) {
    && (forall change | change in changes :: change.envelope.Some? && EntryMerged(c, v, w, change))
    && (forall k | !Mentions(changes, k) :: (k in w <==> k in v) && (k in v ==> w[k] == v[k]))
  }

  lemma MentionsMore(changes: seq<FeedChange>)
    requires changes != []
    ensures forall k :: Mentions(changes, k) <==> Mentions(changes[..|changes| - 1], k) || k == changes[|changes| - 1].itemId
    ensures Unique(changes) ==> Unique(changes[..|changes| - 1]) && !Mentions(changes[..|changes| - 1], changes[|changes| - 1].itemId)
  {
    var (init, last) := (changes[..|changes| - 1], changes[|changes| - 1]);
    assert changes == init + [last];
    forall k ensures Mentions(changes, k) <==> Mentions(init, k) || k == last.itemId {
      if Mentions(init, k) {
        var change :| change in init && change.itemId == k;
        assert change in changes;
      }
      assert last in changes;
    }
  }

  lemma OneMoreMerged<V(!new)>(c: Coding<V>, v: Rows, before: Rows, w: Rows, changes: seq<FeedChange>)
    requires changes != [] && Unique(changes) && changes[|changes| - 1].envelope.Some?
    requires EntriesMerged(c, v, before, changes[..|changes| - 1])
    requires MergeOne(c, before, Remote(changes[|changes| - 1].itemId, changes[|changes| - 1].envelope.value)) == Some(w)
    ensures EntriesMerged(c, v, w, changes)
  {
    hide MergeOne, Mentions, Unique;
    var (init, last) := (changes[..|changes| - 1], changes[|changes| - 1]);
    var r := Remote(last.itemId, last.envelope.value);
    MentionsMore(changes);
    SameRowSameMerge(c, v, before, r);
    forall change | change in changes ensures change.envelope.Some? && EntryMerged(c, v, w, change) {
      if change != last {
        assert change in init;
        Mentioned(init, change);
      }
    }
  }

  lemma Mentioned(changes: seq<FeedChange>, change: FeedChange)
    requires change in changes
    ensures Mentions(changes, change.itemId)
  {
  }

  /** A page that names no item twice merges each entry into the row that was there. */
  lemma {:induction false} PageMerges<V(!new)>(setting: Setting<Rows>, c: Coding<V>, v: Rows, changes: seq<FeedChange>)
    requires Unique(changes) && AllMerged(setting, changes) && MergeAll(c, v, Batch(setting, changes)).Some?
    ensures EntriesMerged(c, v, MergeAll(c, v, Batch(setting, changes)).value, changes)
    decreases |changes|
  {
    hide Merged, MergeOne, EntriesMerged, Unique;
    if changes == [] {
      NothingMerged(c, v);
    } else {
      var (init, last) := (changes[..|changes| - 1], changes[|changes| - 1]);
      assert last in changes && Merged(setting, last);
      MergedHasBytes(setting, last);
      var r := Remote(last.itemId, last.envelope.value);
      var batch := Batch(setting, changes);
      assert batch == Batch(setting, init) + [r];
      assert batch[..|batch| - 1] == Batch(setting, init) && batch[|batch| - 1] == r;
      MentionsMore(changes);
      PageMerges(setting, c, v, init);
      OneMoreMerged(c, v, MergeAll(c, v, Batch(setting, init)).value, MergeAll(c, v, batch).value, changes);
    }
  }

  /** A page is refused only for a row that would be refused on its own. */
  lemma {:induction false} RefusedRow<V(!new)>(setting: Setting<Rows>, c: Coding<V>, v: Rows, changes: seq<FeedChange>) returns (refused: FeedChange)
    requires Unique(changes) && AllMerged(setting, changes) && MergeAll(c, v, Batch(setting, changes)).None?
    ensures refused in changes && refused.envelope.Some? && MergeOne(c, v, Remote(refused.itemId, refused.envelope.value)).None?
    decreases |changes|
  {
    hide Merged, MergeOne, EntriesMerged, Unique, Mentions;
    assert changes != [];
    var (init, last) := (changes[..|changes| - 1], changes[|changes| - 1]);
    assert last in changes && Merged(setting, last);
    MergedHasBytes(setting, last);
    var r := Remote(last.itemId, last.envelope.value);
    var batch := Batch(setting, changes);
    assert batch == Batch(setting, init) + [r];
    assert batch[..|batch| - 1] == Batch(setting, init) && batch[|batch| - 1] == r;
    MentionsMore(changes);
    if MergeAll(c, v, Batch(setting, init)).None? {
      refused := RefusedRow(setting, c, v, init);
    } else {
      refused := last;
      PageMerges(setting, c, v, init);
      UnmentionedRow(c, v, MergeAll(c, v, Batch(setting, init)).value, init, last.itemId);
      SameRowSameMerge(c, v, MergeAll(c, v, Batch(setting, init)).value, r);
    }
  }

  lemma UnmentionedRow<V(!new)>(c: Coding<V>, v: Rows, w: Rows, changes: seq<FeedChange>, k: ItemId)
    requires EntriesMerged(c, v, w, changes) && !Mentions(changes, k)
    ensures (k in w <==> k in v) && (k in v ==> w[k] == v[k])
  {
  }

  lemma NothingMerged<V(!new)>(c: Coding<V>, v: Rows)
    ensures EntriesMerged(c, v, v, [])
  {
  }

  lemma MergedHasBytes<V(!new)>(setting: Setting<V>, change: FeedChange)
    requires Merged(setting, change)
    ensures change.envelope.Some? && !Rejected(setting, change) && !IsRosterChange(setting, change)
  {
  }

  /** Only the row itself decides what a merge into it gives. */
  lemma SameRowSameMerge<V(!new)>(c: Coding<V>, v: Rows, w: Rows, r: Remote)
    requires r.itemId in v <==> r.itemId in w
    requires r.itemId in v ==> v[r.itemId] == w[r.itemId]
    ensures MergeOne(c, v, r).Some? == MergeOne(c, w, r).Some?
    ensures MergeOne(c, w, r).Some? ==>
              && r.itemId in MergeOne(c, w, r).value && r.itemId in MergeOne(c, v, r).value
              && MergeOne(c, w, r).value[r.itemId] == MergeOne(c, v, r).value[r.itemId]
              && MergeOne(c, w, r).value == w[r.itemId := MergeOne(c, w, r).value[r.itemId]]
  {
  }

  // ----- recording -----------------------------------------------------------------------------------------------

  ghost predicate RowRecorded(row: KnownRow, change: FeedChange) { row.version == change.version && row.fingerprint == change.envelope }

  lemma {:induction false} PageRecords<V(!new)>(setting: Setting<V>, known: map<ItemId, KnownRow>, changes: seq<FeedChange>)
    requires Unique(changes) && AllMerged(setting, changes)
    ensures var after := Record(setting, known, changes);
            && (forall change | change in changes :: change.itemId in after && RowRecorded(after[change.itemId], change))
            && (forall k | !Mentions(changes, k) :: (k in after <==> k in known) && (k in known ==> after[k] == known[k]))
    decreases |changes|
  {
    hide Merged, Rejected, VerifyChange;
    if changes != [] {
      var (init, last) := (changes[..|changes| - 1], changes[|changes| - 1]);
      assert Merged(setting, last);
      MergedHasBytes(setting, last);
      hide Mentions;
      MentionsMore(changes);
      PageRecords(setting, known, init);
      var after := Record(setting, known, changes);
      forall change | change in changes ensures change.itemId in after && RowRecorded(after[change.itemId], change) {
        if change != last {
          assert change in init;
          Mentioned(init, change);
        }
      }
    }
  }

  // ----- the page as the protocol's fetch ------------------------------------------------------------------------

  /** The protocol's server is the real one, seen through `read`. */
  ghost predicate Serves<V(!new)>(c: Coding<V>, server: Push.Server, s: Protocol.Server<V>) {
    && KeepsEnvelopes(server) && s == Abstract(server, c.read, s.stored)
    && forall k | k in server.rows :: server.rows[k].seqNo <= server.head
  }

  /** Each entry of the page is the row the fetch shows, and each row the fetch shows is an entry. */
  ghost predicate Shows<V(!new)>(c: Coding<V>, server: Push.Server, changes: seq<FeedChange>, feed: map<ItemId, Protocol.Row<V>>) {
    && (forall change | change in changes ::
          && change.itemId in feed && change.envelope.Some? && change.itemId in server.rows
          && server.rows[change.itemId].envelope == change.envelope
          && change.version == Some(Digits(feed[change.itemId].version)) && c.read(change.envelope.value) == feed[change.itemId].envelope)
    && (forall k | k in feed :: Mentions(changes, k))
  }

  lemma ListedOnce(server: Push.Server, entries: seq<FeedChange>, changes: seq<FeedChange>)
    requires Lists(server, entries) && Ascending(changes) && forall c | c in changes :: c in entries
    ensures Unique(changes)
  {
    forall i, j | 0 <= i < j < |changes| ensures changes[i].itemId != changes[j].itemId {
      assert changes[i] in entries && changes[j] in entries;
    }
  }

  lemma PageOfFeed(entries: seq<FeedChange>, cursor: int, take: nat)
    requires Ascending(entries)
    ensures var page := HonestPage(entries, cursor, take);
            && Ascending(page.changes) && (forall c | c in page.changes :: c in entries)
            && page.nextSeq == LastSeq(page.changes, cursor) && page.nextSeq >= cursor
  {
    hide After;
    AfterIs(entries, cursor);
    ResumesForward(entries, cursor, take);
  }

  lemma PageShowsFeed<V(!new)>(c: Coding<V>, server: Push.Server, s: Protocol.Server<V>, entries: seq<FeedChange>, cursor: nat, take: nat)
    requires Serves(c, server, s) && Lists(server, entries) && cursor <= server.head
    ensures var page := HonestPage(entries, cursor, take);
            && cursor <= page.nextSeq <= server.head && Unique(page.changes)
            && Shows(c, server, page.changes, Protocol.Feed(s, cursor, page.nextSeq))
  {
    hide HonestPage, Unique, Abstract, Digits, KeepsEnvelopes;
    var page := HonestPage(entries, cursor, take);
    PageOfFeed(entries, cursor, take);
    ListedOnce(server, entries, page.changes);
    PageRefinesFetch(server, c.read, s.stored, entries, cursor, take);
    if page.changes != [] { assert page.changes[|page.changes| - 1] in entries; }
    var feed := Protocol.Feed(s, cursor, page.nextSeq);
    hide Protocol.Feed;
    forall change | change in page.changes
      ensures && change.itemId in feed && change.envelope.Some? && change.itemId in server.rows
              && server.rows[change.itemId].envelope == change.envelope
              && change.version == Some(Digits(feed[change.itemId].version)) && c.read(change.envelope.value) == feed[change.itemId].envelope
    {
      assert change in entries;
      FeedRow(c, server, s, cursor, page.nextSeq, change.itemId);
    }
    forall k | k in feed ensures Mentions(page.changes, k) {
      var change :| change in page.changes && change.itemId == k;
      Mentioned(page.changes, change);
    }
  }

  lemma FeedRow<V(!new)>(c: Coding<V>, server: Push.Server, s: Protocol.Server<V>, cursor: nat, next: nat, k: ItemId)
    requires Serves(c, server, s) && k in Protocol.Feed(s, cursor, next)
    ensures k in server.rows && server.rows[k].envelope.Some?
    ensures Protocol.Feed(s, cursor, next)[k] == Protocol.Row(server.rows[k].version, server.rows[k].seqNo, c.read(server.rows[k].envelope.value))
  {
  }

  // ----- a page --------------------------------------------------------------------------------------------------------

  lemma NoneHalts<V(!new)>(setting: Setting<V>, changes: seq<FeedChange>)
    requires AllMerged(setting, changes)
    ensures !Halts(setting, changes) && changes[..HaltAt(setting, changes)] == changes
  {
    hide Merged, IsRosterChange;
    forall i | 0 <= i < |changes| ensures !IsRosterChange(setting, changes[i]) {
      assert changes[i] in changes;
      MergedHasBytes(setting, changes[i]);
    }
  }

  /** What taking such a page leaves. */
  lemma TakenPage<V(!new)>(setting: Setting<V>, p: Pulling<V>, entries: seq<FeedChange>, take: nat)
    requires Ascending(entries) && AllMerged(setting, entries)
    ensures var feed := HonestPage(entries, Since(p.state.cursor), take);
            var (q, verdict) := TakePage(setting, p, feed);
            && AllMerged(setting, feed.changes) && !Halts(setting, feed.changes) && RolledBack(feed, Since(p.state.cursor)).None?
            && if verdict.Stopped? then verdict == Stopped(VaultRefused) && q.vault == p.vault && q.state == p.state && q.saved == p.saved
               else
                 && q.saved == q.state && q.state == SyncState(Some(feed.nextSeq), Record(setting, p.state.known, feed.changes))
                 && Some(q.vault) == MergeBatch(setting, p.vault, Batch(setting, feed.changes))
  {
    hide TakePage, Record, Batch, MergeBatch, Merged, HaltAt, Halts, After, RolledBack;
    var cursor := Since(p.state.cursor);
    var feed := HonestPage(entries, cursor, take);
    PageOfFeed(entries, cursor, take);
    NoneHalts(setting, feed.changes);
    PageWrites(setting, p, feed);
    var (q, verdict) := TakePage(setting, p, feed);
    HonestNeverRollsBack(entries, cursor, take);
    if verdict.Stopped? {
      StoppedAppliesNothing(setting, p, feed);
      StoppedForVault(setting, p, feed);
    } else {
      TakenApplies(setting, p, feed);
    }
  }

  lemma HonestNeverRollsBack(entries: seq<FeedChange>, cursor: int, take: nat)
    requires Ascending(entries)
    ensures RolledBack(HonestPage(entries, cursor, take), cursor).None?
  {
    hide After, FirstStale;
    AfterIs(entries, cursor);
    var feed := HonestPage(entries, cursor, take);
    PageOfFeed(entries, cursor, take);
    forall i | 0 <= i < |feed.changes| ensures feed.changes[i].seqNo > cursor {
      assert feed.changes[i] in After(entries, cursor);
    }
  }

  lemma StoppedForVault<V(!new)>(setting: Setting<V>, p: Pulling<V>, feed: ChangeFeed)
    requires TakePage(setting, p, feed).1.Stopped? && RolledBack(feed, Since(p.state.cursor)).None?
    ensures TakePage(setting, p, feed).1 == Stopped(VaultRefused)
  {
  }

  /** The seals the engine's merge of a page made. */
  ghost function Seals<V(!new)>(c: Coding<V>, v: Rows, server: Push.Server, feed: map<ItemId, Protocol.Row<V>>): map<ItemId, nat>
    requires KeepsEnvelopes(server)
  {
    map k | k in feed && k in server.rows :: SealOf(c, v, Remote(k, server.rows[k].envelope.value))
  }

  /** The vault side of a page: the rows after the batch are the values after the protocol's merge. */
  lemma MergedPageIsSeen<V(!new)>(c: Coding<V>, v: Rows, w: Rows, server: Push.Server, changes: seq<FeedChange>, feed: map<ItemId, Protocol.Row<V>>)
    requires Exact(c) && KeepsEnvelopes(server) && Shows(c, server, changes, feed) && EntriesMerged(c, v, w, changes)
    ensures var seals := Seals(c, v, server, feed);
            && (forall k | k in feed :: k in seals && Protocol.Absorbed(c.lattice, Values(c, v), k, feed[k].envelope, seals[k]).Some?)
            && Protocol.PageMerge(c.lattice, Values(c, v), feed, seals) == Values(c, w)
  {
    hide MergeOne, Exact, Protocol.Absorbed, SealOf, KeepsEnvelopes;
    var seals := Seals(c, v, server, feed);
    forall k | k in feed
      ensures k in seals && k in w && Protocol.Absorbed(c.lattice, Values(c, v), k, feed[k].envelope, seals[k]) == Some(c.read(w[k]))
    {
      var change :| change in changes && change.itemId == k;
      MergeOneRefines(c, v, Remote(k, change.envelope.value));
      assert EntryMerged(c, v, w, change);
    }
    var merged := Protocol.PageMerge(c.lattice, Values(c, v), feed, seals);
    forall k ensures (k in merged <==> k in w) && (k in w ==> merged[k] == c.read(w[k])) {
      assert Mentions(changes, k) ==> k in feed;
    }
    assert merged == Values(c, w);
  }

  /** The state side: the rows recorded are seen as the protocol's. */
  lemma RecordedPageIsSeen<V(!new)>(c: Coding<V>, state: SyncState, seen: Protocol.SyncState<V>, after: SyncState, server: Push.Server,
                                    changes: seq<FeedChange>, feed: map<ItemId, Protocol.Row<V>>, next: nat)
    requires Sees(c, state, seen) && Shows(c, server, changes, feed) && after.cursor == Some(next)
    requires forall change | change in changes :: change.itemId in after.known && RowRecorded(after.known[change.itemId], change)
    requires forall k | !Mentions(changes, k) :: (k in after.known <==> k in state.known) && (k in state.known ==> after.known[k] == state.known[k])
    ensures Sees(c, after, Protocol.SyncState(next, seen.known + map k | k in feed :: Protocol.KnownRow(feed[k].version, feed[k].envelope)))
  {
    hide Digits;
    var known := seen.known + map k | k in feed :: Protocol.KnownRow(feed[k].version, feed[k].envelope);
    forall k ensures (k in after.known <==> k in known) && (k in after.known ==> SeesRow(c, after.known[k], known[k])) {
      if Mentions(changes, k) {
        var change :| change in changes && change.itemId == k;
        assert RowRecorded(after.known[k], change);
      }
    }
    assert after.known.Keys == known.Keys;
  }

  /** One step, and the rest of the run. */
  lemma Steps<V(!new)>(l: Protocol.Lattice<V>, s: Protocol.System<V>, steps: seq<Protocol.Step<V>>)
    requires steps != [] && Protocol.Enabled(l, s, steps[0])
    ensures Protocol.RunFrom(l, s, steps) == Protocol.RunFrom(l, Protocol.After(l, s, steps[0]), steps[1..])
  {
  }

  lemma RunsNothing<V(!new)>(l: Protocol.Lattice<V>, s: Protocol.System<V>)
    ensures Protocol.RunFrom(l, s, []) == Some(s)
  {
  }

  ghost function PageSteps<V(!new)>(d: Protocol.DeviceName, next: nat, seals: map<ItemId, nat>): seq<Protocol.Step<V>> {
    [Protocol.Fetch(d, next), Protocol.MergePage(d, seals), Protocol.RecordPage(d), Protocol.Save(d)]
  }

  ghost predicate OnlyDevice<V(!new)>(s: Protocol.System<V>, t: Protocol.System<V>, d: Protocol.DeviceName) {
    d in t.devices && t == s.(devices := s.devices[d := t.devices[d]]) && t.devices[d].task.Idle?
  }

  /** The four steps, run from a device at rest. */
  lemma PageRuns<V(!new)>(l: Protocol.Lattice<V>, s: Protocol.System<V>, d: Protocol.DeviceName, next: nat, seals: map<ItemId, nat>)
    requires d in s.devices && s.devices[d].task.Idle? && s.devices[d].memory.cursor <= next <= s.server.head
    requires var v := s.devices[d];
             var feed := Protocol.Feed(s.server, v.memory.cursor, next);
             forall k | k in feed :: k in seals && Protocol.Absorbed(l, v.vault, k, feed[k].envelope, seals[k]).Some?
    ensures var v := s.devices[d];
            var feed := Protocol.Feed(s.server, v.memory.cursor, next);
            var memory := Protocol.SyncState(next, v.memory.known + map k | k in feed :: Protocol.KnownRow(feed[k].version, feed[k].envelope));
            Protocol.RunFrom(l, s, PageSteps(d, next, seals))
            == Some(s.(devices := s.devices[d := Protocol.Device(Protocol.PageMerge(l, v.vault, feed, seals), memory, memory, Protocol.Idle)]))
  {
    hide Protocol.RunFrom, Protocol.Absorbed, Protocol.Feed;
    var steps := PageSteps<V>(d, next, seals);
    var v := s.devices[d];
    var feed := Protocol.Feed(s.server, v.memory.cursor, next);
    Steps(l, s, steps);
    var s1 := Protocol.After(l, s, steps[0]);
    assert s1 == s.(devices := s.devices[d := v.(task := Protocol.PageHeld(feed, next))]);
    Steps(l, s1, steps[1..]);
    var s2 := Protocol.After(l, s1, steps[1]);
    var w := Protocol.PageMerge(l, v.vault, feed, seals);
    assert s2 == s.(devices := s.devices[d := v.(vault := w, task := Protocol.PageMerged(feed, next))]);
    Steps(l, s2, steps[1..][1..]);
    var s3 := Protocol.After(l, s2, steps[2]);
    var memory := Protocol.SyncState(next, v.memory.known + map k | k in feed :: Protocol.KnownRow(feed[k].version, feed[k].envelope));
    assert s3 == s.(devices := s.devices[d := Protocol.Device(w, memory, v.disk, Protocol.Idle)]);
    Steps(l, s3, steps[1..][1..][1..]);
    var s4 := Protocol.After(l, s3, steps[3]);
    assert s4 == s.(devices := s.devices[d := Protocol.Device(w, memory, memory, Protocol.Idle)]);
    RunsNothing(l, s4);
    assert steps[1..][1..][1..][1..] == [];
  }

  /** Some row of the page is one the protocol cannot absorb, whatever it would seal. */
  ghost predicate Unabsorbable<V(!new)>(l: Protocol.Lattice<V>, vault: map<ItemId, Protocol.Envelope<V>>, feed: map<ItemId, Protocol.Row<V>>) {
    exists k | k in feed :: forall seal :: Protocol.Absorbed(l, vault, k, feed[k].envelope, seal).None?
  }

  lemma RefusedIsUnabsorbable<V(!new)>(setting: Setting<Rows>, c: Coding<V>, v: Rows, server: Push.Server, changes: seq<FeedChange>, feed: map<ItemId, Protocol.Row<V>>)
    requires Exact(c) && Shows(c, server, changes, feed) && Unique(changes) && AllMerged(setting, changes)
    requires MergeAll(c, v, Batch(setting, changes)).None?
    ensures Unabsorbable(c.lattice, Values(c, v), feed)
  {
    hide MergeOne, Exact, Protocol.Absorbed, SealOf, Merged;
    var refused := RefusedRow(setting, c, v, changes);
    MergeOneRefines(c, v, Remote(refused.itemId, refused.envelope.value));
    assert refused.itemId in feed;
  }

  /** Taking an honest page is a run of the protocol -- fetch, merge, record, save -- from whatever the
      engine is seen as to whatever it is then seen as, in vault, memory and store; and a page the vault
      refuses is one whose merge step is not enabled, after which the engine is seen as it was. */
  lemma TakeRefines<V(!new)>(kindOf: KindOf, authenticate: Authenticate, c: Coding<V>, server: Push.Server, entries: seq<FeedChange>, take: nat,
                             s: Protocol.System<V>, d: Protocol.DeviceName, p: Pulling<Rows>)
    requires Exact(c) && Serves(c, server, s.server) && Lists(server, entries) && AllMerged(EngineSetting(kindOf, authenticate, c), entries)
    requires d in s.devices && s.devices[d].task.Idle? && s.devices[d].memory.cursor <= server.head
    requires Simulates(c, p.vault, p.state, p.saved, s.devices[d])
    ensures var page := HonestPage(entries, Since(p.state.cursor), take);
            var (q, verdict) := TakePage(EngineSetting(kindOf, authenticate, c), p, page);
            && 0 <= Since(p.state.cursor) <= page.nextSeq
            && var feed := Protocol.Feed(s.server, Since(p.state.cursor), page.nextSeq);
               if verdict.Stopped? then
                 verdict == Stopped(VaultRefused) && Unabsorbable(c.lattice, s.devices[d].vault, feed) && Simulates(c, q.vault, q.state, q.saved, s.devices[d])
               else
                 var run := Protocol.RunFrom(c.lattice, s, PageSteps(d, page.nextSeq, Seals(c, p.vault, server, feed)));
                 run.Some? && OnlyDevice(s, run.value, d) && Simulates(c, q.vault, q.state, q.saved, run.value.devices[d])
  {
    hide HonestPage, TakePage, Lists, AllMerged, Exact, Protocol.Feed, Protocol.RunFrom, Seals, Shows, Sees, Batch, Record, MergeAll, Unique, Values, Unabsorbable, PageSteps,
         EntriesMerged, Mentions, RowRecorded, Protocol.PageMerge, Protocol.Absorbed, Serves;
    var setting := EngineSetting(kindOf, authenticate, c);
    var v := s.devices[d];
    SeenCursor(c, p.state, v.memory);
    var cursor: nat := v.memory.cursor;
    ServedHead(c, server, s.server);
    PageShowsFeed(c, server, s.server, entries, cursor, take);
    ListsAscending(server, entries);
    TakenPage(setting, p, entries, take);
    var page := HonestPage(entries, cursor, take);
    var feed := Protocol.Feed(s.server, cursor, page.nextSeq);
    var (q, verdict) := TakePage(setting, p, page);
    EngineMerges(kindOf, authenticate, c, p.vault, Batch(setting, page.changes));
    if verdict.Stopped? {
      RefusedPage(setting, p, page);
      RefusedIsUnabsorbable(setting, c, p.vault, server, page.changes, feed);
    } else {
      PageMerges(setting, c, p.vault, page.changes);
      PageRecords(setting, p.state.known, page.changes);
      MergedPageIsSeen(c, p.vault, q.vault, server, page.changes, feed);
      RecordedPageIsSeen(c, p.state, v.memory, q.state, server, page.changes, feed, page.nextSeq);
      PageRuns(c.lattice, s, d, page.nextSeq, Seals(c, p.vault, server, feed));
    }
  }

  lemma SeenCursor<V(!new)>(c: Coding<V>, state: SyncState, seen: Protocol.SyncState<V>)
    requires Sees(c, state, seen)
    ensures Since(state.cursor) == seen.cursor
  {
  }

  lemma ServedHead<V(!new)>(c: Coding<V>, server: Push.Server, s: Protocol.Server<V>)
    requires Serves(c, server, s)
    ensures s.head == server.head && KeepsEnvelopes(server)
  {
  }

  lemma ListsAscending(server: Push.Server, entries: seq<FeedChange>)
    requires Lists(server, entries)
    ensures Ascending(entries)
  {
  }

  lemma EngineMerges<V(!new)>(kindOf: KindOf, authenticate: Authenticate, c: Coding<V>, v: Rows, batch: seq<Remote>)
    ensures MergeBatch(EngineSetting(kindOf, authenticate, c), v, batch) == MergeAll(c, v, batch)
  {
  }

  lemma RefusedPage<V(!new)>(setting: Setting<V>, p: Pulling<V>, feed: ChangeFeed)
    requires TakePage(setting, p, feed).1 == Stopped(VaultRefused) && !Halts(setting, feed.changes) && RolledBack(feed, Since(p.state.cursor)).None?
    ensures MergeBatch(setting, p.vault, Batch(setting, feed.changes)).None?
  {
    HaltedIsNotEmpty(setting, feed.changes);
    assert feed.changes[..|feed.changes|] == feed.changes;
  }

  // ----- an attempt to push ----------------------------------------------------------------------------------------------

  function StoredIn(v: Rows, k: ItemId): Option<Push.StoredRow> { if k in v then Some(Push.StoredRow(Kind.Item, v[k])) else None }

  ghost function EngineKeeper<V(!new)>(kindOf: KindOf, authenticate: Authenticate, c: Coding<V>): Push.Keeper<Rows> {
    Push.Keeper(EngineSetting(kindOf, authenticate, c), StoredIn)
  }

  /** What device `d` asks for when it sends item `k`. */
  ghost function RequestOf<V(!new)>(d: Protocol.Device<V>, k: ItemId): Protocol.Request<V>
    requires k in d.vault
  {
    Protocol.Request(k, if k in d.memory.known then d.memory.known[k].version else 0, d.vault[k])
  }

  /** The request waits at the server while the others go on: `t` is any state in which `d` and its
      request are as `Send` left them. */
  ghost predicate Waits<V(!new)>(t: Protocol.System<V>, d: Protocol.DeviceName, before: Protocol.Device<V>, request: nat, k: ItemId)
    requires k in before.vault
  {
    && d in t.devices && t.devices[d] == before.(task := Protocol.Waiting(request))
    && request < |t.requests| && t.requests[request] == RequestOf(before, k)
  }

  lemma SendWaits<V(!new)>(l: Protocol.Lattice<V>, s: Protocol.System<V>, d: Protocol.DeviceName, k: ItemId)
    requires Protocol.Enabled(l, s, Protocol.Send(d, k))
    ensures Waits(Protocol.After(l, s, Protocol.Send(d, k)), d, s.devices[d], |s.requests|, k)
  {
  }

  /** Everything this device does once it is served. */
  ghost function AttemptSteps<V(!new)>(d: Protocol.DeviceName, request: nat, answer: Protocol.Answer<V>, seal: nat): seq<Protocol.Step<V>> {
    [Protocol.Serve(request), Protocol.Receive(d, answer)]
    + match answer
      case Applied(_, _) => [Protocol.Save(d)]
      case Conflict(_, _) => [Protocol.MergeConflict(d, seal), Protocol.RecordConflict(d), Protocol.Save(d)]
      case Absent => []
  }

  /** The device a whole attempt leaves. */
  ghost function DeviceServed<V(!new)>(l: Protocol.Lattice<V>, before: Protocol.Device<V>, k: ItemId, answer: Protocol.Answer<V>, seal: nat): Protocol.Device<V>
    requires k in before.vault
    requires answer.Conflict? ==> Protocol.Absorbed(l, before.vault, k, answer.envelope, seal).Some?
  {
    match answer
    case Applied(version, _) =>
      var memory := before.memory.(known := before.memory.known[k := Protocol.KnownRow(version, before.vault[k])]);
      Protocol.Device(before.vault, memory, memory, Protocol.Idle)
    case Conflict(version, e) =>
      var memory := before.memory.(known := before.memory.known[k := Protocol.KnownRow(version, e)]);
      Protocol.Device(before.vault[k := Protocol.Absorbed(l, before.vault, k, e, seal).value], memory, memory, Protocol.Idle)
    case Absent => before.(task := Protocol.Idle)
  }

  ghost predicate Served<V(!new)>(t: Protocol.System<V>, u: Protocol.System<V>, d: Protocol.DeviceName, server: Protocol.Server<V>, after: Protocol.Device<V>) {
    u.devices == t.devices[d := after] && u.server == server && u.requests == t.requests
  }

  lemma ServedAndReceived<V(!new)>(l: Protocol.Lattice<V>, t: Protocol.System<V>, d: Protocol.DeviceName, before: Protocol.Device<V>, request: nat, k: ItemId) returns (u: Protocol.System<V>)
    requires k in before.vault && Waits(t, d, before, request, k)
    ensures var (server, answer) := Protocol.Put(t.server, RequestOf(before, k));
            && (forall rest :: Protocol.RunFrom(l, t, [Protocol.Serve(request), Protocol.Receive(d, answer)] + rest) == Protocol.RunFrom(l, u, rest))
            && u.server == server && u.requests == t.requests
            && match answer
               case Applied(version, _) =>
                 u.devices == t.devices[d := before.(memory := before.memory.(known := before.memory.known[k := Protocol.KnownRow(version, before.vault[k])]), task := Protocol.Idle)]
               case Conflict(version, e) => u.devices == t.devices[d := before.(task := Protocol.ConflictHeld(k, version, e))]
               case Absent => u.devices == t.devices[d := before.(task := Protocol.Idle)]
  {
    hide Protocol.RunFrom, Protocol.Put;
    var (server, answer) := Protocol.Put(t.server, RequestOf(before, k));
    var steps := [Protocol.Serve(request), Protocol.Receive(d, answer)];
    var served := Protocol.After(l, t, steps[0]);
    assert served == t.(server := server, answers := t.answers + [(request, answer)]);
    assert (request, answer) in served.answers;
    assert Protocol.Enabled(l, served, steps[1]);
    u := Protocol.After(l, served, steps[1]);
    forall rest ensures Protocol.RunFrom(l, t, steps + rest) == Protocol.RunFrom(l, u, rest) {
      Steps(l, t, steps + rest);
      assert (steps + rest)[1..] == [steps[1]] + rest;
      Steps(l, served, [steps[1]] + rest);
      assert ([steps[1]] + rest)[1..] == rest;
    }
  }

  lemma SavedRun<V(!new)>(l: Protocol.Lattice<V>, u: Protocol.System<V>, d: Protocol.DeviceName)
    requires d in u.devices
    ensures Protocol.RunFrom(l, u, [Protocol.Save(d)]) == Some(u.(devices := u.devices[d := u.devices[d].(disk := u.devices[d].memory)]))
  {
    hide Protocol.RunFrom;
    var saved := Protocol.After(l, u, Protocol.Save(d));
    Steps(l, u, [Protocol.Save(d)]);
    var steps: seq<Protocol.Step<V>> := [Protocol.Save(d)];
    assert steps[1..] == [];
    RunsNothing(l, saved);
  }

  lemma ConflictRun<V(!new)>(l: Protocol.Lattice<V>, u: Protocol.System<V>, d: Protocol.DeviceName, k: ItemId, version: nat, e: Protocol.Envelope<V>, seal: nat)
    requires d in u.devices && u.devices[d].task == Protocol.ConflictHeld(k, version, e)
    requires Protocol.Absorbed(l, u.devices[d].vault, k, e, seal).Some?
    ensures var v := u.devices[d];
            var memory := v.memory.(known := v.memory.known[k := Protocol.KnownRow(version, e)]);
            Protocol.RunFrom(l, u, [Protocol.MergeConflict(d, seal), Protocol.RecordConflict(d), Protocol.Save(d)])
            == Some(u.(devices := u.devices[d := Protocol.Device(v.vault[k := Protocol.Absorbed(l, v.vault, k, e, seal).value], memory, memory, Protocol.Idle)]))
  {
    hide Protocol.RunFrom, Protocol.Absorbed;
    var steps := [Protocol.MergeConflict(d, seal), Protocol.RecordConflict(d), Protocol.Save(d)];
    var v := u.devices[d];
    var w := v.vault[k := Protocol.Absorbed(l, v.vault, k, e, seal).value];
    Steps(l, u, steps);
    var merged := Protocol.After(l, u, steps[0]);
    assert merged == u.(devices := u.devices[d := v.(vault := w, task := Protocol.ConflictMerged(k, version, e))]);
    Steps(l, merged, steps[1..]);
    assert steps[1..][1..] == [Protocol.Save(d)];
    var recorded := Protocol.After(l, merged, steps[1]);
    var memory := v.memory.(known := v.memory.known[k := Protocol.KnownRow(version, e)]);
    assert recorded == u.(devices := u.devices[d := Protocol.Device(w, memory, v.disk, Protocol.Idle)]);
    SavedRun(l, recorded, d);
    var last := Protocol.Device(w, memory, memory, Protocol.Idle);
    assert recorded.devices[d := last] == u.devices[d := last];
  }

  /** The run of an attempt, from the moment it is served. */
  lemma AttemptRuns<V(!new)>(l: Protocol.Lattice<V>, t: Protocol.System<V>, d: Protocol.DeviceName, before: Protocol.Device<V>, request: nat, k: ItemId, seal: nat)
    requires k in before.vault && Waits(t, d, before, request, k)
    requires var answer := Protocol.Put(t.server, RequestOf(before, k)).1;
             answer.Conflict? ==> Protocol.Absorbed(l, before.vault, k, answer.envelope, seal).Some?
    ensures var (server, answer) := Protocol.Put(t.server, RequestOf(before, k));
            var run := Protocol.RunFrom(l, t, AttemptSteps(d, request, answer, seal));
            run.Some? && Served(t, run.value, d, server, DeviceServed(l, before, k, answer, seal))
  {
    hide Protocol.RunFrom, Protocol.Put, Protocol.Absorbed, RequestOf;
    var answer := Protocol.Put(t.server, RequestOf(before, k)).1;
    var u := ServedAndReceived(l, t, d, before, request, k);
    match answer {
      case Applied(_, _) => SavedRun(l, u, d);
      case Conflict(version, e) => ConflictRun(l, u, d, k, version, e, seal);
      case Absent =>
        RunsNothing(l, u);
        assert [Protocol.Serve(request), Protocol.Receive(d, answer)] + [] == [Protocol.Serve(request), Protocol.Receive(d, answer)];
    }
  }

  // ----- the attempt the engine makes ------------------------------------------------------------------------------------

  lemma LearntIsSeen<V(!new)>(c: Coding<V>, state: SyncState, seen: Protocol.SyncState<V>, k: ItemId, row: KnownRow, seenRow: Protocol.KnownRow<V>)
    requires Sees(c, state, seen) && SeesRow(c, row, seenRow)
    ensures Sees(c, Push.Learn(state, k, row), seen.(known := seen.known[k := seenRow]))
  {
    hide SeesRow;
  }

  lemma SeenRow<V(!new)>(c: Coding<V>, state: SyncState, seen: Protocol.SyncState<V>, k: ItemId)
    requires Sees(c, state, seen)
    ensures k in state.known <==> k in seen.known
    ensures k in state.known ==> SeesRow(c, state.known[k], seen.known[k])
  {
  }

  /** The engine has something to send exactly when the protocol does, and then the request waits. */
  lemma SendsWhatIsPending<V(!new)>(c: Coding<V>, s: Protocol.System<V>, d: Protocol.DeviceName, vault: Rows, state: SyncState, saved: SyncState, k: ItemId)
    requires Exact(c) && d in s.devices && s.devices[d].task.Idle? && Simulates(c, vault, state, saved, s.devices[d])
    ensures StoredIn(vault, k).Some? && !Push.Confirmed(state, k, StoredIn(vault, k).value.envelope)
            <==> Protocol.Enabled(c.lattice, s, Protocol.Send(d, k))
    ensures Protocol.Enabled(c.lattice, s, Protocol.Send(d, k)) ==>
              Waits(Protocol.After(c.lattice, s, Protocol.Send(d, k)), d, s.devices[d], |s.requests|, k)
  {
    hide Waits, Protocol.After;
    SeenRow(c, state, s.devices[d].memory, k);
    if k in vault { assert s.devices[d].vault[k] == c.read(vault[k]); }
    if Protocol.Enabled(c.lattice, s, Protocol.Send(d, k)) { SendWaits(c.lattice, s, d, k); }
  }

  /** The token an engine sends is the protocol's precondition. */
  lemma TokenIsPrecondition<V(!new)>(c: Coding<V>, vault: Rows, state: SyncState, saved: SyncState, before: Protocol.Device<V>, k: ItemId)
    requires Simulates(c, vault, state, saved, before) && k in vault
    requires k in before.memory.known ==> before.memory.known[k].version < MAX_SEQ
    ensures k in before.vault
    ensures Push.Precondition(Push.VersionOf(state, k)) == Some(RequestOf(before, k).precondition)
    ensures RequestOf(before, k) == Protocol.Request(k, RequestOf(before, k).precondition, c.read(vault[k]))
  {
    hide Digits, Push.Precondition;
    SeenRow(c, state, before.memory, k);
    if k in state.known {
      Progress.TokensRoundTrip(before.memory.known[k].version);
    } else {
      assert Push.Precondition(None) == Some(0) by { NoToken(); }
    }
  }

  lemma NoToken()
    ensures Push.Precondition(None) == Some(0)
  {
  }

  /** The decoder gives the client what the protocol's answer says. */
  ghost predicate Understood<V(!new)>(c: Coding<V>, decoded: Result<Push.PutOutcome, Push.PushError>, answer: Protocol.Answer<V>) {
    match answer
    case Applied(version, seqNo) => decoded == Ok(Push.Applied(seqNo, Digits(version)))
    case Conflict(version, e) =>
      && decoded.Ok? && decoded.value.Conflict? && decoded.value.current == Some(Digits(version))
      && decoded.value.envelope.Some? && c.read(decoded.value.envelope.value) == e
    case Absent => decoded == Err(Push.ConflictWithoutEnvelope)
  }

  lemma AnswersAreUnderstood<V(!new)>(c: Coding<V>, reply: Push.Reply, answer: Protocol.Answer<V>)
    requires SameAnswer(reply, answer, c.read)
    requires answer.Applied? ==> answer.seqNo < MAX_SEQ && answer.version < MAX_SEQ
    requires answer.Conflict? ==> 1 <= answer.version < MAX_SEQ && reply.Conflicted? && reply.envelope.Some? && |reply.envelope.value| <= MAX_ENVELOPE_LEN
    ensures Understood(c, Push.DecodeReply(reply), answer)
    ensures answer.Conflict? ==> Push.DecodeReply(reply).value.envelope == reply.envelope
  {
    hide Digits;
    match answer
    case Applied(version, _) => Progress.TokensRoundTrip(version);
    case Conflict(version, _) => Progress.TokensRoundTrip(version);
    case Absent => Progress.TokensRoundTrip(0);
  }

  lemma DifferentTokens(n: nat, m: nat)
    requires n != m
    ensures Digits(n) != Digits(m)
  {
    PrintedParses(n);
    PrintedParses(m);
  }

  /** Resolving a conflict with bytes the vault can be asked to merge. */
  lemma ConflictResolved<V(!new)>(kindOf: KindOf, authenticate: Authenticate, c: Coding<V>, p: Push.Pushing<Rows>, k: ItemId, version: Bytes, bytes: Bytes)
    requires Progress.Mergeable(EngineSetting(kindOf, authenticate, c), k, bytes)
    requires k in p.state.known ==> p.state.known[k].version != Some(version)
    ensures var (q, error) := Push.Resolved(EngineKeeper(kindOf, authenticate, c), p, k, Some(version), Some(bytes));
            var kind := VerifyChange(EngineSetting(kindOf, authenticate, c), k, bytes).value;
            var state := Push.Learn(p.state, k, KnownRow(KindByte(kind), Some(bytes), Some(version), None));
            && q.server == p.server
            && match MergeOne(c, p.vault, Remote(k, bytes))
               case None => error == Some(Push.MergeRefused) && q.vault == p.vault && q.saved == p.saved
               case Some(w) => error == None && q.vault == w && q.state == state && q.saved == state
  {
    hide VerifyChange, MergeOne;
    var setting := EngineSetting(kindOf, authenticate, c);
    MergesOne(c, p.vault, Remote(k, bytes));
    assert setting.merge(p.vault, [Remote(k, bytes)]) == MergeOne(c, p.vault, Remote(k, bytes));
  }

  lemma MergesOne<V(!new)>(c: Coding<V>, v: Rows, r: Remote)
    ensures MergeAll(c, v, [r]) == MergeOne(c, v, r)
  {
    hide MergeOne;
    assert [r][..0] == [];
    assert MergeAll(c, v, []) == Some(v);
  }

  /** What the engine knows of the server's row when its request arrives. */
  ghost predicate RowInRange<V(!new)>(setting: Setting<V>, server: Push.Server, k: ItemId) {
    && server.head + 1 < MAX_SEQ
    && (k in server.rows ==> 1 <= server.rows[k].version <= server.head
                             && server.rows[k].envelope.Some? && Progress.Mergeable(setting, k, server.rows[k].envelope.value))
  }

  lemma MergeableFits<V(!new)>(setting: Setting<V>, k: ItemId, bytes: Bytes)
    requires Progress.Mergeable(setting, k, bytes)
    ensures |bytes| <= MAX_ENVELOPE_LEN
  {
  }

  /** Client and server at once: the reply the engine decodes, and the server it leaves behind, are the
      protocol's answer and server. */
  lemma ServiceIsPut<V(!new)>(setting: Setting<Rows>, c: Coding<V>, server: Push.Server, s: Protocol.Server<V>, request: Protocol.Request<V>, token: Option<Bytes>, envelope: Bytes)
    requires Serves(c, server, s) && RowInRange(setting, server, request.item)
    requires Push.Precondition(token) == Some(request.precondition) && request.envelope == c.read(envelope)
    ensures var (after, reply) := Push.PutItem(server, request.item, token, envelope);
            var (u, answer) := Protocol.Put(s, request);
            && Serves(c, after, u) && Understood(c, Push.DecodeReply(reply), answer)
            && (answer.Conflict? ==>
                  && request.item in server.rows && answer.version == server.rows[request.item].version != request.precondition
                  && server.rows[request.item].envelope.Some? && Push.DecodeReply(reply).value.envelope == server.rows[request.item].envelope)
  {
    hide Digits, Push.Precondition, Push.DecodeReply, Understood, Progress.Mergeable;
    PutRefines(server, c.read, s.stored, request.item, token, envelope);
    if request.item in server.rows { MergeableFits(setting, request.item, server.rows[request.item].envelope.value); }
    var (after, reply) := Push.PutItem(server, request.item, token, envelope);
    var (u, answer) := Protocol.Put(s, request);
    assert Protocol.Request(request.item, request.precondition, c.read(envelope)) == request;
    AnswersAreUnderstood(c, reply, answer);
  }

  /** Everything there is to say when the request of an attempt is served: the engine is seen as the
      device that sent it, and the server it reaches, after `fs`, as the protocol's. */
  ghost predicate Attempting<V(!new)>(setting: Setting<Rows>, c: Coding<V>, p: Push.Pushing<Rows>, k: ItemId, fs: seq<Push.Foreign>,
                                      t: Protocol.System<V>, d: Protocol.DeviceName, before: Protocol.Device<V>, request: nat) {
    && Simulates(c, p.vault, p.state, p.saved, before) && before.task.Idle?
    && k in p.vault && !Push.Confirmed(p.state, k, p.vault[k]) && |p.vault[k]| <= MAX_ENVELOPE_LEN
    && (k in before.memory.known ==> before.memory.known[k].version < MAX_SEQ)
    && k in before.vault && Waits(t, d, before, request, k)
    && Serves(c, Push.InterleaveAll(p.server, fs), t.server)
    && RowInRange(setting, Push.InterleaveAll(p.server, fs), k)
  }

  /** The run goes through and ends in a device at rest, seen as the engine is; no other device moved. */
  ghost predicate Completes<V(!new)>(c: Coding<V>, q: Push.Pushing<Rows>, t: Protocol.System<V>, steps: seq<Protocol.Step<V>>, d: Protocol.DeviceName) {
    var run := Protocol.RunFrom(c.lattice, t, steps);
    && run.Some? && d in run.value.devices && run.value.devices == t.devices[d := run.value.devices[d]]
    && run.value.devices[d].task.Idle? && Simulates(c, q.vault, q.state, q.saved, run.value.devices[d])
    && Serves(c, q.server, run.value.server)
  }

  /** What an attempt does with the decoded reply, stripped of everything before it. */
  lemma AttemptUnfolds(keeper: Push.Keeper<Rows>, p: Push.Pushing<Rows>, k: ItemId, fs: seq<Push.Foreign>)
    requires keeper.stored == StoredIn
    requires k in p.vault && !Push.Confirmed(p.state, k, p.vault[k]) && |p.vault[k]| <= MAX_ENVELOPE_LEN
    ensures var (server, reply) := Push.PutItem(Push.InterleaveAll(p.server, fs), k, Push.VersionOf(p.state, k), p.vault[k]);
            var (r, turn) := Push.Attempted(keeper, p, k, fs);
            var q := p.(server := server);
            match Push.DecodeReply(reply)
            case Err(e) => r == q && turn == Push.GaveUp(e)
            case Ok(Applied(seqNo, version)) =>
              var state := Push.Learn(p.state, k, KnownRow(KindByte(Kind.Item), Some(p.vault[k]), Some(version), Some(seqNo)));
              r.vault == p.vault && r.state == state && r.saved == state && r.server == server && turn == Push.Finished
            case Ok(Conflict(version, bytes)) =>
              var (resolved, error) := Push.Resolved(keeper, q, k, version, bytes);
              r == resolved && turn == if error.Some? then Push.GaveUp(error.value) else Push.Retry
  {
    hide Push.Resolved, Push.PutItem, Push.DecodeReply, Push.InterleaveAll, Push.Confirmed;
  }

  lemma AppliedRefines<V(!new)>(keeper: Push.Keeper<Rows>, c: Coding<V>, p: Push.Pushing<Rows>, k: ItemId, fs: seq<Push.Foreign>,
                                t: Protocol.System<V>, d: Protocol.DeviceName, before: Protocol.Device<V>, request: nat)
    requires keeper.stored == StoredIn && Attempting(keeper.setting, c, p, k, fs, t, d, before, request)
    requires Protocol.Put(t.server, RequestOf(before, k)).1.Applied?
    ensures var (q, turn) := Push.Attempted(keeper, p, k, fs);
            var (server, answer) := Protocol.Put(t.server, RequestOf(before, k));
            turn == Push.Finished && Serves(c, q.server, server) && Completes(c, q, t, AttemptSteps(d, request, answer, 0), d)
  {
    hide Push.PutItem, Push.DecodeReply, Push.InterleaveAll, Push.Precondition, Push.Confirmed, Push.Attempted, Digits, Protocol.Put, Protocol.RunFrom,
         RowInRange, Serves, Waits, Sees, RequestOf, AttemptSteps, Values;
    TokenIsPrecondition(c, p.vault, p.state, p.saved, before, k);
    var req := RequestOf(before, k);
    ServiceIsPut(keeper.setting, c, Push.InterleaveAll(p.server, fs), t.server, req, Push.VersionOf(p.state, k), p.vault[k]);
    AttemptUnfolds(keeper, p, k, fs);
    var (server, answer) := Protocol.Put(t.server, req);
    var q := Push.Attempted(keeper, p, k, fs).0;
    assert before.vault[k] == c.read(p.vault[k]) by { ValueOfRow(c, p.vault, k); }
    LearntIsSeen(c, p.state, before.memory, k, q.state.known[k], Protocol.KnownRow(answer.version, before.vault[k]));
    AttemptRuns(c.lattice, t, d, before, request, k, 0);
  }

  lemma ValueOfRow<V(!new)>(c: Coding<V>, v: Rows, k: ItemId)
    requires k in v
    ensures k in Values(c, v) && Values(c, v)[k] == c.read(v[k])
  {
  }

  lemma ValuesAfter<V(!new)>(c: Coding<V>, v: Rows, w: Rows, k: ItemId)
    requires k in w && w == v[k := w[k]]
    ensures Values(c, w) == Values(c, v)[k := c.read(w[k])]
  {
  }

  lemma AbsentRefines<V(!new)>(keeper: Push.Keeper<Rows>, c: Coding<V>, p: Push.Pushing<Rows>, k: ItemId, fs: seq<Push.Foreign>,
                               t: Protocol.System<V>, d: Protocol.DeviceName, before: Protocol.Device<V>, request: nat)
    requires keeper.stored == StoredIn && Attempting(keeper.setting, c, p, k, fs, t, d, before, request)
    requires Protocol.Put(t.server, RequestOf(before, k)).1.Absent?
    ensures var (q, turn) := Push.Attempted(keeper, p, k, fs);
            var (server, answer) := Protocol.Put(t.server, RequestOf(before, k));
            turn == Push.GaveUp(Push.ConflictWithoutEnvelope) && Serves(c, q.server, server) && Completes(c, q, t, AttemptSteps(d, request, answer, 0), d)
  {
    hide Push.PutItem, Push.DecodeReply, Push.InterleaveAll, Push.Precondition, Push.Confirmed, Push.Attempted, Digits, Protocol.Put, Protocol.RunFrom,
         RowInRange, Serves, Waits, Sees, RequestOf, AttemptSteps, Values;
    TokenIsPrecondition(c, p.vault, p.state, p.saved, before, k);
    var req := RequestOf(before, k);
    ServiceIsPut(keeper.setting, c, Push.InterleaveAll(p.server, fs), t.server, req, Push.VersionOf(p.state, k), p.vault[k]);
    AttemptUnfolds(keeper, p, k, fs);
    AttemptRuns(c.lattice, t, d, before, request, k, 0);
  }

  lemma ConflictRefines<V(!new)>(kindOf: KindOf, authenticate: Authenticate, c: Coding<V>, p: Push.Pushing<Rows>, k: ItemId, fs: seq<Push.Foreign>,
                                 t: Protocol.System<V>, d: Protocol.DeviceName, before: Protocol.Device<V>, request: nat, bytes: Bytes)
    requires Exact(c) && Attempting(EngineSetting(kindOf, authenticate, c), c, p, k, fs, t, d, before, request)
    requires Protocol.Put(t.server, RequestOf(before, k)).1.Conflict?
    requires k in Push.InterleaveAll(p.server, fs).rows && Push.InterleaveAll(p.server, fs).rows[k].envelope == Some(bytes)
    ensures var (q, turn) := Push.Attempted(EngineKeeper(kindOf, authenticate, c), p, k, fs);
            var (server, answer) := Protocol.Put(t.server, RequestOf(before, k));
            && Serves(c, q.server, server)
            && if MergeOne(c, p.vault, Remote(k, bytes)).None? then
                 && turn == Push.GaveUp(Push.MergeRefused) && (forall n :: Protocol.Absorbed(c.lattice, before.vault, k, answer.envelope, n).None?)
                 && q.vault == p.vault && q.saved == p.saved
               else turn == Push.Retry && Completes(c, q, t, AttemptSteps(d, request, answer, SealOf(c, p.vault, Remote(k, bytes))), d)
  {
    hide Push.PutItem, Push.DecodeReply, Push.InterleaveAll, Push.Precondition, Push.Confirmed, Push.Attempted, Push.Resolved, Digits, Protocol.Put, Protocol.RunFrom,
         Protocol.Absorbed, Serves, Waits, Sees, RequestOf, AttemptSteps, Values, Exact, MergeOne, SealOf, VerifyChange;
    var keeper := EngineKeeper(kindOf, authenticate, c);
    TokenIsPrecondition(c, p.vault, p.state, p.saved, before, k);
    var req := RequestOf(before, k);
    ServiceIsPut(keeper.setting, c, Push.InterleaveAll(p.server, fs), t.server, req, Push.VersionOf(p.state, k), p.vault[k]);
    AttemptUnfolds(keeper, p, k, fs);
    var (server, answer) := Protocol.Put(t.server, req);
    var after := Push.PutItem(Push.InterleaveAll(p.server, fs), k, Push.VersionOf(p.state, k), p.vault[k]).0;
    KnownIsOlder(c, p.state, before, k, answer.version);
    ConflictResolved(kindOf, authenticate, c, p.(server := after), k, Digits(answer.version), bytes);
    MergeOneRefines(c, p.vault, Remote(k, bytes));
    if MergeOne(c, p.vault, Remote(k, bytes)).Some? {
      var q := Push.Attempted(keeper, p, k, fs).0;
      ValuesAfter(c, p.vault, q.vault, k);
      LearntIsSeen(c, p.state, before.memory, k, q.state.known[k], Protocol.KnownRow(answer.version, answer.envelope));
      AttemptRuns(c.lattice, t, d, before, request, k, SealOf(c, p.vault, Remote(k, bytes)));
    }
  }

  /** A conflict names a version other than the one recorded. */
  lemma KnownIsOlder<V(!new)>(c: Coding<V>, state: SyncState, before: Protocol.Device<V>, k: ItemId, version: nat)
    requires Sees(c, state, before.memory) && k in before.vault && version != RequestOf(before, k).precondition
    ensures k in state.known ==> state.known[k].version != Some(Digits(version))
  {
    hide Digits;
    SeenRow(c, state, before.memory, k);
    if k in state.known { DifferentTokens(before.memory.known[k].version, version); }
  }

  /** An attempt that sends, from the moment it is served, whatever the others did since: it is the
      protocol's run -- serve and receive, then save, or merge, record and save -- and the engine after it
      is seen as the device after that run.  The one exception is a merge the vault refuses, where the
      protocol's merge is not enabled either, and vault and store are as they were. */
  lemma AttemptRefines<V(!new)>(kindOf: KindOf, authenticate: Authenticate, c: Coding<V>, p: Push.Pushing<Rows>, k: ItemId, fs: seq<Push.Foreign>,
                                t: Protocol.System<V>, d: Protocol.DeviceName, before: Protocol.Device<V>, request: nat)
    requires Exact(c) && Attempting(EngineSetting(kindOf, authenticate, c), c, p, k, fs, t, d, before, request)
    ensures var (q, turn) := Push.Attempted(EngineKeeper(kindOf, authenticate, c), p, k, fs);
            var (server, answer) := Protocol.Put(t.server, RequestOf(before, k));
            && Serves(c, q.server, server)
            && if turn == Push.GaveUp(Push.MergeRefused) then
                 && answer.Conflict? && (forall n :: Protocol.Absorbed(c.lattice, before.vault, k, answer.envelope, n).None?)
                 && q.vault == p.vault && q.saved == p.saved
               else
                 && (match answer
                     case Applied(_, _) => turn == Push.Finished
                     case Conflict(_, _) => turn == Push.Retry
                     case Absent => turn == Push.GaveUp(Push.ConflictWithoutEnvelope))
                 && exists seal :: Completes(c, q, t, AttemptSteps(d, request, answer, seal), d)
  {
    hide Push.PutItem, Push.DecodeReply, Push.InterleaveAll, Push.Precondition, Push.Confirmed, Push.Attempted, Digits, Protocol.Put,
         Protocol.Absorbed, Serves, Waits, Sees, RequestOf, AttemptSteps, Values, Exact, MergeOne, SealOf, Completes;
    var keeper := EngineKeeper(kindOf, authenticate, c);
    var answer := Protocol.Put(t.server, RequestOf(before, k)).1;
    match answer {
      case Applied(_, _) => AppliedRefines(keeper, c, p, k, fs, t, d, before, request);
      case Absent => AbsentRefines(keeper, c, p, k, fs, t, d, before, request);
      case Conflict(_, _) =>
        var bytes := ConflictingBytes(keeper.setting, c, p, k, fs, t, d, before, request);
        ConflictRefines(kindOf, authenticate, c, p, k, fs, t, d, before, request, bytes);
    }
  }

  lemma ConflictingBytes<V(!new)>(setting: Setting<Rows>, c: Coding<V>, p: Push.Pushing<Rows>, k: ItemId, fs: seq<Push.Foreign>,
                                  t: Protocol.System<V>, d: Protocol.DeviceName, before: Protocol.Device<V>, request: nat) returns (bytes: Bytes)
    requires Attempting(setting, c, p, k, fs, t, d, before, request) && Protocol.Put(t.server, RequestOf(before, k)).1.Conflict?
    ensures k in Push.InterleaveAll(p.server, fs).rows && Push.InterleaveAll(p.server, fs).rows[k].envelope == Some(bytes)
  {
    hide Push.PutItem, Push.DecodeReply, Push.InterleaveAll, Push.Precondition, Push.Confirmed, Digits, Protocol.Put, Serves, Waits, Sees, RequestOf, Values, RowInRange;
    TokenIsPrecondition(c, p.vault, p.state, p.saved, before, k);
    ServiceIsPut(setting, c, Push.InterleaveAll(p.server, fs), t.server, RequestOf(before, k), Push.VersionOf(p.state, k), p.vault[k]);
    bytes := Push.InterleaveAll(p.server, fs).rows[k].envelope.value;
  }
}

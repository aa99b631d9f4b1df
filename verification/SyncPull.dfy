/** The engine's pull: page after page of the change feed, each one verified, merged, recorded and
    saved (crates/misty-sync/src/engine.rs).

    The server is an arbitrary function of how often it has been asked, the cursor and the limit, so
    every claim that does not assume `Honest` holds of a hostile one.  The vault is abstract: `merge`
    is the vault's whole-batch merge, `kindOf` and `authenticate` are the envelope parser and the
    roster-and-signature check under the caller's roster. */
module SyncPull {
  import opened Foundations
  import opened ChangeFeeds

  const MAX_PAGES_PER_SYNC := 4096

  datatype Kind = Item | DeviceRoster | Settings | Group | CustomIcon

  function KindByte(kind: Kind): byte {
    match kind
    case Item => 1
    case DeviceRoster => 2
    case Settings => 3
    case Group => 4
    case CustomIcon => 5
  }

  datatype Rejection = BadEnvelope | TooLarge | UnknownSigner | SignatureInvalid

  datatype Remote = Remote(itemId: ItemId, envelope: Bytes)

  datatype Setting<!Vault> = Setting(
    kindOf: Bytes -> Option<Kind>,
    authenticate: (ItemId, Bytes) -> Option<Rejection>,
    merge: (Vault, seq<Remote>) -> Option<Vault>)

  /** A fingerprint is represented by the envelope it identifies. */
  datatype KnownRow = KnownRow(kind: byte, fingerprint: Option<Bytes>, version: Option<Bytes>, seqNo: Option<int>)

  datatype SyncState = SyncState(cursor: Option<int>, known: map<ItemId, KnownRow>)

  datatype SyncError =
    | FeedTooLong
    | SeqRollback(offered: int, cursor: int)
    | VaultRefused
    | Wire(error: WireError)
    | Transport

  datatype Answer = Body(raw: RawChangeFeed) | Failed(error: SyncError)

  type Remoteness = (nat, Option<int>, nat) -> Answer

  /** What a crash would leave: the vault as last committed, the state as last saved. */
  datatype Durable<Vault> = Durable(vault: Vault, state: SyncState)

  /** Everything a pull changes.  Two lists are kept here that the engine does not keep: `delivered`,
      the changes handed to a page merge that went through, and `durable`, what a crash would have left
      after each durable write, in the order the writes were made. */
  datatype Pulling<Vault> = Pulling(
    vault: Vault,
    state: SyncState,
    saved: SyncState,
    durable: seq<Durable<Vault>>,
    requests: nat,
    pages: nat,
    changesSeen: nat,
    rejected: seq<Rejection>,
    rosterUpdate: Option<(ItemId, Bytes)>,
    delivered: seq<FeedChange>)

  // ----- one change ------------------------------------------------------------------------------

  function VerifyChange<Vault>(setting: Setting<Vault>, itemId: ItemId, envelope: Bytes): Result<Kind, Rejection> {
    if |envelope| > MAX_ENVELOPE_LEN then Err(TooLarge)
    else
      match setting.kindOf(envelope)
      case None => Err(BadEnvelope)
      case Some(kind) =>
        match setting.authenticate(itemId, envelope)
        case Some(reason) => Err(reason)
        case None => Ok(kind)
  }

  predicate IsRosterChange<Vault>(setting: Setting<Vault>, change: FeedChange) {
    change.envelope.Some? && setting.kindOf(change.envelope.value) == Some(DeviceRoster)
  }

  predicate Rejected<Vault>(setting: Setting<Vault>, change: FeedChange) {
    change.envelope.Some? && VerifyChange(setting, change.itemId, change.envelope.value).Err?
  }

  /** Verified, and of a kind the vault models. */
  predicate Merged<Vault>(setting: Setting<Vault>, change: FeedChange) {
    change.envelope.Some?
    && var checked := VerifyChange(setting, change.itemId, change.envelope.value);
       checked.Ok? && (checked.value.Item? || checked.value.Group?)
  }

  // ----- what a page of changes does ---------------------------------------------------------------

  function Batch<Vault>(setting: Setting<Vault>, changes: seq<FeedChange>): (batch: seq<Remote>)
    ensures forall r | r in batch ::
      setting.kindOf(r.envelope).Some? && setting.authenticate(r.itemId, r.envelope).None?
    ensures forall r | r in batch :: exists c | c in changes :: c.itemId == r.itemId && c.envelope == Some(r.envelope)
  {
    if changes == [] then []
    else
      var last := changes[|changes| - 1];
      Batch(setting, changes[..|changes| - 1]) + if Merged(setting, last) then [Remote(last.itemId, last.envelope.value)] else []
  }

  function Rejections<Vault>(setting: Setting<Vault>, changes: seq<FeedChange>): seq<Rejection> {
    if changes == [] then []
    else
      var last := changes[|changes| - 1];
      Rejections(setting, changes[..|changes| - 1])
      + if Rejected(setting, last) then [VerifyChange(setting, last.itemId, last.envelope.value).error] else []
  }

  function RosterUpdate<Vault>(setting: Setting<Vault>, before: Option<(ItemId, Bytes)>, changes: seq<FeedChange>): Option<(ItemId, Bytes)> {
    if changes == [] then before
    else
      var last := changes[|changes| - 1];
      if last.envelope.Some? && VerifyChange(setting, last.itemId, last.envelope.value) == Ok(DeviceRoster)
      then Some((last.itemId, last.envelope.value))
      else RosterUpdate(setting, before, changes[..|changes| - 1])
  }

  /** A row whose bytes were reclaimed keeps the kind this device already believed. */
  function RecordOne<Vault>(setting: Setting<Vault>, known: map<ItemId, KnownRow>, change: FeedChange): map<ItemId, KnownRow> {
    if Rejected(setting, change) then known
    else
      var kind :=
        if change.envelope.Some? then KindByte(VerifyChange(setting, change.itemId, change.envelope.value).value)
        else if change.itemId in known then known[change.itemId].kind else 0;
      known[change.itemId := KnownRow(kind, change.envelope, change.version, Some(change.seqNo))]
  }

  function Record<Vault>(setting: Setting<Vault>, known: map<ItemId, KnownRow>, changes: seq<FeedChange>): map<ItemId, KnownRow> {
    if changes == [] then known
    else RecordOne(setting, Record(setting, known, changes[..|changes| - 1]), changes[|changes| - 1])
  }

  function MergeBatch<Vault>(setting: Setting<Vault>, vault: Vault, batch: seq<Remote>): Option<Vault> {
    if batch == [] then Some(vault) else setting.merge(vault, batch)
  }

  /** A batch is one transaction; an empty one is none. */
  function Committed<Vault>(p: Pulling<Vault>, vault: Vault, batch: seq<Remote>): seq<Durable<Vault>> {
    if batch == [] then p.durable else p.durable + [Durable(vault, p.saved)]
  }

  /** A page: the vault commits first, and only a page it took is recorded. */
  function PageApplied<Vault>(setting: Setting<Vault>, p: Pulling<Vault>, changes: seq<FeedChange>): (Pulling<Vault>, Option<SyncError>) {
    var q := p.(rejected := p.rejected + Rejections(setting, changes),
                rosterUpdate := RosterUpdate(setting, p.rosterUpdate, changes));
    match MergeBatch(setting, p.vault, Batch(setting, changes))
    case None => (q, Some(VaultRefused))
    case Some(vault) =>
      (q.(vault := vault, durable := Committed(p, vault, Batch(setting, changes)),
          state := p.state.(known := Record(setting, p.state.known, changes)), delivered := p.delivered + changes), None)
  }

  // ----- one request -------------------------------------------------------------------------------

  function Since(cursor: Option<int>): int { if cursor.Some? then cursor.value else 0 }

  function Fetched(server: Remoteness, request: nat, cursor: Option<int>, limit: nat): Result<ChangeFeed, SyncError> {
    match server(request, cursor, limit)
    case Failed(error) => Err(error)
    case Body(raw) =>
      match Decode(raw)
      case Err(error) => Err(Wire(error))
      case Ok(feed) => Ok(feed)
  }

  predicate TooBig(error: SyncError) { error == Wire(ResponseTooLarge) || error == Wire(EnvelopeTooLarge) }

  /** The first number a page offers that the cursor has already passed. */
  function RolledBack(feed: ChangeFeed, cursor: int): Option<int> {
    if exists i | 0 <= i < |feed.changes| :: feed.changes[i].seqNo <= cursor then Some(FirstStale(feed.changes, cursor))
    else if feed.nextSeq < cursor then Some(feed.nextSeq)
    else None
  }

  function FirstStale(changes: seq<FeedChange>, cursor: int): int
    requires exists i | 0 <= i < |changes| :: changes[i].seqNo <= cursor
  {
    if changes[0].seqNo <= cursor then changes[0].seqNo
    else
      assert exists i | 0 <= i < |changes[1..]| :: changes[1..][i].seqNo <= cursor by {
        var i :| 0 <= i < |changes| && changes[i].seqNo <= cursor;
        assert changes[1..][i - 1] == changes[i];
      }
      FirstStale(changes[1..], cursor)
  }

  /** How much of a page is used: all of it, or up to and including the first roster change. */
  function HaltAt<Vault>(setting: Setting<Vault>, changes: seq<FeedChange>): (n: nat)
    ensures n <= |changes|
    ensures forall i | 0 <= i < |changes| && i + 1 < n :: !IsRosterChange(setting, changes[i])
    ensures Halts(setting, changes) ==> 0 < n && IsRosterChange(setting, changes[n - 1])
    ensures !Halts(setting, changes) ==> n == |changes|
  {
    if changes == [] then 0
    else if IsRosterChange(setting, changes[0]) then 1
    else 1 + HaltAt(setting, changes[1..])
  }

  predicate Halts<Vault>(setting: Setting<Vault>, changes: seq<FeedChange>) {
    exists i | 0 <= i < |changes| :: IsRosterChange(setting, changes[i])
  }

  datatype Verdict = Again | Done | Stopped(error: SyncError)

  /** A page that arrived: check it against the cursor, apply what precedes a change of trust anchor,
      advance, save. */
  function TakePage<Vault>(setting: Setting<Vault>, p: Pulling<Vault>, feed: ChangeFeed): (Pulling<Vault>, Verdict) {
    var cursor := Since(p.state.cursor);
    var q := p.(pages := p.pages + 1, changesSeen := p.changesSeen + |feed.changes|);
    if RolledBack(feed, cursor).Some? then (q, Stopped(SeqRollback(RolledBack(feed, cursor).value, cursor)))
    else
      var halts := Halts(setting, feed.changes);
      var used := feed.changes[..HaltAt(setting, feed.changes)];
      var next := if halts then used[|used| - 1].seqNo else feed.nextSeq;
      var (applied, error) := PageApplied(setting, q, used);
      if error.Some? then (applied, Stopped(error.value))
      else
        var state := applied.state.(cursor := Some(next));
        (applied.(state := state, saved := state, durable := applied.durable + [Durable(applied.vault, state)]),
         if halts || !feed.hasMore || (feed.changes == [] && feed.nextSeq <= cursor) then Done else Again)
  }

  /** Each turn either counts a page or halves the limit, and a limit of one is never halved. */
  function Pulled<Vault>(setting: Setting<Vault>, server: Remoteness, p: Pulling<Vault>, limit: nat): (Pulling<Vault>, Option<SyncError>)
    decreases MAX_PAGES_PER_SYNC - p.pages, limit
  {
    if p.pages >= MAX_PAGES_PER_SYNC then (p, Some(FeedTooLong))
    else
      var asked := p.(requests := p.requests + 1);
      match Fetched(server, p.requests, p.state.cursor, limit)
      case Err(error) =>
        if TooBig(error) && limit > 1 then Pulled(setting, server, asked, limit / 2) else (asked, Some(error))
      case Ok(feed) =>
        var (q, verdict) := TakePage(setting, asked, feed);
        match verdict
        case Stopped(error) => (q, Some(error))
        case Done => (q, None)
        case Again => Pulled(setting, server, q, limit)
  }

  // ----- the engine ------------------------------------------------------------------------------

  type Checked = (FeedChange, Option<Kind>)

  /** What verification keeps of a change: nothing if it is rejected, else the change with its authenticated kind. */
  function Accept<Vault>(setting: Setting<Vault>, change: FeedChange): seq<Checked> {
    if Rejected(setting, change) then []
    else if change.envelope.None? then [(change, None)]
    else [(change, Some(VerifyChange(setting, change.itemId, change.envelope.value).value))]
  }

  function Accepted<Vault>(setting: Setting<Vault>, changes: seq<FeedChange>): seq<Checked> {
    if changes == [] then [] else Accepted(setting, changes[..|changes| - 1]) + Accept(setting, changes[|changes| - 1])
  }

  function Insert(known: map<ItemId, KnownRow>, checked: Checked): map<ItemId, KnownRow> {
    var (change, kind) := checked;
    var kindByte :=
      if kind.Some? then KindByte(kind.value)
      else if change.itemId in known then known[change.itemId].kind else 0;
    known[change.itemId := KnownRow(kindByte, change.envelope, change.version, Some(change.seqNo))]
  }

  function InsertAll(known: map<ItemId, KnownRow>, accepted: seq<Checked>): map<ItemId, KnownRow> {
    if accepted == [] then known else Insert(InsertAll(known, accepted[..|accepted| - 1]), accepted[|accepted| - 1])
  }

  lemma AcceptedIsRecorded<Vault>(setting: Setting<Vault>, known: map<ItemId, KnownRow>, change: FeedChange)
    ensures RecordOne(setting, known, change)
            == if Accept(setting, change) == [] then known else Insert(known, Accept(setting, change)[0])
    ensures |Accept(setting, change)| <= 1
  {
  }

  lemma {:induction false} AcceptedAreRecorded<Vault>(setting: Setting<Vault>, known: map<ItemId, KnownRow>, changes: seq<FeedChange>)
    ensures InsertAll(known, Accepted(setting, changes)) == Record(setting, known, changes)
  {
    hide RecordOne, Accept, Insert;
    if changes != [] {
      var (init, last) := (changes[..|changes| - 1], changes[|changes| - 1]);
      AcceptedAreRecorded(setting, known, init);
      AcceptedIsRecorded(setting, Record(setting, known, init), last);
      var accepted := Accepted(setting, changes);
      if Accept(setting, last) == [] {
        assert accepted == Accepted(setting, init);
      } else {
        assert accepted[..|accepted| - 1] == Accepted(setting, init);
      }
    }
  }

  /** How far the verification loop has got: everything it has built belongs to the changes seen. */
  ghost predicate Sorted<Vault>(setting: Setting<Vault>, seen: seq<FeedChange>, batch: seq<Remote>, accepted: seq<Checked>,
                         rejected: seq<Rejection>, rejectedBefore: seq<Rejection>,
                         roster: Option<(ItemId, Bytes)>, rosterBefore: Option<(ItemId, Bytes)>) {
    && batch == Batch(setting, seen) && accepted == Accepted(setting, seen)
    && rejected == rejectedBefore + Rejections(setting, seen)
    && roster == RosterUpdate(setting, rosterBefore, seen)
  }

  lemma UpTo<T>(s: seq<T>, i: nat)
    requires i < |s|
    ensures s[..i + 1] == s[..i] + [s[i]] && s[..i + 1][..i] == s[..i] && s[..i + 1][i] == s[i]
  {
  }

  class Engine<!Vault> {
    const setting: Setting<Vault>
    var vault: Vault
    var state: SyncState
    var saved: SyncState
    var requests: nat
    var pages: nat
    var changesSeen: nat
    var rejected: seq<Rejection>
    var rosterUpdate: Option<(ItemId, Bytes)>
    ghost var durable: seq<Durable<Vault>>
    ghost var delivered: seq<FeedChange>

    /** A fresh report over whatever state the store holds. */
    constructor (setting: Setting<Vault>, vault: Vault, stored: SyncState)
      ensures this.setting == setting
      ensures Contents() == Pulling(vault, stored, stored, [], 0, 0, 0, [], None, [])
    {
      this.setting := setting;
      this.vault := vault;
      state, saved := stored, stored;
      requests, pages, changesSeen, rejected, rosterUpdate := 0, 0, 0, [], None;
      durable, delivered := [], [];
    }

    ghost function Contents(): Pulling<Vault>
      reads this
    {
      Pulling(vault, state, saved, durable, requests, pages, changesSeen, rejected, rosterUpdate, delivered)
    }

    /** One request for the page after the cursor, decoded. */
    method Changes(server: Remoteness, limit: nat) returns (r: Result<ChangeFeed, SyncError>)
      modifies this
      ensures r == Fetched(server, old(requests), old(state.cursor), limit)
      ensures Contents() == old(Contents()).(requests := old(requests) + 1)
    {
      var answer := server(requests, state.cursor, limit);
      requests := requests + 1;
      match answer {
        case Failed(e) => return Err(e);
        case Body(raw) =>
          var decoded := DecodeChangeFeed(raw);
          return match decoded case Err(e) => Err(Wire(e)) case Ok(feed) => Ok(feed);
      }
    }

    /** One page that arrived, as far as the save that makes it durable. */
    method Take(feed: ChangeFeed) returns (verdict: Verdict)
      modifies this
      ensures (Contents(), verdict) == TakePage(setting, old(Contents()), feed)
    {
      hide PageApplied, RolledBack, HaltAt, Halts;
      var cursor := Since(state.cursor);
      pages := pages + 1;
      changesSeen := changesSeen + |feed.changes|;
      var stale := CheckPage(feed, cursor);
      if stale.Some? {
        return Stopped(SeqRollback(stale.value, cursor));
      }
      var halts := Halts(setting, feed.changes);
      var used := feed.changes[..HaltAt(setting, feed.changes)];
      var next := if halts then used[|used| - 1].seqNo else feed.nextSeq;
      var refused := ApplyPage(used);
      if refused.Some? {
        return Stopped(refused.value);
      }
      state := state.(cursor := Some(next));
      saved := state;
      durable := durable + [Durable(vault, saved)];
      return if halts || !feed.hasMore || (feed.changes == [] && feed.nextSeq <= cursor) then Done else Again;
    }

    method CheckPage(feed: ChangeFeed, cursor: int) returns (stale: Option<int>)
      ensures stale == RolledBack(feed, cursor)
    {
      var i := 0;
      while i < |feed.changes|
        invariant 0 <= i <= |feed.changes|
        invariant forall j | 0 <= j < i :: feed.changes[j].seqNo > cursor
      {
        if feed.changes[i].seqNo <= cursor {
          FirstStaleIs(feed.changes, cursor, i);
          return Some(feed.changes[i].seqNo);
        }
        i := i + 1;
      }
      if feed.nextSeq < cursor {
        return Some(feed.nextSeq);
      }
      return None;
    }

    method ApplyPage(changes: seq<FeedChange>) returns (error: Option<SyncError>)
      modifies this
      ensures (Contents(), error) == PageApplied(setting, old(Contents()), changes)
    {
      hide Batch, Rejections, RosterUpdate, Record, Accepted, InsertAll, VerifyChange, Rejected, Merged;
      var batch: seq<Remote> := [];
      var accepted: seq<Checked> := [];
      SortedNone(setting, rejected, rosterUpdate);
      var i := 0;
      while i < |changes|
        invariant 0 <= i <= |changes|
        invariant Contents() == old(Contents()).(rejected := rejected, rosterUpdate := rosterUpdate)
        invariant Sorted(setting, changes[..i], batch, accepted, rejected, old(rejected), rosterUpdate, old(rosterUpdate))
      {
        var change := changes[i];
        SortedOne(setting, changes, i, batch, accepted, rejected, old(rejected), rosterUpdate, old(rosterUpdate));
        if change.envelope.None? {
          accepted := accepted + [(change, None)];
        } else {
          var checked := VerifyChange(setting, change.itemId, change.envelope.value);
          if checked.Err? {
            rejected := rejected + [checked.error];
          } else {
            accepted := accepted + [(change, Some(checked.value))];
            if checked.value.Item? || checked.value.Group? {
              batch := batch + [Remote(change.itemId, change.envelope.value)];
            } else if checked.value.DeviceRoster? {
              rosterUpdate := Some((change.itemId, change.envelope.value));
            }
          }
        }
        i := i + 1;
      }
      assert changes[..|changes|] == changes;

      if batch != [] {
        var merged := setting.merge(vault, batch);
        if merged.None? {
          return Some(VaultRefused);
        }
        vault := merged.value;
        durable := durable + [Durable(vault, saved)];
      }
      delivered := delivered + changes;

      ghost var verified := Contents();
      InsertedNone(state.known);
      assert accepted[..0] == [];
      i := 0;
      while i < |accepted|
        invariant 0 <= i <= |accepted|
        invariant Contents() == verified.(state := verified.state.(known := state.known))
        invariant state.known == InsertAll(verified.state.known, accepted[..i])
      {
        InsertedOne(verified.state.known, accepted, i);
        state := state.(known := Insert(state.known, accepted[i]));
        i := i + 1;
      }
      assert accepted[..|accepted|] == accepted;
      AcceptedAreRecorded(setting, verified.state.known, changes);
      return None;
    }

    method Pull(server: Remoteness, pageLimit: nat) returns (error: Option<SyncError>)
      modifies this
      ensures (Contents(), error) == Pulled(setting, server, old(Contents()), if pageLimit == 0 then 1 else pageLimit)
    {
      hide Pulled, TakePage;
      var limit: nat := if pageLimit == 0 then 1 else pageLimit;
      while true
        invariant Pulled(setting, server, Contents(), limit)
               == Pulled(setting, server, old(Contents()), if pageLimit == 0 then 1 else pageLimit)
        decreases MAX_PAGES_PER_SYNC - pages, limit
      {
        if pages >= MAX_PAGES_PER_SYNC {
          PullEnds(setting, server, Contents(), limit);
          return Some(FeedTooLong);
        }
        PullTurn(setting, server, Contents(), limit);
        var fetched := Changes(server, limit);
        match fetched {
          case Err(failure) =>
            if !(TooBig(failure) && limit > 1) {
              return Some(failure);
            }
            limit := limit / 2;
          case Ok(feed) =>
            var verdict := Take(feed);
            match verdict {
              case Stopped(stop) => return Some(stop);
              case Done => return None;
              case Again =>
            }
        }
      }
    }
  }

  lemma PullTurn<Vault>(setting: Setting<Vault>, server: Remoteness, p: Pulling<Vault>, limit: nat)
    requires p.pages < MAX_PAGES_PER_SYNC
    ensures var asked := p.(requests := p.requests + 1);
            match Fetched(server, p.requests, p.state.cursor, limit)
            case Err(error) =>
              Pulled(setting, server, p, limit)
              == if TooBig(error) && limit > 1 then Pulled(setting, server, asked, limit / 2) else (asked, Some(error))
            case Ok(feed) =>
              var (q, verdict) := TakePage(setting, asked, feed);
              q.pages == p.pages + 1
              && Pulled(setting, server, p, limit)
              == match verdict
                 case Stopped(error) => (q, Some(error))
                 case Done => (q, None)
                 case Again => Pulled(setting, server, q, limit)
  {
  }

  lemma PullEnds<Vault>(setting: Setting<Vault>, server: Remoteness, p: Pulling<Vault>, limit: nat)
    requires p.pages >= MAX_PAGES_PER_SYNC
    ensures Pulled(setting, server, p, limit) == (p, Some(FeedTooLong))
  {
  }

  lemma {:induction false} FirstStaleIs(changes: seq<FeedChange>, cursor: int, i: nat)
    requires i < |changes| && changes[i].seqNo <= cursor
    requires forall j | 0 <= j < i :: changes[j].seqNo > cursor
    ensures FirstStale(changes, cursor) == changes[i].seqNo
  {
    if i > 0 { FirstStaleIs(changes[1..], cursor, i - 1); }
  }

  lemma SortedNone<Vault>(setting: Setting<Vault>, rejected: seq<Rejection>, roster: Option<(ItemId, Bytes)>)
    ensures Sorted(setting, [], [], [], rejected, rejected, roster, roster)
  {
  }

  lemma SortedOne<Vault>(setting: Setting<Vault>, changes: seq<FeedChange>, i: nat, batch: seq<Remote>, accepted: seq<Checked>,
                         rejected: seq<Rejection>, rejectedBefore: seq<Rejection>,
                         roster: Option<(ItemId, Bytes)>, rosterBefore: Option<(ItemId, Bytes)>)
    requires i < |changes| && Sorted(setting, changes[..i], batch, accepted, rejected, rejectedBefore, roster, rosterBefore)
    ensures var change := changes[i];
            if change.envelope.None? then
              Sorted(setting, changes[..i + 1], batch, accepted + [(change, None)], rejected, rejectedBefore, roster, rosterBefore)
            else
              match VerifyChange(setting, change.itemId, change.envelope.value)
              case Err(reason) =>
                Sorted(setting, changes[..i + 1], batch, accepted, rejected + [reason], rejectedBefore, roster, rosterBefore)
              case Ok(kind) =>
                Sorted(setting, changes[..i + 1],
                       if kind.Item? || kind.Group? then batch + [Remote(change.itemId, change.envelope.value)] else batch,
                       accepted + [(change, Some(kind))], rejected, rejectedBefore,
                       if kind.DeviceRoster? then Some((change.itemId, change.envelope.value)) else roster, rosterBefore)
  {
    UpTo(changes, i);
  }

  lemma InsertedNone(known: map<ItemId, KnownRow>)
    ensures InsertAll(known, []) == known
  {
  }

  lemma InsertedOne(known: map<ItemId, KnownRow>, accepted: seq<Checked>, i: nat)
    requires i < |accepted|
    ensures InsertAll(known, accepted[..i + 1]) == Insert(InsertAll(known, accepted[..i]), accepted[i])
  {
    UpTo(accepted, i);
  }
}

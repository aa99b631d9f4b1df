/** The engine's push of one item (crates/misty-sync/src/engine.rs) against the compare-and-swap
    server (server/misty-server), with other devices' writes landing between its attempts. */
module SyncPush {
  import opened Foundations
  import opened Decimals
  import opened ChangeFeeds
  import opened SyncPull

  const MAX_CONFLICT_RETRIES := 8

  // ----- the server ------------------------------------------------------------------------------

  datatype Row = Row(version: nat, seqNo: nat, envelope: Option<Bytes>)

  datatype Server = Server(rows: map<ItemId, Row>, head: nat)

  /** What leaves the server: versions as tokens, status codes for what it refuses to consider. */
  datatype Reply = Written(seqNo: nat, version: Bytes) | Conflicted(version: Bytes, envelope: Option<Bytes>) | Refused(status: nat)

  /** `If-None-Match: *` is version zero; an `If-Match` must be a number of 64 bits. */
  function Precondition(token: Option<Bytes>): Option<nat> {
    match token
    case None => Some(0)
    case Some(text) =>
      var n := ParseDecimal(text);
      if n.Some? && n.value < 0x1_0000_0000_0000_0000 then n else None
  }

  function VersionAt(s: Server, k: ItemId): nat { if k in s.rows then s.rows[k].version else 0 }

  function Store(s: Server, k: ItemId, envelope: Option<Bytes>): Server {
    Server(s.rows[k := Row(VersionAt(s, k) + 1, s.head + 1, envelope)], s.head + 1)
  }

  function PutItem(s: Server, k: ItemId, token: Option<Bytes>, envelope: Bytes): (Server, Reply) {
    match Precondition(token)
    case None => (s, Refused(400))
    case Some(version) =>
      if k !in s.rows then
        if version == 0 then (Store(s, k, Some(envelope)), Written(s.head + 1, Digits(1)))
        else (s, Conflicted(Digits(0), None))
      else if version == s.rows[k].version then
        (Store(s, k, Some(envelope)), Written(s.head + 1, Digits(version + 1)))
      else (s, Conflicted(Digits(s.rows[k].version), s.rows[k].envelope))
  }

  /** What some other device does between two of this device's requests. */
  datatype Foreign = Write(item: ItemId, envelope: Bytes) | Reclaim(item: ItemId)

  function Interleave(s: Server, f: Foreign): Server {
    match f
    case Write(k, envelope) => Store(s, k, Some(envelope))
    case Reclaim(k) => if k in s.rows && s.rows[k].envelope.Some? then Store(s, k, None) else s
  }

  function InterleaveAll(s: Server, fs: seq<Foreign>): Server
    decreases |fs|
  {
    if fs == [] then s else InterleaveAll(Interleave(s, fs[0]), fs[1..])
  }

  // ----- the client ------------------------------------------------------------------------------

  datatype PushError =
    | OverCap
    | ServerStatus(status: nat)
    | BadAnswer(error: WireError)
    | ConflictWithoutEnvelope
    | Unattributed(reason: Rejection)
    | MergeRefused
    | ConflictLoop

  datatype PutOutcome = Applied(seqNo: int, version: Bytes) | Conflict(current: Option<Bytes>, envelope: Option<Bytes>)

  /** A `409` naming version zero means the row is absent; with no envelope either, it is refused. */
  function DecodeReply(reply: Reply): Result<PutOutcome, PushError> {
    match reply
    case Refused(status) => Err(ServerStatus(status))
    case Written(seqNo, version) =>
      (match (CheckedSeq(Some(seqNo)), ParseVersion(Some(version)))
       case (Err(e), _) => Err(BadAnswer(e))
       case (Ok(n), Err(e)) => Err(BadAnswer(e))
       case (Ok(n), Ok(token)) => if token.None? then Err(BadAnswer(Malformed)) else Ok(Applied(n, token.value)))
    case Conflicted(version, envelope) =>
      if envelope.Some? && |envelope.value| > MAX_ENVELOPE_LEN then Err(BadAnswer(ResponseTooLarge))
      else
        match ParseVersion(Some(version))
        case Err(e) => Err(BadAnswer(e))
        case Ok(token) =>
          var kept := if token == Some([ZERO]) then None else token;
          if envelope.None? && kept.None? then Err(ConflictWithoutEnvelope) else Ok(Conflict(kept, envelope))
  }

  datatype StoredRow = StoredRow(kind: Kind, envelope: Bytes)

  /** The abstract vault of the pull, with a way to read one row. */
  datatype Keeper<!Vault> = Keeper(setting: Setting<Vault>, stored: (Vault, ItemId) -> Option<StoredRow>)

  /** As for a pull, `durable` is what a crash would have left after each durable write, in order. */
  datatype Pushing<Vault> = Pushing(
    vault: Vault,
    state: SyncState,
    saved: SyncState,
    durable: seq<Durable<Vault>>,
    server: Server,
    pushed: nat,
    conflictsResolved: nat)

  function VersionOf(state: SyncState, k: ItemId): Option<Bytes> { if k in state.known then state.known[k].version else None }

  predicate Confirmed(state: SyncState, k: ItemId, envelope: Bytes) {
    k in state.known && state.known[k].fingerprint == Some(envelope)
  }

  function Learn(state: SyncState, k: ItemId, row: KnownRow): SyncState { state.(known := state.known[k := row]) }

  function VerifyConflict<Vault>(setting: Setting<Vault>, k: ItemId, envelope: Bytes): Result<Kind, PushError> {
    match VerifyChange(setting, k, envelope)
    case Ok(kind) => Ok(kind)
    case Err(reason) => if reason == TooLarge then Err(OverCap) else Err(Unattributed(reason))
  }

  /** Merge what the server said it had, and remember that it has it. */
  function Resolved<Vault>(keeper: Keeper<Vault>, p: Pushing<Vault>, k: ItemId, version: Option<Bytes>, envelope: Option<Bytes>): (Pushing<Vault>, Option<PushError>) {
    match envelope
    case None =>
      var kind := if k in p.state.known then p.state.known[k].kind else 0;
      var state :=
        if version.None? then p.state.(known := p.state.known - {k})
        else Learn(p.state, k, KnownRow(kind, None, version, None));
      (p.(state := state, saved := state, durable := p.durable + [Durable(p.vault, state)], conflictsResolved := p.conflictsResolved + 1), None)
    case Some(bytes) =>
      match VerifyConflict(keeper.setting, k, bytes)
      case Err(e) => (p, Some(e))
      case Ok(kind) =>
        if Confirmed(p.state, k, bytes) && p.state.known[k].version == version then (p, Some(ConflictLoop))
        else
          var state := Learn(p.state, k, KnownRow(KindByte(kind), Some(bytes), version, None));
          var merges := kind.Item? || kind.Group?;
          var vault := if merges then keeper.setting.merge(p.vault, [Remote(k, bytes)]) else Some(p.vault);
          if vault.None? then (p.(state := state), Some(MergeRefused))
          else
            var committed := if merges then p.durable + [Durable(vault.value, p.saved)] else p.durable;
            (p.(vault := vault.value, state := state, saved := state, durable := committed + [Durable(vault.value, state)],
                conflictsResolved := p.conflictsResolved + 1), None)
  }

  datatype Turn = Retry | Finished | GaveUp(error: PushError)

  /** One attempt: nothing to send, or one request and what its answer asks for. */
  function Attempted<Vault>(keeper: Keeper<Vault>, p: Pushing<Vault>, k: ItemId, meanwhile: seq<Foreign>): (Pushing<Vault>, Turn) {
    match keeper.stored(p.vault, k)
    case None => (p, Finished)
    case Some(row) =>
      if Confirmed(p.state, k, row.envelope) then (p, Finished)
      else if |row.envelope| > MAX_ENVELOPE_LEN then (p, GaveUp(OverCap))
      else
        var (server, reply) := PutItem(InterleaveAll(p.server, meanwhile), k, VersionOf(p.state, k), row.envelope);
        var q := p.(server := server);
        match DecodeReply(reply)
        case Err(e) => (q, GaveUp(e))
        case Ok(Applied(seqNo, version)) =>
          var state := Learn(q.state, k, KnownRow(KindByte(row.kind), Some(row.envelope), Some(version), Some(seqNo)));
          (q.(state := state, saved := state, durable := q.durable + [Durable(q.vault, state)], pushed := q.pushed + 1), Finished)
        case Ok(Conflict(version, envelope)) =>
          var (r, error) := Resolved(keeper, q, k, version, envelope);
          (r, if error.Some? then GaveUp(error.value) else Retry)
  }

  function Pushed<Vault>(keeper: Keeper<Vault>, foreign: nat -> seq<Foreign>, p: Pushing<Vault>, k: ItemId, attempt: nat): (Pushing<Vault>, Option<PushError>)
    decreases MAX_CONFLICT_RETRIES + 1 - attempt
  {
    if attempt > MAX_CONFLICT_RETRIES then (p, Some(ConflictLoop))
    else
      var (q, verdict) := Attempted(keeper, p, k, foreign(attempt));
      match verdict
      case Finished => (q, None)
      case GaveUp(e) => (q, Some(e))
      case Retry => Pushed(keeper, foreign, q, k, attempt + 1)
  }

  // ----- the engine ------------------------------------------------------------------------------

  /** The server other devices share. */
  class SharedServer {
    var rows: map<ItemId, Row>
    var head: nat

    ghost function Contents(): Server
      reads this
    {
      Server(rows, head)
    }

    constructor (server: Server)
      ensures Contents() == server
    {
      rows, head := server.rows, server.head;
    }

    method OthersWrite(fs: seq<Foreign>)
      modifies this
      ensures Contents() == InterleaveAll(old(Contents()), fs)
    {
      var s := Server(rows, head);
      s := InterleaveAll(s, fs);
      rows, head := s.rows, s.head;
    }

    /** Compare the version, then allocate a sequence number and write, in one transaction. */
    method Put(k: ItemId, token: Option<Bytes>, envelope: Bytes) returns (reply: Reply)
      modifies this
      ensures (Contents(), reply) == PutItem(old(Contents()), k, token, envelope)
    {
      var precondition := Precondition(token);
      if precondition.None? {
        return Refused(400);
      }
      var version := 0;
      if k in rows {
        if precondition.value != rows[k].version {
          return Conflicted(Digits(rows[k].version), rows[k].envelope);
        }
        version := rows[k].version;
      } else if precondition.value != 0 {
        return Conflicted(Digits(0), None);
      }
      head := head + 1;
      rows := rows[k := Row(version + 1, head, Some(envelope))];
      return Written(head, Digits(version + 1));
    }
  }

  class Pusher<!Vault> {
    const keeper: Keeper<Vault>
    const server: SharedServer
    var vault: Vault
    var state: SyncState
    var saved: SyncState
    ghost var durable: seq<Durable<Vault>>
    var pushed: nat
    var conflictsResolved: nat

    constructor (keeper: Keeper<Vault>, server: SharedServer, vault: Vault, stored: SyncState)
      ensures this.keeper == keeper && this.server == server
      ensures Contents() == Pushing(vault, stored, stored, [], server.Contents(), 0, 0)
    {
      this.keeper, this.server, this.vault := keeper, server, vault;
      state, saved, pushed, conflictsResolved := stored, stored, 0, 0;
      durable := [];
    }

    ghost function Contents(): Pushing<Vault>
      reads this, server
    {
      Pushing(vault, state, saved, durable, server.Contents(), pushed, conflictsResolved)
    }

    method ResolveConflict(k: ItemId, version: Option<Bytes>, envelope: Option<Bytes>) returns (error: Option<PushError>)
      modifies this
      ensures (Contents(), error) == Resolved(keeper, old(Contents()), k, version, envelope)
    {
      hide VerifyConflict;
      if envelope.None? {
        if version.None? {
          state := state.(known := state.known - {k});
        } else {
          var kind := if k in state.known then state.known[k].kind else 0;
          state := Learn(state, k, KnownRow(kind, None, version, None));
        }
        saved := state;
        durable := durable + [Durable(vault, saved)];
        conflictsResolved := conflictsResolved + 1;
        return None;
      }
      var checked := VerifyConflict(keeper.setting, k, envelope.value);
      if checked.Err? {
        return Some(checked.error);
      }
      if Confirmed(state, k, envelope.value) && state.known[k].version == version {
        return Some(ConflictLoop);
      }
      state := Learn(state, k, KnownRow(KindByte(checked.value), envelope, version, None));
      if checked.value.Item? || checked.value.Group? {
        var merged := keeper.setting.merge(vault, [Remote(k, envelope.value)]);
        if merged.None? {
          return Some(MergeRefused);
        }
        vault := merged.value;
        durable := durable + [Durable(vault, saved)];
      }
      saved := state;
      durable := durable + [Durable(vault, saved)];
      conflictsResolved := conflictsResolved + 1;
      return None;
    }

    method PushOne(k: ItemId, foreign: nat -> seq<Foreign>) returns (error: Option<PushError>)
      modifies this, server
      ensures (Contents(), error) == Pushed(keeper, foreign, old(Contents()), k, 0)
    {
      hide Resolved, PutItem, DecodeReply, InterleaveAll;
      for attempt := 0 to MAX_CONFLICT_RETRIES + 1
        invariant Pushed(keeper, foreign, Contents(), k, attempt) == Pushed(keeper, foreign, old(Contents()), k, 0)
      {
        var row := keeper.stored(vault, k);
        if row.None? {
          return None;
        }
        if Confirmed(state, k, row.value.envelope) {
          return None;
        }
        if |row.value.envelope| > MAX_ENVELOPE_LEN {
          return Some(OverCap);
        }
        server.OthersWrite(foreign(attempt));
        var reply := server.Put(k, VersionOf(state, k), row.value.envelope);
        var outcome := DecodeReply(reply);
        if outcome.Err? {
          return Some(outcome.error);
        }
        match outcome.value {
          case Applied(seqNo, version) =>
            state := Learn(state, k, KnownRow(KindByte(row.value.kind), Some(row.value.envelope), Some(version), Some(seqNo)));
            saved := state;
            durable := durable + [Durable(vault, saved)];
            pushed := pushed + 1;
            return None;
          case Conflict(version, envelope) =>
            var failure := ResolveConflict(k, version, envelope);
            if failure.Some? {
              return failure;
            }
        }
      }
      return Some(ConflictLoop);
    }
  }
}

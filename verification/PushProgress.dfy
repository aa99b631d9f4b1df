/** A push against an honest server settles unless every one of its retries was overtaken, the vault
    refuses what the server holds, or its own envelope is too long; and what a vault has to keep to for
    the last two not to happen. */
module PushProgress {
  import opened Foundations
  import opened Decimals
  import opened ChangeFeeds
  import opened SyncPull
  import opened SyncPush

  // ----- an honest world ---------------------------------------------------------------------------

  predicate Attributable<Vault>(setting: Setting<Vault>, k: ItemId, envelope: Bytes) {
    VerifyChange(setting, k, envelope).Ok?
  }

  /** Rows are versioned from one, versions never outrun the sequence, and a rostered device wrote each. */
  ghost predicate Sane<Vault>(setting: Setting<Vault>, s: Server) {
    forall k | k in s.rows ::
      1 <= s.rows[k].version <= s.head
      && (s.rows[k].envelope.Some? ==> Attributable(setting, k, s.rows[k].envelope.value))
  }

  ghost predicate Peers<Vault>(setting: Setting<Vault>, fs: seq<Foreign>) {
    forall f | f in fs && f.Write? :: Attributable(setting, f.item, f.envelope)
  }

  predicate Mergeable<Vault>(setting: Setting<Vault>, k: ItemId, envelope: Bytes) {
    var kind := VerifyChange(setting, k, envelope);
    kind.Ok? && (kind.value.Item? || kind.value.Group?)
  }

  /** The vault does not take what the server holds. */
  predicate Refuses<Vault>(keeper: Keeper<Vault>, vault: Vault, server: Server, k: ItemId) {
    && k in server.rows && server.rows[k].envelope.Some? && Mergeable(keeper.setting, k, server.rows[k].envelope.value)
    && keeper.setting.merge(vault, [Remote(k, server.rows[k].envelope.value)]).None?
  }

  /** The vault sealed more than a request may carry. */
  predicate TooLong<Vault>(keeper: Keeper<Vault>, vault: Vault, k: ItemId) {
    var row := keeper.stored(vault, k);
    row.Some? && |row.value.envelope| > MAX_ENVELOPE_LEN
  }

  ghost predicate Overtakes(fs: seq<Foreign>, k: ItemId) {
    exists f | f in fs :: f.item == k
  }

  /** Writes other devices make from this attempt on. */
  ghost function Remaining(foreign: nat -> seq<Foreign>, attempt: nat): nat
    decreases MAX_CONFLICT_RETRIES + 1 - attempt
  {
    if attempt > MAX_CONFLICT_RETRIES then 0 else |foreign(attempt)| + Remaining(foreign, attempt + 1)
  }

  /** The version recorded is one this server issues, and is absent unless there is a row. */
  ghost predicate Usual<Vault>(p: Pushing<Vault>, k: ItemId) {
    var token := SyncPush.VersionOf(p.state, k);
    token.Some? ==> Precondition(token).Some? && k in p.server.rows
  }

  /** The version recorded is the row's own. */
  ghost predicate Fresh<Vault>(p: Pushing<Vault>, k: ItemId) {
    k in p.server.rows && SyncPush.VersionOf(p.state, k) == Some(Digits(p.server.rows[k].version))
  }

  // ----- interleaved writes -----------------------------------------------------------------------

  /** A precondition that is no number of 64 bits is refused, and nothing is written. */
  lemma OddTokensAreRefused(s: Server, k: ItemId, token: Bytes, envelope: Bytes)
    requires !AllDigits(token) || ValueOf(token) >= 0x1_0000_0000_0000_0000
    ensures PutItem(s, k, Some(token), envelope) == (s, Refused(400))
    ensures DecodeReply(Refused(400)) == Err(ServerStatus(400))
  {
  }

  /** What another device does moves one row on by one version and one number, with its bytes or without;
      reclaiming what is not there does nothing, and no other row is touched. */
  lemma OthersMoveOneRow(s: Server, f: Foreign)
    ensures var t := Interleave(s, f);
            && (forall k | k != f.item :: (k in t.rows <==> k in s.rows) && (k in s.rows ==> t.rows[k] == s.rows[k]))
            && if f.Reclaim? && !(f.item in s.rows && s.rows[f.item].envelope.Some?) then t == s
               else
                 && t.head == s.head + 1 && f.item in t.rows && t.rows[f.item].seqNo == t.head
                 && t.rows[f.item].version == (if f.item in s.rows then s.rows[f.item].version else 0) + 1
                 && t.rows[f.item].envelope == (if f.Write? then Some(f.envelope) else None)
  {
  }

  lemma {:induction false} InterleavingIsSane<Vault>(setting: Setting<Vault>, s: Server, fs: seq<Foreign>, k: ItemId)
    requires Sane(setting, s) && Peers(setting, fs)
    ensures var t := InterleaveAll(s, fs);
            && Sane(setting, t) && s.head <= t.head <= s.head + |fs|
            && (k in s.rows ==> k in t.rows)
            && (!Overtakes(fs, k) ==> (k in t.rows <==> k in s.rows) && (k in s.rows ==> t.rows[k] == s.rows[k]))
    decreases |fs|
  {
    if fs != [] {
      assert fs[0] in fs;
      InterleavingIsSane(setting, Interleave(s, fs[0]), fs[1..], k);
    }
  }

  // ----- tokens -------------------------------------------------------------------------------------

  /** Version numbers in range survive the trip to the client and back. */
  lemma TokensRoundTrip(n: nat)
    requires n < MAX_SEQ
    ensures ParseVersion(Some(Digits(n))) == Ok(Some(Digits(n)))
    ensures Precondition(Some(Digits(n))) == Some(n)
    ensures Digits(n) == [ZERO] <==> n == 0
  {
    PrintedParses(n);
    PrintedParses(0);
    assert Digits(0) == [ZERO];
    assert MAX_SEQ < Pow10(15) by { TenToTheFifteen(); }
    DigitsFit(n, 15);
    var t := Digits(n);
    assert IsDigit(t[0]);
    assert Unquoted(t) == t;
  }

  lemma TenToTheFifteen()
    ensures Pow10(15) == 1_000_000_000_000_000
  {
    assert Pow10(5) == 100000;
    assert Pow10(10) == 10000000000;
  }

  // ----- one attempt --------------------------------------------------------------------------------

  lemma ReplyDecodes(s: Server, k: ItemId, token: Option<Bytes>, envelope: Bytes)
    requires s.head + 1 < MAX_SEQ && Precondition(token).Some?
    requires k in s.rows ==> 1 <= s.rows[k].version <= s.head
    requires k in s.rows && s.rows[k].envelope.Some? ==> |s.rows[k].envelope.value| <= MAX_ENVELOPE_LEN
    requires k in s.rows || Precondition(token).value == 0
    ensures var (t, reply) := PutItem(s, k, token, envelope);
            if SyncPush.VersionAt(s, k) == Precondition(token).value then
              && t == Store(s, k, Some(envelope))
              && DecodeReply(reply) == Ok(Applied(s.head + 1, Digits(SyncPush.VersionAt(s, k) + 1)))
            else
              && t == s && k in s.rows
              && DecodeReply(reply) == Ok(Conflict(Some(Digits(s.rows[k].version)), s.rows[k].envelope))
  {
    hide Digits;
    TokensRoundTrip(SyncPush.VersionAt(s, k));
    TokensRoundTrip(SyncPush.VersionAt(s, k) + 1);
  }

  ghost predicate Settled<Vault>(keeper: Keeper<Vault>, p: Pushing<Vault>, k: ItemId) {
    var row := keeper.stored(p.vault, k);
    row.Some? ==> Confirmed(p.state, k, row.value.envelope)
  }

  /** What a `409` leaves behind: its version recorded.  It is a reason to stop only if the vault refuses
      what came with it, because this server conflicts only with a version that was not already recorded. */
  lemma ConflictIsLearnt<Vault>(keeper: Keeper<Vault>, p: Pushing<Vault>, k: ItemId)
    requires k in p.server.rows && p.server.rows[k].version < MAX_SEQ
    requires p.server.rows[k].envelope.Some? ==> Attributable(keeper.setting, k, p.server.rows[k].envelope.value)
    requires Precondition(SyncPush.VersionOf(p.state, k)) != Some(p.server.rows[k].version)
    ensures var row := p.server.rows[k];
            var (q, error) := Resolved(keeper, p, k, Some(Digits(row.version)), row.envelope);
            && q.server == p.server && q.pushed == p.pushed
            && if Refuses(keeper, p.vault, p.server, k) then error == Some(MergeRefused) && q.vault == p.vault
               else error.None? && Fresh(q, k)
  {
    hide VerifyChange, Digits;
    TokensRoundTrip(p.server.rows[k].version);
  }

  /** The two reasons for giving up that are the vault's own. */
  predicate StopsFor<Vault>(keeper: Keeper<Vault>, q: Pushing<Vault>, k: ItemId, e: PushError) {
    (e == MergeRefused && Refuses(keeper, q.vault, q.server, k)) || (e == OverCap && TooLong(keeper, q.vault, k))
  }

  lemma AttemptOutcome<Vault>(keeper: Keeper<Vault>, p: Pushing<Vault>, k: ItemId, fs: seq<Foreign>)
    requires Sane(keeper.setting, p.server) && Peers(keeper.setting, fs) && Usual(p, k)
    requires p.server.head + |fs| + 1 < MAX_SEQ
    ensures var (q, turn) := Attempted(keeper, p, k, fs);
            match turn
            case GaveUp(e) => StopsFor(keeper, q, k, e)
            case Finished => Settled(keeper, q, k) && (q.pushed > p.pushed ==> q.server.rows[k].envelope == Some(keeper.stored(q.vault, k).value.envelope))
                             && q.pushed >= p.pushed && (q.pushed > p.pushed ==> k in q.server.rows && keeper.stored(q.vault, k).Some?)
            case Retry => Fresh(q, k) && Sane(keeper.setting, q.server) && q.pushed == p.pushed && q.server.head <= p.server.head + |fs|
                          && !(Fresh(p, k) && !Overtakes(fs, k))
  {
    hide Resolved, DecodeReply, PutItem, InterleaveAll, VerifyChange, Digits, Overtakes, Refuses;
    var row := keeper.stored(p.vault, k);
    if row.Some? && !Confirmed(p.state, k, row.value.envelope) && |row.value.envelope| <= MAX_ENVELOPE_LEN {
      var s := InterleaveAll(p.server, fs);
      InterleavingIsSane(keeper.setting, p.server, fs, k);
      if k in s.rows && s.rows[k].envelope.Some? { AttributableFits(keeper.setting, k, s.rows[k].envelope.value); }
      var token := SyncPush.VersionOf(p.state, k);
      ReplyDecodes(s, k, token, row.value.envelope);
      if SyncPush.VersionAt(s, k) != Precondition(token).value {
        ConflictIsLearnt(keeper, p.(server := s), k);
        if Fresh(p, k) && !Overtakes(fs, k) {
          TokensRoundTrip(p.server.rows[k].version);
        }
      }
    }
  }

  /** Against an honest server an attempt that sends anything fails in exactly three cases: the envelope
      is over the cap; this device remembers a version of a row that is not there (the server says "absent"
      as version zero without bytes, which the decoder refuses before it could be retried as a create);
      or it conflicts, and the vault refuses what the row holds. */
  lemma AttemptFailsExactlyWhen<Vault>(keeper: Keeper<Vault>, p: Pushing<Vault>, k: ItemId, fs: seq<Foreign>)
    requires Sane(keeper.setting, p.server) && Peers(keeper.setting, fs)
    requires p.server.head + |fs| + 1 < MAX_SEQ && Precondition(SyncPush.VersionOf(p.state, k)).Some?
    requires keeper.stored(p.vault, k).Some? && !Confirmed(p.state, k, keeper.stored(p.vault, k).value.envelope)
    ensures var turn := Attempted(keeper, p, k, fs).1;
            var s := InterleaveAll(p.server, fs);
            var sent := Precondition(SyncPush.VersionOf(p.state, k)).value;
            if TooLong(keeper, p.vault, k) then turn == GaveUp(OverCap)
            else if k !in s.rows && sent != 0 then turn == GaveUp(ConflictWithoutEnvelope)
            else if sent != SyncPush.VersionAt(s, k) && Refuses(keeper, p.vault, s, k) then turn == GaveUp(MergeRefused)
            else !turn.GaveUp?
  {
    hide Resolved, InterleaveAll, VerifyChange, Digits, Refuses;
    var s := InterleaveAll(p.server, fs);
    InterleavingIsSane(keeper.setting, p.server, fs, k);
    var token := SyncPush.VersionOf(p.state, k);
    var envelope := keeper.stored(p.vault, k).value.envelope;
    if k !in s.rows && Precondition(token).value != 0 {
      TokensRoundTrip(0);
    } else {
      if k in s.rows && s.rows[k].envelope.Some? { AttributableFits(keeper.setting, k, s.rows[k].envelope.value); }
      ReplyDecodes(s, k, token, envelope);
      if SyncPush.VersionAt(s, k) != Precondition(token).value { ConflictIsLearnt(keeper, p.(server := s), k); }
    }
  }

  lemma AttributableFits<Vault>(setting: Setting<Vault>, k: ItemId, envelope: Bytes)
    requires Attributable(setting, k, envelope)
    ensures |envelope| <= MAX_ENVELOPE_LEN
  {
  }

  // ----- the whole push -------------------------------------------------------------------------------

  /** Against an honest server a push either settles the item -- the vault's row is gone, or the
      server's confirmation is of exactly the envelope stored -- or stops: for the retry limit, and then
      another device overtook every single retry; or for the vault, which refuses what the server now
      holds or has sealed more than may be sent. */
  lemma {:induction false} PushSettles<Vault>(keeper: Keeper<Vault>, foreign: nat -> seq<Foreign>, p: Pushing<Vault>, k: ItemId, attempt: nat)
    requires Sane(keeper.setting, p.server) && Usual(p, k)
    requires forall i: nat | attempt <= i <= MAX_CONFLICT_RETRIES :: Peers(keeper.setting, foreign(i))
    requires p.server.head + Remaining(foreign, attempt) + 1 < MAX_SEQ
    ensures var (q, error) := Pushed(keeper, foreign, p, k, attempt);
            match error
            case None =>
              Settled(keeper, q, k)
              && (q.pushed > p.pushed ==> k in q.server.rows && keeper.stored(q.vault, k).Some?
                                          && q.server.rows[k].envelope == Some(keeper.stored(q.vault, k).value.envelope))
            case Some(e) =>
              if e == ConflictLoop then
                && (forall i: nat | attempt < i <= MAX_CONFLICT_RETRIES :: Overtakes(foreign(i), k))
                && (Fresh(p, k) && attempt <= MAX_CONFLICT_RETRIES ==> Overtakes(foreign(attempt), k))
              else StopsFor(keeper, q, k, e)
    decreases MAX_CONFLICT_RETRIES + 1 - attempt
  {
    hide Attempted, Sane, Peers, Settled, Overtakes, Refuses, TooLong;
    if attempt <= MAX_CONFLICT_RETRIES {
      AttemptOutcome(keeper, p, k, foreign(attempt));
      var (q, turn) := Attempted(keeper, p, k, foreign(attempt));
      if turn.Retry? {
        FreshIsUsual(keeper.setting, q, k);
        PushSettles(keeper, foreign, q, k, attempt + 1);
      }
    }
  }

  lemma FreshIsUsual<Vault>(setting: Setting<Vault>, p: Pushing<Vault>, k: ItemId)
    requires Fresh(p, k) && Sane(setting, p.server) && p.server.head < MAX_SEQ
    ensures Usual(p, k)
  {
    TokensRoundTrip(p.server.rows[k].version);
  }

  ghost function Overtaken(foreign: nat -> seq<Foreign>, k: ItemId): set<nat> {
    set i: nat | i <= MAX_CONFLICT_RETRIES && Overtakes(foreign(i), k)
  }

  // ----- what success means ----------------------------------------------------------------------------

  /** What is recorded as the server's envelope of the item is the server's. */
  ghost predicate RecordIsTrue<Vault>(p: Pushing<Vault>, k: ItemId) {
    k in p.state.known && p.state.known[k].fingerprint.Some? ==>
      k in p.server.rows && p.server.rows[k].envelope == p.state.known[k].fingerprint
  }

  /** What the vault stores of the item is what the server's row holds. */
  ghost predicate Landed<Vault>(keeper: Keeper<Vault>, p: Pushing<Vault>, k: ItemId) {
    var row := keeper.stored(p.vault, k);
    row.Some? ==> k in p.server.rows && p.server.rows[k].envelope == Some(row.value.envelope)
  }

  /** After a conflict the record of the row is the row as the server described it, reclaimed rows included:
      its version, its bytes or their absence, the authenticated kind or the one believed before; a row the
      server does not have is not recorded.  No other row is touched, and it is saved. */
  lemma ConflictRecords<Vault>(keeper: Keeper<Vault>, p: Pushing<Vault>, k: ItemId, version: Option<Bytes>, envelope: Option<Bytes>)
    ensures var (q, error) := Resolved(keeper, p, k, version, envelope);
            error.None? ==>
              && q.saved == q.state && q.state.cursor == p.state.cursor && q.conflictsResolved == p.conflictsResolved + 1
              && (forall j | j != k :: (j in q.state.known <==> j in p.state.known) && (j in p.state.known ==> q.state.known[j] == p.state.known[j]))
              && if envelope.None? && version.None? then k !in q.state.known
                 else
                   && k in q.state.known && q.state.known[k].version == version && q.state.known[k].fingerprint == envelope
                   && q.state.known[k].seqNo.None?
                   && q.state.known[k].kind == (if envelope.Some? && keeper.setting.kindOf(envelope.value).Some?
                                                then KindByte(keeper.setting.kindOf(envelope.value).value)
                                                else if k in p.state.known then p.state.known[k].kind else 0)
  {
  }

  /** And what came with an item or a group is merged into the vault, which commits under the old state
      before the new state is saved; nothing else touches the vault.  A vault that refuses keeps what it had,
      and nothing is written. */
  lemma ConflictMerges<Vault>(keeper: Keeper<Vault>, p: Pushing<Vault>, k: ItemId, version: Option<Bytes>, envelope: Option<Bytes>)
    ensures var (q, error) := Resolved(keeper, p, k, version, envelope);
            var merges := envelope.Some? && keeper.setting.kindOf(envelope.value) in {Some(Kind.Item), Some(Kind.Group)};
            && (error.None? ==>
                  && (if merges then Some(q.vault) == keeper.setting.merge(p.vault, [Remote(k, envelope.value)]) else q.vault == p.vault)
                  && q.durable == p.durable + (if merges then [Durable(q.vault, p.saved)] else []) + [Durable(q.vault, q.state)])
            && (error.Some? ==> q.vault == p.vault && q.saved == p.saved && q.durable == p.durable && q.conflictsResolved == p.conflictsResolved)
            && (error == Some(MergeRefused) <==>
                  && envelope.Some? && Attributable(keeper.setting, k, envelope.value) && merges
                  && !(Confirmed(p.state, k, envelope.value) && p.state.known[k].version == version)
                  && keeper.setting.merge(p.vault, [Remote(k, envelope.value)]).None?)
  {
    assert p.durable + [] == p.durable;
  }

  /** The same conflict a second time can only be a server going in circles, and nothing is done about it. */
  lemma SameConflictStops<Vault>(keeper: Keeper<Vault>, p: Pushing<Vault>, k: ItemId, version: Option<Bytes>, envelope: Bytes)
    requires Attributable(keeper.setting, k, envelope)
    requires k in p.state.known && p.state.known[k].fingerprint == Some(envelope) && p.state.known[k].version == version
    ensures Resolved(keeper, p, k, version, Some(envelope)) == (p, Some(ConflictLoop))
  {
  }

  /** A conflict that cannot be attributed to a rostered device, or is too large, changes nothing. */
  lemma UnattributedConflictStops<Vault>(keeper: Keeper<Vault>, p: Pushing<Vault>, k: ItemId, version: Option<Bytes>, envelope: Bytes)
    requires !Attributable(keeper.setting, k, envelope)
    ensures var (q, error) := Resolved(keeper, p, k, version, Some(envelope));
            && q == p
            && error == Some(if |envelope| > MAX_ENVELOPE_LEN then OverCap
                             else if keeper.setting.kindOf(envelope).None? then Unattributed(BadEnvelope)
                             else if keeper.setting.authenticate(k, envelope) == Some(TooLarge) then OverCap
                             else Unattributed(keeper.setting.authenticate(k, envelope).value))
  {
  }

  /** A write that is applied is recorded as the vault stored it, under the version and number the server
      gave it, saved and counted; an attempt that finishes otherwise sent nothing and changed nothing. */
  lemma AppliedIsRecorded<Vault>(keeper: Keeper<Vault>, p: Pushing<Vault>, k: ItemId, fs: seq<Foreign>)
    requires Attempted(keeper, p, k, fs).1.Finished?
    ensures var q := Attempted(keeper, p, k, fs).0;
            && q.vault == p.vault && q.conflictsResolved == p.conflictsResolved
            && if keeper.stored(p.vault, k).None? || Confirmed(p.state, k, keeper.stored(p.vault, k).value.envelope) then q == p
               else
                 var row := keeper.stored(p.vault, k).value;
                 && q.pushed == p.pushed + 1 && q.saved == q.state && q.state.cursor == p.state.cursor
                 && k in q.server.rows && k in q.state.known
                 && q.state.known[k] == KnownRow(KindByte(row.kind), Some(row.envelope), Some(Digits(q.server.rows[k].version)), Some(q.server.rows[k].seqNo))
                 && q.durable == p.durable + [Durable(q.vault, q.state)]
                 && (forall j | j != k :: (j in q.state.known <==> j in p.state.known) && (j in p.state.known ==> q.state.known[j] == p.state.known[j]))
  {
    hide InterleaveAll, Resolved, Digits, Usable;
    var row := keeper.stored(p.vault, k);
    if row.Some? && !Confirmed(p.state, k, row.value.envelope) {
      WrittenIsNumbered(InterleaveAll(p.server, fs), k, SyncPush.VersionOf(p.state, k), row.value.envelope);
    }
  }

  /** The version an answer names is the row's, digit for digit. */
  lemma WrittenIsNumbered(s: Server, k: ItemId, token: Option<Bytes>, envelope: Bytes)
    ensures var (t, reply) := PutItem(s, k, token, envelope);
            DecodeReply(reply).Ok? && DecodeReply(reply).value.Applied? ==>
              k in t.rows && DecodeReply(reply).value.version == Digits(t.rows[k].version) && DecodeReply(reply).value.seqNo == t.rows[k].seqNo
  {
    hide Digits, Usable;
    forall n: nat ensures Unquoted(Digits(n)) == Digits(n) { DigitsAreBare(n); }
  }

  lemma DigitsAreBare(n: nat)
    ensures Unquoted(Digits(n)) == Digits(n)
  {
    assert IsDigit(Digits(n)[0]) && !IsDigit(QUOTE);
  }

  lemma AttemptLands<Vault>(keeper: Keeper<Vault>, p: Pushing<Vault>, k: ItemId, fs: seq<Foreign>)
    requires RecordIsTrue(p, k) || (keeper.stored(p.vault, k).Some? && !Confirmed(p.state, k, keeper.stored(p.vault, k).value.envelope))
    ensures var (q, turn) := Attempted(keeper, p, k, fs);
            match turn
            case Finished => Landed(keeper, q, k)
            case Retry => RecordIsTrue(q, k)
            case GaveUp(_) => true
  {
    hide Resolved, PutItem, DecodeReply, InterleaveAll;
    var row := keeper.stored(p.vault, k);
    if row.Some? && !Confirmed(p.state, k, row.value.envelope) {
      var s := InterleaveAll(p.server, fs);
      var token := SyncPush.VersionOf(p.state, k);
      ConflictIsOfRow(s, k, token, row.value.envelope);
      AppliedIsStored(s, k, token, row.value.envelope);
      var outcome := DecodeReply(PutItem(s, k, token, row.value.envelope).1);
      if outcome.Ok? && outcome.value.Conflict? {
        ConflictRecords(keeper, p.(server := s), k, outcome.value.current, outcome.value.envelope);
        ConflictKeepsVault(keeper, p.(server := s), k, outcome.value.current, outcome.value.envelope);
      }
    }
  }

  lemma AppliedIsStored(s: Server, k: ItemId, token: Option<Bytes>, envelope: Bytes)
    ensures var (t, reply) := PutItem(s, k, token, envelope);
            DecodeReply(reply).Ok? && DecodeReply(reply).value.Applied? ==> k in t.rows && t.rows[k].envelope == Some(envelope)
  {
    hide Digits, ParseVersion;
  }

  /** A push of something unconfirmed that reports success has put it there: whatever the server holds and
      the others write, conflicts and reclaimed rows included, and with no assumption on the vault, the
      server's row then holds exactly what the vault stores. */
  lemma {:induction false} SuccessIsOnTheServer<Vault>(keeper: Keeper<Vault>, foreign: nat -> seq<Foreign>, p: Pushing<Vault>, k: ItemId, attempt: nat)
    requires RecordIsTrue(p, k) || (keeper.stored(p.vault, k).Some? && !Confirmed(p.state, k, keeper.stored(p.vault, k).value.envelope))
    ensures var (q, error) := Pushed(keeper, foreign, p, k, attempt);
            error.None? && keeper.stored(q.vault, k).Some? ==>
              k in q.server.rows && q.server.rows[k].envelope == Some(keeper.stored(q.vault, k).value.envelope)
    decreases MAX_CONFLICT_RETRIES + 1 - attempt
  {
    hide Attempted, RecordIsTrue;
    if attempt <= MAX_CONFLICT_RETRIES {
      AttemptLands(keeper, p, k, foreign(attempt));
      var (q, turn) := Attempted(keeper, p, k, foreign(attempt));
      if turn.Retry? { SuccessIsOnTheServer(keeper, foreign, q, k, attempt + 1); }
    }
  }

  // ----- a vault that keeps its side -------------------------------------------------------------------

  /** What a vault owes a push, and only on its `sound` values and for the envelopes of `pool`: it takes
      them and stays sound, and seals nothing over the cap. */
  ghost predicate Obliging<Vault(!new)>(keeper: Keeper<Vault>, sound: Vault -> bool, pool: (ItemId, Bytes) -> bool) {
    && (forall v, k, e :: sound(v) && pool(k, e) ==>
          keeper.setting.merge(v, [Remote(k, e)]).Some? && sound(keeper.setting.merge(v, [Remote(k, e)]).value))
    && (forall v, k :: sound(v) ==> !TooLong(keeper, v, k))
  }

  /** What the server holds of the item, and everything written over it meanwhile, comes from the pool,
      unless it would not verify. */
  ghost predicate RowPooled<Vault>(setting: Setting<Vault>, pool: (ItemId, Bytes) -> bool, s: Server, k: ItemId) {
    k in s.rows && s.rows[k].envelope.Some? && Mergeable(setting, k, s.rows[k].envelope.value) ==> pool(k, s.rows[k].envelope.value)
  }

  ghost predicate PeersPooled<Vault>(setting: Setting<Vault>, pool: (ItemId, Bytes) -> bool, fs: seq<Foreign>, k: ItemId) {
    forall f | f in fs && f.Write? && f.item == k && Mergeable(setting, k, f.envelope) :: pool(k, f.envelope)
  }

  lemma {:induction false} InterleavingIsPooled<Vault>(setting: Setting<Vault>, pool: (ItemId, Bytes) -> bool, s: Server, fs: seq<Foreign>, k: ItemId)
    requires RowPooled(setting, pool, s, k) && PeersPooled(setting, pool, fs, k)
    ensures RowPooled(setting, pool, InterleaveAll(s, fs), k)
    decreases |fs|
  {
    hide Mergeable;
    if fs != [] {
      assert fs[0] in fs;
      InterleavingIsPooled(setting, pool, Interleave(s, fs[0]), fs[1..], k);
    }
  }

  /** Merging from the pool stays sound. */
  ghost predicate StaysSound<Vault(!new)>(keeper: Keeper<Vault>, sound: Vault -> bool, pool: (ItemId, Bytes) -> bool) {
    forall v, k, e :: sound(v) && pool(k, e) && keeper.setting.merge(v, [Remote(k, e)]).Some? ==>
      sound(keeper.setting.merge(v, [Remote(k, e)]).value)
  }

  /** A conflict leaves the vault as it was or merged with the row. */
  lemma ConflictKeepsVault<Vault>(keeper: Keeper<Vault>, p: Pushing<Vault>, k: ItemId, version: Option<Bytes>, envelope: Option<Bytes>)
    ensures var q := Resolved(keeper, p, k, version, envelope).0;
            && q.server == p.server
            && (q.vault == p.vault
                || (envelope.Some? && Mergeable(keeper.setting, k, envelope.value)
                    && keeper.setting.merge(p.vault, [Remote(k, envelope.value)]) == Some(q.vault)))
  {
    hide VerifyChange;
  }

  lemma ConflictIsOfRow(s: Server, k: ItemId, token: Option<Bytes>, envelope: Bytes)
    ensures var (t, reply) := PutItem(s, k, token, envelope);
            DecodeReply(reply).Ok? && DecodeReply(reply).value.Conflict? ==>
              t == s && (DecodeReply(reply).value.envelope.Some? ==> k in s.rows && s.rows[k].envelope == DecodeReply(reply).value.envelope)
    ensures DecodeReply(PutItem(s, k, token, envelope).1) != Err(MergeRefused)
  {
    hide Digits, ParseVersion;
  }

  lemma AttemptStaysSound<Vault(!new)>(keeper: Keeper<Vault>, sound: Vault -> bool, pool: (ItemId, Bytes) -> bool, p: Pushing<Vault>, k: ItemId, fs: seq<Foreign>)
    requires StaysSound(keeper, sound, pool) && sound(p.vault)
    requires RowPooled(keeper.setting, pool, p.server, k) && PeersPooled(keeper.setting, pool, fs, k)
    ensures var (q, turn) := Attempted(keeper, p, k, fs);
            sound(q.vault) && (turn == Retry || turn == GaveUp(MergeRefused) ==> RowPooled(keeper.setting, pool, q.server, k))
  {
    hide Resolved, PutItem, DecodeReply, InterleaveAll, Mergeable;
    InterleavingIsPooled(keeper.setting, pool, p.server, fs, k);
    var row := keeper.stored(p.vault, k);
    if row.Some? {
      var s := InterleaveAll(p.server, fs);
      var token := SyncPush.VersionOf(p.state, k);
      ConflictIsOfRow(s, k, token, row.value.envelope);
      var (t, reply) := PutItem(s, k, token, row.value.envelope);
      var outcome := DecodeReply(reply);
      if outcome.Ok? && outcome.value.Conflict? {
        ConflictKeepsVault(keeper, p.(server := t), k, outcome.value.current, outcome.value.envelope);
      }
    }
  }

  /** With such a vault, only other devices can stop a push. */
  lemma {:induction false} ObligingPushSettles<Vault(!new)>(keeper: Keeper<Vault>, sound: Vault -> bool, pool: (ItemId, Bytes) -> bool,
                                                            foreign: nat -> seq<Foreign>, p: Pushing<Vault>, k: ItemId, attempt: nat)
    requires Obliging(keeper, sound, pool) && sound(p.vault) && RowPooled(keeper.setting, pool, p.server, k)
    requires Sane(keeper.setting, p.server) && Usual(p, k)
    requires forall i: nat | attempt <= i <= MAX_CONFLICT_RETRIES :: Peers(keeper.setting, foreign(i)) && PeersPooled(keeper.setting, pool, foreign(i), k)
    requires p.server.head + Remaining(foreign, attempt) + 1 < MAX_SEQ
    ensures var (q, error) := Pushed(keeper, foreign, p, k, attempt);
            && sound(q.vault)
            && match error
               case None => Settled(keeper, q, k)
               case Some(e) => e == ConflictLoop && forall i: nat | attempt < i <= MAX_CONFLICT_RETRIES :: Overtakes(foreign(i), k)
    decreases MAX_CONFLICT_RETRIES + 1 - attempt
  {
    hide Attempted, Sane, Peers, Settled, Overtakes, Refuses, TooLong, RowPooled, PeersPooled, Obliging, StopsFor;
    PushSettles(keeper, foreign, p, k, attempt);
    if attempt <= MAX_CONFLICT_RETRIES {
      ObligingStaysSound(keeper, sound, pool);
      AttemptOutcome(keeper, p, k, foreign(attempt));
      AttemptStaysSound(keeper, sound, pool, p, k, foreign(attempt));
      var (q, turn) := Attempted(keeper, p, k, foreign(attempt));
      if turn.Retry? {
        FreshIsUsual(keeper.setting, q, k);
        ObligingPushSettles(keeper, sound, pool, foreign, q, k, attempt + 1);
      } else if turn.GaveUp? {
        ObligingNeverStops(keeper, sound, pool, q, k, turn.error);
      }
    }
  }

  lemma ObligingStaysSound<Vault(!new)>(keeper: Keeper<Vault>, sound: Vault -> bool, pool: (ItemId, Bytes) -> bool)
    requires Obliging(keeper, sound, pool)
    ensures StaysSound(keeper, sound, pool)
  {
    hide TooLong;
  }

  lemma ObligingNeverStops<Vault(!new)>(keeper: Keeper<Vault>, sound: Vault -> bool, pool: (ItemId, Bytes) -> bool, q: Pushing<Vault>, k: ItemId, e: PushError)
    requires Obliging(keeper, sound, pool) && sound(q.vault)
    requires e == MergeRefused ==> RowPooled(keeper.setting, pool, q.server, k)
    ensures !StopsFor(keeper, q, k, e)
  {
    hide Mergeable;
    assert !TooLong(keeper, q.vault, k);
  }

  /** Fewer than eight interruptions, and the push succeeds. */
  lemma PushSurvivesBusyPeers<Vault(!new)>(keeper: Keeper<Vault>, sound: Vault -> bool, pool: (ItemId, Bytes) -> bool,
                                           foreign: nat -> seq<Foreign>, p: Pushing<Vault>, k: ItemId)
    requires Obliging(keeper, sound, pool) && sound(p.vault) && RowPooled(keeper.setting, pool, p.server, k)
    requires Sane(keeper.setting, p.server) && Usual(p, k)
    requires forall i: nat | i <= MAX_CONFLICT_RETRIES :: Peers(keeper.setting, foreign(i)) && PeersPooled(keeper.setting, pool, foreign(i), k)
    requires p.server.head + Remaining(foreign, 0) + 1 < MAX_SEQ
    requires |Overtaken(foreign, k)| < MAX_CONFLICT_RETRIES
    ensures Pushed(keeper, foreign, p, k, 0).1.None? && Settled(keeper, Pushed(keeper, foreign, p, k, 0).0, k)
  {
    hide Pushed, Sane, Peers, Obliging, Settled, Overtakes, Usual, RowPooled, PeersPooled;
    ObligingPushSettles(keeper, sound, pool, foreign, p, k, 0);
    if Pushed(keeper, foreign, p, k, 0).1.Some? {
      var all := {1, 2, 3, 4, 5, 6, 7, 8};
      assert |all| == 8;
      assert all <= Overtaken(foreign, k);
      SubsetSize(all, Overtaken(foreign, k));
    }
  }

  lemma {:induction false} SubsetSize(a: set<nat>, b: set<nat>)
    requires a <= b
    ensures |a| <= |b|
  {
    if a != {} {
      var x :| x in a;
      SubsetSize(a - {x}, b - {x});
    }
  }

  // ----- what is recorded is held ------------------------------------------------------------------------

  /** What a vault remembers, on its `sound` values and for the envelopes of `pool`: what it merged, what it
      held before, and what it stores. */
  ghost predicate Remembers<Vault(!new)>(keeper: Keeper<Vault>, sound: Vault -> bool, pool: (ItemId, Bytes) -> bool, holds: (Vault, Remote) -> bool) {
    && StaysSound(keeper, sound, pool)
    && (forall v, k, e :: sound(v) && pool(k, e) && keeper.setting.merge(v, [Remote(k, e)]).Some? ==>
          holds(keeper.setting.merge(v, [Remote(k, e)]).value, Remote(k, e)))
    && (forall v, k, e, r :: sound(v) && pool(k, e) && keeper.setting.merge(v, [Remote(k, e)]).Some? && holds(v, r) ==>
          holds(keeper.setting.merge(v, [Remote(k, e)]).value, r))
    && (forall v, k :: sound(v) && keeper.stored(v, k).Some? ==> holds(v, Remote(k, keeper.stored(v, k).value.envelope)))
  }

  /** If the state says the server holds an envelope of the item, the vault holds what is in it. */
  ghost predicate Covers<Vault>(holds: (Vault, Remote) -> bool, vault: Vault, state: SyncState, k: ItemId) {
    k in state.known && state.known[k].fingerprint.Some? && state.known[k].kind in {KindByte(Item), KindByte(Group)} ==>
      holds(vault, Remote(k, state.known[k].fingerprint.value))
  }

  ghost predicate AllCover<Vault>(holds: (Vault, Remote) -> bool, p: Pushing<Vault>, q: Pushing<Vault>, k: ItemId) {
    && |p.durable| <= |q.durable| && q.durable[..|p.durable|] == p.durable
    && (forall i | |p.durable| <= i < |q.durable| :: Covers(holds, q.durable[i].vault, q.durable[i].state, k))
    && Covers(holds, q.vault, q.saved, k)
  }

  lemma MergingKeepsCover<Vault(!new)>(keeper: Keeper<Vault>, sound: Vault -> bool, pool: (ItemId, Bytes) -> bool, holds: (Vault, Remote) -> bool,
                                       v: Vault, k: ItemId, e: Bytes, state: SyncState)
    requires Remembers(keeper, sound, pool, holds) && sound(v) && pool(k, e) && keeper.setting.merge(v, [Remote(k, e)]).Some?
    requires Covers(holds, v, state, k)
    ensures Covers(holds, keeper.setting.merge(v, [Remote(k, e)]).value, state, k)
    ensures holds(keeper.setting.merge(v, [Remote(k, e)]).value, Remote(k, e))
  {
  }

  lemma ResolvingCovers<Vault(!new)>(keeper: Keeper<Vault>, sound: Vault -> bool, pool: (ItemId, Bytes) -> bool, holds: (Vault, Remote) -> bool,
                                     p: Pushing<Vault>, k: ItemId, version: Option<Bytes>, envelope: Option<Bytes>)
    requires Remembers(keeper, sound, pool, holds) && sound(p.vault)
    requires envelope.Some? && Mergeable(keeper.setting, k, envelope.value) ==> pool(k, envelope.value)
    requires Covers(holds, p.vault, p.state, k) && Covers(holds, p.vault, p.saved, k)
    ensures var (q, error) := Resolved(keeper, p, k, version, envelope);
            AllCover(holds, p, q, k) && (error != Some(MergeRefused) ==> Covers(holds, q.vault, q.state, k))
  {
    hide VerifyChange, Remembers;
    if envelope.Some? && Mergeable(keeper.setting, k, envelope.value) {
      if keeper.setting.merge(p.vault, [Remote(k, envelope.value)]).Some? {
        MergingKeepsCover(keeper, sound, pool, holds, p.vault, k, envelope.value, p.state);
        MergingKeepsCover(keeper, sound, pool, holds, p.vault, k, envelope.value, p.saved);
      }
    }
  }

  lemma AttemptCovers<Vault(!new)>(keeper: Keeper<Vault>, sound: Vault -> bool, pool: (ItemId, Bytes) -> bool, holds: (Vault, Remote) -> bool,
                                   p: Pushing<Vault>, k: ItemId, fs: seq<Foreign>)
    requires Remembers(keeper, sound, pool, holds) && sound(p.vault)
    requires RowPooled(keeper.setting, pool, p.server, k) && PeersPooled(keeper.setting, pool, fs, k)
    requires Covers(holds, p.vault, p.state, k) && Covers(holds, p.vault, p.saved, k)
    ensures var (q, turn) := Attempted(keeper, p, k, fs);
            AllCover(holds, p, q, k) && (turn != GaveUp(MergeRefused) ==> Covers(holds, q.vault, q.state, k))
  {
    hide Resolved, InterleaveAll, DecodeReply, PutItem, Mergeable;
    InterleavingIsPooled(keeper.setting, pool, p.server, fs, k);
    var row := keeper.stored(p.vault, k);
    if row.Some? {
      var s := InterleaveAll(p.server, fs);
      var token := SyncPush.VersionOf(p.state, k);
      ConflictIsOfRow(s, k, token, row.value.envelope);
      var (t, reply) := PutItem(s, k, token, row.value.envelope);
      var outcome := DecodeReply(reply);
      if outcome.Ok? && outcome.value.Conflict? {
        ResolvingCovers(keeper, sound, pool, holds, p.(server := t), k, outcome.value.current, outcome.value.envelope);
      }
    }
  }

  /** Whatever the server answers, no durable state of a push ever records an envelope whose value the
      vault beside it lacks: the vault commits first.  In memory the same holds unless the vault refused a
      merge, after which the record is there and the value is not. */
  lemma {:induction false} RecordedIsHeld<Vault(!new)>(keeper: Keeper<Vault>, sound: Vault -> bool, pool: (ItemId, Bytes) -> bool, holds: (Vault, Remote) -> bool,
                                                       foreign: nat -> seq<Foreign>, p: Pushing<Vault>, k: ItemId, attempt: nat)
    requires Remembers(keeper, sound, pool, holds) && sound(p.vault) && RowPooled(keeper.setting, pool, p.server, k)
    requires forall i: nat | attempt <= i <= MAX_CONFLICT_RETRIES :: PeersPooled(keeper.setting, pool, foreign(i), k)
    requires Covers(holds, p.vault, p.state, k) && Covers(holds, p.vault, p.saved, k)
    ensures var (q, error) := Pushed(keeper, foreign, p, k, attempt);
            AllCover(holds, p, q, k) && (error != Some(MergeRefused) ==> Covers(holds, q.vault, q.state, k))
    decreases MAX_CONFLICT_RETRIES + 1 - attempt
  {
    hide Attempted, Covers, RowPooled, PeersPooled;
    if attempt <= MAX_CONFLICT_RETRIES {
      AttemptCovers(keeper, sound, pool, holds, p, k, foreign(attempt));
      AttemptStaysSound(keeper, sound, pool, p, k, foreign(attempt));
      var (q, turn) := Attempted(keeper, p, k, foreign(attempt));
      if turn.Retry? {
        RecordedIsHeld(keeper, sound, pool, holds, foreign, q, k, attempt + 1);
        var r := Pushed(keeper, foreign, q, k, attempt + 1).0;
        forall i | |p.durable| <= i < |r.durable| ensures Covers(holds, r.durable[i].vault, r.durable[i].state, k) {
          if i < |q.durable| { assert r.durable[i] == q.durable[i]; }
        }
      }
    }
  }
}

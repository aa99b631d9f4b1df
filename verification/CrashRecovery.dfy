/** Stopping a pull anywhere loses nothing: the vault commits before the cursor is saved, and merging
    a page again changes nothing. */
module CrashRecovery {
  import opened Foundations
  import opened ChangeFeeds
  import opened SyncPull
  import opened PullGuarantees
  import opened HonestFeeds

  // ----- what a crash leaves ---------------------------------------------------------------------------

  /** A new process over what survived. */
  function Restarted<Vault>(d: Durable<Vault>): Pulling<Vault> {
    Pulling(d.vault, d.state, d.state, [], 0, 0, 0, [], None, [])
  }

  /** `d` is what `p` leaves after recording `m` entries of its target and committing `k`. */
  ghost predicate Leftover<Vault>(setting: Setting<Vault>, entries: seq<FeedChange>, p: Pulling<Vault>, d: Durable<Vault>, m: nat, k: nat) {
    var cursor := Since(p.state.cursor);
    var target := Target(setting, entries, cursor);
    && m <= k <= |target|
    && Since(d.state.cursor) == LastSeq(target[..m], cursor)
    && target[m..] == Target(setting, entries, Since(d.state.cursor))
    && d.state.known == Record(setting, p.state.known, target[..m])
    && Some(d.vault) == MergeBatch(setting, p.vault, Batch(setting, target[..k]))
  }

  ghost predicate Recoverable<Vault>(setting: Setting<Vault>, entries: seq<FeedChange>, p: Pulling<Vault>, d: Durable<Vault>) {
    exists m: nat, k: nat :: Leftover(setting, entries, p, d, m, k)
  }

  lemma StartIsRecoverable<Vault>(setting: Setting<Vault>, entries: seq<FeedChange>, p: Pulling<Vault>)
    ensures Recoverable(setting, entries, p, Durable(p.vault, p.state))
  {
    hide Target;
    assert Target(setting, entries, Since(p.state.cursor))[..0] == [];
    assert Leftover(setting, entries, p, Durable(p.vault, p.state), 0, 0);
  }

  /** The page in hand reached the vault, the cursor did not reach the store. */
  lemma CommitIsRecoverable<Vault(!new)>(setting: Setting<Vault>, entries: seq<FeedChange>, p: Pulling<Vault>, feed: ChangeFeed)
    requires Ascending(entries) && WellFormed(feed) && IsHonestPage(entries, Since(p.state.cursor), feed)
    requires p.saved == p.state && !TakePage(setting, p, feed).1.Stopped?
    ensures Recoverable(setting, entries, p, Durable(TakePage(setting, p, feed).0.vault, p.state))
  {
    hide Target, IsHonestPage, TakePage, Record, Batch, MergeBatch, HaltAt, Halts;
    HonestPageDelivers(setting, entries, p, feed);
    PageAppliesMore(setting, p, feed);
    var (q, verdict) := TakePage(setting, p, feed);
    var target := Target(setting, entries, Since(p.state.cursor));
    var k := |New(p, q)|;
    assert target[..k] == New(p, q);
    assert target[..0] == [] && target[0..] == target;
    RecordNothing(setting, p.state.known);
    assert Leftover(setting, entries, p, Durable(q.vault, p.state), 0, k);
  }

  lemma RecordNothing<Vault>(setting: Setting<Vault>, known: map<ItemId, KnownRow>)
    ensures Record(setting, known, []) == known
  {
  }

  /** What is left of the pull after one whole page is left of the pull before it. */
  lemma LaterIsRecoverable<Vault(!new)>(setting: Setting<Vault>, entries: seq<FeedChange>, p: Pulling<Vault>, feed: ChangeFeed, d: Durable<Vault>)
    requires Composes(setting) && Ascending(entries) && WellFormed(feed) && IsHonestPage(entries, Since(p.state.cursor), feed)
    requires TakePage(setting, p, feed).1.Again? && Recoverable(setting, entries, TakePage(setting, p, feed).0, d)
    ensures Recoverable(setting, entries, p, d)
  {
    hide Target, IsHonestPage, TakePage, Record, Batch, MergeBatch, HaltAt, Halts, WellFormed;
    HonestPageDelivers(setting, entries, p, feed);
    PageAppliesMore(setting, p, feed);
    var (q, verdict) := TakePage(setting, p, feed);
    var m: nat, k: nat :| Leftover(setting, entries, q, d, m, k);
    var (target, n) := (Target(setting, entries, Since(p.state.cursor)), |feed.changes|);
    assert New(p, q) == target[..n];
    var rest := target[n..];
    assert target[..n + m] == target[..n] + rest[..m] && target[..n + k] == target[..n] + rest[..k];
    assert target[n + m..] == rest[m..];
    RecordConcat(setting, p.state.known, target[..n], rest[..m]);
    BatchConcat(setting, target[..n], rest[..k]);
    assert Leftover(setting, entries, p, d, n + m, n + k);
  }

  /** A page makes its durable writes in this order: the vault's commit, then the save. */
  lemma PageWrites<Vault>(setting: Setting<Vault>, p: Pulling<Vault>, feed: ChangeFeed)
    ensures var (q, verdict) := TakePage(setting, p, feed);
            if verdict.Stopped? then q.durable == p.durable
            else
              && q.saved == q.state
              && (q.durable == p.durable + [Durable(q.vault, q.state)]
                  || q.durable == p.durable + [Durable(q.vault, p.saved), Durable(q.vault, q.state)])
  {
    hide Record, Batch, MergeBatch, Rejections, RosterUpdate, RolledBack, HaltAt, Halts;
  }

  /** Every durable state a pull passes through before it is over. */
  ghost predicate Passed<Vault>(p: Pulling<Vault>, q: Pulling<Vault>, over: bool, i: nat) {
    |p.durable| <= i < |q.durable| - (if over then 1 else 0)
  }

  ghost predicate AllRecoverable<Vault>(setting: Setting<Vault>, entries: seq<FeedChange>, p: Pulling<Vault>, q: Pulling<Vault>, over: bool) {
    && |p.durable| <= |q.durable| && q.durable[..|p.durable|] == p.durable
    && forall i: nat | Passed(p, q, over, i) :: Recoverable(setting, entries, p, q.durable[i])
  }

  lemma PageIsRecoverable<Vault(!new)>(setting: Setting<Vault>, entries: seq<FeedChange>, p: Pulling<Vault>, feed: ChangeFeed)
    requires Composes(setting) && Ascending(entries) && WellFormed(feed) && IsHonestPage(entries, Since(p.state.cursor), feed) && p.saved == p.state
    ensures var (q, verdict) := TakePage(setting, p, feed); AllRecoverable(setting, entries, p, q, verdict.Done?)
  {
    hide TakePage, Recoverable, IsHonestPage, WellFormed, Ascending, Composes;
    PageWrites(setting, p, feed);
    var (q, verdict) := TakePage(setting, p, feed);
    if !verdict.Stopped? { CommitIsRecoverable(setting, entries, p, feed); }
    if verdict.Again? {
      StartIsRecoverable(setting, entries, q);
      LaterIsRecoverable(setting, entries, p, feed, Durable(q.vault, q.state));
    }
  }

  /** Wherever a pull stops, and however it ends, a prefix of what was to be delivered is recorded and at
      least that much is committed. */
  lemma {:induction false} EveryWriteIsRecoverable<Vault(!new)>(setting: Setting<Vault>, server: Remoteness, entries: seq<FeedChange>, p: Pulling<Vault>, limit: nat)
    requires Composes(setting) && Ascending(entries) && Honest(server, entries) && p.saved == p.state
    ensures var (q, error) := Pulled(setting, server, p, limit); AllRecoverable(setting, entries, p, q, error.None?)
    decreases MAX_PAGES_PER_SYNC - p.pages, limit
  {
    hide Composes, TakePage, Fetched, Recoverable, Pulled, IsHonestPage, Ascending;
    if p.pages >= MAX_PAGES_PER_SYNC {
      PullEnds(setting, server, p, limit);
    } else {
      PullTurn(setting, server, p, limit);
      var asked := p.(requests := p.requests + 1);
      var (end, outcome) := Pulled(setting, server, p, limit);
      match Fetched(server, p.requests, p.state.cursor, limit)
      case Err(error) =>
        if TooBig(error) && limit > 1 {
          EveryWriteIsRecoverable(setting, server, entries, asked, limit / 2);
          SameStart(setting, entries, p, asked, end, outcome.None?);
        }
      case Ok(feed) =>
        FetchedIsWellFormed(server, p.requests, p.state.cursor, limit);
        PageIsRecoverable(setting, entries, asked, feed);
        PageWrites(setting, asked, feed);
        var (q, verdict) := TakePage(setting, asked, feed);
        if verdict.Again? {
          EveryWriteIsRecoverable(setting, server, entries, q, limit);
          var (r, over) := Pulled(setting, server, q, limit);
          forall i: nat | Passed(asked, r, over.None?, i) ensures Recoverable(setting, entries, asked, r.durable[i]) {
            if i < |q.durable| {
              assert r.durable[i] == q.durable[i] && Passed(asked, q, false, i);
            } else {
              assert Passed(q, r, over.None?, i);
              LaterIsRecoverable(setting, entries, asked, feed, r.durable[i]);
            }
          }
        }
        SameStart(setting, entries, p, asked, end, outcome.None?);
    }
  }

  lemma SameStart<Vault>(setting: Setting<Vault>, entries: seq<FeedChange>, p: Pulling<Vault>, asked: Pulling<Vault>, q: Pulling<Vault>, over: bool)
    requires asked.vault == p.vault && asked.state == p.state && asked.durable == p.durable
    requires AllRecoverable(setting, entries, asked, q, over)
    ensures AllRecoverable(setting, entries, p, q, over)
  {
    hide Target, Batch, Record, MergeBatch;
    forall i: nat | Passed(p, q, over, i) ensures Recoverable(setting, entries, p, q.durable[i]) {
      assert Passed(asked, q, over, i);
      var m: nat, k: nat :| Leftover(setting, entries, asked, q.durable[i], m, k);
      assert Leftover(setting, entries, p, q.durable[i], m, k);
    }
  }

  // ----- merging again -----------------------------------------------------------------------------

  ghost predicate AllFit(fits: Remote -> bool, batch: seq<Remote>) { forall r | r in batch :: fits(r) }

  lemma {:induction false} MergedIsHad<Vault(!new)>(setting: Setting<Vault>, sound: Vault -> bool, fits: Remote -> bool, vault: Vault, batch: seq<Remote>)
    requires Composes(setting) && Retains(setting, sound, fits) && sound(vault) && AllFit(fits, batch)
    requires MergeBatch(setting, vault, batch).Some?
    ensures sound(MergeBatch(setting, vault, batch).value)
    ensures forall r | r in batch :: Has(setting, MergeBatch(setting, vault, batch).value, r)
    decreases |batch|
  {
    if batch != [] {
      hide MergeBatch, Has;
      var (init, last) := (batch[..|batch| - 1], batch[|batch| - 1]);
      assert batch == init + [last];
      assert MergeBatch(setting, vault, init + [last]) == Then(setting, MergeBatch(setting, vault, init), [last]);
      MergedIsHad(setting, sound, fits, vault, init);
      var (before, after) := (MergeBatch(setting, vault, init).value, MergeBatch(setting, vault, batch).value);
      assert fits(last) && MergeBatch(setting, before, [last]) == Some(after);
      forall r | r in batch ensures Has(setting, after, r) {
        if r in init { assert Has(setting, before, r); }
      }
    }
  }

  lemma {:induction false} HadMergesToNothing<Vault(!new)>(setting: Setting<Vault>, vault: Vault, batch: seq<Remote>)
    requires Composes(setting) && forall r | r in batch :: Has(setting, vault, r)
    ensures MergeBatch(setting, vault, batch) == Some(vault)
    decreases |batch|
  {
    if batch != [] {
      var (init, last) := (batch[..|batch| - 1], batch[|batch| - 1]);
      assert batch == init + [last];
      HadMergesToNothing(setting, vault, init);
      assert MergeBatch(setting, vault, init + [last]) == Then(setting, MergeBatch(setting, vault, init), [last]);
      assert Has(setting, vault, last);
    }
  }

  /** Replaying what was already merged, then going on, is going on. */
  lemma Replay<Vault(!new)>(setting: Setting<Vault>, sound: Vault -> bool, fits: Remote -> bool, start: Vault,
                            done: seq<Remote>, again: seq<Remote>, rest: seq<Remote>)
    requires Composes(setting) && Retains(setting, sound, fits) && sound(start) && AllFit(fits, done + again)
    requires MergeBatch(setting, start, done + again).Some?
    ensures MergeBatch(setting, MergeBatch(setting, start, done + again).value, again + rest) == MergeBatch(setting, start, done + again + rest)
  {
    hide MergeBatch, Has, Retains;
    var now := MergeBatch(setting, start, done + again).value;
    MergedIsHad(setting, sound, fits, start, done + again);
    HadMergesToNothing(setting, now, again);
    assert MergeBatch(setting, now, again + rest) == Then(setting, MergeBatch(setting, now, again), rest);
  }

  /** Whatever of the feed is handed to the vault fits it. */
  ghost predicate FeedFits<Vault>(setting: Setting<Vault>, fits: Remote -> bool, entries: seq<FeedChange>) {
    forall c | c in entries && Merged(setting, c) :: fits(Remote(c.itemId, c.envelope.value))
  }

  lemma {:induction false} FittingBatch<Vault>(setting: Setting<Vault>, fits: Remote -> bool, entries: seq<FeedChange>, changes: seq<FeedChange>)
    requires FeedFits(setting, fits, entries) && forall c | c in changes :: c in entries
    ensures AllFit(fits, Batch(setting, changes))
    decreases |changes|
  {
    hide Merged;
    if changes != [] {
      FittingBatch(setting, fits, entries, changes[..|changes| - 1]);
      assert changes[|changes| - 1] in entries;
    }
  }

  // ----- the theorem ----------------------------------------------------------------------------------

  /** What a pull leaves behind depends only on where it started and on the feed. */
  lemma PullOutcome<Vault(!new)>(setting: Setting<Vault>, server: Remoteness, entries: seq<FeedChange>, p: Pulling<Vault>, limit: nat)
    requires Composes(setting) && Ascending(entries) && Honest(server, entries)
    requires Pulled(setting, server, p, limit).1.None?
    ensures var q := Pulled(setting, server, p, limit).0;
            var target := Target(setting, entries, Since(p.state.cursor));
            && q.state == SyncState(Some(LastSeq(target, Since(p.state.cursor))), Record(setting, p.state.known, target))
            && Some(q.vault) == MergeBatch(setting, p.vault, Batch(setting, target))
  {
    hide Pulled, Target, Record, Batch, MergeBatch, Composes;
    ExactDelivery(setting, server, entries, p, limit);
    PullAppliesWhatItDelivers(setting, server, p, limit);
  }

  lemma ResumesFromPrefix<Vault(!new)>(setting: Setting<Vault>, entries: seq<FeedChange>, p: Pulling<Vault>, smooth: Remoteness, resumed: Remoteness,
                                       limits: (nat, nat), left: Durable<Vault>, m: nat, k: nat, sound: Vault -> bool, fits: Remote -> bool)
    requires Retains(setting, sound, fits) && sound(p.vault) && FeedFits(setting, fits, entries)
    requires Composes(setting) && Ascending(entries) && Honest(smooth, entries) && Honest(resumed, entries)
    requires Leftover(setting, entries, p, left, m, k)
    requires Pulled(setting, smooth, p, limits.0).1.None? && Pulled(setting, resumed, Restarted(left), limits.1).1.None?
    ensures var whole := Pulled(setting, smooth, p, limits.0).0;
            var second := Pulled(setting, resumed, Restarted(left), limits.1).0;
            whole.vault == second.vault && whole.state == second.state
  {
    hide Pulled, Target, Record, Batch, MergeBatch, Composes, Honest, Retains, FeedFits, AllFit;
    PullOutcome(setting, smooth, entries, p, limits.0);
    PullOutcome(setting, resumed, entries, Restarted(left), limits.1);
    var target := Target(setting, entries, Since(p.state.cursor));
    var (done, again, rest) := (target[..m], target[m..k], target[k..]);
    assert target[..k] == done + again && target[m..] == again + rest && target == done + again + rest == done + target[m..];
    RecordConcat(setting, p.state.known, done, target[m..]);
    BatchConcat(setting, done, again);
    BatchConcat(setting, again, rest);
    BatchConcat(setting, done + again, rest);
    TargetIsOfFeed(setting, entries, Since(p.state.cursor));
    FittingBatch(setting, fits, entries, done + again);
    Replay(setting, sound, fits, p.vault, Batch(setting, done), Batch(setting, again), Batch(setting, rest));
  }

  lemma TargetIsOfFeed<Vault>(setting: Setting<Vault>, entries: seq<FeedChange>, cursor: int)
    requires Ascending(entries)
    ensures forall c | c in Target(setting, entries, cursor) :: c in entries
  {
    hide HaltAt, After;
    AfterIs(entries, cursor);
  }

  /** What is durable before the pull starts, and after each of its durable writes until it is over. */
  ghost predicate LeftBy<Vault>(setting: Setting<Vault>, server: Remoteness, p: Pulling<Vault>, limit: nat, left: Durable<Vault>) {
    left == Durable(p.vault, p.saved)
    || var (q, error) := Pulled(setting, server, p, limit);
       exists i: nat | i < |q.durable| :: Passed(p, q, error.None?, i) && left == q.durable[i]
  }

  /** Stop a pull at any of its durable writes, or before the first, reload what was saved beside the
      vault that committed, and pull again to the end: vault, cursor and known rows are those of a pull
      that was never interrupted, however the pages fell, whatever the page limits, and whether the
      interrupted pull crashed or failed.  The vault need only keep its word on the vaults and values the
      pull can meet: those `sound`, and those that `fit`. */
  lemma CrashAnywhere<Vault(!new)>(setting: Setting<Vault>, entries: seq<FeedChange>, p: Pulling<Vault>,
                                   smooth: Remoteness, broken: Remoteness, resumed: Remoteness,
                                   limits: (nat, nat, nat), left: Durable<Vault>, sound: Vault -> bool, fits: Remote -> bool)
    requires Retains(setting, sound, fits) && sound(p.vault) && FeedFits(setting, fits, entries)
    requires Composes(setting) && Ascending(entries) && p.saved == p.state
    requires Honest(smooth, entries) && Honest(broken, entries) && Honest(resumed, entries)
    requires LeftBy(setting, broken, p, limits.1, left)
    requires Pulled(setting, smooth, p, limits.0).1.None? && Pulled(setting, resumed, Restarted(left), limits.2).1.None?
    ensures var whole := Pulled(setting, smooth, p, limits.0).0;
            var second := Pulled(setting, resumed, Restarted(left), limits.2).0;
            whole.vault == second.vault && whole.state == second.state
  {
    hide Pulled, Leftover, Composes, Honest, Ascending, Retains, FeedFits;
    StartIsRecoverable(setting, entries, p);
    EveryWriteIsRecoverable(setting, broken, entries, p, limits.1);
    var m: nat, k: nat :| Leftover(setting, entries, p, left, m, k);
    ResumesFromPrefix(setting, entries, p, smooth, resumed, (limits.0, limits.2), left, m, k, sound, fits);
  }
}

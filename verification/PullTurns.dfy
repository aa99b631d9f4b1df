/** The pull, request by request: what each one asks for, which answers it goes on after, and how it ends. */
module PullTurns {
  import opened Foundations
  import opened ChangeFeeds
  import opened SyncPull

  /** One request of a pull, and what came back. */
  datatype Turn = Turn(cursor: Option<int>, limit: nat, answer: Result<ChangeFeed, SyncError>)

  /** Everything in the page lies past the cursor, or at it where there is nothing. */
  ghost predicate Fresh(feed: ChangeFeed, cursor: int) {
    (forall i | 0 <= i < |feed.changes| :: feed.changes[i].seqNo > cursor) && feed.nextSeq >= cursor
  }

  /** The first number the page offers that is not past the cursor, or its resume point behind it. */
  ghost predicate Offers(feed: ChangeFeed, cursor: int, offered: int) {
    || (exists i ::
          && 0 <= i < |feed.changes| && feed.changes[i].seqNo == offered <= cursor
          && forall j | 0 <= j < i :: feed.changes[j].seqNo > cursor)
    || ((forall i | 0 <= i < |feed.changes| :: feed.changes[i].seqNo > cursor) && feed.nextSeq == offered < cursor)
  }

  /** Its envelope says so; nothing of it is verified yet. */
  ghost predicate ClaimsRoster<Vault>(setting: Setting<Vault>, change: FeedChange) {
    change.envelope.Some? && setting.kindOf(change.envelope.value).Some? && setting.kindOf(change.envelope.value).value.DeviceRoster?
  }

  ghost predicate IsFirstRoster<Vault>(setting: Setting<Vault>, feed: ChangeFeed, i: nat) {
    i < |feed.changes| && ClaimsRoster(setting, feed.changes[i]) && forall j | 0 <= j < i :: !ClaimsRoster(setting, feed.changes[j])
  }

  ghost predicate HasRoster<Vault>(setting: Setting<Vault>, feed: ChangeFeed) { exists i :: IsFirstRoster(setting, feed, i) }

  /** How much of a page is used: up to its first roster change, or all of it. */
  ghost predicate Used<Vault>(setting: Setting<Vault>, feed: ChangeFeed, n: nat) {
    if HasRoster(setting, feed) then n > 0 && IsFirstRoster(setting, feed, n - 1) else n == |feed.changes|
  }

  /** The pull asks again after an answer that did not fit, if it can ask for less, and after a page that
      says there is more and shows it, unless it changes whom to trust. */
  ghost predicate GoesOn<Vault>(setting: Setting<Vault>, t: Turn) {
    match t.answer
    case Err(e) => (e == Wire(ResponseTooLarge) || e == Wire(EnvelopeTooLarge)) && t.limit > 1
    case Ok(feed) =>
      Fresh(feed, Since(t.cursor)) && !HasRoster(setting, feed) && feed.hasMore && (feed.changes != [] || feed.nextSeq > Since(t.cursor))
  }

  /** It then asks for half as much from the same place, or for as much from where the page ended. */
  ghost predicate Follows(t: Turn, next: Turn) {
    if t.answer.Err? then next.cursor == t.cursor && next.limit == t.limit / 2
    else next.cursor == Some(t.answer.value.nextSeq) && next.limit == t.limit
  }

  function Pages(turns: seq<Turn>): nat { if turns == [] then 0 else (if turns[0].answer.Ok? then 1 else 0) + Pages(turns[1..]) }

  function Seen(turns: seq<Turn>): nat {
    if turns == [] then 0 else (if turns[0].answer.Ok? then |turns[0].answer.value.changes| else 0) + Seen(turns[1..])
  }

  /** What the pull asked, in order, from `request` on. */
  ghost predicate Asked<Vault>(setting: Setting<Vault>, server: Remoteness, request: nat, turns: seq<Turn>)
    decreases |turns|
  {
    turns != [] ==>
      && turns[0].answer == Fetched(server, request, turns[0].cursor, turns[0].limit)
      && (|turns| > 1 ==> GoesOn(setting, turns[0]) && Follows(turns[0], turns[1]))
      && Asked(setting, server, request + 1, turns[1..])
  }

  /** How a pull that ended in `q` ended: by its last page, by an answer it cannot go on after, by a page
      from behind the cursor, by the vault, or because it read as many pages as it may. */
  ghost predicate EndsWith<Vault>(setting: Setting<Vault>, turns: seq<Turn>, q: Pulling<Vault>, error: Option<SyncError>) {
    if turns == [] || (GoesOn(setting, turns[|turns| - 1]) && error != Some(VaultRefused)) then error == Some(FeedTooLong) && q.pages >= 4096
    else
      var t := turns[|turns| - 1];
      match t.answer
      case Err(e) => error == Some(e)
      case Ok(feed) =>
        if !Fresh(feed, Since(t.cursor)) then
          error.Some? && error.value.SeqRollback? && error.value.cursor == Since(t.cursor) && Offers(feed, Since(t.cursor), error.value.offered)
        else if error.None? then
          exists n: nat :: Used(setting, feed, n) && q.state.cursor == Some(if HasRoster(setting, feed) then feed.changes[n - 1].seqNo else feed.nextSeq)
        else
          error == Some(VaultRefused) && q.state.cursor == t.cursor
          && exists n: nat :: Used(setting, feed, n) && MergeBatch(setting, q.vault, Batch(setting, feed.changes[..n])).None?
  }

  lemma {:induction false} StaleIsOffered(changes: seq<FeedChange>, cursor: int) returns (i: nat)
    requires exists k | 0 <= k < |changes| :: changes[k].seqNo <= cursor
    ensures i < |changes| && changes[i].seqNo == FirstStale(changes, cursor) <= cursor && forall j | 0 <= j < i :: changes[j].seqNo > cursor
  {
    if changes[0].seqNo <= cursor {
      i := 0;
    } else {
      var k :| 0 <= k < |changes| && changes[k].seqNo <= cursor;
      assert changes[1..][k - 1] == changes[k];
      var rest := StaleIsOffered(changes[1..], cursor);
      i := rest + 1;
    }
  }

  lemma RollbackIsOffered(feed: ChangeFeed, cursor: int)
    ensures RolledBack(feed, cursor).None? <==> Fresh(feed, cursor)
    ensures RolledBack(feed, cursor).Some? ==> Offers(feed, cursor, RolledBack(feed, cursor).value)
  {
    if exists k | 0 <= k < |feed.changes| :: feed.changes[k].seqNo <= cursor {
      var i := StaleIsOffered(feed.changes, cursor);
    }
  }

  lemma HaltIsFirstRoster<Vault>(setting: Setting<Vault>, feed: ChangeFeed)
    ensures Halts(setting, feed.changes) <==> HasRoster(setting, feed)
    ensures Used(setting, feed, HaltAt(setting, feed.changes))
  {
    forall c ensures IsRosterChange(setting, c) <==> ClaimsRoster(setting, c) {}
    hide IsRosterChange, ClaimsRoster;
    if Halts(setting, feed.changes) {
      assert IsFirstRoster(setting, feed, HaltAt(setting, feed.changes) - 1);
    }
  }

  /** One page: whether the pull goes on after it, and how it ends if it does not. */
  lemma PageTurns<Vault>(setting: Setting<Vault>, p: Pulling<Vault>, limit: nat, feed: ChangeFeed)
    ensures var (q, verdict) := TakePage(setting, p, feed);
            var t := Turn(p.state.cursor, limit, Ok(feed));
            && q.requests == p.requests && q.pages == p.pages + 1 && q.changesSeen == p.changesSeen + |feed.changes|
            && match verdict
               case Again => GoesOn(setting, t) && q.state.cursor == Some(feed.nextSeq)
               case Done => !GoesOn(setting, t) && EndsWith(setting, [t], q, None)
               case Stopped(e) => EndsWith(setting, [t], q, Some(e)) && e != FeedTooLong
  {
    hide Batch, Record, MergeBatch, RolledBack, HaltAt, Halts, Rejections, RosterUpdate, Fresh, Offers, HasRoster;
    RollbackIsOffered(feed, Since(p.state.cursor));
    HaltIsFirstRoster(setting, feed);
    NonEmptyIsPast(feed, Since(p.state.cursor));
  }

  lemma NonEmptyIsPast(feed: ChangeFeed, cursor: int)
    ensures Fresh(feed, cursor) ==> feed.nextSeq >= cursor
  {
  }

  lemma OneTurn<Vault>(setting: Setting<Vault>, server: Remoteness, request: nat, t: Turn)
    requires t.answer == Fetched(server, request, t.cursor, t.limit)
    ensures Asked(setting, server, request, [t])
    ensures Pages([t]) == (if t.answer.Ok? then 1 else 0) && Seen([t]) == (if t.answer.Ok? then |t.answer.value.changes| else 0)
  {
    assert [t][1..] == [];
  }

  lemma TurnBefore<Vault>(setting: Setting<Vault>, server: Remoteness, request: nat, t: Turn, rest: seq<Turn>, q: Pulling<Vault>, error: Option<SyncError>)
    requires t.answer == Fetched(server, request, t.cursor, t.limit) && GoesOn(setting, t)
    requires Asked(setting, server, request + 1, rest) && (rest != [] ==> Follows(t, rest[0])) && EndsWith(setting, rest, q, error)
    ensures Asked(setting, server, request, [t] + rest) && EndsWith(setting, [t] + rest, q, error)
    ensures Pages([t] + rest) == Pages([t]) + Pages(rest) && Seen([t] + rest) == Seen([t]) + Seen(rest)
  {
    hide GoesOn, Follows, Fresh, Offers, HasRoster, IsFirstRoster;
    assert ([t] + rest)[1..] == rest && [t][1..] == [];
    if rest != [] { assert ([t] + rest)[|rest|] == rest[|rest| - 1]; }
  }

  /** Against any server: a pull makes exactly these requests, counts exactly their pages and changes, and
      ends exactly so. */
  lemma {:induction false} PullIsItsTurns<Vault>(setting: Setting<Vault>, server: Remoteness, p: Pulling<Vault>, limit: nat) returns (turns: seq<Turn>)
    ensures turns != [] ==> turns[0].cursor == p.state.cursor && turns[0].limit == limit
    ensures Asked(setting, server, p.requests, turns)
    ensures var (q, error) := Pulled(setting, server, p, limit);
            && q.requests == p.requests + |turns| && q.pages == p.pages + Pages(turns) && q.changesSeen == p.changesSeen + Seen(turns)
            && EndsWith(setting, turns, q, error)
    decreases MAX_PAGES_PER_SYNC - p.pages, limit
  {
    hide TakePage, Fetched, Pulled, EndsWith, Asked;
    turns := [];
    if p.pages >= MAX_PAGES_PER_SYNC {
      PullEnds(setting, server, p, limit);
      NoTurns(setting, server, p);
    } else {
      PullTurn(setting, server, p, limit);
      var asked := p.(requests := p.requests + 1);
      var t := Turn(p.state.cursor, limit, Fetched(server, p.requests, p.state.cursor, limit));
      OneTurn(setting, server, p.requests, t);
      var (r, e) := Pulled(setting, server, p, limit);
      match t.answer
      case Err(error) =>
        if TooBig(error) && limit > 1 {
          var rest := PullIsItsTurns(setting, server, asked, limit / 2);
          TurnBefore(setting, server, p.requests, t, rest, r, e);
          turns := [t] + rest;
        } else {
          LastAnswer(setting, t, r);
          turns := [t];
        }
      case Ok(feed) =>
        PageTurns(setting, asked, limit, feed);
        var (q, verdict) := TakePage(setting, asked, feed);
        if verdict.Again? {
          var rest := PullIsItsTurns(setting, server, q, limit);
          TurnBefore(setting, server, p.requests, t, rest, r, e);
          turns := [t] + rest;
        } else {
          turns := [t];
        }
    }
  }

  lemma NoTurns<Vault>(setting: Setting<Vault>, server: Remoteness, p: Pulling<Vault>)
    requires p.pages >= MAX_PAGES_PER_SYNC
    ensures Asked(setting, server, p.requests, []) && EndsWith(setting, [], p, Some(FeedTooLong)) && Pages([]) == Seen([]) == 0
  {
  }

  lemma LastAnswer<Vault>(setting: Setting<Vault>, t: Turn, q: Pulling<Vault>)
    requires t.answer.Err? && !(TooBig(t.answer.error) && t.limit > 1)
    ensures EndsWith(setting, [t], q, Some(t.answer.error))
  {
  }
}

/** A pull against a server that answers from one fixed, ascending feed (it may still fail, or say a
    page was too large): exact delivery, and recovery from a crash at any point. */
module HonestFeeds {
  import opened Foundations
  import opened ChangeFeeds
  import opened SyncPull
  import opened PullGuarantees

  // ----- the honest server ------------------------------------------------------------------------

  function After(entries: seq<FeedChange>, cursor: int): seq<FeedChange> {
    if entries == [] then [] else if entries[0].seqNo > cursor then entries else After(entries[1..], cursor)
  }

  /** The first `take` entries past the cursor, and whether any are left over. */
  function HonestPage(entries: seq<FeedChange>, cursor: int, take: nat): ChangeFeed {
    var rest := After(entries, cursor);
    var changes := if take < |rest| then rest[..take] else rest;
    ChangeFeed(changes, if changes == [] then cursor else changes[|changes| - 1].seqNo, take < |rest|)
  }

  predicate IsHonestPage(entries: seq<FeedChange>, cursor: int, page: ChangeFeed) {
    exists take | 1 <= take <= |entries| + 1 :: page == HonestPage(entries, cursor, take)
  }

  ghost predicate Honest(server: Remoteness, entries: seq<FeedChange>) {
    forall i, c, n :: Fetched(server, i, c, n).Ok? ==> IsHonestPage(entries, Since(c), Fetched(server, i, c, n).value)
  }

  lemma {:induction false} AfterIs(entries: seq<FeedChange>, cursor: int)
    requires Ascending(entries)
    ensures exists n :: 0 <= n <= |entries| && After(entries, cursor) == entries[n..]
    ensures forall c :: c in After(entries, cursor) <==> c in entries && c.seqNo > cursor
    ensures Ascending(After(entries, cursor))
  {
    if entries != [] && entries[0].seqNo <= cursor {
      AfterIs(entries[1..], cursor);
      var n :| 0 <= n <= |entries[1..]| && After(entries[1..], cursor) == entries[1..][n..];
      assert entries[1..][n..] == entries[n + 1..];
    } else {
      assert entries[0..] == entries;
    }
  }

  /** Resuming after any entry gives exactly what follows it. */
  lemma {:induction false} AfterAfter(entries: seq<FeedChange>, cursor: int, m: nat)
    requires Ascending(entries) && 0 < m <= |After(entries, cursor)|
    ensures After(entries, After(entries, cursor)[m - 1].seqNo) == After(entries, cursor)[m..]
  {
    if entries[0].seqNo <= cursor {
      AfterIs(entries[1..], cursor);
      var next := After(entries, cursor)[m - 1];
      assert next in After(entries[1..], cursor);
      AfterAfter(entries[1..], cursor, m);
    } else {
      SkipTo(entries, m);
    }
  }

  lemma {:induction false} SkipTo(entries: seq<FeedChange>, m: nat)
    requires Ascending(entries) && 0 < m <= |entries|
    ensures After(entries, entries[m - 1].seqNo) == entries[m..]
  {
    if m == 1 {
      if |entries| > 1 { assert entries[1..][0].seqNo > entries[0].seqNo; }
    } else {
      assert entries[0].seqNo < entries[m - 1].seqNo;
      assert entries[1..][m - 2] == entries[m - 1];
      SkipTo(entries[1..], m - 1);
      assert entries[1..][m - 1..] == entries[m..];
    }
  }

  /** Whatever number of entries it is cut to, a page is an honest one; it is shorter only if there are no
      more, and says there are more exactly when an entry lies past its resume point. */
  lemma HonestPageSaysWhetherThereIsMore(entries: seq<FeedChange>, cursor: int, take: nat)
    requires Ascending(entries) && take > 0
    ensures var page := HonestPage(entries, cursor, take);
            && IsHonestPage(entries, cursor, page)
            && |page.changes| <= take && (page.hasMore ==> |page.changes| == take)
            && (page.hasMore <==> exists c :: c in entries && c.seqNo > page.nextSeq)
  {
    hide After, Ascending, IsHonestPage;
    EveryCutIsHonest(entries, cursor, take);
    AfterIs(entries, cursor);
    var rest := After(entries, cursor);
    var page := HonestPage(entries, cursor, take);
    if take < |rest| {
      MoreIsLeft(rest, take);
      assert page.changes[|page.changes| - 1] == rest[take - 1];
      assert rest[take] in entries && rest[take].seqNo > page.nextSeq;
    } else {
      NothingIsLeft(entries, rest, cursor);
    }
  }

  lemma EveryCutIsHonest(entries: seq<FeedChange>, cursor: int, take: nat)
    requires take > 0 && Ascending(entries)
    ensures IsHonestPage(entries, cursor, HonestPage(entries, cursor, take))
  {
    AfterIs(entries, cursor);
    hide After, Ascending;
    if take > |entries| + 1 { assert HonestPage(entries, cursor, take) == HonestPage(entries, cursor, |entries| + 1); }
  }

  lemma MoreIsLeft(rest: seq<FeedChange>, take: nat)
    requires Ascending(rest) && 0 < take < |rest|
    ensures rest[..take][take - 1].seqNo < rest[take].seqNo && rest[take] in rest
  {
  }

  lemma NothingIsLeft(entries: seq<FeedChange>, rest: seq<FeedChange>, cursor: int)
    requires Ascending(rest) && forall c :: c in rest <==> c in entries && c.seqNo > cursor
    ensures forall c | c in entries :: c.seqNo <= (if rest == [] then cursor else rest[|rest| - 1].seqNo)
  {
    forall c | c in entries ensures c.seqNo <= (if rest == [] then cursor else rest[|rest| - 1].seqNo) {
      if c.seqNo > cursor {
        var i :| 0 <= i < |rest| && rest[i] == c;
        assert i < |rest| - 1 ==> rest[i].seqNo < rest[|rest| - 1].seqNo;
      } else if rest != [] {
        assert rest[|rest| - 1] in rest;
      }
    }
  }

  /** A page is exactly the slice of the feed between the cursor and its own resume point. */
  lemma HonestPageIsSlice(entries: seq<FeedChange>, cursor: int, take: nat, c: FeedChange)
    requires Ascending(entries) && c in entries
    ensures var page := HonestPage(entries, cursor, take); c in page.changes <==> cursor < c.seqNo <= page.nextSeq
  {
    hide After;
    AfterIs(entries, cursor);
    PrefixIsSlice(After(entries, cursor), if take < |After(entries, cursor)| then take else |After(entries, cursor)|, cursor, c);
  }

  lemma PrefixIsSlice(rest: seq<FeedChange>, n: nat, cursor: int, c: FeedChange)
    requires Ascending(rest) && n <= |rest| && (c in rest <==> c.seqNo > cursor)
    ensures c in rest[..n] <==> cursor < c.seqNo <= LastSeq(rest[..n], cursor)
  {
    if c in rest {
      var i :| 0 <= i < |rest| && rest[i] == c;
      if i < n {
        assert rest[..n][i] == c;
        assert i < n - 1 ==> rest[i].seqNo < rest[n - 1].seqNo;
      } else {
        assert n > 0 ==> rest[n - 1].seqNo < rest[i].seqNo;
        forall j | 0 <= j < n ensures rest[..n][j] != c {
          assert rest[j].seqNo < rest[i].seqNo;
        }
      }
    }
  }

  // ----- exact delivery ------------------------------------------------------------------------------

  /** What a pull from `cursor` is to process: the entries past it, up to and including the first
      roster change. */
  function Target<Vault>(setting: Setting<Vault>, entries: seq<FeedChange>, cursor: int): seq<FeedChange> {
    After(entries, cursor)[..HaltAt(setting, After(entries, cursor))]
  }

  function LastSeq(changes: seq<FeedChange>, cursor: int): int {
    if changes == [] then cursor else changes[|changes| - 1].seqNo
  }

  lemma {:induction false} HaltsLater<Vault>(setting: Setting<Vault>, changes: seq<FeedChange>, m: nat)
    requires m <= |changes| && !Halts(setting, changes[..m])
    ensures HaltAt(setting, changes) == m + HaltAt(setting, changes[m..])
    ensures Halts(setting, changes) == Halts(setting, changes[m..])
  {
    if m == 0 {
      assert changes[0..] == changes;
    } else {
      assert !IsRosterChange(setting, changes[..m][0]);
      var init := changes[1..][..m - 1];
      assert changes[1..][m - 1..] == changes[m..];
      forall i | 0 <= i < |init| ensures !IsRosterChange(setting, init[i]) {
        assert changes[..m][i + 1] == init[i];
      }
      HaltsLater(setting, changes[1..], m - 1);
      HaltsFirst(setting, changes);
    }
  }

  lemma HaltsFirst<Vault>(setting: Setting<Vault>, changes: seq<FeedChange>)
    requires changes != []
    ensures Halts(setting, changes) <==> IsRosterChange(setting, changes[0]) || Halts(setting, changes[1..])
  {
    forall i | 0 < i < |changes| ensures changes[1..][i - 1] == changes[i] {}
    if i :| 0 <= i < |changes| && IsRosterChange(setting, changes[i]) {
      assert i > 0 ==> IsRosterChange(setting, changes[1..][i - 1]);
    }
    if i :| 0 <= i < |changes[1..]| && IsRosterChange(setting, changes[1..][i]) {
      assert IsRosterChange(setting, changes[i + 1]);
    }
  }

  /** A page that stops at its first roster change stops where the whole feed would. */
  lemma {:induction false} HaltsWithinPage<Vault>(setting: Setting<Vault>, changes: seq<FeedChange>, m: nat)
    requires m <= |changes| && Halts(setting, changes[..m])
    ensures Halts(setting, changes) && HaltAt(setting, changes) == HaltAt(setting, changes[..m]) <= m
  {
    var i :| 0 <= i < m && IsRosterChange(setting, changes[..m][i]);
    assert IsRosterChange(setting, changes[i]);
    if !IsRosterChange(setting, changes[0]) {
      assert changes[..m][1..] == changes[1..][..m - 1];
      assert IsRosterChange(setting, changes[1..][..m - 1][i - 1]);
      HaltsWithinPage(setting, changes[1..], m - 1);
    }
  }

  /** What an honest page holds of the target: everything up to a roster change it contains, or else a prefix. */
  lemma HonestPageHolds<Vault>(setting: Setting<Vault>, entries: seq<FeedChange>, cursor: int, feed: ChangeFeed)
    requires Ascending(entries) && IsHonestPage(entries, cursor, feed)
    ensures var (target, m) := (Target(setting, entries, cursor), |feed.changes|);
            if Halts(setting, feed.changes) then
              feed.changes[..HaltAt(setting, feed.changes)] == target && HaltAt(setting, feed.changes) > 0
            else
              && HaltAt(setting, feed.changes) == m <= |target| && feed.changes == target[..m]
              && (!feed.hasMore ==> m == |target|)
              && (m > 0 ==> target[m..] == Target(setting, entries, target[m - 1].seqNo))
  {
    hide HaltAt, Halts, IsHonestPage, HonestPage, After;
    var (rest, m) := (After(entries, cursor), |feed.changes|);
    HonestIsNotStale(entries, cursor, feed);
    HaltedIsNotEmpty(setting, feed.changes);
    if Halts(setting, feed.changes) {
      HaltsWithinPage(setting, rest, m);
      assert rest[..m][..HaltAt(setting, rest)] == rest[..HaltAt(setting, rest)];
    } else {
      HaltsLater(setting, rest, m);
      var n := HaltAt(setting, rest);
      assert rest[..n][..m] == rest[..m] && rest[..n][m..] == rest[m..][..n - m];
      if m > 0 { AfterAfter(entries, cursor, m); }
    }
  }

  /** One honest page: a prefix of the target, all of it when the loop is done. */
  lemma HonestPageDelivers<Vault>(setting: Setting<Vault>, entries: seq<FeedChange>, p: Pulling<Vault>, feed: ChangeFeed)
    requires Ascending(entries) && IsHonestPage(entries, Since(p.state.cursor), feed)
    ensures var (q, verdict) := TakePage(setting, p, feed);
            var cursor := Since(p.state.cursor);
            var target := Target(setting, entries, cursor);
            match verdict
            case Stopped(error) => error == VaultRefused
            case Done => q.delivered == p.delivered + target && q.state.cursor == Some(LastSeq(target, cursor))
            case Again =>
              var m := |feed.changes|;
              && 0 < m <= |target| && feed.changes == target[..m] && q.delivered == p.delivered + target[..m]
              && q.state.cursor == Some(target[m - 1].seqNo)
              && target[m..] == Target(setting, entries, target[m - 1].seqNo)
              && !Halts(setting, target[..m])
  {
    hide Batch, Record, MergeBatch, Rejections, RosterUpdate, RolledBack, HaltAt, Halts, Target, IsHonestPage, HonestPage, After;
    var cursor := Since(p.state.cursor);
    HonestPageHolds(setting, entries, cursor, feed);
    HonestIsNotStale(entries, cursor, feed);
    assert feed.changes[..|feed.changes|] == feed.changes;
  }

  lemma HonestIsNotStale(entries: seq<FeedChange>, cursor: int, feed: ChangeFeed)
    requires Ascending(entries) && IsHonestPage(entries, cursor, feed)
    ensures RolledBack(feed, cursor).None?
    ensures |feed.changes| <= |After(entries, cursor)| && feed.changes == After(entries, cursor)[..|feed.changes|]
    ensures feed.hasMore ==> feed.changes != []
    ensures !feed.hasMore ==> |feed.changes| == |After(entries, cursor)|
    ensures feed.nextSeq == LastSeq(feed.changes, cursor)
  {
    hide After, FirstStale;
    AfterIs(entries, cursor);
    var rest := After(entries, cursor);
    forall i | 0 <= i < |feed.changes| ensures feed.changes[i].seqNo > cursor {
      assert feed.changes[i] == rest[i] && rest[i] in rest;
    }
  }

  /** For every starting cursor and every page limit, a pull that succeeds processes exactly the
      entries after the cursor up to and including the first roster change, in order and once each,
      and leaves the cursor where the next pull starts with the entry after; and an honest feed is
      never reported as rolled back. */
  lemma {:induction false} ExactDelivery<Vault>(setting: Setting<Vault>, server: Remoteness, entries: seq<FeedChange>, p: Pulling<Vault>, limit: nat)
    requires Ascending(entries) && Honest(server, entries)
    ensures var (q, error) := Pulled(setting, server, p, limit);
            var cursor := Since(p.state.cursor);
            var target := Target(setting, entries, cursor);
            && (error.None? ==>
                  && q.delivered == p.delivered + target
                  && q.state.cursor == Some(LastSeq(target, cursor))
                  && After(entries, cursor) == target + After(entries, LastSeq(target, cursor)))
            && (error.Some? ==> error.value == VaultRefused || error.value == FeedTooLong
                                || exists i, c, n :: Fetched(server, i, c, n) == Err(error.value))
    decreases MAX_PAGES_PER_SYNC - p.pages, limit
  {
    hide TakePage, Fetched, Pulled, Target, HaltAt, After, IsHonestPage;
    var cursor := Since(p.state.cursor);
    TargetLeavesRest(setting, entries, cursor);
    if p.pages >= MAX_PAGES_PER_SYNC {
      PullEnds(setting, server, p, limit);
    } else {
      PullTurn(setting, server, p, limit);
      var asked := p.(requests := p.requests + 1);
      match Fetched(server, p.requests, p.state.cursor, limit)
      case Err(error) =>
        if TooBig(error) && limit > 1 { ExactDelivery(setting, server, entries, asked, limit / 2); }
      case Ok(feed) =>
        HonestPageDelivers(setting, entries, asked, feed);
        var (q, verdict) := TakePage(setting, asked, feed);
        if verdict.Again? {
          var (target, m) := (Target(setting, entries, cursor), |feed.changes|);
          ExactDelivery(setting, server, entries, q, limit);
          assert target == target[..m] + target[m..];
          assert p.delivered + target[..m] + target[m..] == p.delivered + target;
        }
    }
  }

  lemma TargetLeavesRest<Vault>(setting: Setting<Vault>, entries: seq<FeedChange>, cursor: int)
    requires Ascending(entries)
    ensures var target := Target(setting, entries, cursor);
            After(entries, cursor) == target + After(entries, LastSeq(target, cursor))
  {
    hide HaltAt;
    var (rest, m) := (After(entries, cursor), HaltAt(setting, After(entries, cursor)));
    AfterIs(entries, cursor);
    assert rest == rest[..m] + rest[m..];
    if m > 0 { AfterAfter(entries, cursor, m); }
  }
}

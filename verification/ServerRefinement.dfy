/** The server of the single-item push, with its tokens and status codes, is the server of the
    protocol: one compare-and-swap seen from both sides. */
module ServerRefinement {
  import opened Foundations
  import opened Decimals
  import Push = SyncPush
  import Protocol = SyncProtocol
  import opened ChangeFeeds
  import opened HonestFeeds

  type History<!V> = map<(Protocol.ItemId, nat), Protocol.Envelope<V>>

  ghost predicate KeepsEnvelopes(s: Push.Server) { forall k | k in s.rows :: s.rows[k].envelope.Some? && s.rows[k].version >= 1 }

  /** What the protocol sees of a server; `read` opens an envelope, `stored` is the history the real
      server does not keep. */
  ghost function Abstract<V>(s: Push.Server, read: Bytes -> Protocol.Envelope<V>, stored: History<V>): Protocol.Server<V>
    requires KeepsEnvelopes(s)
  {
    Protocol.Server(map k | k in s.rows :: Protocol.Row(s.rows[k].version, s.rows[k].seqNo, read(s.rows[k].envelope.value)), s.head, stored)
  }

  ghost predicate SameAnswer<V>(reply: Push.Reply, answer: Protocol.Answer<V>, read: Bytes -> Protocol.Envelope<V>) {
    match answer
    case Applied(version, seqNo) => reply == Push.Written(seqNo, Digits(version))
    case Conflict(version, e) => reply.Conflicted? && reply.version == Digits(version) && reply.envelope.Some? && read(reply.envelope.value) == e
    case Absent => reply == Push.Conflicted(Digits(0), None)
  }

  /** Whatever a device may send, both servers move alike and answer alike. */
  lemma PutRefines<V>(s: Push.Server, read: Bytes -> Protocol.Envelope<V>, stored: History<V>, k: Protocol.ItemId, token: Option<Bytes>, envelope: Bytes)
    requires KeepsEnvelopes(s) && Push.Precondition(token).Some?
    ensures var (t, reply) := Push.PutItem(s, k, token, envelope);
            var (u, answer) := Protocol.Put(Abstract(s, read, stored), Protocol.Request(k, Push.Precondition(token).value, read(envelope)));
            KeepsEnvelopes(t) && u == Abstract(t, read, u.stored) && SameAnswer(reply, answer, read)
  {
    hide Digits, Push.Precondition;
    var (t, reply) := Push.PutItem(s, k, token, envelope);
    var (u, answer) := Protocol.Put(Abstract(s, read, stored), Protocol.Request(k, Push.Precondition(token).value, read(envelope)));
    assert u.rows == Abstract(t, read, u.stored).rows;
  }

  /** The feed lists every row once, by ascending sequence number. */
  ghost predicate Lists(s: Push.Server, entries: seq<FeedChange>) {
    && Ascending(entries)
    && (forall c | c in entries ::
          c.itemId in s.rows && c.seqNo == s.rows[c.itemId].seqNo && c.envelope == s.rows[c.itemId].envelope
          && c.version == Some(Digits(s.rows[c.itemId].version)))
    && (forall k | k in s.rows :: exists c :: c in entries && c.itemId == k)
  }

  /** Any page an honest server cuts from its feed, wherever it cuts, shows exactly the rows the
      protocol's fetch step shows between the cursor and the page's resume point. */
  lemma PageRefinesFetch<V>(s: Push.Server, read: Bytes -> Protocol.Envelope<V>, stored: History<V>, entries: seq<FeedChange>, cursor: nat, take: nat)
    requires KeepsEnvelopes(s) && Lists(s, entries)
    ensures var page := HonestPage(entries, cursor, take);
            && page.nextSeq >= 0
            && var feed := Protocol.Feed(Abstract(s, read, stored), cursor, page.nextSeq);
               && (forall c | c in entries :: c in page.changes <==> c.itemId in feed)
               && (forall k | k in feed :: exists c :: c in page.changes && c.itemId == k)
  {
    hide HonestPage;
    var page := HonestPage(entries, cursor, take);
    ResumesForward(entries, cursor, take);
    var feed := Protocol.Feed(Abstract(s, read, stored), cursor, page.nextSeq);
    forall c | c in entries ensures c in page.changes <==> c.itemId in feed {
      HonestPageIsSlice(entries, cursor, take, c);
    }
    forall k | k in feed ensures exists c :: c in page.changes && c.itemId == k {
      var c :| c in entries && c.itemId == k;
      assert c in page.changes;
    }
  }

  lemma ResumesForward(entries: seq<FeedChange>, cursor: int, take: nat)
    requires Ascending(entries)
    ensures HonestPage(entries, cursor, take).nextSeq >= cursor
  {
    AfterIs(entries, cursor);
    var changes := HonestPage(entries, cursor, take).changes;
    if changes != [] { assert changes[|changes| - 1] in After(entries, cursor); }
  }
}

/** Whole runs of the engine are runs of the protocol: a pull of any number of pages and a push of any
    number of attempts, while other devices write in between, stopped at any durable write or not.  What
    the protocol guarantees of its runs therefore holds of the engine's own loops. */
module EngineRuns {
  import opened Foundations
  import opened Decimals
  import opened ChangeFeeds
  import opened SyncPull
  import opened HonestFeeds
  import opened CrashRecovery
  import opened PullGuarantees
  import opened ServerRefinement
  import opened EngineRefinement
  import Push = SyncPush
  import Progress = PushProgress
  import Protocol = SyncProtocol

  // ----- what other devices write --------------------------------------------------------------------------

  /** A peer's write: of a kind the vault models, different from what is there, and not below it. */
  ghost predicate PeerWrite<V(!new)>(setting: Setting<Rows>, c: Coding<V>, server: Push.Server, f: Push.Foreign) {
    && f.Write? && Progress.Mergeable(setting, f.item, f.envelope)
    && (f.item in server.rows && server.rows[f.item].envelope.Some? ==>
          && server.rows[f.item].envelope.value != f.envelope
          && c.lattice.leq(c.read(server.rows[f.item].envelope.value).value, c.read(f.envelope).value))
  }

  ghost predicate PeerWrites<V(!new)>(setting: Setting<Rows>, c: Coding<V>, server: Push.Server, fs: seq<Push.Foreign>)
    decreases |fs|
  {
    fs == [] || (PeerWrite(setting, c, server, fs[0]) && PeerWrites(setting, c, Push.Interleave(server, fs[0]), fs[1..]))
  }

  /** Rows with their bytes, of a kind the vault models, versioned from one and never past the sequence. */
  ghost predicate WellKept(setting: Setting<Rows>, server: Push.Server) {
    forall k | k in server.rows ::
      && 1 <= server.rows[k].version <= server.head
      && server.rows[k].envelope.Some? && Progress.Mergeable(setting, k, server.rows[k].envelope.value)
  }

  /** Nothing of `s` but the server has changed for those that were there. */
  ghost predicate Untouched<V(!new)>(s: Protocol.System<V>, t: Protocol.System<V>) {
    && (forall d | d in s.devices :: d in t.devices && t.devices[d] == s.devices[d])
    && |s.requests| <= |t.requests| && t.requests[..|s.requests|] == s.requests
  }

  lemma {:induction false} NameToSpare(names: set<nat>) returns (d: nat)
    ensures forall n | n in names :: n < d
  {
    d := 0;
    if names != {} {
      var n :| n in names;
      assert names == names - {n} + {n};
      d := NameToSpare(names - {n});
      if d <= n { d := n + 1; }
    }
  }

  lemma StoreIsServed<V(!new)>(c: Coding<V>, server: Push.Server, s: Protocol.Server<V>, k: ItemId, e: Bytes, u: Protocol.Server<V>)
    requires Serves(c, server, s)
    requires u.rows == s.rows[k := Protocol.Row(Protocol.VersionOf(s, k) + 1, s.head + 1, c.read(e))] && u.head == s.head + 1
    ensures Serves(c, Push.Store(server, k, Some(e)), u)
  {
    var after := Push.Store(server, k, Some(e));
    assert Abstract(after, c.read, u.stored).rows == u.rows;
  }

  /** A device that has just enrolled and read the whole feed. */
  lemma NewcomerReads<V(!new)>(l: Protocol.Lattice<V>, s: Protocol.System<V>, d: Protocol.DeviceName) returns (t: Protocol.System<V>)
    requires Protocol.Lawful(l) && Protocol.Inv(l, s) && d !in s.devices
    ensures Protocol.Leads(l, s, t) && t.server == s.server && t.requests == s.requests && Untouched(s, t)
    ensures d in t.devices && t.devices[d].task.Idle? && t.devices[d].vault == Protocol.Envelopes(s.server)
    ensures t.devices[d].memory.known == map k | k in s.server.rows :: Protocol.KnownRow(s.server.rows[k].version, s.server.rows[k].envelope)
  {
    hide Protocol.RunFrom, Protocol.Inv, Protocol.Leads, Protocol.Lawful, Protocol.Absorbed, Protocol.After, Protocol.Enabled, Protocol.Feed, PageSteps, Protocol.PageMerge;
    var enrolled := Newcomer(l, s, d);
    OneStepLeads(l, s, Protocol.Enroll(d));
    WholeFeed(l, s);
    var (feed, head) := (Protocol.Feed(s.server, 0, s.server.head), s.server.head);
    var seals := map k | k in feed :: 0;
    NothingThere(l, feed, seals);
    PageRuns(l, enrolled, d, head, seals);
    t := Protocol.RunFrom(l, enrolled, PageSteps(d, head, seals)).value;
    RunLeads(l, enrolled, PageSteps(d, head, seals), t);
    Protocol.LeadsTransitive(l, s, enrolled, t);
  }

  lemma Newcomer<V(!new)>(l: Protocol.Lattice<V>, s: Protocol.System<V>, d: Protocol.DeviceName) returns (t: Protocol.System<V>)
    requires d !in s.devices
    ensures Protocol.Enabled(l, s, Protocol.Enroll(d)) && t == Protocol.After(l, s, Protocol.Enroll(d))
    ensures t == s.(devices := s.devices[d := Protocol.Device(map[], Protocol.SyncState(0, map[]), Protocol.SyncState(0, map[]), Protocol.Idle)])
  {
    t := Protocol.After(l, s, Protocol.Enroll(d));
  }

  lemma WholeFeed<V(!new)>(l: Protocol.Lattice<V>, s: Protocol.System<V>)
    requires Protocol.Inv(l, s)
    ensures Protocol.Feed(s.server, 0, s.server.head) == s.server.rows
  {
    hide Protocol.DeviceInv, Protocol.RequestInv, Protocol.AnswerStored;
  }

  /** Into an empty vault everything goes as it is. */
  lemma NothingThere<V(!new)>(l: Protocol.Lattice<V>, feed: map<ItemId, Protocol.Row<V>>, seals: map<ItemId, nat>)
    requires forall k | k in feed :: k in seals
    ensures forall k | k in feed :: Protocol.Absorbed(l, map[], k, feed[k].envelope, seals[k]) == Some(feed[k].envelope)
    ensures Protocol.PageMerge(l, map[], feed, seals) == map k | k in feed :: feed[k].envelope
  {
  }

  lemma RunLeads<V(!new)>(l: Protocol.Lattice<V>, s: Protocol.System<V>, steps: seq<Protocol.Step<V>>, t: Protocol.System<V>)
    requires Protocol.RunFrom(l, s, steps) == Some(t)
    ensures Protocol.Leads(l, s, t)
  {
    assert Protocol.IsRun(l, s, steps, t);
  }

  lemma OneStepLeads<V(!new)>(l: Protocol.Lattice<V>, s: Protocol.System<V>, step: Protocol.Step<V>)
    requires Protocol.Enabled(l, s, step)
    ensures Protocol.Leads(l, s, Protocol.After(l, s, step))
  {
    hide Protocol.RunFrom, Protocol.Enabled, Protocol.After;
    var steps := [step];
    Steps(l, s, steps);
    assert steps[1..] == [];
    RunsNothing(l, Protocol.After(l, s, step));
    RunLeads(l, s, steps, Protocol.After(l, s, step));
  }

  lemma StaysPut<V(!new)>(l: Protocol.Lattice<V>, s: Protocol.System<V>)
    ensures Protocol.Leads(l, s, s) && Untouched(s, s)
  {
    RunsNothing(l, s);
    RunLeads(l, s, [], s);
  }

  /** It then writes, and its request is served. */
  lemma NewcomerWrites<V(!new)>(l: Protocol.Lattice<V>, s: Protocol.System<V>, d: Protocol.DeviceName, k: ItemId, e: Protocol.Envelope<V>) returns (t: Protocol.System<V>)
    requires d in s.devices && s.devices[d].task.Idle? && s.devices[d].vault == Protocol.Envelopes(s.server)
    requires s.devices[d].memory.known == map k | k in s.server.rows :: Protocol.KnownRow(s.server.rows[k].version, s.server.rows[k].envelope)
    requires k in s.server.rows ==> s.server.rows[k].envelope != e && l.leq(s.server.rows[k].envelope.value, e.value)
    ensures Protocol.Leads(l, s, t) && Untouched(s.(devices := s.devices - {d}), t)
    ensures t.server.rows == s.server.rows[k := Protocol.Row(Protocol.VersionOf(s.server, k) + 1, s.server.head + 1, e)] && t.server.head == s.server.head + 1
  {
    hide Protocol.RunFrom, Protocol.Leads;
    var edit := Protocol.Edit(d, k, e);
    var edited := Protocol.After(l, s, edit);
    OneStepLeads(l, s, edit);
    var send := Protocol.Send(d, k);
    var sent := Protocol.After(l, edited, send);
    OneStepLeads(l, edited, send);
    Protocol.LeadsTransitive(l, s, edited, sent);
    var serve := Protocol.Serve(|s.requests|);
    t := Protocol.After(l, sent, serve);
    OneStepLeads(l, sent, serve);
    Protocol.LeadsTransitive(l, s, sent, t);
  }

  /** A peer's write is a run of the protocol by a device of its own. */
  lemma PeerIsARun<V(!new)>(setting: Setting<Rows>, c: Coding<V>, server: Push.Server, s: Protocol.System<V>, f: Push.Foreign) returns (t: Protocol.System<V>)
    requires Exact(c) && Protocol.Lawful(c.lattice) && Protocol.Inv(c.lattice, s) && Serves(c, server, s.server) && PeerWrite(setting, c, server, f)
    ensures Protocol.Leads(c.lattice, s, t) && Untouched(s, t) && Serves(c, Push.Interleave(server, f), t.server)
  {
    hide Protocol.Inv, Protocol.Leads, Progress.Mergeable;
    var l := c.lattice;
    var d := NameToSpare(s.devices.Keys);
    var read := NewcomerReads(l, s, d);
    RowIsRead(c, server, s.server, f.item);
    t := NewcomerWrites(l, read, d, f.item, c.read(f.envelope));
    Protocol.LeadsTransitive(l, s, read, t);
    StoreIsServed(c, server, s.server, f.item, f.envelope, t.server);
  }

  lemma RowIsRead<V(!new)>(c: Coding<V>, server: Push.Server, s: Protocol.Server<V>, k: ItemId)
    requires Serves(c, server, s)
    ensures k in server.rows <==> k in s.rows
    ensures k in server.rows ==> server.rows[k].envelope.Some? && s.rows[k].envelope == c.read(server.rows[k].envelope.value)
                                 && s.rows[k].version == server.rows[k].version
    ensures s.head == server.head
  {
  }

  lemma {:induction false} PeersAreARun<V(!new)>(setting: Setting<Rows>, c: Coding<V>, server: Push.Server, s: Protocol.System<V>, fs: seq<Push.Foreign>) returns (t: Protocol.System<V>)
    requires Exact(c) && Protocol.Lawful(c.lattice) && Protocol.Inv(c.lattice, s) && Serves(c, server, s.server) && PeerWrites(setting, c, server, fs)
    ensures Protocol.Leads(c.lattice, s, t) && Untouched(s, t) && Serves(c, Push.InterleaveAll(server, fs), t.server) && Protocol.Inv(c.lattice, t)
    decreases |fs|
  {
    hide Protocol.Inv, Protocol.Leads, Exact, Serves, PeerWrite, Protocol.Lawful;
    t := s;
    StaysPut(c.lattice, s);
    if fs != [] {
      var u := PeerIsARun(setting, c, server, s, fs[0]);
      Protocol.LeadsKeepsInv(c.lattice, s, u);
      t := PeersAreARun(setting, c, Push.Interleave(server, fs[0]), u, fs[1..]);
      Protocol.LeadsTransitive(c.lattice, s, u, t);
      UntouchedTwice(s, u, t);
    }
  }

  lemma UntouchedTwice<V(!new)>(s: Protocol.System<V>, t: Protocol.System<V>, u: Protocol.System<V>)
    requires Untouched(s, t) && Untouched(t, u)
    ensures Untouched(s, u)
  {
    assert u.requests[..|s.requests|] == t.requests[..|s.requests|];
  }

  // ----- where the engine is, and what it would leave ----------------------------------------------------------

  /** The engine at rest is seen as device `d`. */
  ghost predicate Seen<V(!new)>(c: Coding<V>, vault: Rows, state: SyncState, saved: SyncState, s: Protocol.System<V>, d: Protocol.DeviceName) {
    d in s.devices && s.devices[d].task.Idle? && Simulates(c, vault, state, saved, s.devices[d])
  }

  /** What a stop here would leave is what the device has on disk. */
  ghost predicate SeenOnDisk<V(!new)>(c: Coding<V>, left: Durable<Rows>, s: Protocol.System<V>, d: Protocol.DeviceName) {
    d in s.devices && s.devices[d].vault == Values(c, left.vault) && Sees(c, left.state, s.devices[d].disk)
  }

  ghost predicate Passes<V(!new)>(c: Coding<V>, s: Protocol.System<V>, d: Protocol.DeviceName, left: Durable<Rows>) {
    exists x :: Protocol.Leads(c.lattice, s, x) && SeenOnDisk(c, left, x, d)
  }

  /** Each durable write made since is one a run of the protocol passes through. */
  ghost predicate AllPass<V(!new)>(c: Coding<V>, s: Protocol.System<V>, d: Protocol.DeviceName, before: seq<Durable<Rows>>, after: seq<Durable<Rows>>) {
    && |before| <= |after| && after[..|before|] == before
    && forall i | |before| <= i < |after| :: Passes(c, s, d, after[i])
  }

  lemma AllPassLater<V(!new)>(c: Coding<V>, s: Protocol.System<V>, t: Protocol.System<V>, d: Protocol.DeviceName,
                              first: seq<Durable<Rows>>, second: seq<Durable<Rows>>, third: seq<Durable<Rows>>)
    requires Protocol.Leads(c.lattice, s, t) && AllPass(c, s, d, first, second) && AllPass(c, t, d, second, third)
    ensures AllPass(c, s, d, first, third)
  {
    hide Protocol.Leads, SeenOnDisk;
    assert third[..|first|] == second[..|first|];
    forall i | |first| <= i < |third| ensures Passes(c, s, d, third[i]) {
      if i < |second| {
        assert third[i] == second[i];
      } else {
        assert Passes(c, t, d, third[i]);
        var x :| Protocol.Leads(c.lattice, t, x) && SeenOnDisk(c, third[i], x, d);
        Protocol.LeadsTransitive(c.lattice, s, t, x);
      }
    }
  }

  /** A new process over what a durable write left is a device that crashed there. */
  lemma RestartIsARun<V(!new)>(c: Coding<V>, s: Protocol.System<V>, d: Protocol.DeviceName, left: Durable<Rows>) returns (t: Protocol.System<V>)
    requires Passes(c, s, d, left)
    ensures Protocol.Leads(c.lattice, s, t) && Seen(c, left.vault, left.state, left.state, t, d)
  {
    hide Protocol.Leads, Sees;
    var x :| Protocol.Leads(c.lattice, s, x) && SeenOnDisk(c, left, x, d);
    t := Protocol.After(c.lattice, x, Protocol.Crash(d));
    OneStepLeads(c.lattice, x, Protocol.Crash(d));
    Protocol.LeadsTransitive(c.lattice, s, x, t);
  }

  lemma {:induction false} RunSplits<V(!new)>(l: Protocol.Lattice<V>, s: Protocol.System<V>, a: seq<Protocol.Step<V>>, b: seq<Protocol.Step<V>>) returns (x: Protocol.System<V>)
    requires Protocol.RunFrom(l, s, a + b).Some?
    ensures Protocol.RunFrom(l, s, a) == Some(x) && Protocol.RunFrom(l, x, b) == Protocol.RunFrom(l, s, a + b)
    decreases |a|
  {
    hide Protocol.Enabled, Protocol.After;
    if a == [] {
      x := s;
      assert a + b == b;
    } else {
      assert (a + b)[0] == a[0] && (a + b)[1..] == a[1..] + b;
      x := RunSplits(l, Protocol.After(l, s, a[0]), a[1..], b);
    }
  }

  // ----- a push ------------------------------------------------------------------------------------------------------

  lemma {:induction false} PeersKeepWell<V(!new)>(setting: Setting<Rows>, c: Coding<V>, server: Push.Server, fs: seq<Push.Foreign>)
    requires WellKept(setting, server) && PeerWrites(setting, c, server, fs)
    ensures WellKept(setting, Push.InterleaveAll(server, fs)) && Push.InterleaveAll(server, fs).head == server.head + |fs|
    decreases |fs|
  {
    hide Progress.Mergeable;
    if fs != [] { PeersKeepWell(setting, c, Push.Interleave(server, fs[0]), fs[1..]); }
  }

  lemma WellKeptRow(setting: Setting<Rows>, server: Push.Server, k: ItemId)
    requires WellKept(setting, server) && server.head + 1 < MAX_SEQ
    ensures RowInRange(setting, server, k)
  {
    hide Progress.Mergeable;
  }

  /** A recorded version is one the server issued. */
  lemma KnownInRange<V(!new)>(setting: Setting<Rows>, c: Coding<V>, server: Push.Server, s: Protocol.System<V>, d: Protocol.DeviceName, k: ItemId)
    requires Protocol.Inv(c.lattice, s) && Serves(c, server, s.server) && WellKept(setting, server) && d in s.devices
    ensures k in s.devices[d].memory.known ==> s.devices[d].memory.known[k].version <= server.head
  {
    hide Progress.Mergeable;
    if k in s.devices[d].memory.known {
      assert Protocol.DeviceInv(c.lattice, s, s.devices[d]);
      var known := s.devices[d].memory.known[k];
      assert Protocol.Stored(s.server, k, known.version, known.fingerprint);
      assert (k, known.version) in s.server.stored;
      RowIsRead(c, server, s.server, k);
    }
  }

  /** How an attempt writes: nothing before it is answered; then the save, or the commit and the save. */
  lemma AttemptWrites<V(!new)>(kindOf: KindOf, authenticate: Authenticate, c: Coding<V>, p: Push.Pushing<Rows>, k: ItemId, fs: seq<Push.Foreign>)
    requires WellKept(EngineSetting(kindOf, authenticate, c), Push.InterleaveAll(p.server, fs))
    ensures var (q, turn) := Push.Attempted(EngineKeeper(kindOf, authenticate, c), p, k, fs);
            match turn
            case GaveUp(_) => q.durable == p.durable
            case Finished => q.durable == p.durable || (q.vault == p.vault && q.durable == p.durable + [Durable(q.vault, q.saved)])
            case Retry => q.durable == p.durable + [Durable(q.vault, p.saved), Durable(q.vault, q.saved)]
                          && q.server == Push.InterleaveAll(p.server, fs)
  {
    hide Push.PutItem, Push.DecodeReply, Push.InterleaveAll, VerifyChange, WellKept;
    var keeper := EngineKeeper(kindOf, authenticate, c);
    var row := keeper.stored(p.vault, k);
    if row.Some? && !Push.Confirmed(p.state, k, row.value.envelope) && |row.value.envelope| <= MAX_ENVELOPE_LEN {
      var s := Push.InterleaveAll(p.server, fs);
      var token := Push.VersionOf(p.state, k);
      Progress.ConflictIsOfRow(s, k, token, row.value.envelope);
      ConflictBrings(keeper.setting, s, k, token, row.value.envelope);
    }
  }

  lemma ConflictBrings(setting: Setting<Rows>, s: Push.Server, k: ItemId, token: Option<Bytes>, envelope: Bytes)
    requires WellKept(setting, s)
    ensures var outcome := Push.DecodeReply(Push.PutItem(s, k, token, envelope).1);
            outcome.Ok? && outcome.value.Conflict? ==> outcome.value.envelope.Some? && Progress.Mergeable(setting, k, outcome.value.envelope.value)
  {
    hide Progress.Mergeable, Digits;
    Progress.TokensRoundTrip(0);
  }

  /** Half way through a conflict: the vault has committed and nothing has been saved. */
  lemma MiddleOfConflict<V(!new)>(l: Protocol.Lattice<V>, t: Protocol.System<V>, d: Protocol.DeviceName, request: nat, answer: Protocol.Answer<V>, seal: nat, u: Protocol.System<V>) returns (x: Protocol.System<V>)
    requires d in t.devices && answer.Conflict? && Protocol.RunFrom(l, t, AttemptSteps(d, request, answer, seal)) == Some(u) && d in u.devices
    ensures Protocol.Leads(l, t, x) && d in x.devices && x.devices[d].vault == u.devices[d].vault && x.devices[d].disk == t.devices[d].disk
  {
    hide Protocol.Leads, Protocol.Put, Protocol.Feed, Protocol.Absorbed, Protocol.RunFrom;
    var first := [Protocol.Serve(request), Protocol.Receive(d, answer), Protocol.MergeConflict(d, seal)];
    var second := [Protocol.RecordConflict(d), Protocol.Save(d)];
    assert AttemptSteps(d, request, answer, seal) == first + second;
    x := RunSplits(l, t, first, second);
    RunLeads(l, t, first, x);
    DiskStays(l, t, first, x, d);
    VaultStays(l, x, second, u, d);
  }

  /** Only a save, a crash or a newcomer changes what is on disk. */
  lemma {:induction false} DiskStays<V(!new)>(l: Protocol.Lattice<V>, s: Protocol.System<V>, steps: seq<Protocol.Step<V>>, t: Protocol.System<V>, d: Protocol.DeviceName)
    requires Protocol.RunFrom(l, s, steps) == Some(t) && d in s.devices
    requires forall step | step in steps :: !step.Save? && !step.Enroll?
    ensures d in t.devices && t.devices[d].disk == s.devices[d].disk
    decreases |steps|
  {
    hide Protocol.Put, Protocol.Feed, Protocol.Absorbed, Protocol.PageMerge;
    if steps != [] {
      assert steps[0] in steps;
      DiskStays(l, Protocol.After(l, s, steps[0]), steps[1..], t, d);
    }
  }

  /** Recording and saving leave the vault alone. */
  lemma {:induction false} VaultStays<V(!new)>(l: Protocol.Lattice<V>, s: Protocol.System<V>, steps: seq<Protocol.Step<V>>, t: Protocol.System<V>, d: Protocol.DeviceName)
    requires Protocol.RunFrom(l, s, steps) == Some(t) && d in s.devices
    requires forall step | step in steps :: step.Save? || step.RecordConflict? || step.RecordPage?
    ensures d in t.devices && t.devices[d].vault == s.devices[d].vault
    decreases |steps|
  {
    if steps != [] {
      assert steps[0] in steps;
      VaultStays(l, Protocol.After(l, s, steps[0]), steps[1..], t, d);
    }
  }

  /** An attempt that sends, with everything its own requests find and do in between. */
  lemma SentAttemptIsARun<V(!new)>(kindOf: KindOf, authenticate: Authenticate, c: Coding<V>, p: Push.Pushing<Rows>, k: ItemId, fs: seq<Push.Foreign>,
                                   s: Protocol.System<V>, d: Protocol.DeviceName) returns (t: Protocol.System<V>)
    requires Exact(c) && Protocol.Lawful(c.lattice) && Protocol.Inv(c.lattice, s)
    requires Seen(c, p.vault, p.state, p.saved, s, d) && Serves(c, p.server, s.server)
    requires WellKept(EngineSetting(kindOf, authenticate, c), p.server) && PeerWrites(EngineSetting(kindOf, authenticate, c), c, p.server, fs)
    requires p.server.head + |fs| + 1 < MAX_SEQ
    requires k in p.vault && !Push.Confirmed(p.state, k, p.vault[k]) && |p.vault[k]| <= MAX_ENVELOPE_LEN
    ensures Protocol.Leads(c.lattice, s, t) && Protocol.Inv(c.lattice, t)
    ensures Attempting(EngineSetting(kindOf, authenticate, c), c, p, k, fs, t, d, s.devices[d], |s.requests|)
    ensures WellKept(EngineSetting(kindOf, authenticate, c), Push.InterleaveAll(p.server, fs))
  {
    hide Protocol.Inv, Protocol.Leads, Exact, Serves, PeerWrite, Protocol.Lawful, WellKept, Simulates, Push.Confirmed, RowInRange, Protocol.Enabled, Protocol.After;
    var setting := EngineSetting(kindOf, authenticate, c);
    SendsWhatIsPending(c, s, d, p.vault, p.state, p.saved, k);
    var send := Protocol.Send(d, k);
    var sent := Protocol.After(c.lattice, s, send);
    OneStepLeads(c.lattice, s, send);
    Protocol.LeadsKeepsInv(c.lattice, s, sent);
    SendLeavesServer(c.lattice, s, send);
    t := PeersAreARun(setting, c, p.server, sent, fs);
    Protocol.LeadsTransitive(c.lattice, s, sent, t);
    StillWaits(sent, t, d, s.devices[d], |s.requests|, k);
    KnownInRange(setting, c, p.server, s, d, k);
    PeersKeepWell(setting, c, p.server, fs);
    WellKeptRow(setting, Push.InterleaveAll(p.server, fs), k);
    RowIsValue(c, p.vault, p.state, p.saved, s.devices[d], k);
  }

  lemma RowIsValue<V(!new)>(c: Coding<V>, vault: Rows, state: SyncState, saved: SyncState, d: Protocol.Device<V>, k: ItemId)
    requires Simulates(c, vault, state, saved, d) && k in vault
    ensures k in d.vault
  {
  }

  lemma SendLeavesServer<V(!new)>(l: Protocol.Lattice<V>, s: Protocol.System<V>, send: Protocol.Step<V>)
    requires send.Send? && Protocol.Enabled(l, s, send)
    ensures Protocol.After(l, s, send).server == s.server && send.item in s.devices[send.d].vault
  {
  }

  lemma StillWaits<V(!new)>(s: Protocol.System<V>, t: Protocol.System<V>, d: Protocol.DeviceName, before: Protocol.Device<V>, request: nat, k: ItemId)
    requires k in before.vault && Waits(s, d, before, request, k) && Untouched(s, t)
    ensures Waits(t, d, before, request, k)
  {
    assert t.requests[..|s.requests|][request] == t.requests[request];
  }

  /** Where an attempt ends: seen as a device at rest; or, when the vault refused a merge, with vault and
      store as they were and the refused row recorded in memory alone. */
  ghost predicate Ends<V(!new)>(c: Coding<V>, q: Push.Pushing<Rows>, refused: bool, u: Protocol.System<V>, d: Protocol.DeviceName) {
    if refused then SeenOnDisk(c, Durable(q.vault, q.saved), u, d) else Seen(c, q.vault, q.state, q.saved, u, d)
  }

  /** One attempt, whatever the others write meanwhile. */
  lemma AttemptIsARun<V(!new)>(kindOf: KindOf, authenticate: Authenticate, c: Coding<V>, p: Push.Pushing<Rows>, k: ItemId, fs: seq<Push.Foreign>,
                               s: Protocol.System<V>, d: Protocol.DeviceName) returns (u: Protocol.System<V>)
    requires Exact(c) && Protocol.Lawful(c.lattice) && Protocol.Inv(c.lattice, s)
    requires Seen(c, p.vault, p.state, p.saved, s, d) && Serves(c, p.server, s.server)
    requires WellKept(EngineSetting(kindOf, authenticate, c), p.server) && PeerWrites(EngineSetting(kindOf, authenticate, c), c, p.server, fs)
    requires p.server.head + |fs| + 1 < MAX_SEQ
    ensures var (q, turn) := Push.Attempted(EngineKeeper(kindOf, authenticate, c), p, k, fs);
            && Protocol.Leads(c.lattice, s, u) && Protocol.Inv(c.lattice, u) && Serves(c, q.server, u.server)
            && Ends(c, q, turn == Push.GaveUp(Push.MergeRefused), u, d) && AllPass(c, s, d, p.durable, q.durable)
  {
    hide Protocol.Inv, Protocol.Leads, Exact, Serves, PeerWrite, PeerWrites, Protocol.Lawful, WellKept, Simulates, Push.Confirmed, Attempting, Push.Attempted,
         AttemptSteps, Protocol.Put, Waits, Sees, AllPass;
    var (q, turn) := Push.Attempted(EngineKeeper(kindOf, authenticate, c), p, k, fs);
    if k !in p.vault || Push.Confirmed(p.state, k, p.vault[k]) || |p.vault[k]| > MAX_ENVELOPE_LEN {
      NothingSent(EngineKeeper(kindOf, authenticate, c), p, k, fs);
      u := s;
      StaysPut(c.lattice, s);
      NothingWritten(c, s, d, p.durable);
    } else {
      var t := SentAttemptIsARun(kindOf, authenticate, c, p, k, fs, s, d);
      u := ServedAttemptIsARun(kindOf, authenticate, c, p, k, fs, s, t, d);
      Protocol.LeadsKeepsInv(c.lattice, s, u);
    }
  }

  lemma NothingSent(keeper: Push.Keeper<Rows>, p: Push.Pushing<Rows>, k: ItemId, fs: seq<Push.Foreign>)
    requires keeper.stored == StoredIn
    requires k !in p.vault || Push.Confirmed(p.state, k, p.vault[k]) || |p.vault[k]| > MAX_ENVELOPE_LEN
    ensures var (q, turn) := Push.Attempted(keeper, p, k, fs);
            q == p && turn in {Push.Finished, Push.GaveUp(Push.OverCap)}
  {
    hide Push.InterleaveAll, Push.PutItem, Push.DecodeReply, Push.Resolved;
  }

  lemma NothingWritten<V(!new)>(c: Coding<V>, s: Protocol.System<V>, d: Protocol.DeviceName, durable: seq<Durable<Rows>>)
    ensures AllPass(c, s, d, durable, durable)
  {
  }

  lemma ServedAttemptIsARun<V(!new)>(kindOf: KindOf, authenticate: Authenticate, c: Coding<V>, p: Push.Pushing<Rows>, k: ItemId, fs: seq<Push.Foreign>,
                                     s: Protocol.System<V>, t: Protocol.System<V>, d: Protocol.DeviceName) returns (u: Protocol.System<V>)
    requires Exact(c) && d in s.devices && Protocol.Leads(c.lattice, s, t)
    requires Attempting(EngineSetting(kindOf, authenticate, c), c, p, k, fs, t, d, s.devices[d], |s.requests|)
    requires WellKept(EngineSetting(kindOf, authenticate, c), Push.InterleaveAll(p.server, fs))
    ensures var (q, turn) := Push.Attempted(EngineKeeper(kindOf, authenticate, c), p, k, fs);
            && Protocol.Leads(c.lattice, s, u) && Serves(c, q.server, u.server)
            && Ends(c, q, turn == Push.GaveUp(Push.MergeRefused), u, d) && AllPass(c, s, d, p.durable, q.durable)
  {
    hide Protocol.Inv, Protocol.Leads, Exact, Serves, WellKept, Push.Confirmed, Push.Attempted, AttemptSteps, Protocol.Put, Sees, Protocol.Absorbed, Protocol.RunFrom,
         Push.InterleaveAll, RowInRange, AllPass, Values, RequestOf;
    var (q, turn) := Push.Attempted(EngineKeeper(kindOf, authenticate, c), p, k, fs);
    var before := s.devices[d];
    AttemptRefines(kindOf, authenticate, c, p, k, fs, t, d, before, |s.requests|);
    AttemptWrites(kindOf, authenticate, c, p, k, fs);
    var (server, answer) := Protocol.Put(t.server, RequestOf(before, k));
    if turn == Push.GaveUp(Push.MergeRefused) {
      u := t;
      ConflictChangesNothing(t.server, RequestOf(before, k));
      NothingWritten(c, s, d, p.durable);
    } else {
      var seal :| Completes(c, q, t, AttemptSteps(d, |s.requests|, answer, seal), d);
      var steps := AttemptSteps(d, |s.requests|, answer, seal);
      u := Protocol.RunFrom(c.lattice, t, steps).value;
      RunLeads(c.lattice, t, steps, u);
      Protocol.LeadsTransitive(c.lattice, s, t, u);
      if turn.Retry? {
        var x := MiddleOfConflict(c.lattice, t, d, |s.requests|, answer, seal, u);
        Protocol.LeadsTransitive(c.lattice, s, t, x);
        TwoWritten(c, s, d, p.durable, Durable(q.vault, p.saved), x, Durable(q.vault, q.saved), u);
      } else if q.durable == p.durable {
        NothingWritten(c, s, d, p.durable);
      } else {
        OneWritten(c, s, d, p.durable, Durable(q.vault, q.saved), u);
      }
    }
  }

  lemma ConflictChangesNothing<V(!new)>(s: Protocol.Server<V>, r: Protocol.Request<V>)
    ensures Protocol.Put(s, r).1.Conflict? ==> Protocol.Put(s, r).0 == s
  {
  }

  lemma OneWritten<V(!new)>(c: Coding<V>, s: Protocol.System<V>, d: Protocol.DeviceName, durable: seq<Durable<Rows>>, last: Durable<Rows>, u: Protocol.System<V>)
    requires Protocol.Leads(c.lattice, s, u) && SeenOnDisk(c, last, u, d)
    ensures AllPass(c, s, d, durable, durable + [last])
  {
    hide Protocol.Leads, SeenOnDisk;
    assert (durable + [last])[..|durable|] == durable;
    assert Passes(c, s, d, last);
  }

  lemma TwoWritten<V(!new)>(c: Coding<V>, s: Protocol.System<V>, d: Protocol.DeviceName, durable: seq<Durable<Rows>>,
                            commit: Durable<Rows>, x: Protocol.System<V>, last: Durable<Rows>, u: Protocol.System<V>)
    requires Protocol.Leads(c.lattice, s, x) && SeenOnDisk(c, commit, x, d)
    requires Protocol.Leads(c.lattice, s, u) && SeenOnDisk(c, last, u, d)
    ensures AllPass(c, s, d, durable, durable + [commit, last])
  {
    hide Protocol.Leads, SeenOnDisk;
    var all := durable + [commit, last];
    assert all[..|durable|] == durable;
    assert Passes(c, s, d, commit) && Passes(c, s, d, last);
    forall i | |durable| <= i < |all| ensures Passes(c, s, d, all[i]) {
      assert all[i] == commit || all[i] == last;
    }
  }

  /** The others' writes from this attempt on are peers' writes over what is then there. */
  ghost predicate PeersFrom<V(!new)>(setting: Setting<Rows>, c: Coding<V>, server: Push.Server, foreign: nat -> seq<Push.Foreign>, attempt: nat)
    decreases Push.MAX_CONFLICT_RETRIES + 1 - attempt
  {
    attempt > Push.MAX_CONFLICT_RETRIES
    || (PeerWrites(setting, c, server, foreign(attempt)) && PeersFrom(setting, c, Push.InterleaveAll(server, foreign(attempt)), foreign, attempt + 1))
  }

  /** A whole push, retries and all, with peers writing before each of its requests is served, is a run of
      the protocol from what the engine was seen as to what it is then seen as; and so is the part of it
      up to any of its durable writes.  Only after a refused merge is memory seen as nothing the protocol
      has: vault and store still are. */
  lemma {:induction false} PushIsARun<V(!new)>(kindOf: KindOf, authenticate: Authenticate, c: Coding<V>, foreign: nat -> seq<Push.Foreign>,
                                               p: Push.Pushing<Rows>, k: ItemId, attempt: nat, s: Protocol.System<V>, d: Protocol.DeviceName) returns (u: Protocol.System<V>)
    requires Exact(c) && Protocol.Lawful(c.lattice) && Protocol.Inv(c.lattice, s)
    requires Seen(c, p.vault, p.state, p.saved, s, d) && Serves(c, p.server, s.server)
    requires WellKept(EngineSetting(kindOf, authenticate, c), p.server) && PeersFrom(EngineSetting(kindOf, authenticate, c), c, p.server, foreign, attempt)
    requires p.server.head + Progress.Remaining(foreign, attempt) + 1 < MAX_SEQ
    ensures var (q, error) := Push.Pushed(EngineKeeper(kindOf, authenticate, c), foreign, p, k, attempt);
            && Protocol.Leads(c.lattice, s, u) && Protocol.Inv(c.lattice, u) && Serves(c, q.server, u.server)
            && Ends(c, q, error == Some(Push.MergeRefused), u, d) && AllPass(c, s, d, p.durable, q.durable)
    decreases Push.MAX_CONFLICT_RETRIES + 1 - attempt
  {
    hide Protocol.Inv, Protocol.Leads, Exact, Serves, PeerWrites, Protocol.Lawful, WellKept, Simulates, Push.Attempted, AllPass, SeenOnDisk, Push.InterleaveAll;
    if attempt > Push.MAX_CONFLICT_RETRIES {
      u := s;
      StaysPut(c.lattice, s);
      NothingWritten(c, s, d, p.durable);
    } else {
      var setting := EngineSetting(kindOf, authenticate, c);
      var (q, turn) := Push.Attempted(EngineKeeper(kindOf, authenticate, c), p, k, foreign(attempt));
      PeersKeepWell(setting, c, p.server, foreign(attempt));
      AttemptWrites(kindOf, authenticate, c, p, k, foreign(attempt));
      u := AttemptIsARun(kindOf, authenticate, c, p, k, foreign(attempt), s, d);
      if turn.Retry? {
        var t := u;
        u := PushIsARun(kindOf, authenticate, c, foreign, q, k, attempt + 1, t, d);
        Protocol.LeadsTransitive(c.lattice, s, t, u);
        AllPassLater(c, s, t, d, p.durable, q.durable, Push.Pushed(EngineKeeper(kindOf, authenticate, c), foreign, q, k, attempt + 1).0.durable);
      }
    }
  }

  // ----- a pull ------------------------------------------------------------------------------------------------------

  /** Half way through a page: the vault has committed and the cursor has not moved. */
  lemma MiddleOfPage<V(!new)>(l: Protocol.Lattice<V>, s: Protocol.System<V>, d: Protocol.DeviceName, next: nat, seals: map<ItemId, nat>, u: Protocol.System<V>) returns (x: Protocol.System<V>)
    requires d in s.devices && Protocol.RunFrom(l, s, PageSteps(d, next, seals)) == Some(u) && d in u.devices
    ensures Protocol.Leads(l, s, x) && d in x.devices && x.devices[d].vault == u.devices[d].vault && x.devices[d].disk == s.devices[d].disk
  {
    hide Protocol.Leads, Protocol.Put, Protocol.Feed, Protocol.Absorbed, Protocol.RunFrom;
    var first: seq<Protocol.Step<V>> := [Protocol.Fetch(d, next), Protocol.MergePage(d, seals)];
    var second: seq<Protocol.Step<V>> := [Protocol.RecordPage(d), Protocol.Save(d)];
    assert PageSteps<V>(d, next, seals) == first + second;
    x := RunSplits(l, s, first, second);
    RunLeads(l, s, first, x);
    DiskStays(l, s, first, x, d);
    VaultStays(l, x, second, u, d);
  }

  /** One honest page, taken or refused. */
  lemma PageIsARun<V(!new)>(kindOf: KindOf, authenticate: Authenticate, c: Coding<V>, server: Push.Server, entries: seq<FeedChange>, page: ChangeFeed,
                            p: Pulling<Rows>, s: Protocol.System<V>, d: Protocol.DeviceName) returns (u: Protocol.System<V>)
    requires Exact(c) && Protocol.Lawful(c.lattice) && Protocol.Inv(c.lattice, s) && Serves(c, server, s.server)
    requires Lists(server, entries) && AllMerged(EngineSetting(kindOf, authenticate, c), entries) && IsHonestPage(entries, Since(p.state.cursor), page)
    requires Seen(c, p.vault, p.state, p.saved, s, d)
    ensures var (q, verdict) := TakePage(EngineSetting(kindOf, authenticate, c), p, page);
            && Protocol.Leads(c.lattice, s, u) && Protocol.Inv(c.lattice, u) && u.server == s.server
            && Seen(c, q.vault, q.state, q.saved, u, d) && AllPass(c, s, d, p.durable, q.durable)
  {
    hide Protocol.Inv, Protocol.Leads, Exact, Serves, Lists, AllMerged, HonestPage, TakePage, Protocol.RunFrom, PageSteps, Seals, Sees, Values, Protocol.Feed, Unabsorbable,
         Protocol.Lawful, AllPass;
    var setting := EngineSetting(kindOf, authenticate, c);
    var take :| 1 <= take <= |entries| + 1 && page == HonestPage(entries, Since(p.state.cursor), take);
    CursorWithinHead(c, server, s, d);
    TakeRefines(kindOf, authenticate, c, server, entries, take, s, d, p);
    PageWrites(setting, p, page);
    var (q, verdict) := TakePage(setting, p, page);
    if verdict.Stopped? {
      u := s;
      StaysPut(c.lattice, s);
      NothingWritten(c, s, d, p.durable);
    } else {
      var seals := Seals(c, p.vault, server, Protocol.Feed(s.server, Since(p.state.cursor), page.nextSeq));
      var steps := PageSteps<V>(d, page.nextSeq, seals);
      u := Protocol.RunFrom(c.lattice, s, steps).value;
      RunLeads(c.lattice, s, steps, u);
      Protocol.LeadsKeepsInv(c.lattice, s, u);
      if q.durable == p.durable + [Durable(q.vault, q.state)] {
        OneWritten(c, s, d, p.durable, Durable(q.vault, q.saved), u);
      } else {
        var x := MiddleOfPage(c.lattice, s, d, page.nextSeq, seals, u);
        TwoWritten(c, s, d, p.durable, Durable(q.vault, p.saved), x, Durable(q.vault, q.saved), u);
      }
    }
  }

  lemma CursorWithinHead<V(!new)>(c: Coding<V>, server: Push.Server, s: Protocol.System<V>, d: Protocol.DeviceName)
    requires Protocol.Inv(c.lattice, s) && Serves(c, server, s.server) && d in s.devices
    ensures s.devices[d].memory.cursor <= server.head && KeepsEnvelopes(server)
  {
    assert Protocol.DeviceInv(c.lattice, s, s.devices[d]);
  }

  /** A server that changes while it is read: before request `i` the others' writes land, and the answer,
      if there is one, is a page of the feed as it then is. */
  datatype Living = Living(servers: nat -> Push.Server, foreign: nat -> seq<Push.Foreign>, entries: nat -> seq<FeedChange>)

  ghost predicate LivingAt<V(!new)>(setting: Setting<Rows>, c: Coding<V>, remote: Remoteness, w: Living, i: nat) {
    && PeerWrites(setting, c, w.servers(i), w.foreign(i)) && w.servers(i + 1) == Push.InterleaveAll(w.servers(i), w.foreign(i))
    && Lists(w.servers(i + 1), w.entries(i)) && AllMerged(setting, w.entries(i))
    && forall cursor, n :: Fetched(remote, i, cursor, n).Ok? ==> IsHonestPage(w.entries(i), Since(cursor), Fetched(remote, i, cursor, n).value)
  }

  ghost predicate IsLiving<V(!new)>(setting: Setting<Rows>, c: Coding<V>, remote: Remoteness, w: Living) {
    forall i: nat :: LivingAt(setting, c, remote, w, i)
  }

  /** A whole pull, page after page, while peers write between its requests, is a run of the protocol from
      what the engine was seen as to what it is then seen as, however it ends; and so is the part of it up
      to any of its durable writes. */
  lemma {:induction false} PullIsARun<V(!new)>(kindOf: KindOf, authenticate: Authenticate, c: Coding<V>, remote: Remoteness, w: Living,
                                               p: Pulling<Rows>, limit: nat, s: Protocol.System<V>, d: Protocol.DeviceName) returns (u: Protocol.System<V>)
    requires Exact(c) && Protocol.Lawful(c.lattice) && Protocol.Inv(c.lattice, s) && IsLiving(EngineSetting(kindOf, authenticate, c), c, remote, w)
    requires Seen(c, p.vault, p.state, p.saved, s, d) && Serves(c, w.servers(p.requests), s.server)
    ensures var q := Pulled(EngineSetting(kindOf, authenticate, c), remote, p, limit).0;
            && Protocol.Leads(c.lattice, s, u) && Protocol.Inv(c.lattice, u) && Serves(c, w.servers(q.requests), u.server)
            && Seen(c, q.vault, q.state, q.saved, u, d) && AllPass(c, s, d, p.durable, q.durable)
    decreases MAX_PAGES_PER_SYNC - p.pages, limit
  {
    hide Protocol.Inv, Protocol.Leads, Exact, Serves, PeerWrites, Protocol.Lawful, Simulates, TakePage, Fetched, Pulled, AllPass, Lists, AllMerged, Push.InterleaveAll, IsHonestPage;
    var setting := EngineSetting(kindOf, authenticate, c);
    if p.pages >= MAX_PAGES_PER_SYNC {
      PullEnds(setting, remote, p, limit);
      u := s;
      StaysPut(c.lattice, s);
      NothingWritten(c, s, d, p.durable);
    } else {
      PullTurn(setting, remote, p, limit);
      assert LivingAt(setting, c, remote, w, p.requests);
      var asked := p.(requests := p.requests + 1);
      var t := PeersAreARun(setting, c, w.servers(p.requests), s, w.foreign(p.requests));
      StillSeen(c, p.vault, p.state, p.saved, s, t, d);
      NothingWritten(c, s, d, p.durable);
      match Fetched(remote, p.requests, p.state.cursor, limit)
      case Err(error) =>
        u := t;
        if TooBig(error) && limit > 1 {
          u := PullIsARun(kindOf, authenticate, c, remote, w, asked, limit / 2, t, d);
          Protocol.LeadsTransitive(c.lattice, s, t, u);
          AllPassLater(c, s, t, d, p.durable, p.durable, Pulled(setting, remote, asked, limit / 2).0.durable);
        }
      case Ok(feed) =>
        var (q, verdict) := TakePage(setting, asked, feed);
        PageKeepsRequests(setting, asked, feed);
        u := PageIsARun(kindOf, authenticate, c, w.servers(p.requests + 1), w.entries(p.requests), feed, asked, t, d);
        var x := u;
        Protocol.LeadsTransitive(c.lattice, s, t, x);
        AllPassLater(c, s, t, d, p.durable, p.durable, q.durable);
        if verdict.Again? {
          u := PullIsARun(kindOf, authenticate, c, remote, w, q, limit, x, d);
          Protocol.LeadsTransitive(c.lattice, s, x, u);
          AllPassLater(c, s, x, d, p.durable, q.durable, Pulled(setting, remote, q, limit).0.durable);
        }
    }
  }

  lemma StillSeen<V(!new)>(c: Coding<V>, vault: Rows, state: SyncState, saved: SyncState, s: Protocol.System<V>, t: Protocol.System<V>, d: Protocol.DeviceName)
    requires Seen(c, vault, state, saved, s, d) && Untouched(s, t)
    ensures Seen(c, vault, state, saved, t, d)
  {
  }

  // ----- what that gives the engine's own loops -----------------------------------------------------------------------

  /** An engine that has never run is a device that has just enrolled. */
  lemma FirstStart<V(!new)>(c: Coding<V>, s: Protocol.System<V>, d: Protocol.DeviceName) returns (t: Protocol.System<V>)
    requires d !in s.devices
    ensures Protocol.Leads(c.lattice, s, t) && t.server == s.server
    ensures Seen(c, map[], SyncState(None, map[]), SyncState(None, map[]), t, d)
  {
    hide Protocol.Leads;
    t := Newcomer(c.lattice, s, d);
    OneStepLeads(c.lattice, s, Protocol.Enroll(d));
  }

  /** Every row that was there still is, at no lower version, with everything it held. */
  ghost predicate ServerKeeps<V(!new)>(c: Coding<V>, before: Push.Server, after: Push.Server) {
    forall k | k in before.rows ::
      && k in after.rows && before.rows[k].version <= after.rows[k].version
      && before.rows[k].envelope.Some? && after.rows[k].envelope.Some?
      && c.lattice.leq(c.read(before.rows[k].envelope.value).value, c.read(after.rows[k].envelope.value).value)
  }

  ghost predicate VaultKeeps<V(!new)>(c: Coding<V>, before: Rows, after: Rows) {
    forall k | k in before :: k in after && c.lattice.leq(c.read(before[k]).value, c.read(after[k]).value)
  }

  lemma RunKeepsServer<V(!new)>(c: Coding<V>, s: Protocol.System<V>, t: Protocol.System<V>, before: Push.Server, after: Push.Server)
    requires Protocol.Lawful(c.lattice) && Protocol.Reachable(c.lattice, s) && Protocol.Leads(c.lattice, s, t)
    requires Serves(c, before, s.server) && Serves(c, after, t.server)
    ensures ServerKeeps(c, before, after)
  {
    hide Protocol.Leads, Protocol.Reachable, Protocol.Lawful;
    forall k | k in before.rows
      ensures && k in after.rows && before.rows[k].version <= after.rows[k].version
              && before.rows[k].envelope.Some? && after.rows[k].envelope.Some?
              && c.lattice.leq(c.read(before.rows[k].envelope.value).value, c.read(after.rows[k].envelope.value).value)
    {
      RowIsRead(c, before, s.server, k);
      Protocol.NoLostUpdate(c.lattice, s, t, k);
      RowIsRead(c, after, t.server, k);
    }
  }

  lemma RunKeepsVault<V(!new)>(c: Coding<V>, s: Protocol.System<V>, t: Protocol.System<V>, d: Protocol.DeviceName, before: Rows, after: Rows)
    requires Protocol.Lawful(c.lattice) && Protocol.Leads(c.lattice, s, t) && d in s.devices && d in t.devices
    requires s.devices[d].vault == Values(c, before) && t.devices[d].vault == Values(c, after)
    ensures VaultKeeps(c, before, after)
  {
    hide Protocol.RunFrom, Protocol.Lawful;
    var steps :| Protocol.IsRun(c.lattice, s, steps, t);
    Protocol.VaultsNeverDrop(c.lattice, s, steps, d);
    forall k | k in before ensures k in after && c.lattice.leq(c.read(before[k]).value, c.read(after[k]).value) {
      assert Values(c, before)[k] == c.read(before[k]);
      assert Protocol.Covered(c.lattice, Values(c, after), k, Values(c, before)[k]);
    }
  }

  /** No push loses an update: from any state a run of the protocol leads to, with peers writing before each
      of its requests is served and however it ends, no row of the server and no row of the vault drops
      anything, and no row goes back a version. */
  lemma PushLosesNothing<V(!new)>(kindOf: KindOf, authenticate: Authenticate, c: Coding<V>, foreign: nat -> seq<Push.Foreign>,
                                  p: Push.Pushing<Rows>, k: ItemId, s: Protocol.System<V>, d: Protocol.DeviceName)
    requires Exact(c) && Protocol.Lawful(c.lattice) && Protocol.Reachable(c.lattice, s)
    requires Seen(c, p.vault, p.state, p.saved, s, d) && Serves(c, p.server, s.server)
    requires WellKept(EngineSetting(kindOf, authenticate, c), p.server) && PeersFrom(EngineSetting(kindOf, authenticate, c), c, p.server, foreign, 0)
    requires p.server.head + Progress.Remaining(foreign, 0) + 1 < MAX_SEQ
    ensures var q := Push.Pushed(EngineKeeper(kindOf, authenticate, c), foreign, p, k, 0).0;
            ServerKeeps(c, p.server, q.server) && VaultKeeps(c, p.vault, q.vault)
  {
    hide Protocol.Inv, Protocol.Leads, Protocol.Reachable, Exact, Serves, Protocol.Lawful, WellKept, Push.Pushed, AllPass, Sees, Values, PeersFrom, Progress.Remaining;
    Protocol.ReachableInv(c.lattice, s);
    var u := PushIsARun(kindOf, authenticate, c, foreign, p, k, 0, s, d);
    var q := Push.Pushed(EngineKeeper(kindOf, authenticate, c), foreign, p, k, 0).0;
    RunKeepsServer(c, s, u, p.server, q.server);
    RunKeepsVault(c, s, u, d, p.vault, q.vault);
  }

  /** No pull drops anything from the vault, and whatever it leaves at any of its durable writes holds all
      the vault held before it. */
  lemma PullLosesNothing<V(!new)>(kindOf: KindOf, authenticate: Authenticate, c: Coding<V>, remote: Remoteness, w: Living,
                                  p: Pulling<Rows>, limit: nat, s: Protocol.System<V>, d: Protocol.DeviceName)
    requires Exact(c) && Protocol.Lawful(c.lattice) && Protocol.Reachable(c.lattice, s) && IsLiving(EngineSetting(kindOf, authenticate, c), c, remote, w)
    requires Seen(c, p.vault, p.state, p.saved, s, d) && Serves(c, w.servers(p.requests), s.server)
    ensures var q := Pulled(EngineSetting(kindOf, authenticate, c), remote, p, limit).0;
            && VaultKeeps(c, p.vault, q.vault) && ServerKeeps(c, w.servers(p.requests), w.servers(q.requests))
            && |p.durable| <= |q.durable|
            && forall i | |p.durable| <= i < |q.durable| :: VaultKeeps(c, p.vault, q.durable[i].vault)
  {
    hide Protocol.Inv, Protocol.Leads, Protocol.Reachable, Exact, Serves, Protocol.Lawful, IsLiving, Pulled, Sees, Values, VaultKeeps;
    Protocol.ReachableInv(c.lattice, s);
    var u := PullIsARun(kindOf, authenticate, c, remote, w, p, limit, s, d);
    var q := Pulled(EngineSetting(kindOf, authenticate, c), remote, p, limit).0;
    RunKeepsServer(c, s, u, w.servers(p.requests), w.servers(q.requests));
    RunKeepsVault(c, s, u, d, p.vault, q.vault);
    forall i | |p.durable| <= i < |q.durable| ensures VaultKeeps(c, p.vault, q.durable[i].vault) {
      assert Passes(c, s, d, q.durable[i]);
      var x :| Protocol.Leads(c.lattice, s, x) && SeenOnDisk(c, q.durable[i], x, d);
      RunKeepsVault(c, s, x, d, p.vault, q.durable[i].vault);
    }
  }

  /** Nothing of the engine's is pending, and it has read the feed to its head. */
  ghost predicate AtRest(vault: Rows, state: SyncState, server: Push.Server) {
    Since(state.cursor) == server.head && forall k | k in vault :: Push.Confirmed(state, k, vault[k])
  }

  lemma AtRestIsQuiescent<V(!new)>(c: Coding<V>, vault: Rows, state: SyncState, saved: SyncState, server: Push.Server, s: Protocol.System<V>, d: Protocol.DeviceName)
    requires Seen(c, vault, state, saved, s, d) && Serves(c, server, s.server) && AtRest(vault, state, server)
    ensures Protocol.Quiescent(s, d)
  {
    var v := s.devices[d];
    assert v.vault == Values(c, vault);
    forall k | k in v.vault ensures !Protocol.Pending(v, k) {
      assert Push.Confirmed(state, k, vault[k]);
      SeenRow(c, state, v.memory, k);
    }
  }

  /** An engine at rest stores, row for row, exactly the bytes the server stores. */
  lemma AtRestAgrees<V(!new)>(c: Coding<V>, vault: Rows, state: SyncState, saved: SyncState, server: Push.Server, s: Protocol.System<V>, d: Protocol.DeviceName)
    requires Exact(c) && Protocol.Lawful(c.lattice) && Protocol.Reachable(c.lattice, s)
    requires Seen(c, vault, state, saved, s, d) && Serves(c, server, s.server) && AtRest(vault, state, server)
    ensures vault.Keys == server.rows.Keys && forall k | k in vault :: server.rows[k].envelope == Some(vault[k])
  {
    hide Protocol.Reachable, Protocol.Lawful, Protocol.Quiescent, Sees, AtRest;
    AtRestIsQuiescent(c, vault, state, saved, server, s, d);
    Protocol.QuiescentAgreement(c.lattice, s, d);
    assert Values(c, vault) == Protocol.Envelopes(s.server);
    forall k ensures (k in vault <==> k in server.rows) && (k in vault ==> server.rows[k].envelope == Some(vault[k])) {
      RowIsRead(c, server, s.server, k);
      assert k in vault <==> k in Values(c, vault);
      assert k in s.server.rows <==> k in Protocol.Envelopes(s.server);
      if k in vault { assert c.read(vault[k]) == c.read(server.rows[k].envelope.value); }
    }
  }

  /** Whatever one engine's vault held at any moment is held by every engine at rest once it is at rest
      itself, whatever both and others did in between. */
  lemma EditsReachEveryEngine<V(!new)>(c: Coding<V>, s: Protocol.System<V>, t: Protocol.System<V>, author: Protocol.DeviceName, reader: Protocol.DeviceName,
                                       once: Rows, server: Push.Server, mine: Durable<Rows>, theirs: Durable<Rows>, saved: (SyncState, SyncState))
    requires Exact(c) && Protocol.Lawful(c.lattice) && Protocol.Reachable(c.lattice, s) && Protocol.Leads(c.lattice, s, t)
    requires author in s.devices && s.devices[author].vault == Values(c, once) && Serves(c, server, t.server)
    requires Seen(c, mine.vault, mine.state, saved.0, t, author) && AtRest(mine.vault, mine.state, server)
    requires Seen(c, theirs.vault, theirs.state, saved.1, t, reader) && AtRest(theirs.vault, theirs.state, server)
    ensures mine.vault == theirs.vault && VaultKeeps(c, once, theirs.vault)
  {
    hide Protocol.Leads, Protocol.Lawful, Exact, Serves, AtRest, Sees, VaultKeeps;
    Protocol.LeadsTransitive(c.lattice, Protocol.Initial<V>(), s, t);
    AtRestAgrees(c, mine.vault, mine.state, saved.0, server, t, author);
    AtRestAgrees(c, theirs.vault, theirs.state, saved.1, server, t, reader);
    RunKeepsVault(c, s, t, author, once, mine.vault);
    assert mine.vault == theirs.vault;
  }
}

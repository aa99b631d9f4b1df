/** That agreement is reachable: from any state whatsoever, one device left alone for one pull, one
    push of its queue and one more pull goes quiescent, provided its values merge with the server's. */
module SyncSettling {
  import opened Foundations
  import opened SyncProtocol

  lemma StepLeads<V(!new)>(l: Lattice<V>, s: System<V>, step: Step<V>)
    requires Enabled(l, s, step)
    ensures Leads(l, s, After(l, s, step))
  {
    hide Enabled, After;
    var t := After(l, s, step);
    assert RunFrom(l, t, []) == Some(t);
    assert [step][1..] == [];
    assert IsRun(l, s, [step], t);
  }

  // ----- one pull to the head of the feed -----------------------------------------------------------

  ghost predicate Mergeable<V(!new)>(l: Lattice<V>, s: System<V>, d: DeviceName)
    requires d in s.devices
  {
    forall k | k in s.server.rows && k in s.devices[d].vault ::
      l.join(s.devices[d].vault[k].value, s.server.rows[k].envelope.value).Some?
  }

  ghost predicate Replaced<V(!new)>(s: System<V>, t: System<V>, d: DeviceName) {
    d in s.devices && d in t.devices && t == s.(devices := s.devices[d := t.devices[d]])
  }

  ghost function NoSeals<V(!new)>(page: map<ItemId, Row<V>>): map<ItemId, nat> { map k | k in page :: 0 }

  lemma Pull<V(!new)>(l: Lattice<V>, s: System<V>, d: DeviceName) returns (t: System<V>)
    requires Lawful(l) && Inv(l, s) && d in s.devices && s.devices[d].task.Idle? && Mergeable(l, s, d)
    ensures Leads(l, s, t) && Inv(l, t) && Replaced(s, t, d)
    ensures var page := Feed(s.server, s.devices[d].memory.cursor, s.server.head);
            && (forall k | k in page :: Absorbed(l, s.devices[d].vault, k, page[k].envelope, 0).Some?)
            && t.devices[d].vault == PageMerge(l, s.devices[d].vault, page, NoSeals(page))
            && t.devices[d].memory.known == s.devices[d].memory.known + map k | k in page :: KnownRow(page[k].version, page[k].envelope)
    ensures t.devices[d].task.Idle? && t.devices[d].memory.cursor == s.server.head
  {
    hide RunFrom, Inv, Leads;
    var before := s.devices[d];
    var page := Feed(s.server, before.memory.cursor, s.server.head);
    CursorAtMostHead(l, s, d);
    var fetch := Fetch(d, s.server.head);
    var s1 := After(l, s, fetch);
    StepLeads(l, s, fetch);
    StepKeepsInv(l, s, fetch);
    var merge := MergePage(d, NoSeals(page));
    var s2 := After(l, s1, merge);
    StepLeads(l, s1, merge);
    StepKeepsInv(l, s1, merge);
    LeadsTransitive(l, s, s1, s2);
    t := After(l, s2, RecordPage(d));
    StepLeads(l, s2, RecordPage(d));
    StepKeepsInv(l, s2, RecordPage(d));
    LeadsTransitive(l, s, s2, t);
  }

  lemma CursorAtMostHead<V(!new)>(l: Lattice<V>, s: System<V>, d: DeviceName)
    requires Inv(l, s) && d in s.devices
    ensures s.devices[d].memory.cursor <= s.server.head
  {
    assert DeviceInv(l, s, s.devices[d]);
  }

  // ----- pushing the queue ------------------------------------------------------------------------

  /** The device knows the current version and envelope of every row. */
  ghost predicate Current<V(!new)>(s: System<V>, d: DeviceName) {
    && d in s.devices && s.devices[d].task.Idle?
    && forall k | k in s.server.rows ::
         k in s.devices[d].memory.known
         && s.devices[d].memory.known[k] == KnownRow(s.server.rows[k].version, s.server.rows[k].envelope)
  }

  ghost function Queue<V(!new)>(d: Device<V>): set<ItemId> { set k | k in d.vault && Pending(d, k) }

  lemma KnownRowsExist<V(!new)>(l: Lattice<V>, s: System<V>, d: DeviceName, k: ItemId)
    requires Inv(l, s) && d in s.devices && k in s.devices[d].memory.known
    ensures k in s.server.rows
  {
    assert DeviceInv(l, s, s.devices[d]);
    var row := s.devices[d].memory.known[k];
    assert Stored(s.server, k, row.version, row.fingerprint);
  }

  lemma PushOne<V(!new)>(l: Lattice<V>, s: System<V>, d: DeviceName, k: ItemId) returns (t: System<V>)
    requires Lawful(l) && Inv(l, s) && Current(s, d) && k in s.devices[d].vault && Pending(s.devices[d], k)
    ensures Leads(l, s, t) && Inv(l, t) && Current(t, d)
    ensures t.devices[d].vault == s.devices[d].vault
    ensures Queue(t.devices[d]) == Queue(s.devices[d]) - {k}
  {
    hide RunFrom, Inv, Leads;
    var before := s.devices[d];
    var request := |s.requests|;
    if k in before.memory.known { KnownRowsExist(l, s, d, k); }
    var version := VersionOf(s.server, k);
    var s1 := After(l, s, Send(d, k));
    StepLeads(l, s, Send(d, k));
    StepKeepsInv(l, s, Send(d, k));
    assert s1.requests[request] == Request(k, version, before.vault[k]);
    var s2 := After(l, s1, Serve(request));
    StepLeads(l, s1, Serve(request));
    StepKeepsInv(l, s1, Serve(request));
    LeadsTransitive(l, s, s1, s2);
    var answer := Put(s1.server, s1.requests[request]).1;
    assert answer == Applied(version + 1, s.server.head + 1);
    assert s2.answers[|s1.answers|] == (request, answer);
    t := After(l, s2, Receive(d, answer));
    StepLeads(l, s2, Receive(d, answer));
    StepKeepsInv(l, s2, Receive(d, answer));
    LeadsTransitive(l, s, s2, t);
  }

  lemma {:induction false} PushAll<V(!new)>(l: Lattice<V>, s: System<V>, d: DeviceName) returns (t: System<V>)
    requires Lawful(l) && Inv(l, s) && Current(s, d)
    ensures Leads(l, s, t) && Inv(l, t) && Current(t, d)
    ensures t.devices[d].vault == s.devices[d].vault && Queue(t.devices[d]) == {}
    decreases |Queue(s.devices[d])|
  {
    hide RunFrom, Inv, Leads;
    if Queue(s.devices[d]) == {} {
      t := s;
      LeadsReflexive(l, s);
    } else {
      var k :| k in Queue(s.devices[d]);
      var u := PushOne(l, s, d, k);
      t := PushAll(l, u, d);
      LeadsTransitive(l, s, u, t);
    }
  }

  lemma LeadsReflexive<V(!new)>(l: Lattice<V>, s: System<V>)
    ensures Leads(l, s, s)
  {
    assert IsRun(l, s, [], s);
  }

  // ----- the whole pass ----------------------------------------------------------------------------

  /** Everything the device holds is what it knows the server holds. */
  lemma SettledVault<V(!new)>(l: Lattice<V>, s: System<V>, d: DeviceName)
    requires Lawful(l) && Inv(l, s) && Current(s, d) && Queue(s.devices[d]) == {}
    ensures forall k | k in s.server.rows :: k in s.devices[d].vault && s.devices[d].vault[k] == s.server.rows[k].envelope
  {
    var device := s.devices[d];
    assert DeviceInv(l, s, device);
    forall k | k in s.server.rows ensures k in device.vault && device.vault[k] == s.server.rows[k].envelope {
      assert Covered(l, device.vault, k, device.memory.known[k].fingerprint);
      assert k !in Queue(device);
    }
  }

  /** Re-reading its own writes changes nothing a settled device holds. */
  lemma ReadBack<V(!new)>(l: Lattice<V>, s: System<V>, d: DeviceName) returns (t: System<V>)
    requires Lawful(l) && Inv(l, s) && Current(s, d) && Queue(s.devices[d]) == {}
    ensures Leads(l, s, t) && Quiescent(t, d)
  {
    hide RunFrom, Inv, Leads, Reachable;
    SettledVault(l, s, d);
    t := Pull(l, s, d);
    var (earlier, later) := (s.devices[d], t.devices[d]);
    assert later.vault == earlier.vault;
    assert later.memory.known == earlier.memory.known;
    forall k | k in later.vault ensures !Pending(later, k) {
      assert k !in Queue(earlier);
    }
  }

  /** From any reachable state, an uninterrupted pass settles a device whose values merge. */
  lemma PassSettles<V(!new)>(l: Lattice<V>, s: System<V>, d: DeviceName) returns (t: System<V>)
    requires Lawful(l) && Reachable(l, s) && d in s.devices && Mergeable(l, s, d)
    ensures Leads(l, s, t) && Quiescent(t, d)
  {
    hide RunFrom, Inv, Leads, Reachable;
    ReachableInv(l, s);
    var s1 := After(l, s, GiveUp(d));
    StepLeads(l, s, GiveUp(d));
    StepKeepsInv(l, s, GiveUp(d));
    var s2 := Pull(l, s1, d);
    LeadsTransitive(l, s, s1, s2);
    PulledIsCurrent(l, s2, d);
    var s3 := PushAll(l, s2, d);
    LeadsTransitive(l, s, s2, s3);
    t := ReadBack(l, s3, d);
    LeadsTransitive(l, s, s3, t);
  }

  lemma PulledIsCurrent<V(!new)>(l: Lattice<V>, s: System<V>, d: DeviceName)
    requires Inv(l, s) && d in s.devices && s.devices[d].task.Idle? && s.devices[d].memory.cursor == s.server.head
    ensures Current(s, d)
  {
    assert DeviceInv(l, s, s.devices[d]);
  }
}

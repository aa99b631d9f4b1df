/** The replicated set of items.  Two secrets meeting under one id are both kept: the smaller secret
    keeps the id and the other moves to an id derived from the pair.

    The set is shown to be a join-semilattice.  Its order, `Below`, says that every item of one set
    is accounted for in the other: found at its own id, or further along the chain of derived ids it
    would be moved along.  `Absorb` and `Merge` return least upper bounds in that order, for an
    arbitrary derivation of ids, so replicas agree however their histories were ordered or grouped. */
module ItemSets {
  import opened Foundations
  import opened VaultItem

  const MAX_MERGE_STEPS: nat := 64

  type Items = map<ItemId, Item>

  /** Deterministic, and allowed to fail; nothing else is assumed unless a statement says so. */
  type ForkIds = (ItemId, Secret) -> Option<ItemId>

  datatype Conflict = DivergentSecret(kept: ItemId, forked: ItemId) | DivergentPin(item: ItemId)

  datatype AbsorbError = MergeDidNotSettle | ForkFailed | MergeFailed(error: MergeError)

  predicate Keyed(m: Items) { forall k | k in m :: m[k].id == k }

  /** The secrets are compared bytewise and the smaller one keeps the id. */
  predicate LocalKeepsId(local: Secret, remote: Secret) { !LexLess(remote, local) }

  // ----- the order -------------------------------------------------------------------------------

  /** `v` is accounted for in `m` within `n` moves. */
  ghost predicate Reaches(fork: ForkIds, m: Items, v: Item, n: nat)
    decreases n
  {
    && v.id in m
    && if m[v.id].secret == v.secret then Leq(v, m[v.id])
       else
         && n > 0
         && LexLess(m[v.id].secret, v.secret)
         && fork(v.id, v.secret).Some?
         && Reaches(fork, m, v.(id := fork(v.id, v.secret).value), n - 1)
  }

  ghost predicate Holds(fork: ForkIds, m: Items, v: Item) { exists n: nat :: Reaches(fork, m, v, n) }

  ghost predicate Below(fork: ForkIds, m: Items, n: Items) { forall k | k in m :: Holds(fork, n, m[k]) }

  /** `n` accounts for every item of `m` and of `q`. */
  ghost predicate Bounds(fork: ForkIds, m: Items, q: seq<Item>, n: Items) {
    Below(fork, m, n) && forall v | v in q :: Holds(fork, n, v)
  }

  /** `r` accounts for `m` and `q`, and for no more than any other set that does. */
  ghost predicate IsJoin(fork: ForkIds, m: Items, q: seq<Item>, r: Items) {
    Keyed(r) && forall n | Keyed(n) :: Bounds(fork, m, q, n) <==> Below(fork, r, n)
  }

  lemma {:induction false} ReachesLonger(fork: ForkIds, m: Items, v: Item, n: nat, k: nat)
    requires Reaches(fork, m, v, n) && n <= k
    ensures Reaches(fork, m, v, k)
    decreases n
  {
    if m[v.id].secret != v.secret {
      ReachesLonger(fork, m, v.(id := fork(v.id, v.secret).value), n - 1, k - 1);
    }
  }

  /** One step of the chain, without counting. */
  lemma HoldsUnfolds(fork: ForkIds, m: Items, v: Item)
    ensures Holds(fork, m, v) <==>
            && v.id in m
            && if m[v.id].secret == v.secret then Leq(v, m[v.id])
               else
                 && LexLess(m[v.id].secret, v.secret)
                 && fork(v.id, v.secret).Some?
                 && Holds(fork, m, v.(id := fork(v.id, v.secret).value))
  {
    if v.id in m {
      if m[v.id].secret == v.secret {
        if Leq(v, m[v.id]) {
          assert Reaches(fork, m, v, 0);
        }
      } else if LexLess(m[v.id].secret, v.secret) && fork(v.id, v.secret).Some? {
        var w := v.(id := fork(v.id, v.secret).value);
        if Holds(fork, m, w) {
          var n: nat :| Reaches(fork, m, w, n);
          assert Reaches(fork, m, v, n + 1);
        }
        if Holds(fork, m, v) {
          var n: nat :| Reaches(fork, m, v, n);
          assert Reaches(fork, m, w, n - 1);
        }
      }
    }
  }

  lemma BelowReflexive(fork: ForkIds, m: Items)
    requires Keyed(m)
    ensures Below(fork, m, m)
  {
    forall k | k in m
      ensures Holds(fork, m, m[k])
    {
      LeqReflexive(m[k]);
      HoldsUnfolds(fork, m, m[k]);
    }
  }

  lemma BelowAntisymmetric(fork: ForkIds, m: Items, n: Items)
    requires Keyed(m) && Keyed(n) && Below(fork, m, n) && Below(fork, n, m)
    ensures m == n
  {
    forall k | k in m || k in n
      ensures k in m && k in n && m[k] == n[k]
    {
      if k in m { HoldsUnfolds(fork, n, m[k]); }
      if k in n { HoldsUnfolds(fork, m, n[k]); }
      LexTotal(m[k].secret, n[k].secret);
      HoldsUnfolds(fork, n, m[k]);
      LeqAntisymmetric(m[k], n[k]);
    }
    assert m.Keys == n.Keys;
  }

  /** What a set accounts for, every larger set accounts for. */
  lemma {:induction false} ReachesUpward(fork: ForkIds, m: Items, m': Items, v: Item, n: nat)
    requires Keyed(m) && Keyed(m') && Reaches(fork, m, v, n) && Below(fork, m, m')
    ensures Holds(fork, m', v)
    decreases n
  {
    var local := m[v.id];
    HoldsUnfolds(fork, m', v);
    HoldsUnfolds(fork, m', local);
    if local.secret == v.secret {
      HoldsSmaller(fork, m', v, local);
    } else {
      var w := v.(id := fork(v.id, v.secret).value);
      ReachesUpward(fork, m, m', w, n - 1);
      if m'[v.id].secret != local.secret {
        LexTransitive(m'[v.id].secret, local.secret, v.secret);
      }
      LexTotal(m'[v.id].secret, v.secret);
    }
  }

  lemma HoldsSmaller(fork: ForkIds, m: Items, v: Item, w: Item)
    requires Holds(fork, m, w) && Leq(v, w)
    ensures Holds(fork, m, v)
  {
    var n: nat :| Reaches(fork, m, w, n);
    ReachesSmaller(fork, m, v, w, n);
  }

  lemma {:induction false} ReachesSmaller(fork: ForkIds, m: Items, v: Item, w: Item, n: nat)
    requires Reaches(fork, m, w, n) && Leq(v, w)
    ensures Reaches(fork, m, v, n)
    decreases n
  {
    if m[w.id].secret == w.secret {
      LeqTransitive(v, w, m[w.id]);
    } else {
      var j := fork(w.id, w.secret).value;
      ReachesSmaller(fork, m, v.(id := j), w.(id := j), n - 1);
    }
  }

  lemma BelowTransitive(fork: ForkIds, a: Items, b: Items, c: Items)
    requires Keyed(a) && Keyed(b) && Keyed(c) && Below(fork, a, b) && Below(fork, b, c)
    ensures Below(fork, a, c)
  {
    forall k | k in a
      ensures Holds(fork, c, a[k])
    {
      var n: nat :| Reaches(fork, b, a[k], n);
      ReachesUpward(fork, b, c, a[k], n);
    }
  }

  // ----- one iteration of the absorb loop changes no upper bound ----------------------------------

  lemma InsertStep(fork: ForkIds, m: Items, c: Item, q: seq<Item>, n: Items)
    requires Keyed(m) && c.id !in m
    ensures Bounds(fork, m, [c] + q, n) <==> Bounds(fork, m[c.id := c], q, n)
  {
    var m' := m[c.id := c];
    if Bounds(fork, m, [c] + q, n) {
      assert c in [c] + q;
      forall v | v in q ensures Holds(fork, n, v) { assert v in [c] + q; }
    }
    if Bounds(fork, m', q, n) {
      forall k | k in m ensures Holds(fork, n, m[k]) { assert m'[k] == m[k]; }
      assert Holds(fork, n, m'[c.id]);
    }
  }

  lemma {:induction false} ReachesJoin(fork: ForkIds, n: Items, a: Item, b: Item, k: nat)
    requires MergeItem(a, b).Ok? && StonesAgree(a, b)
    ensures Reaches(fork, n, MergeItem(a, b).value, k) <==> Reaches(fork, n, a, k) && Reaches(fork, n, b, k)
    decreases k
  {
    if a.id in n {
      if n[a.id].secret == a.secret {
        MergeIsLeastUpperBound(a, b, n[a.id]);
      } else if k > 0 && LexLess(n[a.id].secret, a.secret) && fork(a.id, a.secret).Some? {
        var j := fork(a.id, a.secret).value;
        assert MergeItem(a.(id := j), b.(id := j)).value == MergeItem(a, b).value.(id := j);
        ReachesJoin(fork, n, a.(id := j), b.(id := j), k - 1);
      }
    }
  }

  lemma HoldsJoin(fork: ForkIds, n: Items, a: Item, b: Item)
    requires MergeItem(a, b).Ok? && StonesAgree(a, b)
    ensures Holds(fork, n, MergeItem(a, b).value) <==> Holds(fork, n, a) && Holds(fork, n, b)
  {
    if Holds(fork, n, a) && Holds(fork, n, b) {
      var i: nat :| Reaches(fork, n, a, i);
      var j: nat :| Reaches(fork, n, b, j);
      ReachesLonger(fork, n, a, i, i + j);
      ReachesLonger(fork, n, b, j, i + j);
      ReachesJoin(fork, n, a, b, i + j);
    }
    if Holds(fork, n, MergeItem(a, b).value) {
      var k: nat :| Reaches(fork, n, MergeItem(a, b).value, k);
      ReachesJoin(fork, n, a, b, k);
    }
  }

  /** Even with a tombstone tie, joining adds nothing a bound did not already hold. */
  lemma {:induction false} ReachesMerged(fork: ForkIds, n: Items, a: Item, b: Item, k: nat)
    requires MergeItem(a, b).Ok? && Reaches(fork, n, a, k) && Reaches(fork, n, b, k)
    ensures Reaches(fork, n, MergeItem(a, b).value, k)
    decreases k
  {
    if n[a.id].secret == a.secret {
      MergeIsBelow(a, b, n[a.id]);
    } else {
      var j := fork(a.id, a.secret).value;
      assert MergeItem(a.(id := j), b.(id := j)).value == MergeItem(a, b).value.(id := j);
      ReachesMerged(fork, n, a.(id := j), b.(id := j), k - 1);
    }
  }

  lemma HoldsMerged(fork: ForkIds, n: Items, a: Item, b: Item)
    requires MergeItem(a, b).Ok? && Holds(fork, n, a) && Holds(fork, n, b)
    ensures Holds(fork, n, MergeItem(a, b).value)
  {
    var i: nat :| Reaches(fork, n, a, i);
    var j: nat :| Reaches(fork, n, b, j);
    ReachesLonger(fork, n, a, i, i + j);
    ReachesLonger(fork, n, b, j, i + j);
    ReachesMerged(fork, n, a, b, i + j);
  }

  lemma MergeStep(fork: ForkIds, m: Items, c: Item, q: seq<Item>, n: Items)
    requires Keyed(m) && c.id in m && MergeItem(m[c.id], c).Ok?
    ensures Bounds(fork, m, [c] + q, n) ==> Bounds(fork, m[c.id := MergeItem(m[c.id], c).value], q, n)
    ensures StonesAgree(m[c.id], c) && Bounds(fork, m[c.id := MergeItem(m[c.id], c).value], q, n) ==> Bounds(fork, m, [c] + q, n)
  {
    var local := m[c.id];
    var m' := m[c.id := MergeItem(local, c).value];
    if Bounds(fork, m, [c] + q, n) {
      assert c in [c] + q;
      HoldsMerged(fork, n, local, c);
      forall v | v in q ensures Holds(fork, n, v) { assert v in [c] + q; }
    }
    if StonesAgree(local, c) && Bounds(fork, m', q, n) {
      assert Holds(fork, n, m'[c.id]);
      HoldsJoin(fork, n, local, c);
      forall k | k in m ensures Holds(fork, n, m[k]) {
        if k != c.id { assert m'[k] == m[k]; }
      }
    }
  }

  /** Moving the larger of two secrets along the chain. */
  lemma HoldsMoved(fork: ForkIds, n: Items, keeper: Item, mover: Item)
    requires keeper.id == mover.id && LexLess(keeper.secret, mover.secret) && fork(mover.id, mover.secret).Some?
    requires Holds(fork, n, keeper)
    ensures Holds(fork, n, mover) <==> Holds(fork, n, mover.(id := fork(mover.id, mover.secret).value))
  {
    HoldsUnfolds(fork, n, keeper);
    HoldsUnfolds(fork, n, mover);
    if n[keeper.id].secret != keeper.secret {
      LexTransitive(n[keeper.id].secret, keeper.secret, mover.secret);
    }
    LexTotal(n[keeper.id].secret, mover.secret);
  }

  lemma ForkStepForward(fork: ForkIds, m: Items, c: Item, keeper: Item, mover: Item, moved: Item, n: Items)
    requires Keyed(m) && c.id in m && ForkOf(fork, m, c, keeper, mover, moved)
    ensures Bounds(fork, m, [c], n) ==> Bounds(fork, m[c.id := keeper], [moved], n)
  {
    if Bounds(fork, m, [c], n) {
      assert c in [c];
      HoldsMoved(fork, n, keeper, mover);
    }
  }

  lemma ForkStepBackward(fork: ForkIds, m: Items, c: Item, keeper: Item, mover: Item, moved: Item, n: Items)
    requires Keyed(m) && c.id in m && ForkOf(fork, m, c, keeper, mover, moved)
    ensures Bounds(fork, m[c.id := keeper], [moved], n) ==> Bounds(fork, m, [c], n)
  {
    var m' := m[c.id := keeper];
    if Bounds(fork, m', [moved], n) {
      assert Holds(fork, n, m'[c.id]) && moved in [moved];
      HoldsMoved(fork, n, keeper, mover);
      forall k | k in m ensures Holds(fork, n, m[k]) {
        if k != c.id { assert m'[k] == m[k]; }
      }
    }
  }

  /** The smaller secret keeps the id; the other is re-addressed. */
  ghost predicate ForkOf(fork: ForkIds, m: Items, c: Item, keeper: Item, mover: Item, moved: Item)
    requires c.id in m
  {
    && ((keeper == m[c.id] && mover == c) || (keeper == c && mover == m[c.id]))
    && LexLess(keeper.secret, mover.secret)
    && fork(c.id, mover.secret) == Some(moved.id)
    && moved == mover.(id := moved.id)
  }

  // ----- credentials and homes -------------------------------------------------------------------

  function SecretsOf(m: Items): set<Secret> { set k | k in m :: m[k].secret }

  function SecretsIn(q: seq<Item>): set<Secret> { set v | v in q :: v.secret }

  /** A derived id only ever holds the credential it was derived for. */
  ghost predicate AtHome(fork: ForkIds, v: Item) {
    forall k, s | fork(k, s) == Some(v.id) :: s == v.secret
  }

  ghost predicate AllAtHome(fork: ForkIds, m: Items) { forall k | k in m :: AtHome(fork, m[k]) }

  /** Two credentials are never given one derived id. */
  ghost predicate CollisionFree(fork: ForkIds) {
    forall k, s, k', s' | fork(k, s).Some? && fork(k, s) == fork(k', s') :: s == s'
  }

  ghost predicate Total(fork: ForkIds) { forall k, s :: fork(k, s).Some? }

  predicate StrictlyAscending(s: seq<ItemId>) { forall i, j | 0 <= i < j < |s| :: s[i] < s[j] }

  predicate IsLeast(k: ItemId, s: set<ItemId>) { k in s && forall j | j in s :: k <= j }

  lemma {:induction false} LeastExists(s: set<ItemId>)
    requires s != {}
    ensures exists k :: IsLeast(k, s)
  {
    var x :| x in s;
    var t := s - {x};
    if t == {} {
      assert s == {x};
      assert IsLeast(x, s);
    } else {
      LeastExists(t);
      var k :| IsLeast(k, t);
      assert s == t + {x};
      assert if x < k then IsLeast(x, s) else IsLeast(k, s);
    }
  }

  function Least(s: set<ItemId>): (k: ItemId)
    requires s != {}
    ensures k in s && forall j | j in s :: k <= j
  {
    LeastExists(s);
    var k :| IsLeast(k, s);
    k
  }

  function Ascending(ids: set<ItemId>): (r: seq<ItemId>)
    ensures StrictlyAscending(r)
    ensures forall x :: x in r <==> x in ids
  {
    if ids == {} then []
    else
      var k := Least(ids);
      var rest := Ascending(ids - {k});
      assert forall i | 0 <= i < |rest| :: rest[i] in ids - {k};
      [k] + rest
  }

  /** `sort_unstable` then `dedup`. */
  function SortDedup(s: seq<ItemId>): (r: seq<ItemId>)
    ensures StrictlyAscending(r)
    ensures forall x :: x in r <==> x in s
  {
    Ascending(set x | x in s)
  }

  lemma SecretsAfterInsert(m: Items, v: Item)
    requires v.id !in m || m[v.id].secret == v.secret
    ensures SecretsOf(m[v.id := v]) == SecretsOf(m) + {v.secret}
  {
    var m' := m[v.id := v];
    forall s | s in SecretsOf(m) + {v.secret}
      ensures s in SecretsOf(m')
    {
      if s == v.secret {
        assert m'[v.id].secret == s;
      } else {
        var k :| k in m && m[k].secret == s;
        assert m'[k].secret == s;
      }
    }
  }

  lemma SecretsAfterFork(m: Items, c: Item, keeper: Item, mover: Item, moved: Item)
    requires Keyed(m) && c.id in m && moved.secret == mover.secret
    requires (keeper == m[c.id] && mover == c) || (keeper == c && mover == m[c.id])
    ensures SecretsOf(m[c.id := keeper]) + {moved.secret} == SecretsOf(m) + {c.secret}
  {
    var m' := m[c.id := keeper];
    forall s | s in SecretsOf(m) + {c.secret}
      ensures s in SecretsOf(m') + {moved.secret}
    {
      assert m'[c.id].secret == keeper.secret;
      if s in SecretsOf(m) {
        var k :| k in m && m[k].secret == s;
        if k != c.id { assert m'[k].secret == s; }
      }
    }
    forall s | s in SecretsOf(m') + {moved.secret}
      ensures s in SecretsOf(m) + {c.secret}
    {
      assert m[c.id].secret in SecretsOf(m);
      if s in SecretsOf(m') {
        var k :| k in m' && m'[k].secret == s;
        if k != c.id { assert m[k].secret == s; }
      }
    }
  }

  // ----- one iteration of the absorb loop --------------------------------------------------------

  /** What handling a candidate does to the set: the id it wrote, what it reported, and the
      credential it displaced, if any; or why it failed, and what had been reported by then. */
  datatype Handled =
    | Handled(items: Items, id: ItemId, reports: seq<Conflict>, displaced: Option<Item>)
    | Failed(error: AbsorbError, reports: seq<Conflict>)

  function PinReports(local: Item, remote: Item): seq<Conflict> {
    if PinDiffers(local, remote) then [DivergentPin(local.id)] else []
  }

  /** A divergent PIN is reported before the merge that may still be refused. */
  function Handle(fork: ForkIds, m: Items, c: Item): Handled {
    if c.id !in m then Handled(m[c.id := c], c.id, [], None)
    else if m[c.id].secret == c.secret then
      match MergeItem(m[c.id], c)
      case Err(e) => Failed(MergeFailed(e), if m[c.id].id == c.id then PinReports(m[c.id], c) else [])
      case Ok(v) => Handled(m[c.id := v], c.id, PinReports(m[c.id], c), None)
    else
      var (keeper, mover) := if LocalKeepsId(m[c.id].secret, c.secret) then (m[c.id], c) else (c, m[c.id]);
      match fork(c.id, mover.secret)
      case None => Failed(ForkFailed, [])
      case Some(j) => Handled(m[c.id := keeper], c.id, [DivergentSecret(c.id, j)], Some(mover.(id := j)))
  }

  predicate PinDiffers(a: Item, b: Item) {
    Pin in a.registers && Pin in b.registers && a.registers[Pin].value != b.registers[Pin].value
  }

  function Queued(displaced: Option<Item>): (q: seq<Item>)
    ensures |q| <= 1 && (q == [] <==> displaced.None?)
  {
    if displaced.Some? then [displaced.value] else []
  }

  lemma HandleKeepsBounds(fork: ForkIds, m: Items, c: Item, n: Items)
    requires Keyed(m) && Handle(fork, m, c).Handled?
    ensures var h := Handle(fork, m, c);
            && (Bounds(fork, m, [c], n) ==> Bounds(fork, h.items, Queued(h.displaced), n))
            && ((c.id in m ==> StonesAgree(m[c.id], c)) && Bounds(fork, h.items, Queued(h.displaced), n) ==> Bounds(fork, m, [c], n))
  {
    assert [c] + [] == [c];
    if c.id !in m {
      InsertStep(fork, m, c, [], n);
    } else if m[c.id].secret == c.secret {
      MergeStep(fork, m, c, [], n);
    } else {
      LexTotal(m[c.id].secret, c.secret);
      var (keeper, mover) := if LocalKeepsId(m[c.id].secret, c.secret) then (m[c.id], c) else (c, m[c.id]);
      var moved := Handle(fork, m, c).displaced.value;
      ForkStepForward(fork, m, c, keeper, mover, moved, n);
      ForkStepBackward(fork, m, c, keeper, mover, moved, n);
    }
  }

  lemma HandleKeepsSecrets(fork: ForkIds, m: Items, c: Item)
    requires Keyed(m) && Handle(fork, m, c).Handled?
    ensures var h := Handle(fork, m, c);
            SecretsOf(h.items) + SecretsIn(Queued(h.displaced)) == SecretsOf(m) + {c.secret}
    ensures SecretsIn([c]) == {c.secret}
  {
    var h := Handle(fork, m, c);
    if c.id !in m || m[c.id].secret == c.secret {
      SecretsAfterInsert(m, h.items[c.id]);
      assert SecretsIn([]) == {};
    } else {
      var (keeper, mover) := if LocalKeepsId(m[c.id].secret, c.secret) then (m[c.id], c) else (c, m[c.id]);
      SecretsAfterFork(m, c, keeper, mover, h.displaced.value);
      assert SecretsIn([h.displaced.value]) == {h.displaced.value.secret};
    }
  }

  lemma HandleKeepsWrites(fork: ForkIds, m: Items, c: Item, family: set<Item>)
    requires Keyed(m) && Handle(fork, m, c).Handled?
    requires WritesFrom(family, c) && forall k | k in m :: WritesFrom(family, m[k])
    ensures var h := Handle(fork, m, c);
            && (forall k | k in h.items :: WritesFrom(family, h.items[k]))
            && (h.displaced.Some? ==> WritesFrom(family, h.displaced.value))
  {
    if c.id in m && m[c.id].secret == c.secret {
      MergeKeepsWrites(family, m[c.id], c);
    }
  }

  /** With every credential at home, whatever is displaced finds its derived id free or its own. */
  lemma HandleKeepsHomes(fork: ForkIds, m: Items, c: Item)
    requires Keyed(m) && CollisionFree(fork) && AllAtHome(fork, m) && AtHome(fork, c) && Handle(fork, m, c).Handled?
    ensures var h := Handle(fork, m, c);
            && AllAtHome(fork, h.items)
            && (h.displaced.Some? ==>
                  && AtHome(fork, h.displaced.value)
                  && (h.displaced.value.id in h.items ==> h.items[h.displaced.value.id].secret == h.displaced.value.secret))
  {
    var h := Handle(fork, m, c);
    assert c.id in m ==> AtHome(fork, m[c.id]);
    if h.displaced.Some? {
      var v := h.displaced.value;
      assert fork(c.id, v.secret) == Some(v.id);
      assert AtHome(fork, v);
      if v.id in h.items {
        assert AtHome(fork, h.items[v.id]);
      }
    }
    forall k | k in h.items ensures AtHome(fork, h.items[k]) {
      if k != c.id { assert h.items[k] == m[k]; }
    }
  }

  // What the loop has established while `queue` is still to be handled, one aspect at a time.

  ghost predicate BoundsSurvive(fork: ForkIds, before: Items, x: Item, m: Items, queue: seq<Item>) {
    forall n | Keyed(n) && Bounds(fork, before, [x], n) :: Bounds(fork, m, queue, n)
  }

  ghost predicate BoundsReflect(fork: ForkIds, before: Items, x: Item, m: Items, queue: seq<Item>) {
    forall n | Keyed(n) && Bounds(fork, m, queue, n) :: Bounds(fork, before, [x], n)
  }

  ghost predicate WritesConserved(before: Items, x: Item, m: Items, queue: seq<Item>) {
    && (forall k | k in m :: WritesFrom(before.Values + {x}, m[k]))
    && (forall v | v in queue :: WritesFrom(before.Values + {x}, v))
  }

  ghost predicate Homely(fork: ForkIds, m: Items, queue: seq<Item>) {
    AllAtHome(fork, m) && forall v | v in queue :: AtHome(fork, v)
  }

  /** Whatever is queued will be inserted or merged, not forked again. */
  ghost predicate LastRound(m: Items, queue: seq<Item>) {
    forall v | v in queue && v.id in m :: m[v.id].secret == v.secret
  }

  lemma NothingHandledYet(fork: ForkIds, m: Items, x: Item)
    ensures WritesConserved(m, x, m, [x]) && Recorded(m, m, [])
    ensures BoundsSurvive(fork, m, x, m, [x]) && BoundsReflect(fork, m, x, m, [x])
    ensures SecretsIn([x]) == {x.secret} && SecretsIn([]) == {} && MAX_MERGE_STEPS > 2
    ensures Explained(fork, m, SecretsOf(m) + {x.secret}, [])
  {
    var family := m.Values + {x};
    assert x in family;
    forall k | k in m ensures WritesFrom(family, m[k]) { assert m[k] in family; }
  }

  lemma SurvivesHandling(fork: ForkIds, before: Items, x: Item, m: Items, c: Item)
    requires Keyed(m) && BoundsSurvive(fork, before, x, m, [c]) && Handle(fork, m, c).Handled?
    ensures var h := Handle(fork, m, c); BoundsSurvive(fork, before, x, h.items, Queued(h.displaced))
  {
    var h := Handle(fork, m, c);
    forall n | Keyed(n) && Bounds(fork, before, [x], n)
      ensures Bounds(fork, h.items, Queued(h.displaced), n)
    {
      HandleKeepsBounds(fork, m, c, n);
    }
  }

  lemma ReflectsHandling(fork: ForkIds, before: Items, x: Item, m: Items, c: Item)
    requires Keyed(m) && BoundsReflect(fork, before, x, m, [c]) && Handle(fork, m, c).Handled?
    requires c.id in m ==> StonesAgree(m[c.id], c)
    ensures var h := Handle(fork, m, c); BoundsReflect(fork, before, x, h.items, Queued(h.displaced))
  {
    var h := Handle(fork, m, c);
    forall n | Keyed(n) && Bounds(fork, h.items, Queued(h.displaced), n)
      ensures Bounds(fork, before, [x], n)
    {
      HandleKeepsBounds(fork, m, c, n);
    }
  }

  lemma DisciplineMakesSafe(before: Items, x: Item, m: Items, c: Item)
    requires WritesConserved(before, x, m, [c]) && Disciplined(before.Values + {x}) && c.id in m
    ensures SameClockSameWrite(m[c.id], c)
  {
    assert c in [c];
    DisciplineReaches(before.Values + {x}, m[c.id], c);
  }

  lemma ConservedHandling(fork: ForkIds, before: Items, x: Item, m: Items, c: Item)
    requires Keyed(m) && WritesConserved(before, x, m, [c]) && Handle(fork, m, c).Handled?
    ensures var h := Handle(fork, m, c); WritesConserved(before, x, h.items, Queued(h.displaced))
  {
    assert c in [c];
    HandleKeepsWrites(fork, m, c, before.Values + {x});
  }

  lemma HomelyHandling(fork: ForkIds, m: Items, c: Item)
    requires Keyed(m) && CollisionFree(fork) && Homely(fork, m, [c]) && Handle(fork, m, c).Handled?
    ensures var h := Handle(fork, m, c);
            && Homely(fork, h.items, Queued(h.displaced)) && LastRound(h.items, Queued(h.displaced))
            && (LastRound(m, [c]) ==> h.displaced.None?)
  {
    assert c in [c];
    HandleKeepsHomes(fork, m, c);
  }

  // ----- absorbing, turn by turn -------------------------------------------------------------------

  /** Where an absorb stands: the set, the ids written and conflicts reported so far, the candidates
      handled, and the failure that ended it. */
  datatype Absorption = Absorption(items: Items, touched: seq<ItemId>, reports: seq<Conflict>, handled: nat, error: Option<AbsorbError>)

  function AbsorbFrom(fork: ForkIds, a: Absorption, queue: seq<Item>): Absorption
    decreases MAX_MERGE_STEPS - a.handled
  {
    if queue == [] then a
    else if a.handled >= MAX_MERGE_STEPS then a.(error := Some(MergeDidNotSettle))
    else
      match Handle(fork, a.items, queue[0])
      case Failed(e, reports) =>
        Absorption(a.items - {queue[0].id}, a.touched, a.reports + reports, a.handled + 1, Some(e))
      case Handled(m, id, reports, displaced) =>
        AbsorbFrom(fork, Absorption(m, a.touched + [id], a.reports + reports, a.handled + 1, None), Queued(displaced))
  }

  /** Everything absorbing one item does. */
  function Absorbing(fork: ForkIds, m: Items, x: Item): Absorption { AbsorbFrom(fork, Absorption(m, [], [], 0, None), [x]) }

  ghost predicate Orderly(fork: ForkIds, m: Items, x: Item) { CollisionFree(fork) && Homely(fork, m, [x]) }

  /** What holds between two turns. */
  ghost predicate AbsorbInv(fork: ForkIds, before: Items, x: Item, a: Absorption, queue: seq<Item>) {
    && Keyed(a.items) && |queue| <= 1 && a.handled <= MAX_MERGE_STEPS && a.error.None?
    && BoundsSurvive(fork, before, x, a.items, queue)
    && (Disciplined(before.Values + {x}) ==> BoundsReflect(fork, before, x, a.items, queue))
    && WritesConserved(before, x, a.items, queue)
    && SecretsOf(a.items) + SecretsIn(queue) == SecretsOf(before) + {x.secret}
    && Recorded(before, a.items, a.touched)
    && Explained(fork, a.items, SecretsOf(before) + {x.secret}, a.reports)
    && (Orderly(fork, before, x) ==> Homely(fork, a.items, queue) && (a.handled >= 1 ==> LastRound(a.items, queue)))
    && (Orderly(fork, before, x) && a.handled >= 2 ==> queue == [] && a.handled == 2)
  }

  lemma AbsorbStarts(fork: ForkIds, m: Items, x: Item)
    requires Keyed(m)
    ensures AbsorbInv(fork, m, x, Absorption(m, [], [], 0, None), [x])
  {
    NothingHandledYet(fork, m, x);
  }

  lemma AbsorbAdvances(fork: ForkIds, before: Items, x: Item, a: Absorption, c: Item)
    requires AbsorbInv(fork, before, x, a, [c]) && a.handled < MAX_MERGE_STEPS && Handle(fork, a.items, c).Handled?
    ensures var h := Handle(fork, a.items, c);
            AbsorbInv(fork, before, x, Absorption(h.items, a.touched + [c.id], a.reports + h.reports, a.handled + 1, None), Queued(h.displaced))
  {
    hide Handle, BoundsSurvive, BoundsReflect, WritesConserved, SecretsOf, SecretsIn, Recorded, Explained, Homely, LastRound, Disciplined,
         CollisionFree, SameClockSameWrite;
    HandleStaysKeyed(fork, a.items, c);
    if Disciplined(before.Values + {x}) {
      if c.id in a.items { DisciplineMakesSafe(before, x, a.items, c); }
      StonesOfSafe(a.items, c);
      ReflectsHandling(fork, before, x, a.items, c);
    }
    SurvivesHandling(fork, before, x, a.items, c);
    ConservedHandling(fork, before, x, a.items, c);
    if Orderly(fork, before, x) { HomelyHandling(fork, a.items, c); }
    HandleKeepsSecrets(fork, a.items, c);
    HandleExplains(fork, before, x, a.items, c, a.reports);
    HandleRecords(fork, before, a.items, c, a.touched);
    hide MAX_MERGE_STEPS;
  }

  lemma StonesOfSafe(m: Items, c: Item)
    ensures c.id in m && SameClockSameWrite(m[c.id], c) ==> StonesAgree(m[c.id], c)
  {
  }

  lemma HandleStaysKeyed(fork: ForkIds, m: Items, c: Item)
    requires Keyed(m) && Handle(fork, m, c).Handled?
    ensures Keyed(Handle(fork, m, c).items) && Handle(fork, m, c).id == c.id
  {
  }

  /** Why an absorb can fail: never for a clash of writes under the clock discipline, never for want of a
      derived id if there always is one, and never for too many turns if derived ids do not collide. */
  ghost predicate FailsOnlyFor(fork: ForkIds, before: Items, x: Item, r: Absorption) {
    && (Disciplined(before.Values + {x}) ==> !(r.error.Some? && r.error.value.MergeFailed?))
    && (Total(fork) ==> r.error != Some(ForkFailed))
    && r.handled <= MAX_MERGE_STEPS
    && (Orderly(fork, before, x) ==> r.handled <= 2 && r.error != Some(MergeDidNotSettle))
  }

  lemma {:induction false} AbsorbFromKeeps(fork: ForkIds, before: Items, x: Item, a: Absorption, queue: seq<Item>)
    requires AbsorbInv(fork, before, x, a, queue)
    ensures var r := AbsorbFrom(fork, a, queue);
            && (r.error.None? ==> AbsorbInv(fork, before, x, r, []))
            && FailsOnlyFor(fork, before, x, r)
    decreases MAX_MERGE_STEPS - a.handled
  {
    hide Handle, BoundsSurvive, BoundsReflect, WritesConserved, SecretsOf, SecretsIn, Recorded, Explained, Homely, LastRound, Disciplined,
         CollisionFree, SameClockSameWrite, Keyed, Total;
    if queue != [] && a.handled < MAX_MERGE_STEPS {
      var c := queue[0];
      assert queue == [c];
      if Handle(fork, a.items, c).Handled? {
        AbsorbAdvances(fork, before, x, a, c);
        var h := Handle(fork, a.items, c);
        HandleStaysKeyed(fork, a.items, c);
        AbsorbFromKeeps(fork, before, x, Absorption(h.items, a.touched + [c.id], a.reports + h.reports, a.handled + 1, None), Queued(h.displaced));
      } else {
        FailsOnly(fork, a.items, c);
        if Disciplined(before.Values + {x}) && c.id in a.items { DisciplineMakesSafe(before, x, a.items, c); }
      }
    }
  }

  /** What absorbing one item guarantees when it succeeds, and when it does. */
  lemma AbsorbingJoins(fork: ForkIds, m: Items, x: Item)
    requires Keyed(m)
    ensures var r := Absorbing(fork, m, x);
            && FailsOnlyFor(fork, m, x, r)
            && (r.error.None? ==>
                  && Keyed(r.items)
                  && (Disciplined(m.Values + {x}) ==> IsJoin(fork, m, [x], r.items))
                  && BoundsSurvive(fork, m, x, r.items, [])
                  && SecretsOf(r.items) == SecretsOf(m) + {x.secret}
                  && Recorded(m, r.items, r.touched)
                  && Explained(fork, r.items, SecretsOf(r.items), r.reports)
                  && WritesConserved(m, x, r.items, [])
                  && (Orderly(fork, m, x) ==> Homely(fork, r.items, [])))
  {
    hide AbsorbFrom, BoundsSurvive, BoundsReflect, WritesConserved, SecretsOf, Recorded, Explained, Homely, LastRound, Disciplined,
         CollisionFree, IsJoin, FailsOnlyFor, Orderly, Keyed;
    AbsorbStarts(fork, m, x);
    AbsorbFromKeeps(fork, m, x, Absorption(m, [], [], 0, None), [x]);
    var r := Absorbing(fork, m, x);
    NoSecretsIn();
    if r.error.None? && Disciplined(m.Values + {x}) { EmptyQueueJoins(fork, m, x, r.items); }
  }

  lemma NoSecretsIn()
    ensures SecretsIn([]) == {}
  {
  }

  // ----- when it fails ------------------------------------------------------------------------------

  /** `r` is `n` without the entry of `c`, which `n` could not take, and with which it would hold exactly the
      credentials it should. */
  ghost predicate LacksOne(fork: ForkIds, before: Items, x: Item, r: Items, n: Items, c: Item) {
    && c.id in n && r == n - {c.id} && before.Keys <= n.Keys && Handle(fork, n, c).Failed?
    && SecretsOf(n) + {c.secret} == SecretsOf(before) + {x.secret}
  }

  predicate FailedInATurn(r: Absorption) { r.error.Some? && r.error.value != MergeDidNotSettle }

  lemma {:induction false} TurnLosesOneEntry(fork: ForkIds, before: Items, x: Item, a: Absorption, queue: seq<Item>) returns (n: Items, c: Item)
    requires AbsorbInv(fork, before, x, a, queue)
    ensures FailedInATurn(AbsorbFrom(fork, a, queue)) ==> LacksOne(fork, before, x, AbsorbFrom(fork, a, queue).items, n, c)
    decreases MAX_MERGE_STEPS - a.handled
  {
    hide BoundsSurvive, BoundsReflect, WritesConserved, SecretsOf, SecretsIn, Explained, Homely, LastRound, Disciplined,
         CollisionFree, SameClockSameWrite, Keyed, MergeItem, LocalKeepsId, PinReports;
    n, c := a.items, x;
    if queue != [] && a.handled < MAX_MERGE_STEPS {
      c := queue[0];
      assert queue == [c];
      if Handle(fork, a.items, c).Handled? {
        AbsorbAdvances(fork, before, x, a, c);
        var h := Handle(fork, a.items, c);
        HandleStaysKeyed(fork, a.items, c);
        n, c := TurnLosesOneEntry(fork, before, x, Absorption(h.items, a.touched + [c.id], a.reports + h.reports, a.handled + 1, None), Queued(h.displaced));
      } else {
        OneSecretIn(c);
      }
    }
  }

  /** The turn that failed took one entry out and put nothing back: every other entry is as it was, and
      with the entry and the candidate the set held exactly the credentials it should. */
  lemma FailureLosesOneEntry(fork: ForkIds, m: Items, x: Item) returns (n: Items, c: Item)
    requires Keyed(m)
    ensures FailedInATurn(Absorbing(fork, m, x)) ==> LacksOne(fork, m, x, Absorbing(fork, m, x).items, n, c)
  {
    hide AbsorbFrom, AbsorbInv, LacksOne;
    AbsorbStarts(fork, m, x);
    n, c := TurnLosesOneEntry(fork, m, x, Absorption(m, [], [], 0, None), [x]);
  }

  lemma OneSecretIn(c: Item)
    ensures SecretsIn([c]) == {c.secret}
  {
    assert c in [c];
  }

  /** The incoming item meets its own credential, with one clock stamping two writes. */
  predicate ClashesAt(m: Items, x: Item) { x.id in m && m[x.id].secret == x.secret && Collide(m[x.id].registers, x.registers) }

  predicate Diverges(m: Items, x: Item) { x.id in m && m[x.id].secret != x.secret }

  function Keeper(m: Items, x: Item): Item
    requires x.id in m
  {
    if LocalKeepsId(m[x.id].secret, x.secret) then m[x.id] else x
  }

  function Mover(m: Items, x: Item): Item
    requires x.id in m
  {
    if LocalKeepsId(m[x.id].secret, x.secret) then x else m[x.id]
  }

  /** With collision-free ids, exactly the three ways to fail, and in each the one entry that is then
      missing: the clashing row; the row whose divergent credential has no derived id; or the derived row,
      the original one having kept the smaller secret. */
  lemma AbsorbFailsExactlyWhen(fork: ForkIds, m: Items, x: Item)
    requires Keyed(m) && Orderly(fork, m, x)
    ensures var r := Absorbing(fork, m, x);
            if ClashesAt(m, x) then r.error == Some(MergeFailed(ClockCollision)) && r.items == m - {x.id}
            else if !Diverges(m, x) then r.error.None?
            else
              match fork(x.id, Mover(m, x).secret)
              case None => r.error == Some(ForkFailed) && r.items == m - {x.id}
              case Some(j) =>
                if ClashesAt(m, Mover(m, x).(id := j))
                then r.error == Some(MergeFailed(ClockCollision)) && r.items == m[x.id := Keeper(m, x)] - {j}
                else r.error.None?
  {
    hide Collide, Joined, LocalKeepsId, AbsorbFrom, Orderly, Handle;
    var start := Absorption(m, [], [], 0, None);
    if Diverges(m, x) {
      FirstTurnForks(fork, m, x);
      if fork(x.id, Mover(m, x).secret).Some? {
        var j := fork(x.id, Mover(m, x).secret).value;
        var moved := Mover(m, x).(id := j);
        OrderlyMove(fork, m, x);
        LastTurn(fork, Absorption(m[x.id := Keeper(m, x)], [x.id], [DivergentSecret(x.id, j)], 1, None), moved);
      }
    } else {
      LastTurn(fork, start, x);
    }
  }

  function Outcome(error: Option<AbsorbError>, items: Items): Option<Items> { if error.Some? then None else Some(items) }

  /** `c` put where nothing is, or merged with its own credential. */
  function Placed(m: Items, c: Item): Option<Items> {
    if c.id !in m then Some(m[c.id := c])
    else
      match MergeItem(m[c.id], c)
      case Err(_) => None
      case Ok(v) => Some(m[c.id := v])
  }

  /** One move at most. */
  function PlacedOrMoved(fork: ForkIds, m: Items, x: Item): Option<Items> {
    if !Diverges(m, x) then Placed(m, x)
    else
      match fork(x.id, Mover(m, x).secret)
      case None => None
      case Some(j) => Placed(m[x.id := Keeper(m, x)], Mover(m, x).(id := j))
  }

  /** With collision-free ids the whole loop comes to one placing, or one move and one placing. */
  lemma AbsorbIsOneMoveAtMost(fork: ForkIds, m: Items, x: Item)
    requires Keyed(m) && Orderly(fork, m, x)
    ensures Outcome(Absorbing(fork, m, x).error, Absorbing(fork, m, x).items) == PlacedOrMoved(fork, m, x)
  {
    hide Placed, LocalKeepsId, AbsorbFrom, Orderly, Handle, ClashesAt;
    if Diverges(m, x) {
      FirstTurnForks(fork, m, x);
      if fork(x.id, Mover(m, x).secret).Some? {
        var j := fork(x.id, Mover(m, x).secret).value;
        OrderlyMove(fork, m, x);
        LastTurn(fork, Absorption(m[x.id := Keeper(m, x)], [x.id], [DivergentSecret(x.id, j)], 1, None), Mover(m, x).(id := j));
      }
    } else {
      LastTurn(fork, Absorption(m, [], [], 0, None), x);
    }
  }

  /** A candidate that meets nothing, or its own credential, is the last one handled. */
  lemma LastTurn(fork: ForkIds, a: Absorption, c: Item)
    requires Keyed(a.items) && a.handled < MAX_MERGE_STEPS && a.error.None?
    requires c.id in a.items ==> a.items[c.id].secret == c.secret
    ensures var r := AbsorbFrom(fork, a, [c]);
            && (if ClashesAt(a.items, c) then r.error == Some(MergeFailed(ClockCollision)) && r.items == a.items - {c.id}
                else r.error.None?)
            && Outcome(r.error, r.items) == Placed(a.items, c)
  {
    hide Collide, PinReports, Joined, MAX_MERGE_STEPS;
    AbsorbTurn(fork, a, [c]);
    var h := Handle(fork, a.items, c);
    if h.Handled? {
      AbsorbEnds(fork, Absorption(h.items, a.touched + [c.id], a.reports + h.reports, a.handled + 1, None), []);
    }
  }

  lemma FirstTurnForks(fork: ForkIds, m: Items, x: Item)
    requires Keyed(m) && Diverges(m, x)
    ensures !ClashesAt(m, x)
    ensures match fork(x.id, Mover(m, x).secret)
            case None => Absorbing(fork, m, x).error == Some(ForkFailed) && Absorbing(fork, m, x).items == m - {x.id}
            case Some(j) =>
              && Keyed(m[x.id := Keeper(m, x)]) && 1 < MAX_MERGE_STEPS
              && Absorbing(fork, m, x)
                 == AbsorbFrom(fork, Absorption(m[x.id := Keeper(m, x)], [x.id], [DivergentSecret(x.id, j)], 1, None), [Mover(m, x).(id := j)])
  {
    hide LocalKeepsId;
    AbsorbTurn(fork, Absorption(m, [], [], 0, None), [x]);
    assert [] + [x.id] == [x.id];
    var forked := fork(x.id, Mover(m, x).secret);
    if forked.Some? {
      var reports: seq<Conflict> := [DivergentSecret(x.id, forked.value)];
      assert [] + reports == reports;
      assert Handle(fork, m, x) == Handled(m[x.id := Keeper(m, x)], x.id, reports, Some(Mover(m, x).(id := forked.value)));
    }
  }

  // ----- what it reports ------------------------------------------------------------------------------

  ghost predicate HasPin(a: Item, pin: Bytes) { exists w: Lww :: (Pin, w) in a.registers.Items && w.value == pin }

  /** Two versions of one credential with two PINs. */
  ghost predicate TwoPins(a: Item, b: Item) { exists p, q :: HasPin(a, p) && HasPin(b, q) && p != q }

  /** What is to be reported when `c` is put where `m` has a row of its credential, or none. */
  ghost function PinConflict(m: Items, c: Item): seq<Conflict> {
    if c.id in m && TwoPins(m[c.id], c) then [DivergentPin(c.id)] else []
  }

  lemma TwoPinsDiffer(a: Item, b: Item)
    ensures TwoPins(a, b) <==> PinDiffers(a, b)
  {
    forall i: Item, w: Lww ensures (Pin, w) in i.registers.Items <==> Pin in i.registers && i.registers[Pin] == w {}
    if PinDiffers(a, b) {
      assert (Pin, a.registers[Pin]) in a.registers.Items && (Pin, b.registers[Pin]) in b.registers.Items;
      assert HasPin(a, a.registers[Pin].value) && HasPin(b, b.registers[Pin].value);
    }
  }

  lemma LastTurnReports(fork: ForkIds, a: Absorption, c: Item)
    requires Keyed(a.items) && a.handled < MAX_MERGE_STEPS && a.error.None?
    requires c.id in a.items ==> a.items[c.id].secret == c.secret
    ensures AbsorbFrom(fork, a, [c]).reports == a.reports + PinConflict(a.items, c)
  {
    hide MergeItem, MAX_MERGE_STEPS, TwoPins, PinDiffers;
    AbsorbTurn(fork, a, [c]);
    if c.id in a.items { TwoPinsDiffer(a.items[c.id], c); }
    var h := Handle(fork, a.items, c);
    if h.Handled? {
      AbsorbEnds(fork, Absorption(h.items, a.touched + [c.id], a.reports + h.reports, a.handled + 1, None), []);
    }
  }

  /** With collision-free ids, exactly what an absorb reports, whether it succeeds or fails: a divergent
      secret if the arrival met another secret, then a divergent PIN if what was placed met its own
      credential with another PIN, and nothing else. */
  lemma AbsorbReportsExactly(fork: ForkIds, m: Items, x: Item)
    requires Keyed(m) && Orderly(fork, m, x)
    ensures Absorbing(fork, m, x).reports ==
            if x.id !in m || m[x.id].secret == x.secret then PinConflict(m, x)
            else
              var larger := if LexLess(m[x.id].secret, x.secret) then x else m[x.id];
              match fork(x.id, larger.secret)
              case None => []
              case Some(j) => [DivergentSecret(x.id, j)] + PinConflict(m, larger.(id := j))
  {
    hide LexLess, AbsorbFrom, Orderly, Handle, TwoPins;
    if Diverges(m, x) {
      LexTotal(m[x.id].secret, x.secret);
      FirstTurnForks(fork, m, x);
      if fork(x.id, Mover(m, x).secret).Some? {
        var j := fork(x.id, Mover(m, x).secret).value;
        OrderlyMove(fork, m, x);
        LastTurnReports(fork, Absorption(m[x.id := Keeper(m, x)], [x.id], [DivergentSecret(x.id, j)], 1, None), Mover(m, x).(id := j));
      } else {
        ForkFailureReportsNothing(fork, m, x);
      }
    } else {
      LastTurnReports(fork, Absorption(m, [], [], 0, None), x);
    }
  }

  lemma ForkFailureReportsNothing(fork: ForkIds, m: Items, x: Item)
    requires Diverges(m, x) && fork(x.id, Mover(m, x).secret).None?
    ensures Absorbing(fork, m, x).reports == []
  {
    hide LexLess;
    AbsorbTurn(fork, Absorption(m, [], [], 0, None), [x]);
  }

  lemma LastTurnTouches(fork: ForkIds, a: Absorption, c: Item)
    requires Keyed(a.items) && a.handled < MAX_MERGE_STEPS && a.error.None?
    requires c.id in a.items ==> a.items[c.id].secret == c.secret
    ensures var r := AbsorbFrom(fork, a, [c]);
            r.touched == if r.error.None? then a.touched + [c.id] else a.touched
  {
    hide MergeItem, MAX_MERGE_STEPS, PinReports;
    AbsorbTurn(fork, a, [c]);
    var h := Handle(fork, a.items, c);
    if h.Handled? {
      AbsorbEnds(fork, Absorption(h.items, a.touched + [c.id], a.reports + h.reports, a.handled + 1, None), []);
    }
  }

  /** With collision-free ids, exactly the rows a successful absorb tells its caller to store: where the
      arrival was put, and where the larger of two secrets moved. */
  lemma AbsorbTouchesExactly(fork: ForkIds, m: Items, x: Item)
    requires Keyed(m) && Orderly(fork, m, x) && Absorbing(fork, m, x).error.None?
    ensures var r := Absorbing(fork, m, x);
            if x.id !in m || m[x.id].secret == x.secret then r.touched == [x.id]
            else
              var larger := if LexLess(m[x.id].secret, x.secret) then x else m[x.id];
              fork(x.id, larger.secret).Some? && r.touched == [x.id, fork(x.id, larger.secret).value]
  {
    hide LexLess, AbsorbFrom, Orderly, Handle;
    if Diverges(m, x) {
      LexTotal(m[x.id].secret, x.secret);
      FirstTurnForks(fork, m, x);
      if fork(x.id, Mover(m, x).secret).Some? {
        var j := fork(x.id, Mover(m, x).secret).value;
        OrderlyMove(fork, m, x);
        LastTurnTouches(fork, Absorption(m[x.id := Keeper(m, x)], [x.id], [DivergentSecret(x.id, j)], 1, None), Mover(m, x).(id := j));
      }
    } else {
      LastTurnTouches(fork, Absorption(m, [], [], 0, None), x);
    }
  }

  /** Whatever the derivation does, an absorb gives up only after all its steps. */
  lemma {:induction false} GivesUpOnlyAtTheCap(fork: ForkIds, a: Absorption, queue: seq<Item>)
    requires a.handled <= MAX_MERGE_STEPS && a.error != Some(MergeDidNotSettle)
    ensures AbsorbFrom(fork, a, queue).error == Some(MergeDidNotSettle) ==> AbsorbFrom(fork, a, queue).handled == 64
    decreases MAX_MERGE_STEPS - a.handled
  {
    hide PinReports, MergeItem;
    if queue != [] && a.handled < MAX_MERGE_STEPS {
      var h := Handle(fork, a.items, queue[0]);
      if h.Handled? {
        GivesUpOnlyAtTheCap(fork, Absorption(h.items, a.touched + [h.id], a.reports + h.reports, a.handled + 1, None), Queued(h.displaced));
      }
    }
  }

  /** What moves is not put where it came from, and meets only itself. */
  lemma OrderlyMove(fork: ForkIds, m: Items, x: Item)
    requires Keyed(m) && Orderly(fork, m, x) && Diverges(m, x) && fork(x.id, Mover(m, x).secret).Some?
    ensures var j := fork(x.id, Mover(m, x).secret).value;
            j != x.id && (j in m ==> m[j].secret == Mover(m, x).secret)
  {
    hide CollisionFree;
    var j := fork(x.id, Mover(m, x).secret).value;
    assert x in [x] && AtHome(fork, x) && AtHome(fork, m[x.id]);
    if j in m { assert AtHome(fork, m[j]); }
  }

  /** A failing absorb really does lose a row: any stored item with a register, met by another version of
      that register under the same clock. */
  lemma FailedAbsorbDropsTheRow(fork: ForkIds, m: Items, k: ItemId, f: Register, other: Bytes)
    requires Keyed(m) && k in m && f in m[k].registers && m[k].registers[f].value != other
    ensures var x := m[k].(registers := m[k].registers[f := Lww(other, m[k].registers[f].hlc)]);
            var r := Absorbing(fork, m, x);
            r.error == Some(MergeFailed(ClockCollision)) && r.items == m - {k} && k !in r.items
  {
    hide PinReports;
    var x := m[k].(registers := m[k].registers[f := Lww(other, m[k].registers[f].hlc)]);
    assert x.registers[f].hlc == m[k].registers[f].hlc;
    assert Collide(m[k].registers, x.registers);
  }

  // ----- merging a whole set -----------------------------------------------------------------------

  /** Where a merge stands. */
  datatype MergeState = MergeState(items: Items, touched: seq<ItemId>, reports: seq<Conflict>, error: Option<AbsorbError>)

  /** The items of `other` with ids in `rest`, absorbed in id order up to the first failure. */
  function MergeFrom(fork: ForkIds, a: MergeState, other: Items, rest: set<ItemId>): MergeState
    requires rest <= other.Keys
    decreases |rest|
  {
    if rest == {} then a
    else
      var k := Least(rest);
      var one := Absorbing(fork, a.items, other[k]);
      if one.error.Some? then MergeState(one.items, a.touched, a.reports + one.reports, one.error)
      else MergeFrom(fork, MergeState(one.items, a.touched + SortDedup(one.touched), a.reports + one.reports, None), other, rest - {k})
  }

  function SetMerge(fork: ForkIds, m: Items, other: Items): MergeState { MergeFrom(fork, MergeState(m, [], [], None), other, other.Keys) }

  /** `r` accounts for both sets, and for no more than any other set that does. */
  ghost predicate IsMerge(fork: ForkIds, a: Items, b: Items, r: Items) {
    Keyed(r) && forall n | Keyed(n) :: Below(fork, a, n) && Below(fork, b, n) <==> Below(fork, r, n)
  }

  ghost predicate AllFrom(family: set<Item>, m: Items) { forall k | k in m :: WritesFrom(family, m[k]) }

  lemma MergeStarts(fork: ForkIds, m: Items, other: Items)
    requires Keyed(m)
    ensures Merging(fork, m, other, other.Keys, map[], m, [])
    ensures AllFrom(m.Values + other.Values, other)
  {
    var family := m.Values + other.Values;
    forall k | k in m ensures WritesFrom(family, m[k]) { assert m[k] in family; }
    forall k | k in other ensures WritesFrom(family, other[k]) { assert other[k] in family; }
    assert SecretsOf(map[]) == {};
    assert IsMerge(fork, m, map[], m);
  }

  lemma DisciplineSpreads(family: set<Item>, m: Items, other: Items, k: ItemId)
    requires Disciplined(family) && AllFrom(family, m) && AllFrom(family, other) && k in other
    ensures Disciplined(m.Values + {other[k]})
  {
    DisciplineOfWrites(family, m.Values + {other[k]});
  }

  lemma DisciplineOfWrites(family: set<Item>, s: set<Item>)
    requires Disciplined(family) && forall v | v in s :: WritesFrom(family, v)
    ensures Disciplined(s)
  {
    forall a, b | a in s && b in s
      ensures SameClockSameWrite(a, b)
    {
      DisciplineReaches(family, a, b);
    }
  }

  lemma MembersWriteFrom(family: set<Item>, s: set<Item>)
    requires s <= family
    ensures forall v | v in s :: WritesFrom(family, v)
  {
    forall v | v in s ensures WritesFrom(family, v) { assert v in family; }
  }

  lemma WritesTrace(family: set<Item>, m: Items, other: Items, k: ItemId, m': Items)
    requires AllFrom(family, m) && AllFrom(family, other) && k in other
    requires WritesConserved(m, other[k], m', [])
    ensures AllFrom(family, m')
  {
    var x := other[k];
    forall k | k in m'
      ensures WritesFrom(family, m'[k])
    {
      WritesFromIsTransitive(family, m.Values + {x}, m'[k]);
    }
  }

  lemma WritesFromIsTransitive(s: set<Item>, t: set<Item>, v: Item)
    requires WritesFrom(t, v) && forall a | a in t :: WritesFrom(s, a)
    ensures WritesFrom(s, v)
  {
    forall f | f in v.registers
      ensures exists a | a in s :: f in a.registers && a.registers[f] == v.registers[f]
    {
      var b :| b in t && f in b.registers && b.registers[f] == v.registers[f];
      var a :| a in s && f in a.registers && a.registers[f] == b.registers[f];
    }
  }

  lemma RecordedChain(a: Items, b: Items, c: Items, s: seq<ItemId>, t: seq<ItemId>)
    requires Recorded(a, b, s) && Recorded(b, c, t)
    ensures Recorded(a, c, s + t)
  {
  }

  lemma BelowOneMore(fork: ForkIds, done: Items, x: Item, n: Items)
    requires x.id !in done
    ensures Below(fork, done[x.id := x], n) <==> Below(fork, done, n) && Holds(fork, n, x)
  {
    var more := done[x.id := x];
    if Below(fork, more, n) {
      assert Holds(fork, n, more[x.id]);
      forall j | j in done ensures Holds(fork, n, done[j]) { assert more[j] == done[j]; }
    }
  }

  lemma MergeOneMore(fork: ForkIds, before: Items, done: Items, x: Item, m: Items, m': Items)
    requires x.id !in done && IsMerge(fork, before, done, m) && IsJoin(fork, m, [x], m')
    ensures IsMerge(fork, before, done[x.id := x], m')
  {
    forall n | Keyed(n)
      ensures Below(fork, before, n) && Below(fork, done[x.id := x], n) <==> Below(fork, m', n)
    {
      BelowOneMore(fork, done, x, n);
      assert x in [x];
      assert Bounds(fork, m, [x], n) <==> Below(fork, m, n) && Holds(fork, n, x);
    }
  }

  ghost predicate Tidy(fork: ForkIds, a: Items, b: Items) {
    CollisionFree(fork) && AllAtHome(fork, a) && AllAtHome(fork, b)
  }

  /** What the merge loop has established once `done` is absorbed and `rest` is left. */
  ghost predicate Merging(fork: ForkIds, before: Items, other: Items, rest: set<ItemId>, done: Items, m: Items, touched: seq<ItemId>) {
    && Keyed(m) && rest <= other.Keys && done.Keys == other.Keys - rest
    && (forall k | k in done :: done[k] == other[k])
    && (Disciplined(before.Values + other.Values) ==> IsMerge(fork, before, done, m))
    && AllFrom(before.Values + other.Values, m)
    && SecretsOf(m) == SecretsOf(before) + SecretsOf(done)
    && Recorded(before, m, touched)
    && (Tidy(fork, before, other) ==> AllAtHome(fork, m))
  }

  lemma MergePrepares(fork: ForkIds, before: Items, other: Items, rest: set<ItemId>, done: Items, m: Items, touched: seq<ItemId>, k: ItemId)
    requires Merging(fork, before, other, rest, done, m, touched) && k in rest && Keyed(before)
    ensures k in other
    ensures Disciplined(before.Values + other.Values) ==> Disciplined(m.Values + {other[k]})
    ensures Tidy(fork, before, other) ==> CollisionFree(fork) && Homely(fork, m, [other[k]])
  {
    MergeStarts(fork, before, other);
    if Disciplined(before.Values + other.Values) { DisciplineSpreads(before.Values + other.Values, m, other, k); }
  }

  lemma MergeAdvances(fork: ForkIds, before: Items, other: Items, rest: set<ItemId>, done: Items, m: Items, touched: seq<ItemId>,
                      k: ItemId, m': Items, one: seq<ItemId>)
    requires Merging(fork, before, other, rest, done, m, touched) && k in rest && Keyed(other) && Keyed(before) && Keyed(m')
    requires Disciplined(m.Values + {other[k]}) ==> IsJoin(fork, m, [other[k]], m')
    requires SecretsOf(m') == SecretsOf(m) + {other[k].secret}
    requires Recorded(m, m', one) && WritesConserved(m, other[k], m', [])
    requires CollisionFree(fork) && Homely(fork, m, [other[k]]) ==> Homely(fork, m', [])
    ensures Merging(fork, before, other, rest - {k}, done[k := other[k]], m', touched + one)
  {
    hide Disciplined, IsMerge, IsJoin, WritesFrom, WritesConserved, SecretsOf, Recorded, CollisionFree, AtHome, AllFrom;
    MergePrepares(fork, before, other, rest, done, m, touched, k);
    MergeStarts(fork, before, other);
    WritesTrace(before.Values + other.Values, m, other, k, m');
    RecordedChain(before, m, m', touched, one);
    SecretsAfterInsert(done, other[k]);
    if Disciplined(before.Values + other.Values) { MergeOneMore(fork, before, done, other[k], m, m'); }
  }

  /** Every row that differs is listed, and only rows that exist are. */
  ghost predicate Recorded(before: Items, m: Items, touched: seq<ItemId>) {
    && before.Keys <= m.Keys
    && (forall k | k in touched :: k in m)
    && (forall k | k in m && k !in touched :: k in before && m[k] == before[k])
  }

  ghost predicate Explained(fork: ForkIds, m: Items, secrets: set<Secret>, conflicts: seq<Conflict>) {
    forall r | r in conflicts && r.DivergentSecret? ::
      r.kept in m && exists s | s in secrets :: fork(r.kept, s) == Some(r.forked)
  }

  lemma RecordedSorted(before: Items, m: Items, touched: seq<ItemId>)
    requires Recorded(before, m, touched)
    ensures Recorded(before, m, SortDedup(touched))
  {
  }

  lemma FailsOnly(fork: ForkIds, m: Items, c: Item)
    requires Keyed(m) && Handle(fork, m, c).Failed?
    ensures match Handle(fork, m, c).error
            case MergeFailed(_) => c.id in m && !SameClockSameWrite(m[c.id], c)
            case ForkFailed => !Total(fork)
            case MergeDidNotSettle => false
  {
  }

  lemma HandleRecords(fork: ForkIds, before: Items, m: Items, c: Item, touched: seq<ItemId>)
    requires Recorded(before, m, touched) && Handle(fork, m, c).Handled?
    ensures Recorded(before, Handle(fork, m, c).items, touched + [c.id])
  {
  }

  lemma HandleExplains(fork: ForkIds, before: Items, x: Item, m: Items, c: Item, conflicts: seq<Conflict>)
    requires SecretsOf(m) + SecretsIn([c]) == SecretsOf(before) + {x.secret}
    requires Explained(fork, m, SecretsOf(before) + {x.secret}, conflicts) && Handle(fork, m, c).Handled?
    ensures var h := Handle(fork, m, c);
            Explained(fork, h.items, SecretsOf(before) + {x.secret}, conflicts + h.reports)
  {
    var h := Handle(fork, m, c);
    if h.displaced.Some? {
      assert c.secret in SecretsIn([c]) && m[c.id].secret in SecretsOf(m);
      assert h.displaced.value.secret in SecretsOf(before) + {x.secret};
      assert fork(c.id, h.displaced.value.secret) == Some(h.displaced.value.id);
    }
  }

  lemma EmptyQueueJoins(fork: ForkIds, before: Items, x: Item, m: Items)
    requires Keyed(m) && BoundsSurvive(fork, before, x, m, []) && BoundsReflect(fork, before, x, m, [])
    ensures IsJoin(fork, before, [x], m)
  {
    forall n | Keyed(n)
      ensures Bounds(fork, before, [x], n) <==> Below(fork, m, n)
    {
      assert Below(fork, m, n) <==> Bounds(fork, m, [], n);
    }
  }

  lemma {:induction false} MergeFromKeeps(fork: ForkIds, before: Items, other: Items, rest: set<ItemId>, done: Items, a: MergeState)
    requires Keyed(before) && Keyed(other) && a.error.None? && Merging(fork, before, other, rest, done, a.items, a.touched)
    ensures rest <= other.Keys
    ensures var r := MergeFrom(fork, a, other, rest);
            && (r.error.None? ==> Merging(fork, before, other, {}, other, r.items, r.touched))
            && (Disciplined(before.Values + other.Values) ==> !(r.error.Some? && r.error.value.MergeFailed?))
            && (Total(fork) ==> r.error != Some(ForkFailed))
            && (Tidy(fork, before, other) ==> r.error != Some(MergeDidNotSettle))
    decreases |rest|
  {
    hide Absorbing, Disciplined, IsMerge, IsJoin, WritesFrom, WritesConserved, SecretsOf, Recorded, CollisionFree, AtHome, AllFrom, BoundsSurvive,
         Explained, Total, Homely, SortDedup, Tidy;
    if rest == {} {
      assert done == other;
    } else {
      var k := Least(rest);
      MergePrepares(fork, before, other, rest, done, a.items, a.touched, k);
      AbsorbingJoins(fork, a.items, other[k]);
      var one := Absorbing(fork, a.items, other[k]);
      if one.error.None? {
        RecordedSorted(a.items, one.items, one.touched);
        MergeAdvances(fork, before, other, rest, done, a.items, a.touched, k, one.items, SortDedup(one.touched));
        MergeFromKeeps(fork, before, other, rest - {k}, done[k := other[k]],
                       MergeState(one.items, a.touched + SortDedup(one.touched), a.reports + one.reports, None));
      }
    }
  }

  /** What merging a whole set guarantees when it succeeds, and when it does. */
  lemma SetMergeJoins(fork: ForkIds, m: Items, other: Items)
    requires Keyed(m) && Keyed(other)
    ensures var r := SetMerge(fork, m, other);
            && (r.error.None? ==>
                  && Keyed(r.items)
                  && (Disciplined(m.Values + other.Values) ==> IsMerge(fork, m, other, r.items))
                  && AllFrom(m.Values + other.Values, r.items)
                  && SecretsOf(r.items) == SecretsOf(m) + SecretsOf(other)
                  && Recorded(m, r.items, r.touched)
                  && (Tidy(fork, m, other) ==> AllAtHome(fork, r.items)))
            && (Disciplined(m.Values + other.Values) ==> !(r.error.Some? && r.error.value.MergeFailed?))
            && (Total(fork) ==> r.error != Some(ForkFailed))
            && (Tidy(fork, m, other) ==> r.error != Some(MergeDidNotSettle))
  {
    hide MergeFrom, Disciplined, IsMerge, SecretsOf, Recorded, AllFrom, Total, Tidy, AllAtHome;
    MergeStarts(fork, m, other);
    MergeFromKeeps(fork, m, other, other.Keys, map[], MergeState(m, [], [], None));
  }

  // ----- one turn at a time, for the two loops -------------------------------------------------------

  lemma AbsorbTurn(fork: ForkIds, a: Absorption, queue: seq<Item>)
    requires queue != [] && a.handled < MAX_MERGE_STEPS
    ensures AbsorbFrom(fork, a, queue) ==
            match Handle(fork, a.items, queue[0])
            case Failed(e, reports) =>
              Absorption(a.items - {queue[0].id}, a.touched, a.reports + reports, a.handled + 1, Some(e))
            case Handled(m, id, reports, displaced) =>
              AbsorbFrom(fork, Absorption(m, a.touched + [queue[0].id], a.reports + reports, a.handled + 1, None), Queued(displaced))
  {
    hide MergeItem, PinReports;
  }

  lemma AbsorbEnds(fork: ForkIds, a: Absorption, queue: seq<Item>)
    requires queue == [] || a.handled >= MAX_MERGE_STEPS
    ensures AbsorbFrom(fork, a, queue) == if queue == [] then a else a.(error := Some(MergeDidNotSettle))
  {
  }

  lemma MergeTurn(fork: ForkIds, a: MergeState, other: Items, rest: set<ItemId>)
    requires rest != {} && rest <= other.Keys
    ensures var k := Least(rest);
            var one := Absorbing(fork, a.items, other[k]);
            k in other && rest - {k} <= other.Keys
            && MergeFrom(fork, a, other, rest) ==
               if one.error.Some? then MergeState(one.items, a.touched, a.reports + one.reports, one.error)
               else MergeFrom(fork, MergeState(one.items, a.touched + SortDedup(one.touched), a.reports + one.reports, None), other, rest - {k})
  {
  }

  lemma MergeDone(fork: ForkIds, a: MergeState, other: Items)
    ensures MergeFrom(fork, a, other, {}) == a
  {
  }

  lemma AbsorbingContract(fork: ForkIds, m: Items, x: Item)
    requires Keyed(m)
    ensures Absorbing(fork, m, x) == AbsorbFrom(fork, Absorption(m, [], [], 0, None), [x]) && MAX_MERGE_STEPS > 0
    ensures var r := Absorbing(fork, m, x);
            && r.handled <= MAX_MERGE_STEPS
            && (Disciplined(m.Values + {x}) ==> !(r.error.Some? && r.error.value.MergeFailed?))
            && (Total(fork) ==> r.error != Some(ForkFailed))
            && (CollisionFree(fork) && Homely(fork, m, [x]) ==> r.handled <= 2 && r.error != Some(MergeDidNotSettle))
            && (r.error.None? ==>
                  && Keyed(r.items)
                  && (Disciplined(m.Values + {x}) ==> IsJoin(fork, m, [x], r.items))
                  && BoundsSurvive(fork, m, x, r.items, [])
                  && SecretsOf(r.items) == SecretsOf(m) + {x.secret}
                  && StrictlyAscending(SortDedup(r.touched)) && Recorded(m, r.items, SortDedup(r.touched))
                  && Explained(fork, r.items, SecretsOf(r.items), r.reports)
                  && WritesConserved(m, x, r.items, [])
                  && (CollisionFree(fork) && Homely(fork, m, [x]) ==> Homely(fork, r.items, [])))
  {
    hide AbsorbFrom, BoundsSurvive, WritesConserved, SecretsOf, Recorded, Explained, Homely, Disciplined, CollisionFree, IsJoin, Keyed, Total;
    AbsorbingJoins(fork, m, x);
    var r := Absorbing(fork, m, x);
    if r.error.None? { RecordedSorted(m, r.items, r.touched); }
  }

  lemma SetMergeContract(fork: ForkIds, m: Items, other: Items)
    requires Keyed(m) && Keyed(other)
    ensures SetMerge(fork, m, other) == MergeFrom(fork, MergeState(m, [], [], None), other, other.Keys)
    ensures var r := SetMerge(fork, m, other);
            && (r.error.None? ==>
                  && Keyed(r.items)
                  && (Disciplined(m.Values + other.Values) ==> IsMerge(fork, m, other, r.items))
                  && AllFrom(m.Values + other.Values, r.items)
                  && SecretsOf(r.items) == SecretsOf(m) + SecretsOf(other)
                  && StrictlyAscending(SortDedup(r.touched)) && Recorded(m, r.items, SortDedup(r.touched))
                  && (Tidy(fork, m, other) ==> AllAtHome(fork, r.items)))
            && (Disciplined(m.Values + other.Values) ==> !(r.error.Some? && r.error.value.MergeFailed?))
            && (Total(fork) ==> r.error != Some(ForkFailed))
            && (Tidy(fork, m, other) ==> r.error != Some(MergeDidNotSettle))
  {
    hide MergeFrom, Disciplined, IsMerge, SecretsOf, Recorded, AllFrom, Total, Tidy, AllAtHome, Keyed;
    SetMergeJoins(fork, m, other);
    var r := SetMerge(fork, m, other);
    if r.error.None? { RecordedSorted(m, r.items, r.touched); }
  }

  // ----- what a merge does, step by step -------------------------------------------------------------

  function After(m: Items, steps: seq<Absorption>): Items { if steps == [] then m else steps[|steps| - 1].items }

  function AllReports(steps: seq<Absorption>): seq<Conflict> { if steps == [] then [] else steps[0].reports + AllReports(steps[1..]) }

  ghost predicate Stores(steps: seq<Absorption>, k: ItemId) { exists i :: 0 <= i < |steps| && steps[i].error.None? && k in steps[i].touched }

  /** One absorb for each id in order, each from where the last one left the set, up to the first that fails. */
  ghost predicate Absorbs(fork: ForkIds, m: Items, other: Items, ids: seq<ItemId>, steps: seq<Absorption>)
    decreases |steps|
  {
    if ids == [] then steps == []
    else
      && steps != [] && ids[0] in other && steps[0] == Absorbing(fork, m, other[ids[0]])
      && if steps[0].error.Some? then |steps| == 1 else Absorbs(fork, steps[0].items, other, ids[1..], steps[1..])
  }

  lemma AbsorbsNone(fork: ForkIds, m: Items, other: Items)
    ensures Absorbs(fork, m, other, [], []) && AllReports([]) == [] && After(m, []) == m && StrictlyAscending([])
    ensures forall k :: !Stores([], k)
  {
  }

  lemma AbsorbsFailing(fork: ForkIds, m: Items, other: Items, ids: seq<ItemId>, one: Absorption)
    requires ids != [] && ids[0] in other && one == Absorbing(fork, m, other[ids[0]]) && one.error.Some?
    ensures Absorbs(fork, m, other, ids, [one]) && AllReports([one]) == one.reports && After(m, [one]) == one.items
  {
    hide Absorbing;
    assert [one][1..] == [] && one.reports + [] == one.reports;
  }

  lemma AbsorbsOn(fork: ForkIds, m: Items, other: Items, k: ItemId, one: Absorption, ids: seq<ItemId>, steps: seq<Absorption>)
    requires k in other && one == Absorbing(fork, m, other[k]) && one.error.None? && Absorbs(fork, one.items, other, ids, steps)
    ensures Absorbs(fork, m, other, [k] + ids, [one] + steps)
    ensures AllReports([one] + steps) == one.reports + AllReports(steps) && After(m, [one] + steps) == After(one.items, steps)
  {
    hide Absorbing;
    assert ([one] + steps)[1..] == steps && ([k] + ids)[1..] == ids;
  }

  lemma {:induction false} MergeFromAbsorbs(fork: ForkIds, a: MergeState, other: Items, rest: set<ItemId>) returns (ids: seq<ItemId>, steps: seq<Absorption>)
    requires rest <= other.Keys && a.error.None?
    ensures StrictlyAscending(ids) && (forall k :: k in ids <==> k in rest) && Absorbs(fork, a.items, other, ids, steps)
    ensures var r := MergeFrom(fork, a, other, rest);
            && r.items == After(a.items, steps) && r.reports == a.reports + AllReports(steps)
            && r.error == (if steps == [] then None else steps[|steps| - 1].error)
            && forall k :: k in r.touched <==> k in a.touched || Stores(steps, k)
    decreases |rest|
  {
    hide *;
    if rest == {} {
      ids, steps := [], [];
      MergeDone(fork, a, other);
      AbsorbsNone(fork, a.items, other);
    } else {
      var k := Least(rest);
      var one := Absorbing(fork, a.items, other[k]);
      MergeTurn(fork, a, other, rest);
      if one.error.Some? {
        ids, steps := Ascending(rest), [one];
        LeastComesFirst(rest);
        AbsorbsFailing(fork, a.items, other, ids, one);
        FailedStoresNothing(one);
      } else {
        var next := MergeState(one.items, a.touched + SortDedup(one.touched), a.reports + one.reports, None);
        var moreIds, more := MergeFromAbsorbs(fork, next, other, rest - {k});
        AbsorbsOn(fork, a.items, other, k, one, moreIds, more);
        ids, steps := [k] + moreIds, [one] + more;
        assert forall j | j in moreIds :: k <= j && j != k;
        PrependedAscends(k, moreIds);
        forall j ensures Stores(steps, j) <==> j in one.touched || Stores(more, j) { StoresFromFront(one, more, j); }
      }
    }
  }

  lemma FailedStoresNothing(one: Absorption)
    requires one.error.Some?
    ensures forall k :: !Stores([one], k)
  {
  }

  lemma PrependedAscends(k: ItemId, ids: seq<ItemId>)
    requires StrictlyAscending(ids) && forall j | j in ids :: k < j
    ensures StrictlyAscending([k] + ids)
  {
    assert forall i | 0 <= i < |ids| :: ids[i] in ids;
  }

  lemma LeastComesFirst(s: set<ItemId>)
    requires s != {}
    ensures Ascending(s) != [] && Ascending(s)[0] == Least(s)
  {
    hide Ascending, Least;
    var ids := Ascending(s);
    var i :| 0 <= i < |ids| && ids[i] == Least(s);
    assert ids[0] in ids && Least(s) <= ids[0];
  }

  lemma StoresFromFront(one: Absorption, more: seq<Absorption>, k: ItemId)
    requires one.error.None?
    ensures Stores([one] + more, k) <==> k in one.touched || Stores(more, k)
  {
    var steps := [one] + more;
    if k in one.touched { assert steps[0] == one; }
    if i :| 0 <= i < |more| && more[i].error.None? && k in more[i].touched { assert steps[i + 1] == more[i]; }
  }

  /** A merge absorbs the other set's items in ascending order of their ids, each into what the ones before
      made of the set, and stops at the first that fails.  It reports what they reported, in order, and
      tells its caller to store what the successful ones did. */
  lemma MergeAbsorbsInOrder(fork: ForkIds, m: Items, other: Items) returns (ids: seq<ItemId>, steps: seq<Absorption>)
    ensures StrictlyAscending(ids) && (forall k :: k in ids <==> k in other) && Absorbs(fork, m, other, ids, steps)
    ensures var r := SetMerge(fork, m, other);
            && r.items == After(m, steps) && r.reports == AllReports(steps)
            && r.error == (if steps == [] then None else steps[|steps| - 1].error)
            && forall k :: k in r.touched <==> Stores(steps, k)
  {
    hide MergeFrom, Absorbs, StrictlyAscending;
    ids, steps := MergeFromAbsorbs(fork, MergeState(m, [], [], None), other, other.Keys);
    assert [] + AllReports(steps) == AllReports(steps);
  }

  // ----- the set itself --------------------------------------------------------------------------

  class ItemSet {
    var items: Items

    ghost predicate Valid()
      reads this
      ensures Valid() <==> Keyed(items)
    {
      Keyed(items)
    }

    constructor ()
      ensures Valid() && items == map[]
    {
      items := map[];
    }

    method Insert(item: Item) returns (inserted: bool)
      requires Valid()
      modifies this
      ensures Valid()
      ensures inserted <==> item.id !in old(items)
      ensures items == if inserted then old(items)[item.id := item] else old(items)
    {
      if item.id in items { return false; }
      items := items[item.id := item];
      inserted := true;
    }

    method Purge(id: ItemId) returns (removed: Option<Item>)
      requires Valid()
      modifies this
      ensures Valid()
      ensures removed == if id in old(items) then Some(old(items)[id]) else None
      ensures items == old(items) - {id}
    {
      removed := if id in items then Some(items[id]) else None;
      items := items - {id};
    }

    /** One turn of the loop: insert, merge, or let the smaller secret keep the id. */
    method HandleOne(candidate: Item, fork: ForkIds)
      returns (failure: Option<AbsorbError>, reports: seq<Conflict>, displaced: Option<Item>)
      requires Valid()
      modifies this
      ensures Valid()
      ensures match Handle(fork, old(items), candidate)
              case Failed(e, r) => failure == Some(e) && e != MergeDidNotSettle && items == old(items) - {candidate.id} && reports == r
              case Handled(m, id, r, d) => failure == None && items == m && reports == r && displaced == d
    {
      hide MergeItem, LocalKeepsId, PinDiffers, Joined;
      failure, reports, displaced := None, [], None;
      if candidate.id !in items {
        items := items[candidate.id := candidate];
        return;
      }
      // Taken out and put back: a failure in between leaves the set without the entry.
      var local := items[candidate.id];
      items := items - {candidate.id};
      if local.secret == candidate.secret {
        if PinDiffers(local, candidate) { reports := [DivergentPin(local.id)]; }
        var merged := MergeItem(local, candidate);
        if merged.Err? { return Some(MergeFailed(merged.error)), reports, None; }
        items := items[merged.value.id := merged.value];
      } else {
        var keeper, mover := local, candidate;
        if !LocalKeepsId(local.secret, candidate.secret) { keeper, mover := candidate, local; }
        var forked := fork(keeper.id, mover.secret);
        if forked.None? { return Some(ForkFailed), [], None; }
        reports := [DivergentSecret(keeper.id, forked.value)];
        items := items[keeper.id := keeper];
        displaced := Some(mover.(id := forked.value));
      }
    }

    /** Merges one incoming item, forking on a divergent secret. */
    method Absorb(incoming: Item, fork: ForkIds)
      returns (result: Result<seq<ItemId>, AbsorbError>, conflicts: seq<Conflict>, ghost handled: nat)
      requires Valid()
      modifies this
      // The whole effect, failures included: which entry is then missing is `FailureLosesOneEntry`.
      ensures var r := Absorbing(fork, old(items), incoming);
              && items == r.items && conflicts == r.reports && handled == r.handled
              && result == if r.error.Some? then Err(r.error.value) else Ok(SortDedup(r.touched))
      ensures result.Ok? ==> Valid()
      // The result is the join of the old set and the incoming item.
      ensures result.Ok? && Disciplined(old(items).Values + {incoming}) ==> IsJoin(fork, old(items), [incoming], items)
      // Without the clock discipline it is still below everything that holds both.
      ensures result.Ok? ==> BoundsSurvive(fork, old(items), incoming, items, [])
      // No credential is lost and none is invented, whatever the derivation does.
      ensures result.Ok? ==> SecretsOf(items) == SecretsOf(old(items)) + {incoming.secret}
      // Exactly which rows a caller has to persist.
      ensures result.Ok? ==> StrictlyAscending(result.value) && Recorded(old(items), items, result.value)
      // Reports name a row that kept its id and the id derived for the credential that moved.
      ensures result.Ok? ==> Explained(fork, items, SecretsOf(items), conflicts)
      // Writes are conserved as well, so the discipline survives.
      ensures result.Ok? ==> WritesConserved(old(items), incoming, items, [])
      // When it can fail.
      ensures Disciplined(old(items).Values + {incoming}) ==> !(result.Err? && result.error.MergeFailed?)
      ensures Total(fork) ==> result != Err(ForkFailed)
      ensures handled <= MAX_MERGE_STEPS
      ensures CollisionFree(fork) && Homely(fork, old(items), [incoming]) ==>
                && handled <= 2
                && result != Err(MergeDidNotSettle)
                && (result.Ok? ==> Homely(fork, items, []))
    {
      hide *;
      ghost var before := items;
      ghost var start := Absorption(items, [], [], 0, None);
      var touched: seq<ItemId> := [];
      var queue := [incoming];
      conflicts, handled := [], 0;
      AbsorbingContract(fork, items, incoming);
      var step := 0;

      while step < MAX_MERGE_STEPS && queue != []
        invariant |queue| <= 1 && step == handled <= MAX_MERGE_STEPS && Keyed(items)
        invariant AbsorbFrom(fork, Absorption(items, touched, conflicts, handled, None), queue) == AbsorbFrom(fork, start, [incoming])
        decreases MAX_MERGE_STEPS - step
      {
        var candidate := queue[0];
        AbsorbTurn(fork, Absorption(items, touched, conflicts, handled, None), queue);
        handled := handled + 1;
        step := step + 1;
        var failure, reports, displaced := HandleOne(candidate, fork);
        conflicts := conflicts + reports;
        if failure.Some? { return Err(failure.value), conflicts, handled; }
        touched := touched + [candidate.id];
        queue := Queued(displaced);
      }
      AbsorbEnds(fork, Absorption(items, touched, conflicts, handled, None), queue);
      if queue != [] { return Err(MergeDidNotSettle), conflicts, handled; }
      result := Ok(SortDedup(touched));
    }

    /** Merges every item of `other`, in id order. */
    method Merge(other: Items, fork: ForkIds)
      returns (result: Result<seq<ItemId>, AbsorbError>, conflicts: seq<Conflict>)
      requires Valid() && Keyed(other)
      modifies this
      ensures var r := SetMerge(fork, old(items), other);
              && items == r.items && conflicts == r.reports
              && result == if r.error.Some? then Err(r.error.value) else Ok(SortDedup(r.touched))
      ensures result.Ok? ==> Valid()
      ensures result.Ok? && Disciplined(old(items).Values + other.Values) ==> IsMerge(fork, old(items), other, items)
      ensures result.Ok? ==> AllFrom(old(items).Values + other.Values, items)
      ensures result.Ok? ==> SecretsOf(items) == SecretsOf(old(items)) + SecretsOf(other)
      ensures result.Ok? ==> StrictlyAscending(result.value) && Recorded(old(items), items, result.value)
      ensures Disciplined(old(items).Values + other.Values) ==> !(result.Err? && result.error.MergeFailed?)
      ensures Total(fork) ==> result != Err(ForkFailed)
      ensures Tidy(fork, old(items), other) ==> result != Err(MergeDidNotSettle) && (result.Ok? ==> AllAtHome(fork, items))
    {
      hide *;
      ghost var before := items;
      var touched: seq<ItemId> := [];
      var rest := other.Keys;
      conflicts := [];
      SetMergeContract(fork, items, other);

      while rest != {}
        invariant rest <= other.Keys && Valid()
        invariant MergeFrom(fork, MergeState(items, touched, conflicts, None), other, rest) == SetMerge(fork, before, other)
        decreases |rest|
      {
        var k := Least(rest);
        MergeTurn(fork, MergeState(items, touched, conflicts, None), other, rest);
        var one, reports, handled := Absorb(other[k], fork);
        conflicts := conflicts + reports;
        if one.Err? { return Err(one.error), conflicts; }
        touched := touched + one.value;
        rest := rest - {k};
      }
      MergeDone(fork, MergeState(items, touched, conflicts, None), other);
      result := Ok(SortDedup(touched));
    }
  }

  // ----- convergence -----------------------------------------------------------------------------

  /** How a replica came to be: absorbing single versions, and merging in other replicas, each with a
      history of its own. */
  datatype History =
    | Fresh
    | Absorbed(base: History, version: Item)
    | Merged(left: History, right: History)

  /** Every item version that went in, anywhere. */
  function Versions(h: History): set<Item> {
    match h
    case Fresh => {}
    case Absorbed(g, v) => Versions(g) + {v}
    case Merged(a, b) => Versions(a) + Versions(b)
  }

  ghost predicate Produces(fork: ForkIds, h: History, r: Items) {
    match h
    case Fresh => r == map[]
    case Absorbed(g, v) => exists m :: Produces(fork, g, m) && IsJoin(fork, m, [v], r)
    case Merged(a, b) => exists m, n :: Produces(fork, a, m) && Produces(fork, b, n) && IsMerge(fork, m, n, r)
  }

  /** Whatever the history, the result is the least set accounting for the versions that went in. */
  lemma {:induction false} HistoryIsJoin(fork: ForkIds, h: History, r: Items)
    requires Produces(fork, h, r)
    ensures Keyed(r)
    ensures forall n | Keyed(n) :: Below(fork, r, n) <==> forall v | v in Versions(h) :: Holds(fork, n, v)
    decreases h
  {
    match h
    case Fresh =>
    case Absorbed(g, v) =>
      var m :| Produces(fork, g, m) && IsJoin(fork, m, [v], r);
      HistoryIsJoin(fork, g, m);
      forall n | Keyed(n)
        ensures Below(fork, r, n) <==> forall v | v in Versions(h) :: Holds(fork, n, v)
      {
        assert v in [v];
        assert Bounds(fork, m, [v], n) <==> Below(fork, m, n) && Holds(fork, n, v);
      }
    case Merged(a, b) =>
      var m, k :| Produces(fork, a, m) && Produces(fork, b, k) && IsMerge(fork, m, k, r);
      HistoryIsJoin(fork, a, m);
      HistoryIsJoin(fork, b, k);
      forall n | Keyed(n)
        ensures Below(fork, r, n) <==> forall v | v in Versions(h) :: Holds(fork, n, v)
      {
        assert Below(fork, m, n) && Below(fork, k, n) <==> Below(fork, r, n);
      }
  }

  /** Convergence: two replicas that have seen the same versions are equal, in whatever order, in
      whatever grouping and with whatever repeats they saw them, for any derivation of ids. */
  lemma Convergence(fork: ForkIds, h1: History, h2: History, r1: Items, r2: Items)
    requires Produces(fork, h1, r1) && Produces(fork, h2, r2)
    requires Versions(h1) == Versions(h2)
    ensures r1 == r2
  {
    HistoryIsJoin(fork, h1, r1);
    HistoryIsJoin(fork, h2, r2);
    BelowReflexive(fork, r1);
    BelowReflexive(fork, r2);
    assert Below(fork, r1, r2) <==> Below(fork, r2, r2);
    assert Below(fork, r2, r1) <==> Below(fork, r1, r1);
    BelowAntisymmetric(fork, r1, r2);
  }

  /** What replaying a history comes to: the absorbs and merges of the code, up to the first failure. */
  function Replayed(fork: ForkIds, h: History): Option<Items> {
    match h
    case Fresh => Some(map[])
    case Absorbed(g, v) =>
      (match Replayed(fork, g)
       case None => None
       case Some(m) => Outcome(Absorbing(fork, m, v).error, Absorbing(fork, m, v).items))
    case Merged(a, b) =>
      (match (Replayed(fork, a), Replayed(fork, b))
       case (Some(m), Some(n)) => Outcome(SetMerge(fork, m, n).error, SetMerge(fork, m, n).items)
       case _ => None)
  }

  /** A replay by the methods themselves. */
  method Replay(fork: ForkIds, h: History) returns (s: ItemSet, ok: bool)
    ensures fresh(s)
    ensures ok <==> Replayed(fork, h).Some?
    ensures ok ==> s.Valid() && s.items == Replayed(fork, h).value
    decreases h
  {
    hide Absorbing, SetMerge;
    match h {
      case Fresh =>
        s := new ItemSet();
        ok := true;
      case Absorbed(g, v) =>
        s, ok := Replay(fork, g);
        if !ok { return; }
        var result, reports, handled := s.Absorb(v, fork);
        ok := result.Ok?;
      case Merged(a, b) =>
        s, ok := Replay(fork, a);
        if !ok { return; }
        var other;
        other, ok := Replay(fork, b);
        if !ok { return; }
        var result, reports := s.Merge(other.items, fork);
        ok := result.Ok?;
    }
  }

  /** The clock discipline of the versions reaches every set on the way, so each step of a replay that
      succeeds is a join, and the result holds no write that no version made. */
  lemma {:induction false} ReplayProduces(fork: ForkIds, h: History, family: set<Item>)
    requires Disciplined(family) && Versions(h) <= family && Replayed(fork, h).Some?
    ensures Keyed(Replayed(fork, h).value) && AllFrom(family, Replayed(fork, h).value)
    ensures Produces(fork, h, Replayed(fork, h).value)
    decreases h
  {
    hide Absorbing, SetMerge, Disciplined, WritesFrom, IsJoin, IsMerge;
    match h
    case Fresh =>
    case Absorbed(g, v) =>
      var m := Replayed(fork, g).value;
      ReplayProduces(fork, g, family);
      MembersWriteFrom(family, {v});
      DisciplineOfWrites(family, m.Values + {v});
      AbsorbingJoins(fork, m, v);
      WritesTrace(family, m, map[v.id := v], v.id, Absorbing(fork, m, v).items);
    case Merged(a, b) =>
      var (m, n) := (Replayed(fork, a).value, Replayed(fork, b).value);
      ReplayProduces(fork, a, family);
      ReplayProduces(fork, b, family);
      DisciplineOfWrites(family, m.Values + n.Values);
      SetMergeJoins(fork, m, n);
      var r := SetMerge(fork, m, n).items;
      forall k | k in r ensures WritesFrom(family, r[k]) { WritesFromIsTransitive(family, m.Values + n.Values, r[k]); }
  }

  /** So what a replay comes to is the least set accounting for the versions that went in. */
  lemma ReplayIsLeast(fork: ForkIds, h: History)
    requires Disciplined(Versions(h)) && Replayed(fork, h).Some?
    ensures var r := Replayed(fork, h).value;
            Keyed(r) && forall n | Keyed(n) :: Below(fork, r, n) <==> forall v | v in Versions(h) :: Holds(fork, n, v)
  {
    hide Replayed, Produces, Disciplined;
    ReplayProduces(fork, h, Versions(h));
    HistoryIsJoin(fork, h, Replayed(fork, h).value);
  }

  ghost predicate VersionsAtHome(fork: ForkIds, h: History) { forall v | v in Versions(h) :: AtHome(fork, v) }

  /** Under the clock discipline, and with a derivation that always answers and never answers alike for two
      credentials, no absorb and no merge of any history fails. */
  lemma {:induction false} ReplayNeverFails(fork: ForkIds, h: History, family: set<Item>)
    requires Disciplined(family) && Versions(h) <= family
    requires CollisionFree(fork) && Total(fork) && VersionsAtHome(fork, h)
    ensures Replayed(fork, h).Some? && AllAtHome(fork, Replayed(fork, h).value)
    decreases h
  {
    hide Absorbing, SetMerge, Disciplined, WritesFrom, IsJoin, IsMerge, CollisionFree, Total, AtHome;
    match h
    case Fresh =>
    case Absorbed(g, v) =>
      assert forall w | w in Versions(g) :: w in Versions(h);
      ReplayNeverFails(fork, g, family);
      ReplayProduces(fork, g, family);
      var m := Replayed(fork, g).value;
      MembersWriteFrom(family, {v});
      DisciplineOfWrites(family, m.Values + {v});
      assert v in Versions(h);
      AbsorbingJoins(fork, m, v);
    case Merged(a, b) =>
      assert forall w | w in Versions(a) || w in Versions(b) :: w in Versions(h);
      ReplayNeverFails(fork, a, family);
      ReplayNeverFails(fork, b, family);
      ReplayProduces(fork, a, family);
      ReplayProduces(fork, b, family);
      var (m, n) := (Replayed(fork, a).value, Replayed(fork, b).value);
      DisciplineOfWrites(family, m.Values + n.Values);
      SetMergeJoins(fork, m, n);
  }

  /** Two replicas that absorbed and merged the same versions in any order, grouping and repetition are
      equal if neither failed; and with collision-free ids neither does. */
  lemma ReplicasConverge(fork: ForkIds, h1: History, h2: History)
    requires Versions(h1) == Versions(h2) && Disciplined(Versions(h1))
    ensures Replayed(fork, h1).Some? && Replayed(fork, h2).Some? ==> Replayed(fork, h1) == Replayed(fork, h2)
    ensures CollisionFree(fork) && Total(fork) && VersionsAtHome(fork, h1) ==>
              Replayed(fork, h1).Some? && Replayed(fork, h1) == Replayed(fork, h2)
  {
    hide Replayed, Produces, Disciplined, CollisionFree, Total, Versions, AtHome;
    if Replayed(fork, h1).Some? && Replayed(fork, h2).Some? {
      ReplayProduces(fork, h1, Versions(h1));
      ReplayProduces(fork, h2, Versions(h1));
      Convergence(fork, h1, h2, Replayed(fork, h1).value, Replayed(fork, h2).value);
    }
    if CollisionFree(fork) && Total(fork) && VersionsAtHome(fork, h1) {
      ReplayNeverFails(fork, h1, Versions(h1));
      ReplayNeverFails(fork, h2, Versions(h1));
      ReplayProduces(fork, h1, Versions(h1));
      ReplayProduces(fork, h2, Versions(h1));
      Convergence(fork, h1, h2, Replayed(fork, h1).value, Replayed(fork, h2).value);
    }
  }

  function SetMerged(fork: ForkIds, a: Items, b: Items): Option<Items> { Outcome(SetMerge(fork, a, b).error, SetMerge(fork, a, b).items) }

  lemma SetMergedJoins(fork: ForkIds, family: set<Item>, a: Items, b: Items)
    requires Keyed(a) && Keyed(b) && Disciplined(family) && AllFrom(family, a) && AllFrom(family, b)
    ensures SetMerged(fork, a, b).Some? ==>
              var r := SetMerged(fork, a, b).value;
              Keyed(r) && AllFrom(family, r) && IsMerge(fork, a, b, r)
    ensures Tidy(fork, a, b) && Total(fork) ==> SetMerged(fork, a, b).Some? && AllAtHome(fork, SetMerged(fork, a, b).value)
  {
    hide SetMerge, Disciplined, WritesFrom, IsMerge, Tidy, Total, AtHome;
    DisciplineOfWrites(family, a.Values + b.Values);
    SetMergeJoins(fork, a, b);
    var r := SetMerge(fork, a, b);
    if r.error.None? {
      forall k | k in r.items ensures WritesFrom(family, r.items[k]) { WritesFromIsTransitive(family, a.Values + b.Values, r.items[k]); }
    }
  }

  /** The laws for what the code computes: under the clock discipline, merging sets in either order, in
      either grouping, or with itself. */
  lemma SetMergeLaws(fork: ForkIds, a: Items, b: Items, c: Items)
    requires Keyed(a) && Keyed(b) && Keyed(c) && Disciplined(a.Values + b.Values + c.Values)
    ensures SetMerged(fork, a, b).Some? && SetMerged(fork, b, a).Some? ==> SetMerged(fork, a, b) == SetMerged(fork, b, a)
    ensures SetMerged(fork, a, b).Some? && SetMerged(fork, b, c).Some? ==>
              var (l, r) := (SetMerged(fork, SetMerged(fork, a, b).value, c), SetMerged(fork, a, SetMerged(fork, b, c).value));
              l.Some? && r.Some? ==> l == r
    ensures SetMerged(fork, a, a).Some? ==> SetMerged(fork, a, a).value == a
    ensures CollisionFree(fork) && Total(fork) && AllAtHome(fork, a) && AllAtHome(fork, b) && AllAtHome(fork, c) ==>
              && SetMerged(fork, a, a).Some? && SetMerged(fork, a, b).Some? && SetMerged(fork, b, a).Some? && SetMerged(fork, b, c).Some?
              && SetMerged(fork, SetMerged(fork, a, b).value, c).Some? && SetMerged(fork, a, SetMerged(fork, b, c).value).Some?
  {
    hide SetMerged, Disciplined, Below, Total, CollisionFree;
    var family := a.Values + b.Values + c.Values;
    MembersWriteFrom(family, family);
    hide WritesFrom, AtHome;
    SetMergedJoins(fork, family, a, b);
    SetMergedJoins(fork, family, b, a);
    SetMergedJoins(fork, family, a, a);
    SetMergedJoins(fork, family, b, c);
    if SetMerged(fork, a, b).Some? && SetMerged(fork, b, a).Some? { SameBoundsSameSet(fork, SetMerged(fork, a, b).value, SetMerged(fork, b, a).value); }
    if SetMerged(fork, a, a).Some? { SameBoundsSameSet(fork, SetMerged(fork, a, a).value, a); }
    if SetMerged(fork, a, b).Some? && SetMerged(fork, b, c).Some? {
      var (ab, bc) := (SetMerged(fork, a, b).value, SetMerged(fork, b, c).value);
      SetMergedJoins(fork, family, ab, c);
      SetMergedJoins(fork, family, a, bc);
      var (l, r) := (SetMerged(fork, ab, c), SetMerged(fork, a, bc));
      if l.Some? && r.Some? { SameBoundsSameSet(fork, l.value, r.value); }
    }
  }

  lemma SameBoundsSameSet(fork: ForkIds, a: Items, b: Items)
    requires Keyed(a) && Keyed(b)
    requires forall n | Keyed(n) :: Below(fork, a, n) <==> Below(fork, b, n)
    ensures a == b
  {
    BelowReflexive(fork, a);
    BelowReflexive(fork, b);
    BelowAntisymmetric(fork, a, b);
  }
}

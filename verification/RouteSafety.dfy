/** What every reachable state of the route-lease protocol guarantees. */
module RouteSafety {
  import opened Domain
  import opened Text
  import opened Selection
  import opened RouteProtocol
  import opened RouteRuns

  lemma ReachableInv(s: State)
    requires Reachable(s)
    ensures Inv(s)
  {
    var steps :| Run(INIT, steps, s);
    assert Inv(INIT);
    RunKeepsInv(INIT, steps, s);
  }

  /** Each claim ever created is registered and open, or it was closed exactly once; never both, never
      neither, and never under two keys. */
  lemma ClaimOpenXorClosedOnce(s: State, id: nat)
    requires Reachable(s) && id < s.sh.nextClaim
    ensures ClosedCount(s.sh, id) <= 1
    ensures ClosedCount(s.sh, id) == 0 <==> exists k :: k in s.sh.claims && s.sh.claims[k] == id
    ensures forall k, m | k in s.sh.claims && m in s.sh.claims && s.sh.claims[k] == s.sh.claims[m] :: k == m
  {
    ReachableInv(s);
    if id in s.sh.claims.Values {
      var k :| k in s.sh.claims && s.sh.claims[k] == id;
    }
  }

  /** Accept and Finish of a lease never touch a claim that is not the lease's own. */
  lemma StaleLeaseHarmless(s: State, step: Step, k: string)
    requires Reachable(s) && Enabled(s, step) && (step.AcceptRelease? || step.FinishRelease?)
    requires k in s.sh.claims && s.held[step.j].lease.claim != Some(s.sh.claims[k])
    ensures var s' := Next(s, step); var id := s.sh.claims[k];
      k in s'.sh.claims && s'.sh.claims[k] == id && ClosedCount(s'.sh, id) == 0
  {
    ReachableInv(s);
  }

  ghost predicate Quiet(s: State) {
    forall j | 0 <= j < |s.held| :: s.held[j].terminal && s.held[j].phase == Free
  }

  /** When every lease has finished, no claim is registered, nothing is inflight, and every client that
      still waits can go on. */
  lemma QuietLeavesNothing(s: State)
    requires Reachable(s) && Quiet(s)
    ensures s.sh.claims == map[]
    ensures forall key: LoadKey :: LoadOf(s.sh.book.loads, key).inflight == 0
    ensures forall i | 0 <= i < |s.clients| && s.clients[i].Waiting? :: Enabled(s, Resume(i))
  {
    ReachableInv(s);
    assert forall k <- s.sh.claims :: HasPendingOwner(s.held, k, s.sh.claims[k]);
    forall key: LoadKey ensures LoadOf(s.sh.book.loads, key).inflight == 0 { NoneCounted(s.held, key); }
    forall i | 0 <= i < |s.clients| && s.clients[i].Waiting? ensures Enabled(s, Resume(i)) {
      assert ClientOk(s, s.clients[i]);
    }
  }

  lemma {:induction false} NoneCounted(held: seq<Held>, key: LoadKey)
    requires forall j | 0 <= j < |held| :: !Counted(held[j])
    ensures Count(held, key) == 0
  {
    if held != [] { NoneCounted(held[..|held| - 1], key); }
  }

  /** The steps that belong to lease j's own Accept or Finish. */
  predicate OfLease(step: Step, j: nat) {
    (step.FinishStart? || step.FinishRelease? || step.AcceptSave? || step.AcceptRelease?) && step.j == j
  }

  /** No waiter is ever stuck: as long as its claim is open, some lease can release it in at most two
      steps of its own, and then the waiter can go on. */
  lemma WaiterCanBeWoken(s: State, i: nat) returns (j: nat, steps: seq<Step>, s': State)
    requires Reachable(s) && i < |s.clients| && s.clients[i].Waiting?
    ensures |steps| <= 2 && Run(s, steps, s') && Enabled(s', Resume(i))
    ensures forall n | 0 <= n < |steps| :: OfLease(steps[n], j)
  {
    ReachableInv(s);
    var id := s.clients[i].claim;
    assert ClientOk(s, s.clients[i]);
    if ClosedCount(s.sh, id) > 0 {
      j, steps, s' := 0, [], s;
    } else {
      var k :| k in s.sh.claims && s.sh.claims[k] == id;
      assert HasPendingOwner(s.held, k, id);
      j :| 0 <= j < |s.held| && Owns(s.held[j], k, id) && Pending(s.held[j]);
      assert PhaseOk(s.held[j]) && k != "";
      steps, s' := OwnerReleases(s, j, k);
    }
  }

  lemma OwnerReleases(s: State, j: nat, k: string) returns (steps: seq<Step>, s': State)
    requires j < |s.held| && k != "" && k in s.sh.claims && Owns(s.held[j], k, s.sh.claims[k])
    requires Pending(s.held[j]) && PhaseOk(s.held[j])
    ensures |steps| <= 2 && Run(s, steps, s') && (forall n | 0 <= n < |steps| :: OfLease(steps[n], j))
    ensures s'.clients == s.clients && ClosedCount(s'.sh, s.sh.claims[k]) > 0
  {
    var h := s.held[j];
    if h.phase == Releasing || h.phase == Finishing {
      var last := if h.phase == Releasing then AcceptRelease(j) else FinishRelease(j);
      steps, s' := [last], Next(s, last);
      RunOne(s, last);
    } else {
      var first := if h.phase == Saving then AcceptSave(j, false) else FinishStart(j);
      var mid := Next(s, first);
      var last := if h.phase == Saving then AcceptRelease(j) else FinishRelease(j);
      steps, s' := [first, last], Next(mid, last);
      RunOne(mid, last);
      assert steps[1..] == [last];
    }
  }

  lemma RunOne(s: State, step: Step)
    requires Enabled(s, step)
    ensures Run(s, [step], Next(s, step))
  {
    assert [step][1..] == [] && Run(Next(s, step), [], Next(s, step));
  }

  /** The inflight counter of a key is the number of leases under it that have not given it back, and
      the sequence stamps are positive, bounded by the sequence, and pairwise different. */
  lemma InflightIsOutstanding(s: State)
    requires Reachable(s)
    ensures forall key: LoadKey :: LoadOf(s.sh.book.loads, key).inflight == Count(s.held, key)
    ensures StampsOk(s.sh.book)
  {
    ReachableInv(s);
  }

  /** The guard of Finish is never needed: the load exists and is positive, and exactly it drops by one. */
  lemma FinishGuardNeverNeeded(s: State, j: nat)
    requires Reachable(s) && Enabled(s, FinishRelease(j))
    ensures var key := s.held[j].lease.key; var s' := Next(s, FinishRelease(j));
      && key in s.sh.book.loads && s.sh.book.loads[key].inflight > 0
      && (forall k: LoadKey :: LoadOf(s'.sh.book.loads, k).inflight
            == LoadOf(s.sh.book.loads, k).inflight - (if k == key then 1 else 0))
  {
    ReachableInv(s);
    assert PhaseOk(s.held[j]);
    CountPositive(s.held, j);
  }

  /* ---------- what a follower reads ---------- */

  /** Nothing was written under `key` in log positions [from, to). */
  ghost predicate Untouched(log: seq<Entry>, key: string, from: nat, to: nat) {
    to <= |log| && forall p | from <= p < to :: log[p].key != key
  }

  lemma {:induction false} StoredIsLastWrite(log: seq<Entry>, key: string, p: nat)
    requires p < |log| && log[p].key == key && Untouched(log, key, p + 1, |log|)
    ensures Stored(log, key) == log[p].binding
  {
    if p < |log| - 1 { StoredIsLastWrite(log[..|log| - 1], key, p); }
  }

  lemma {:induction false} StoredNothing(log: seq<Entry>, key: string)
    requires Untouched(log, key, 0, |log|)
    ensures Stored(log, key) == None
  {
    if log != [] { StoredNothing(log[..|log| - 1], key); }
  }

  /** A follower that waited for a claim which was released by a successful Accept reads the binding of
      the account that was accepted, unless somebody wrote under the key after that Accept. */
  lemma FollowerSeesOwner(s: State, i: nat, j: nat)
    requires Reachable(s) && i < |s.clients| && s.clients[i].HasRead? && s.clients[i].woke.Some?
    requires var c := s.clients[i];
      && c.req.hardAccount == "" && c.req.affinityKey != "" && c.woke.value in s.acceptedAt
      && j < |s.held| && s.held[j].lease.claim == c.woke
      && c.mark <= |s.log| && Untouched(s.log, c.req.affinityKey, s.acceptedAt[c.woke.value] + 1, c.mark)
    ensures s.held[j].accepted && s.held[j].lease.affinityKey == s.clients[i].req.affinityKey
    ensures s.clients[i].binding == Some(OwnerBinding(s.held[j].lease))
  {
    ReachableInv(s);
    var c := s.clients[i];
    assert ClientOk(s, c) && ClaimOfKey(s, c.woke.value, c.req.affinityKey);
    var owner :| 0 <= owner < |s.held| && Owns(s.held[owner], c.req.affinityKey, c.woke.value);
    assert owner == j;
    assert SavedOk(s.held[j], s.log);
    var p := s.acceptedAt[c.woke.value];
    StoredIsLastWrite(s.log[..c.mark], c.req.affinityKey, p);
  }

  /** What a client has read is what the log held when it read, and nothing for a pinned or unkeyed request. */
  lemma ReadIsLogged(s: State, i: nat)
    requires Reachable(s) && i < |s.clients| && s.clients[i].HasRead?
    ensures var c := s.clients[i];
      && ReadOk(c.req, c.binding) && c.mark <= |s.log|
      && (c.req.hardAccount == "" && c.req.affinityKey != "" ==> c.binding == Stored(s.log[..c.mark], c.req.affinityKey))
  {
    ReachableInv(s);
    assert ClientOk(s, s.clients[i]);
  }

  lemma SavedIsLogged(s: State, j: nat)
    requires Reachable(s) && j < |s.held| && s.held[j].accepted && s.held[j].lease.affinityKey != ""
    ensures var h := s.held[j];
      h.savedAt < |s.log| && s.log[h.savedAt] == Entry(h.lease.affinityKey, Some(OwnerBinding(h.lease)))
  {
    ReachableInv(s);
    assert SavedOk(s.held[j], s.log);
  }

  /** When an accepted lease's binding is the only write under its key, a client finds it exactly if it
      read the store after that write; a client that read before it finds nothing. */
  lemma ReaderFindsOwnerIffLater(s: State, i: nat, j: nat)
    requires Reachable(s) && i < |s.clients| && s.clients[i].HasRead? && j < |s.held| && s.held[j].accepted
    requires var c, h := s.clients[i], s.held[j];
      && c.req.hardAccount == "" && c.req.affinityKey != "" && h.lease.affinityKey == c.req.affinityKey
      && Untouched(s.log, c.req.affinityKey, 0, if h.savedAt <= |s.log| then h.savedAt else 0)
      && Untouched(s.log, c.req.affinityKey, h.savedAt + 1, |s.log|)
    ensures s.clients[i].binding == Some(OwnerBinding(s.held[j].lease)) <==> s.clients[i].mark > s.held[j].savedAt
    ensures s.clients[i].binding == None <==> s.clients[i].mark <= s.held[j].savedAt
  {
    ReadIsLogged(s, i);
    SavedIsLogged(s, j);
    var c, h := s.clients[i], s.held[j];
    if c.mark > h.savedAt {
      StoredIsLastWrite(s.log[..c.mark], c.req.affinityKey, h.savedAt);
    } else {
      StoredNothing(s.log[..c.mark], c.req.affinityKey);
    }
  }

  /** A request without a hard account follows the binding it read whenever that account is usable. */
  lemma LockFollowsBinding(sh: Shared, c: Context, o: Orders, b: Binding)
    requires Proper(c, o) && c.req.hardAccount == "" && c.req.affinityKey != "" && b.provider == c.drv.provider
    requires var id := AccountFor(c.world, o.lookup, b); id != "" && id in c.world.accounts && Usable(c, c.world.accounts[id])
    ensures var (sh', r) := LockRegion(sh, c, o, Some(b));
      && r.Granted? && r.lease.account.id == AccountFor(c.world, o.lookup, b) && OwnerBinding(r.lease) == b
      && r.lease.claim == None && sh'.claims == sh.claims
  {
    AccountForFinds(c.world, o.lookup, b);
    SelectionSound(c, o.bound, sh.book.loads, AccountFor(c.world, o.lookup, b));
  }

  /** The account that a client's lock context finds for the owner of lease `j`, or the empty string. */
  function OwnerFound(c: Context, o: Orders, h: Held): string
    requires forall id <- o.lookup :: id in c.world.accounts
  {
    AccountFor(c.world, o.lookup, OwnerBinding(h.lease))
  }

  /** On runs: a client without a hard account that read the store after the accepted owner was saved, and before anybody
      else wrote under the key, is granted the owner's account if and only if that account is usable when the client
      takes the lock. It is then granted without a claim. */
  lemma LaterReaderGetsOwner(s: State, i: nat, j: nat, c: Context, o: Orders)
    requires Reachable(s) && Enabled(s, Lock(i, c, o)) && j < |s.held| && s.held[j].accepted
    requires var h := s.held[j];
      && c.req.hardAccount == "" && c.req.affinityKey != "" && h.lease.affinityKey == c.req.affinityKey
      && s.clients[i].mark > h.savedAt && s.clients[i].mark <= |s.log|
      && Untouched(s.log, c.req.affinityKey, h.savedAt + 1, s.clients[i].mark)
      && OwnerFound(c, o, h) != ""
    ensures var id := OwnerFound(c, o, s.held[j]); var s' := Next(s, Lock(i, c, o));
      && id in c.world.accounts
      && (|s'.held| == |s.held| + 1 && s'.held[|s.held|].lease.account.id == id <==> Usable(c, c.world.accounts[id]))
      && (Usable(c, c.world.accounts[id]) ==> s'.held[|s.held|].lease.claim == None && s'.sh.claims == s.sh.claims)
  {
    var h, b := s.held[j], OwnerBinding(s.held[j].lease);
    ReadIsLogged(s, i);
    SavedIsLogged(s, j);
    StoredIsLastWrite(s.log[..s.clients[i].mark], c.req.affinityKey, h.savedAt);
    assert s.clients[i].binding == Some(b);
    AccountForFinds(c.world, o.lookup, b);
    GrantedIsUsable(s.sh, c, o, Some(b));
    if Usable(c, c.world.accounts[OwnerFound(c, o, h)]) { LockFollowsBinding(s.sh, c, o, b); }
  }

  /** On runs: a request that must continue is granted the account it continues on, unless it is pinned to an account of
      another provider, and never creates or awaits a claim. */
  lemma ContinuityOnRuns(s: State, i: nat, c: Context, o: Orders)
    requires Reachable(s) && Enabled(s, Lock(i, c, o)) && c.req.mustContinue
    ensures var s' := Next(s, Lock(i, c, o));
      && s'.sh.claims == s.sh.claims && !s'.clients[i].Waiting?
      && (|s'.held| > |s.held| ==>
            (Continues(c.req, s.clients[i].binding, s'.held[|s.held|].lease.account) <==> !ForeignPin(c)))
  {
    ReadIsLogged(s, i);
    RequiredContinuity(s.sh, c, o, s.clients[i].binding);
  }

  /* ---------- what the protocol does not promise ---------- */

  lemma {:induction false} RunExtend(from: State, steps: seq<Step>, mid: State, step: Step)
    requires Run(from, steps, mid) && Enabled(mid, step)
    ensures Run(from, steps + [step], Next(mid, step))
    decreases |steps|
  {
    if steps == [] {
      RunOne(mid, step);
      assert [] + [step] == [step];
    } else {
      RunExtend(Next(from, steps[0]), steps[1..], mid, step);
      assert (steps + [step])[1..] == steps[1..] + [step];
    }
  }

  function SampleAccount(id: string): Account {
    Account(id, CLAUDE, id, Active, "", 0, "auto", "", "", None, None, Tokens("", "", 0), "")
  }

  const SAMPLE_REQUEST := Request([], "m", "", "", "k", false)

  /** One pool of two idle, equal accounts in two buckets, asked for an unbound route under affinity key "k". */
  const SAMPLE: Context := Context(
    Snapshot(map["a" := SampleAccount("a"), "b" := SampleAccount("b")], map[], map[]),
    Driver(CLAUDE, (a, st) => "", (st, m, t) => Assessment(true, 0, ""), (st, t) => ZERO_TIME),
    SAMPLE_REQUEST, 0, p => 0.0)

  const SAMPLE_ORDERS := Orders(["a", "b"], ["a", "b"], ["a", "b"])

  function SampleKey(id: string): LoadKey {
    LoadKey(CLAUDE, CLAUDE + ":" + id, "")
  }

  lemma SampleProper()
    ensures Proper(SAMPLE, SAMPLE_ORDERS)
    ensures forall id <- SAMPLE.world.accounts :: Usable(SAMPLE, SAMPLE.world.accounts[id])
  {
    var order := ["a", "b"];
    assert order[0] == "a" && order[1] == "b";
    assert NormalizeSurface("") == NoSurface;
  }

  /** Every account is usable, with priority zero and weight one. */
  ghost predicate Plain(c: Context) {
    && WellFormed(c.world) && c.root(0) == 0.0
    && forall id <- c.world.accounts :: var a := c.world.accounts[id];
         Usable(c, a) && Assess(c, a).priority == 0 && Assess(c, a).class_ == "" && a.provider == c.drv.provider
  }

  function KeyIn(c: Context, id: string): LoadKey
    requires id in c.world.accounts
  {
    LoadKey(c.drv.provider, BucketKey(c.world.accounts[id]), "")
  }

  lemma PlainGroup(c: Context, order: seq<string>, g: Candidate)
    requires Plain(c) && IsOrder(order, c.world.accounts) && GroupOf(c, order, g)
    ensures g.priority == 0 && g.class_ == ""
  {
    var a :| a in g.members && Assess(c, a).priority == g.priority;
    assert a.id in c.world.accounts && c.world.accounts[a.id] == a;
  }

  lemma PlainKey(c: Context, order: seq<string>, id: string)
    requires Plain(c) && IsOrder(order, c.world.accounts) && id in c.world.accounts
    ensures var k := BucketKey(c.world.accounts[id]);
      k in Groups(c, order) && Groups(c, order)[k].key == k && GroupOf(c, order, Groups(c, order)[k])
  {
    GroupsMeaning(c, order);
    assert id in order;
  }

  lemma PlainRank(c: Context, order: seq<string>, loads: Loads, id: string)
    requires Plain(c) && IsOrder(order, c.world.accounts) && id in c.world.accounts
    ensures var k := BucketKey(c.world.accounts[id]); var load := LoadOf(loads, KeyIn(c, id));
      && k in Groups(c, order)
      && RankOf(c.drv.provider, c.root, loads, Groups(c, order)[k]) == Rank((load.inflight + 1) as real, load.lastAssigned, k)
  {
    PlainKey(c, order, id);
    var g := Groups(c, order)[BucketKey(c.world.accounts[id])];
    PlainGroup(c, order, g);
    GroupRank(c, loads, g);
  }

  lemma GroupRank(c: Context, loads: Loads, g: Candidate)
    requires c.root(0) == 0.0 && g.priority == 0 && g.class_ == ""
    ensures var load := LoadOf(loads, LoadKey(c.drv.provider, g.key, ""));
      RankOf(c.drv.provider, c.root, loads, g) == Rank((load.inflight + 1) as real, load.lastAssigned, g.key)
  {
    assert Weight(c.root, 0) == 1.0;
  }

  /** Of two accounts in different buckets the one is picked whose bucket ranks first. */
  lemma PlainPick(c: Context, order: seq<string>, loads: Loads, id: string, other: string)
    requires Plain(c) && IsOrder(order, c.world.accounts) && c.world.accounts.Keys == {id, other}
    requires BucketKey(c.world.accounts[id]) != BucketKey(c.world.accounts[other])
    requires var n, m := LoadOf(loads, KeyIn(c, id)), LoadOf(loads, KeyIn(c, other));
      n.inflight < m.inflight || (n.inflight == m.inflight && n.lastAssigned == m.lastAssigned
        && !Less(BucketKey(c.world.accounts[other]), BucketKey(c.world.accounts[id])))
    ensures PickUnbound(c, order, loads) == Pick(c.world.accounts[id], KeyIn(c, id))
  {
    PlainRank(c, order, loads, id);
    PlainRank(c, order, loads, other);
    UnboundSelection(c, order, loads);
    var p := PickUnbound(c, order, loads);
    assert Usable(c, c.world.accounts[id]);
    if p.account.id == other { SelectedBucketLeads(c, order, loads, id); }
  }

  lemma SamplePlain()
    ensures Plain(SAMPLE) && Proper(SAMPLE, SAMPLE_ORDERS) && SAMPLE.world.accounts.Keys == {"a", "b"}
    ensures forall id <- SAMPLE.world.accounts :: SAMPLE.world.accounts[id] == SampleAccount(id) && KeyIn(SAMPLE, id) == SampleKey(id)
  {
    SampleProper();
    forall id | id in SAMPLE.world.accounts
      ensures SAMPLE.world.accounts[id] == SampleAccount(id) && BucketKey(SampleAccount(id)) == CLAUDE + ":" + id
    {
      assert id == "a" || id == "b";
    }
  }

  lemma SamplePick(loads: Loads, id: string, other: string)
    requires id in SAMPLE.world.accounts && other in SAMPLE.world.accounts && id != other
    requires var n, m := LoadOf(loads, SampleKey(id)), LoadOf(loads, SampleKey(other));
      n.inflight < m.inflight || (n.inflight == m.inflight && n.lastAssigned == m.lastAssigned && id == "a")
    ensures Proper(SAMPLE, SAMPLE_ORDERS)
    ensures PickUnbound(SAMPLE, SAMPLE_ORDERS.unbound, loads) == Pick(SampleAccount(id), SampleKey(id))
  {
    SamplePlain();
    SampleOrder();
    PickInPlain(SAMPLE, SAMPLE_ORDERS.unbound, loads, id, other, SampleKey(id), SampleKey(other));
  }

  lemma PickInPlain(c: Context, order: seq<string>, loads: Loads, id: string, other: string, k: LoadKey, m: LoadKey)
    requires Plain(c) && IsOrder(order, c.world.accounts) && c.world.accounts.Keys == {id, other}
    requires k == KeyIn(c, id) && m == KeyIn(c, other) && k.bucket != m.bucket
    requires LoadOf(loads, k).inflight < LoadOf(loads, m).inflight || (LoadOf(loads, k).inflight == LoadOf(loads, m).inflight
      && LoadOf(loads, k).lastAssigned == LoadOf(loads, m).lastAssigned && !Less(m.bucket, k.bucket))
    ensures PickUnbound(c, order, loads) == Pick(c.world.accounts[id], k)
  {
    PlainPick(c, order, loads, id, other);
  }

  lemma SampleOrder()
    ensures SampleKey("a").bucket != SampleKey("b").bucket && !Less(SampleKey("b").bucket, SampleKey("a").bucket)
  {
    assert SampleKey("a").bucket[7] == 'a' && SampleKey("b").bucket[7] == 'b';
    PrefixOrder(CLAUDE + ":", "b", "a");
  }

  lemma {:induction false} PrefixOrder(p: string, s: string, t: string)
    ensures Less(p + s, p + t) <==> Less(s, t)
  {
    if p == "" {
      assert p + s == s && p + t == t;
    } else {
      assert (p + s)[1..] == p[1..] + s && (p + t)[1..] == p[1..] + t;
      PrefixOrder(p[1..], s, t);
    }
  }

  /** A grant in the sample pool, under a claim of its own. */
  lemma SampleGrant(sh: Shared, id: string, other: string)
    requires id in SAMPLE.world.accounts && other in SAMPLE.world.accounts && id != other && "k" !in sh.claims
    requires var n, m := LoadOf(sh.book.loads, SampleKey(id)), LoadOf(sh.book.loads, SampleKey(other));
      n.inflight < m.inflight || (n.inflight == m.inflight && n.lastAssigned == m.lastAssigned && id == "a")
    ensures Proper(SAMPLE, SAMPLE_ORDERS)
    ensures var (sh', r) := LockRegion(sh, SAMPLE, SAMPLE_ORDERS, None);
      && r == Granted(Lease(SampleKey(id), SampleAccount(id), "k", Some(sh.nextClaim)))
      && sh' == sh.(book := Take(sh.book, SampleKey(id)), claims := sh.claims["k" := sh.nextClaim], nextClaim := sh.nextClaim + 1)
  {
    SamplePick(sh.book.loads, id, other);
  }

  /** Every lock of the run is taken on the sample pool, and nobody else writes the store. */
  ghost predicate OnSample(steps: seq<Step>) {
    forall n | 0 <= n < |steps| ::
      !steps[n].StoreWrite? && (steps[n].Lock? ==> steps[n].c == SAMPLE && steps[n].o == SAMPLE_ORDERS)
  }

  lemma OnSampleConcat(a: seq<Step>, b: seq<Step>)
    requires OnSample(a) && OnSample(b)
    ensures OnSample(a + b)
  {
  }

  /** Two clients that both read the store before either was accepted end up with different accounts for the same
      affinity key, on one unchanged pool and without anybody else writing the store: the second one has not waited for
      the first one's claim, so it does not read the store again. Had it read the binding, it would have been granted
      the first one's account. */
  lemma ColdClientsCanDisagree() returns (steps: seq<Step>, s: State, before: State)
    ensures Run(INIT, steps, s) && OnSample(steps)
    ensures |s.held| == 2 && s.held[0].accepted && s.log == [Entry("k", Some(OwnerBinding(s.held[0].lease)))]
    ensures s.held[0].lease.affinityKey == s.held[1].lease.affinityKey == "k" && s.held[1].lease.claim.Some?
    ensures s.held[0].lease.account == SampleAccount("a") && s.held[1].lease.account == SampleAccount("b")
    ensures Enabled(before, Lock(1, SAMPLE, SAMPLE_ORDERS)) && s == Next(before, Lock(1, SAMPLE, SAMPLE_ORDERS))
    ensures var r := LockRegion(before.sh, SAMPLE, SAMPLE_ORDERS, Some(OwnerBinding(s.held[0].lease))).1;
      r.Granted? && r.lease.account == SampleAccount("a")
  {
    steps, before := OneColdClientAccepted();
    s := SecondIsGranted(before);
    RunExtend(INIT, steps, before, Lock(1, SAMPLE, SAMPLE_ORDERS));
    steps := steps + [Lock(1, SAMPLE, SAMPLE_ORDERS)];
    SampleBound(before.sh);
  }

  lemma SecondIsGranted(before: State) returns (s: State)
    requires |before.clients| == 2 && before.clients[1] == HasRead(SAMPLE_REQUEST, None, None, 0) && before.sh.claims == map[]
    requires before.sh.book == Take(Book(map[], 0), SampleKey("a"))
    ensures Enabled(before, Lock(1, SAMPLE, SAMPLE_ORDERS)) && s == Next(before, Lock(1, SAMPLE, SAMPLE_ORDERS))
    ensures |s.held| == |before.held| + 1 && s.held[..|before.held|] == before.held && s.log == before.log
    ensures s.held[|before.held|].lease == Lease(SampleKey("b"), SampleAccount("b"), "k", Some(before.sh.nextClaim))
  {
    SampleLoads();
    SampleGrant(before.sh, "b", "a");
    s := Next(before, Lock(1, SAMPLE, SAMPLE_ORDERS));
  }

  lemma FirstIsGranted(before: State) returns (s: State)
    requires |before.clients| == 2 && before.clients[0] == HasRead(SAMPLE_REQUEST, None, None, 0)
    requires before.sh == INIT.sh && before.held == []
    ensures Enabled(before, Lock(0, SAMPLE, SAMPLE_ORDERS)) && s == Next(before, Lock(0, SAMPLE, SAMPLE_ORDERS))
    ensures s.held == [Held(Lease(SampleKey("a"), SampleAccount("a"), "k", Some(0)), false, false, Free, 0)] && s.log == before.log
    ensures s.clients == before.clients[0 := Returned]
    ensures s.sh.book == Take(Book(map[], 0), SampleKey("a")) && s.sh.claims == map["k" := 0] && s.sh.nextClaim == 1
  {
    SampleGrant(before.sh, "a", "b");
    s := Next(before, Lock(0, SAMPLE, SAMPLE_ORDERS));
  }

  lemma SampleLoads()
    ensures var loads := Take(Book(map[], 0), SampleKey("a")).loads;
      LoadOf(loads, SampleKey("a")) == Load(1, 1) && LoadOf(loads, SampleKey("b")) == Load(0, 0)
  {
    SampleOrder();
  }

  lemma SampleBound(sh: Shared)
    ensures Proper(SAMPLE, SAMPLE_ORDERS)
    ensures var r := LockRegion(sh, SAMPLE, SAMPLE_ORDERS, Some(Binding(CLAUDE, "a"))).1;
      r.Granted? && r.lease.account == SampleAccount("a")
  {
    SampleProper();
    assert AccountFor(SAMPLE.world, ["a", "b"], Binding(CLAUDE, "a")) == "a";
    LockFollowsBinding(sh, SAMPLE, SAMPLE_ORDERS, Binding(CLAUDE, "a"));
    GrantedIsUsable(sh, SAMPLE, SAMPLE_ORDERS, Some(Binding(CLAUDE, "a")));
  }

  lemma OneColdClientAccepted() returns (steps: seq<Step>, s: State)
    ensures Run(INIT, steps, s) && OnSample(steps)
    ensures |s.held| == 1 && s.held[0].accepted && s.held[0].lease.account == SampleAccount("a")
    ensures s.held[0].lease.affinityKey == "k" && s.sh.claims == map[]
    ensures s.sh.book == Take(Book(map[], 0), SampleKey("a"))
    ensures s.log == [Entry("k", Some(OwnerBinding(s.held[0].lease)))]
    ensures |s.clients| == 2 && s.clients[1] == HasRead(SAMPLE_REQUEST, None, None, 0)
  {
    var before, s5 := FirstLocked();
    OnSampleConcat(before, [AcceptStart(0), AcceptSave(0, true), AcceptRelease(0)]);
    steps, s := AcceptedRun(before, s5);
  }

  lemma FirstLocked() returns (steps: seq<Step>, s: State)
    ensures Run(INIT, steps, s) && OnSample(steps) && s.clients == [Returned, HasRead(SAMPLE_REQUEST, None, None, 0)]
    ensures s.held == [Held(Lease(SampleKey("a"), SampleAccount("a"), "k", Some(0)), false, false, Free, 0)] && s.log == []
    ensures s.sh.book == Take(Book(map[], 0), SampleKey("a")) && s.sh.claims == map["k" := 0] && s.sh.nextClaim == 1
  {
    var reading, s4 := BothClientsRead();
    s := FirstIsGranted(s4);
    var grant := Lock(0, SAMPLE, SAMPLE_ORDERS);
    RunExtend(INIT, reading, s4, grant);
    OnSampleConcat(reading, [grant]);
    steps := reading + [grant];
  }

  lemma AcceptedRun(before: seq<Step>, s5: State) returns (steps: seq<Step>, s: State)
    requires Run(INIT, before, s5)
    requires s5.held == [Held(Lease(SampleKey("a"), SampleAccount("a"), "k", Some(0)), false, false, Free, 0)]
    requires s5.log == [] && s5.sh.claims == map["k" := 0] && s5.sh.nextClaim == 1
    ensures Run(INIT, steps, s) && steps == before + [AcceptStart(0), AcceptSave(0, true), AcceptRelease(0)]
    ensures s.held == [s5.held[0].(accepted := true)] && s.clients == s5.clients && s.sh.claims == map[] && s.sh.book == s5.sh.book
    ensures s.log == [Entry("k", Some(OwnerBinding(s.held[0].lease)))]
  {
    var accepted;
    accepted, s := AcceptAlone(s5);
    steps := RunThree(INIT, before, s5, accepted, s);
  }

  lemma BothClientsRead() returns (steps: seq<Step>, s: State)
    ensures Run(INIT, steps, s) && OnSample(steps)
    ensures s == INIT.(clients := [HasRead(SAMPLE_REQUEST, None, None, 0), HasRead(SAMPLE_REQUEST, None, None, 0)])
  {
    var s2 := Next(Next(INIT, Call(SAMPLE_REQUEST)), Call(SAMPLE_REQUEST));
    RunOne(INIT, Call(SAMPLE_REQUEST));
    RunExtend(INIT, [Call(SAMPLE_REQUEST)], Next(INIT, Call(SAMPLE_REQUEST)), Call(SAMPLE_REQUEST));
    steps := [Call(SAMPLE_REQUEST)] + [Call(SAMPLE_REQUEST)];
    RunExtend(INIT, steps, s2, ReadBinding(0));
    RunExtend(INIT, steps + [ReadBinding(0)], Next(s2, ReadBinding(0)), ReadBinding(1));
    steps, s := steps + [ReadBinding(0)] + [ReadBinding(1)], Next(Next(s2, ReadBinding(0)), ReadBinding(1));
  }

  lemma AcceptAlone(s: State) returns (steps: seq<Step>, s': State)
    requires |s.held| == 1 && s.log == [] && s.held[0].lease.account == SampleAccount("a")
    requires s.held[0].savedAt == 0 && s.held[0].phase == Free && !s.held[0].terminal && !s.held[0].accepted
    requires s.held[0].lease.affinityKey == "k" && s.held[0].lease.claim == Some(s.sh.nextClaim - 1)
    requires s.sh.claims == map["k" := s.sh.nextClaim - 1]
    ensures steps == [AcceptStart(0), AcceptSave(0, true), AcceptRelease(0)]
    ensures Enabled(s, steps[0]) && Enabled(Next(s, steps[0]), steps[1])
    ensures Enabled(Next(Next(s, steps[0]), steps[1]), steps[2])
    ensures s' == Next(Next(Next(s, steps[0]), steps[1]), steps[2])
    ensures s'.held == [s.held[0].(accepted := true)] && s'.clients == s.clients && s'.sh.claims == map[]
    ensures s'.sh.book == s.sh.book
    ensures s'.log == [Entry("k", Some(OwnerBinding(s.held[0].lease)))]
  {
    steps := [AcceptStart(0), AcceptSave(0, true), AcceptRelease(0)];
    s' := Next(Next(Next(s, steps[0]), steps[1]), steps[2]);
  }

  lemma RunThree(from: State, steps: seq<Step>, mid: State, more: seq<Step>, to: State) returns (all: seq<Step>)
    requires Run(from, steps, mid) && |more| == 3 && Enabled(mid, more[0]) && Enabled(Next(mid, more[0]), more[1])
    requires Enabled(Next(Next(mid, more[0]), more[1]), more[2])
    requires to == Next(Next(Next(mid, more[0]), more[1]), more[2])
    ensures all == steps + more && Run(from, all, to)
  {
    RunExtend(from, steps, mid, more[0]);
    RunExtend(from, steps + [more[0]], Next(mid, more[0]), more[1]);
    RunExtend(from, steps + [more[0]] + [more[1]], Next(Next(mid, more[0]), more[1]), more[2]);
    all := steps + [more[0]] + [more[1]] + [more[2]];
    assert all == steps + more;
  }
}

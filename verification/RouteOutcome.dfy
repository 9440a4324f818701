/** How every request leaves the lock region of AcquireRoute, case by case, and what that means for a claim that is
    still open: nobody else is routed under its key without being told where. */
module RouteOutcome {
  import opened Domain
  import opened Selection
  import opened SelectionMeaning
  import opened RouteProtocol
  import opened RouteRuns
  import opened RouteSafety

  /* ---------- the lock region, case by case ---------- */

  /** The binding read leads to an account that may serve. */
  ghost predicate Led(c: Context, o: Orders, read: Option<Binding>)
    requires Proper(c, o)
  {
    && read.Some? && read.value.provider == c.drv.provider
    && var id := AccountFor(c.world, o.lookup, read.value); id in c.world.accounts && Fit(c, c.world.accounts[id])
  }

  ghost predicate SomebodyFits(c: Context) {
    exists id <- c.world.accounts :: Fit(c, c.world.accounts[id])
  }

  /** `lease` is for an account that may serve, under its own load key, and `book` counts it. */
  ghost predicate LeasedTo(c: Context, book: Book, after: Book, lease: Lease) {
    var a := lease.account;
    && a.id in c.world.accounts && c.world.accounts[a.id] == a && Fit(c, a)
    && lease.key == LoadKeyFor(c, a) && lease.affinityKey == c.req.affinityKey
    && after.routeSeq == book.routeSeq + 1
    && after.loads == book.loads[lease.key := Load(LoadOf(book.loads, lease.key).inflight + 1, book.routeSeq + 1)]
  }

  /** Nothing is led: the region is its unbound part. */
  lemma UnledIsUnbound(sh: Shared, c: Context, o: Orders, read: Option<Binding>)
    requires Proper(c, o) && c.req.hardAccount == "" && !c.req.mustContinue && !Led(c, o, read)
    ensures LockRegion(sh, c, o, read)
         == UnboundRegion(sh, c.req, if Foreign(c, read) then None else read, PickUnbound(c, o.unbound, sh.book.loads))
  {
    if read.Some? && read.value.provider == c.drv.provider {
      AccountForFinds(c.world, o.lookup, read.value);
      BoundUnfit(sh, c, o, AccountFor(c.world, o.lookup, read.value));
    }
  }

  lemma UnboundRoutes(sh: Shared, req: Request, binding: Option<Binding>, p: Pick)
    requires !req.mustContinue
    ensures var (sh', r) := UnboundRegion(sh, req, binding, p); var key := req.affinityKey;
      if key != "" && key in sh.claims then r == Await(sh.claims[key]) && sh' == sh
      else if p.Pick? then
        && r == Granted(Lease(p.key, p.account, key, if key != "" then Some(sh.nextClaim) else None))
        && sh'.closed == sh.closed && sh'.book == Take(sh.book, p.key)
        && sh'.claims == (if key != "" then sh.claims[key := sh.nextClaim] else sh.claims)
        && sh'.nextClaim == (if key != "" then sh.nextClaim + 1 else sh.nextClaim)
      else
        && r == Failed(PickFailed(p.error)) && sh'.book == sh.book && sh'.claims == sh.claims
        && forall id | id != sh.nextClaim :: ClosedCount(sh', id) == ClosedCount(sh, id)
  {
    var key := req.affinityKey;
    if key != "" && key !in sh.claims { assert sh.claims[key := sh.nextClaim] - {key} == sh.claims; }
  }

  /** An unbound request under a registered claim waits for that claim. Otherwise it registers a fresh claim under its
      key, if it has one, and is granted an account that may serve; if there is none, the claim is taken back. */
  lemma UnledOutcome(sh: Shared, c: Context, o: Orders, read: Option<Binding>)
    requires Proper(c, o) && c.req.hardAccount == "" && !c.req.mustContinue && !Led(c, o, read)
    ensures var (sh', r) := LockRegion(sh, c, o, read); var key := c.req.affinityKey;
      if key != "" && key in sh.claims then r == Await(sh.claims[key]) && sh' == sh
      else if SomebodyFits(c) then
        && r.Granted? && LeasedTo(c, sh.book, sh'.book, r.lease) && sh'.closed == sh.closed
        && r.lease.claim == (if key != "" then Some(sh.nextClaim) else None)
        && sh'.claims == (if key != "" then sh.claims[key := sh.nextClaim] else sh.claims)
        && sh'.nextClaim == (if key != "" then sh.nextClaim + 1 else sh.nextClaim)
      else
        && r == Failed(PickFailed(NoAccounts)) && sh'.book == sh.book && sh'.claims == sh.claims
        && forall id | id != sh.nextClaim :: ClosedCount(sh', id) == ClosedCount(sh, id)
  {
    var p := UnboundFinds(c, o.unbound, sh.book);
    UnledIsUnbound(sh, c, o, read);
    UnboundRoutes(sh, c.req, if Foreign(c, read) then None else read, p);
  }

  lemma UnboundFinds(c: Context, order: seq<string>, book: Book) returns (p: Pick)
    requires WellFormed(c.world) && IsOrder(order, c.world.accounts)
    ensures p == PickUnbound(c, order, book.loads) && (p.NoPick? ==> p.error == NoAccounts)
    ensures SomebodyFits(c) <==> p.Pick?
    ensures p.Pick? ==> LeasedTo(c, book, Take(book, p.key), Lease(p.key, p.account, c.req.affinityKey, None))
  {
    p := PickUnbound(c, order, book.loads);
    UnboundPicksFit(c, order, book.loads);
  }

  lemma BoundUnfit(sh: Shared, c: Context, o: Orders, bound: string)
    requires Proper(c, o) && (bound in c.world.accounts ==>
      c.world.accounts[bound].provider == c.drv.provider && !Fit(c, c.world.accounts[bound]))
    ensures bound != "" ==> PickAccount(c, o.bound, sh.book.loads, bound).NoPick?
  {
    if bound != "" { BoundPicksFit(c, o.bound, sh.book.loads, bound); }
  }

  /** A request that is led somewhere goes there, without a claim and whatever claim is open. */
  lemma LedOutcome(sh: Shared, c: Context, o: Orders, read: Option<Binding>)
    requires Proper(c, o) && c.req.hardAccount == "" && Led(c, o, read)
    requires c.req.affinityKey != "" || !c.req.mustContinue
    ensures var (sh', r) := LockRegion(sh, c, o, read);
      && r.Granted? && r.lease.account.id == AccountFor(c.world, o.lookup, read.value) && r.lease.claim == None
      && LeasedTo(c, sh.book, sh'.book, r.lease) && sh' == sh.(book := sh'.book)
  {
    AccountForFinds(c.world, o.lookup, read.value);
    BoundPicksFit(c, o.bound, sh.book.loads, AccountFor(c.world, o.lookup, read.value));
  }

  /** A request that must continue and is led nowhere fails, and the error says whether there was a binding. */
  lemma RequiredOutcome(sh: Shared, c: Context, o: Orders, read: Option<Binding>)
    requires Proper(c, o) && c.req.hardAccount == "" && c.req.mustContinue && !Led(c, o, read) && ReadOk(c.req, read)
    ensures LockRegion(sh, c, o, read) == (sh, Failed(if read.None? then OwnerMissing else OwnerUnavailable))
  {
    if read.Some? && read.value.provider == c.drv.provider {
      AccountForFinds(c.world, o.lookup, read.value);
      BoundUnfit(sh, c, o, AccountFor(c.world, o.lookup, read.value));
    }
  }

  /** A hard account is granted exactly if it may serve, otherwise the error says why. One of another provider does not
      count: it stands for no owner where one is required without a key, and for any account that may serve elsewhere.
      No claim is touched. */
  lemma PinnedOutcome(sh: Shared, c: Context, o: Orders, read: Option<Binding>)
    requires Proper(c, o) && c.req.hardAccount != "" && ReadOk(c.req, read)
    ensures var (sh', r) := LockRegion(sh, c, o, read); var id := c.req.hardAccount;
      && sh' == sh.(book := sh'.book) && (r.Failed? ==> sh' == sh) && !r.Await?
      && (r.Granted? ==> LeasedTo(c, sh.book, sh'.book, r.lease) && r.lease.claim == None)
      && if id in c.world.accounts && c.world.accounts[id].provider == c.drv.provider then
           if Fit(c, c.world.accounts[id]) then r.Granted? && r.lease.account.id == id
           else r == Failed(PickFailed(if Excluded(c, c.world.accounts[id]) then BoundExcluded else BoundUnavailable))
         else if c.req.mustContinue && c.req.affinityKey == "" then r == Failed(OwnerMissing)
         else if id !in c.world.accounts then r == Failed(PickFailed(BoundNotFound))
         else if SomebodyFits(c) then r.Granted?
         else r == Failed(PickFailed(NoAccounts))
  {
    var p := PinnedFinds(c, o.bound, sh.book);
    PinnedRegion(sh, c, o, read, p);
  }

  lemma PinnedFinds(c: Context, order: seq<string>, book: Book) returns (p: Pick)
    requires WellFormed(c.world) && IsOrder(order, c.world.accounts) && c.req.hardAccount != ""
    ensures p == PickAccount(c, order, book.loads, c.req.hardAccount)
    ensures p.Pick? ==> LeasedTo(c, book, Take(book, p.key), Lease(p.key, p.account, c.req.affinityKey, None))
    ensures var id := c.req.hardAccount;
      if id in c.world.accounts && c.world.accounts[id].provider == c.drv.provider then
        if Fit(c, c.world.accounts[id]) then p.Pick? && p.account.id == id
        else p == NoPick(if Excluded(c, c.world.accounts[id]) then BoundExcluded else BoundUnavailable)
      else if id !in c.world.accounts then p == NoPick(BoundNotFound)
      else if SomebodyFits(c) then p.Pick?
      else p == NoPick(NoAccounts)
  {
    var id := c.req.hardAccount;
    p := PickAccount(c, order, book.loads, id);
    BoundPicksFit(c, order, book.loads, id);
    if id in c.world.accounts && c.world.accounts[id].provider == c.drv.provider {
      if Fit(c, c.world.accounts[id]) { TakenIsLeased(c, book, c.world.accounts[id]); }
    } else if id in c.world.accounts {
      var q := UnboundFinds(c, order, book);
    }
  }

  lemma TakenIsLeased(c: Context, book: Book, a: Account)
    requires a.id in c.world.accounts && c.world.accounts[a.id] == a && Fit(c, a)
    ensures LeasedTo(c, book, Take(book, LoadKeyFor(c, a)), Lease(LoadKeyFor(c, a), a, c.req.affinityKey, None))
  {
  }

  /** The region of a pinned request, once the outcome of its selection is known. */
  lemma PinnedRegion(sh: Shared, c: Context, o: Orders, read: Option<Binding>, p: Pick)
    requires Proper(c, o) && c.req.hardAccount != "" && ReadOk(c.req, read)
    requires p == PickAccount(c, o.bound, sh.book.loads, c.req.hardAccount)
    ensures LockRegion(sh, c, o, read) ==
      if c.req.mustContinue && c.req.affinityKey == "" && !Pinned(c) then (sh, Failed(OwnerMissing))
      else if p.Pick? then (sh.(book := Take(sh.book, p.key)), Granted(Lease(p.key, p.account, c.req.affinityKey, None)))
      else (sh, Failed(PickFailed(p.error)))
  {
  }

  /* ---------- single flight ---------- */

  /** An Accept that nobody interrupts: the binding is saved, the lease accepted, and its claim, if still registered, is
      closed and marked with the place of that binding. */
  lemma AcceptPublishes(s: State, j: nat) returns (s': State)
    requires Enabled(s, AcceptStart(j)) && s.held[j].lease.affinityKey != "" && s.held[j].lease.account.subject != ""
    ensures Run(s, [AcceptStart(j), AcceptSave(j, true), AcceptRelease(j)], s')
    ensures var h, a := s.held[j], s.held[j].lease.account; var key := h.lease.affinityKey;
      && s'.log == s.log + [Entry(key, Some(Binding(a.provider, a.subject)))] && s'.clients == s.clients
      && s'.held == s.held[j := h.(accepted := true, phase := Free, savedAt := |s.log|)] && s'.sh.book == s.sh.book
      && (key in s.sh.claims && h.lease.claim == Some(s.sh.claims[key]) ==>
            var id := s.sh.claims[key];
            && s'.sh.claims == s.sh.claims - {key} && ClosedCount(s'.sh, id) == ClosedCount(s.sh, id) + 1
            && s'.acceptedAt == s.acceptedAt[id := |s.log|])
  {
    var s1 := Next(s, AcceptStart(j));
    var s2 := Next(s1, AcceptSave(j, true));
    s' := Next(s2, AcceptRelease(j));
    RunOne(s2, AcceptRelease(j));
    assert [AcceptStart(j), AcceptSave(j, true), AcceptRelease(j)][1..] == [AcceptSave(j, true), AcceptRelease(j)];
    assert [AcceptSave(j, true), AcceptRelease(j)][1..] == [AcceptRelease(j)];
  }

  /** An Accept whose binding cannot be saved: nothing is saved or accepted, and the lease's claim is released unmarked. */
  lemma AcceptFails(s: State, j: nat) returns (s': State)
    requires Enabled(s, AcceptStart(j)) && s.held[j].lease.affinityKey != ""
    ensures Run(s, [AcceptStart(j), AcceptSave(j, false), AcceptRelease(j)], s')
    ensures var h := s.held[j]; var key := h.lease.affinityKey;
      && s'.log == s.log && s'.acceptedAt == s.acceptedAt && s'.clients == s.clients && s'.held == s.held
      && s'.sh.book == s.sh.book
      && (key in s.sh.claims && h.lease.claim == Some(s.sh.claims[key]) ==>
            && s'.sh.claims == s.sh.claims - {key}
            && ClosedCount(s'.sh, s.sh.claims[key]) == ClosedCount(s.sh, s.sh.claims[key]) + 1)
  {
    var s1 := Next(s, AcceptStart(j));
    var s2 := Next(s1, AcceptSave(j, false));
    s' := Next(s2, AcceptRelease(j));
    RunOne(s2, AcceptRelease(j));
    assert [AcceptStart(j), AcceptSave(j, false), AcceptRelease(j)][1..] == [AcceptSave(j, false), AcceptRelease(j)];
    assert [AcceptSave(j, false), AcceptRelease(j)][1..] == [AcceptRelease(j)];
  }

  /** Without an affinity key there is nothing to save: the lease is accepted, and nothing else changes. */
  lemma AcceptUnkeyed(s: State, j: nat) returns (s': State)
    requires Enabled(s, AcceptStart(j)) && s.held[j].lease.affinityKey == ""
    ensures Run(s, [AcceptStart(j), AcceptRelease(j)], s')
    ensures s' == s.(held := s.held[j := s.held[j].(accepted := true)])
  {
    var s1 := Next(s, AcceptStart(j));
    s' := Next(s1, AcceptRelease(j));
    RunOne(s1, AcceptRelease(j));
    assert [AcceptStart(j), AcceptRelease(j)][1..] == [AcceptRelease(j)];
  }

  /** One pass through the lock region while a claim on the request's key is open. */
  lemma ClaimOpen(sh: Shared, c: Context, o: Orders, read: Option<Binding>)
    requires Proper(c, o) && ReadOk(c.req, read) && c.req.affinityKey != "" && c.req.affinityKey in sh.claims
    ensures var (sh', r) := LockRegion(sh, c, o, read);
      && sh' == sh.(book := sh'.book)
      && (r.Granted? ==>
            && r.lease.claim == None && r.lease.affinityKey == c.req.affinityKey
            && (Continues(c.req, read, r.lease.account) <==> !ForeignPin(c)))
      && (r.Await? <==> c.req.hardAccount == "" && !c.req.mustContinue && !Led(c, o, read))
      && (r.Await? ==> r == Await(sh.claims[c.req.affinityKey]) && sh' == sh)
  {
    if c.req.hardAccount != "" {
      PinnedOutcome(sh, c, o, read);
    } else if Led(c, o, read) {
      LedOutcome(sh, c, o, read);
      AccountForFinds(c.world, o.lookup, read.value);
    } else if c.req.mustContinue {
      RequiredOutcome(sh, c, o, read);
    } else {
      UnledOutcome(sh, c, o, read);
    }
  }

  /** While a claim is open, no request under its key is routed by unbound selection: in every reachable state whoever
      takes the lock either is granted the account it is told to go to, its hard account or the one its binding names,
      and without a claim; or waits for that claim, with nothing else changed; or fails. The exception is a request
      pinned to an account of another provider, exactly. */
  lemma SingleFlight(s: State, i: nat, c: Context, o: Orders)
    requires Reachable(s) && Enabled(s, Lock(i, c, o)) && c.req.affinityKey in s.sh.claims
    ensures var s', key, read := Next(s, Lock(i, c, o)), c.req.affinityKey, s.clients[i].binding;
      && s'.sh.claims == s.sh.claims && s'.sh.nextClaim == s.sh.nextClaim && s'.sh.closed == s.sh.closed
      && (|s'.held| > |s.held| ==>
            var lease := s'.held[|s.held|].lease;
            lease.claim == None && lease.affinityKey == key && (Continues(c.req, read, lease.account) <==> !ForeignPin(c)))
      && (s'.clients[i].Waiting? <==> c.req.hardAccount == "" && !c.req.mustContinue && !Led(c, o, read))
      && (s'.clients[i].Waiting? ==> s' == s.(clients := s.clients[i := Waiting(c.req, s.sh.claims[key])]))
  {
    ReachableInv(s);
    ReadIsLogged(s, i);
    KeysAreNames(s.sh, c.req.affinityKey);
    ClaimOpen(s.sh, c, o, s.clients[i].binding);
  }

  lemma KeysAreNames(sh: Shared, key: string)
    requires ClaimsOk(sh) && key in sh.claims
    ensures key != ""
  {
  }

  lemma ReachableNext(s: State, step: Step)
    requires Reachable(s) && Enabled(s, step)
    ensures Reachable(Next(s, step))
  {
    var steps :| Run(INIT, steps, s);
    RunExtend(INIT, steps, s, step);
  }

  /** A waiter whose claim is released starts over and reads the store as it is then. */
  lemma WaiterReadsAgain(s: State, i: nat)
    requires Enabled(s, Resume(i)) && s.clients[i].req.hardAccount == "" && s.clients[i].req.affinityKey != ""
    ensures var s1 := Next(s, Resume(i)); var req := s.clients[i].req;
      && Enabled(s1, ReadBinding(i))
      && Next(s1, ReadBinding(i)) == s.(clients := s.clients[i :=
           HasRead(req, Some(s.clients[i].claim), Stored(s.log, req.affinityKey), |s.log|)])
  {
  }

  /** What waiting is for: in every reachable state, a client that waits for a claim which was released by a successful
      Accept can go on, and if it then reads and locks before anybody else writes under the key, it is granted the owner's
      account, provided that account may serve. */
  lemma FollowerGetsOwner(s: State, i: nat, j: nat, c: Context, o: Orders) returns (s': State)
    requires Reachable(s) && i < |s.clients| && s.clients[i].Waiting? && s.clients[i].claim in s.acceptedAt
    requires j < |s.held| && s.held[j].lease.claim == Some(s.clients[i].claim)
    requires c.req == s.clients[i].req && c.req.hardAccount == "" && c.req.affinityKey != "" && Proper(c, o)
    requires Untouched(s.log, c.req.affinityKey, s.acceptedAt[s.clients[i].claim] + 1, |s.log|)
    requires OwnerBinding(s.held[j].lease).provider == c.drv.provider
    requires var id := OwnerFound(c, o, s.held[j]); id in c.world.accounts && Fit(c, c.world.accounts[id])
    ensures Run(s, [Resume(i), ReadBinding(i), Lock(i, c, o)], s')
    ensures |s'.held| == |s.held| + 1 && s'.held[|s.held|].lease.account.id == OwnerFound(c, o, s.held[j])
    ensures s'.held[|s.held|].lease.claim == None && s'.sh.claims == s.sh.claims
  {
    var k := s.clients[i].claim;
    AcceptedIsClosed(s, k);
    WaiterReadsAgain(s, i);
    var s1 := Next(s, Resume(i));
    var s2 := Next(s1, ReadBinding(i));
    ReachableNext(s, Resume(i));
    ReachableNext(s1, ReadBinding(i));
    FollowerSeesOwner(s2, i, j);
    LedOutcome(s2.sh, c, o, s2.clients[i].binding);
    s' := Next(s2, Lock(i, c, o));
    ThreeSteps(s, s1, s2, s', i, c, o);
  }

  lemma AcceptedIsClosed(s: State, k: nat)
    requires Reachable(s) && k in s.acceptedAt
    ensures ClosedCount(s.sh, k) > 0
  {
    ReachableInv(s);
  }

  lemma ThreeSteps(s: State, s1: State, s2: State, s3: State, i: nat, c: Context, o: Orders)
    requires Enabled(s, Resume(i)) && s1 == Next(s, Resume(i)) && Enabled(s1, ReadBinding(i)) && s2 == Next(s1, ReadBinding(i))
    requires Enabled(s2, Lock(i, c, o)) && s3 == Next(s2, Lock(i, c, o))
    ensures Run(s, [Resume(i), ReadBinding(i), Lock(i, c, o)], s3)
  {
    RunOne(s2, Lock(i, c, o));
    assert [Resume(i), ReadBinding(i), Lock(i, c, o)][1..] == [ReadBinding(i), Lock(i, c, o)];
    assert [ReadBinding(i), Lock(i, c, o)][1..] == [Lock(i, c, o)];
  }
}

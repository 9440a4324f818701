/** Accounts that are not active stay out of service: no background operation revives them, and no route
    acquired from the pool they are in ever goes to them. */
module PoolSafety {
  import opened Domain
  import opened PoolState
  import opened PoolCoherence
  import H = PoolHistory
  import S = Selection
  import R = RouteProtocol

  /** The operations that are not an administrator's or a token refresh's decision about one account. */
  predicate Background(op: Op) {
    op.DoObserve? || op.DoCleanup? || op.DoClearCooldown? || op.DoMarkError? || op.DoSetDrivers? || op.DoRefresh?
  }

  /** Nobody left, nobody was activated. */
  ghost predicate NoRevival(before: map<string, Account>, after: map<string, Account>) {
    forall id <- before :: id in after && (before[id].status != Active ==> after[id].status != Active)
  }

  lemma {:induction false} RekeyingRevivesNobody(p: Pool, order: seq<string>, st: string)
    requires forall id <- p.accounts :: p.accounts[id].id == id
    ensures NoRevival(p.accounts, RekeyMembers(p, order, st).0.accounts)
    decreases |order|
  {
    if order != [] {
      if order[0] in p.accounts {
        var a := p.accounts[order[0]];
        RekeyingRevivesNobody(PutAccount(RefreshKey(p, a, st), Rekeyed(p, a, st)), order[1..], st);
      } else {
        RekeyingRevivesNobody(p, order[1..], st);
      }
    }
  }

  lemma ObservingRevivesNobody(p: Pool, a: Account, e: Effect, now: int, order: seq<string>)
    requires (forall id <- p.accounts :: p.accounts[id].id == id) && a.id in p.accounts && p.accounts[a.id] == a
    ensures NoRevival(p.accounts, ObserveLoaded(p, a, e, now, order).accounts)
  {
    var q := ApplyEffect(EnsureBucket(p, BucketKey(a)), a, e, now);
    H.EffectTouchesOne(EnsureBucket(p, BucketKey(a)), a, e, now);
    SettlingRevivesNobody(q, a, Touched(e, a.id), order, e.updatedState);
  }

  lemma SettlingRevivesNobody(q: Pool, a: Account, touched: set<string>, order: seq<string>, st: string)
    requires (forall id <- q.accounts :: q.accounts[id].id == id) && BucketKey(a) in q.buckets
    ensures NoRevival(q.accounts, Settle(q, a, touched, order, st).accounts)
  {
    if st != "" {
      var s := SaveBucket(q, BucketKey(a), q.buckets[BucketKey(a)].(state := st));
      RekeyingRevivesNobody(s, Members(q, order, a.provider, BucketKey(a)), st);
    }
  }

  lemma {:induction false} AdoptingRevivesNobody(p: Pool, order: seq<string>)
    requires forall id <- p.accounts :: p.accounts[id].id == id
    ensures NoRevival(p.accounts, AdoptKeys(p, order).accounts)
    decreases |order|
  {
    if order != [] {
      if order[0] in p.accounts {
        AdoptingOne(p, order[0]);
        AdoptingRevivesNobody(AdoptKey(p, order[0]), order[1..]);
      } else {
        AdoptingRevivesNobody(p, order[1..]);
      }
    }
  }

  lemma AdoptingOne(p: Pool, id: string)
    requires (forall i <- p.accounts :: p.accounts[i].id == i) && id in p.accounts
    ensures var q := AdoptKey(p, id);
      (forall i <- q.accounts :: q.accounts[i].id == i) && NoRevival(p.accounts, q.accounts)
  {
  }

  lemma {:induction false} CleanupKeepsAccounts(p: Pool, keys: seq<string>, now: int, order: seq<string>)
    ensures ExpireAll(p, keys, now).accounts == p.accounts
    ensures EnforceAll(p, keys, now, order).accounts == p.accounts
    decreases |keys|
  {
    if keys != [] {
      CleanupKeepsAccounts(ExpireBucket(p, keys[0], now), keys[1..], now, order);
      EnforceKeepsAccounts(p, keys[0], now, order);
      CleanupKeepsAccounts(EnforceAvailable(p, keys[0], now, order), keys[1..], now, order);
    }
  }

  lemma {:induction false} EnforceKeepsAccounts(p: Pool, key: string, now: int, order: seq<string>)
    ensures EnforceBucket(p, key, now, order).accounts == p.accounts
  {
    if order != [] { EnforceKeepsAccounts(p, key, now, order[1..]); }
  }

  lemma ObserveRevivesNobody(p: Pool, id: string, e: Effect, now: int, order: seq<string>)
    requires DiskOk(p.disk)
    ensures NoRevival(p.disk.accounts, Observe(p, id, e, now, order).accounts)
  {
    var r := Reload(p);
    if id in r.accounts { ObservingRevivesNobody(r, r.accounts[id], e, now, order); }
  }

  lemma CleanupRevivesNobody(p: Pool, now: int, first: seq<string>, second: seq<string>, order: seq<string>)
    ensures NoRevival(p.disk.accounts, Cleanup(p, now, first, second, order).accounts)
  {
    var r := Reload(p);
    CleanupKeepsAccounts(r, first, now, order);
    CleanupKeepsAccounts(ExpireAll(r, first, now), second, now, order);
  }

  lemma SetDriversRevivesNobody(p: Pool, drivers: map<string, Driver>, order: seq<string>)
    requires DiskOk(p.disk)
    ensures NoRevival(p.disk.accounts, SetDrivers(p, drivers, order).accounts)
  {
    AdoptingRevivesNobody(Reload(p).(drivers := drivers), order);
  }

  lemma ClearCooldownRevivesNobody(p: Pool, id: string)
    ensures NoRevival(p.disk.accounts, ClearCooldown(p, id).accounts)
  {
  }

  lemma MarkErrorRevivesNobody(p: Pool, id: string, message: string)
    requires DiskOk(p.disk)
    ensures NoRevival(p.disk.accounts, MarkError(p, id, message).accounts)
  {
  }

  lemma MemoryRevivesNobody(p: Pool, op: Op)
    requires DiskOk(p.disk) && Background(op)
    ensures NoRevival(p.disk.accounts, Apply(p, op).accounts)
  {
    if op.DoObserve? {
      ObserveRevivesNobody(p, op.id, op.effect, op.now, op.order);
    } else if op.DoCleanup? {
      CleanupRevivesNobody(p, op.now, op.first, op.second, op.order);
    } else if op.DoSetDrivers? {
      SetDriversRevivesNobody(p, op.drivers, op.order);
    } else if op.DoClearCooldown? {
      ClearCooldownRevivesNobody(p, op.id);
    } else if op.DoMarkError? {
      MarkErrorRevivesNobody(p, op.id, op.message);
    }
  }

  /** No background operation activates an account, neither in memory nor in the store. */
  lemma BackgroundRevivesNobody(p: Pool, op: Op)
    requires DiskOk(p.disk) && Background(op)
    ensures NoRevival(p.disk.accounts, Apply(p, op).disk.accounts)
  {
    MemoryRevivesNobody(p, op);
    OperationWritesThrough(p, op);
    WrittenIsEqual(Apply(p, op));
  }

  lemma WrittenIsEqual(q: Pool)
    requires WrittenThrough(q)
    ensures q.accounts == q.disk.accounts
  {
  }

  lemma {:induction false} RunRevivesNobody(p: Pool, ops: seq<Op>)
    requires DiskOk(p.disk) && forall i | 0 <= i < |ops| :: Background(ops[i])
    ensures DiskOk(ApplyAll(p, ops).disk) && NoRevival(p.disk.accounts, ApplyAll(p, ops).disk.accounts)
    decreases |ops|
  {
    if ops != [] {
      BackgroundRevivesNobody(p, ops[0]);
      OperationLeavesCoherent(p, ops[0]);
      RunRevivesNobody(Apply(p, ops[0]), ops[1..]);
    }
  }

  /** After any run of background operations, no lock region of AcquireRoute, bound or unbound, hands out
      an account that was blocked, disabled or in error at the start. */
  lemma InactiveNeverHandedOut(p: Pool, ops: seq<Op>, id: string, c: S.Context, o: R.Orders, sh: R.Shared,
                               read: Option<R.Binding>)
    requires DiskOk(p.disk) && forall i | 0 <= i < |ops| :: Background(ops[i])
    requires id in p.disk.accounts && p.disk.accounts[id].status != Active
    requires R.Proper(c, o) && c.world.accounts == Reload(ApplyAll(p, ops)).accounts
    ensures var (_, r) := R.LockRegion(sh, c, o, read); r.Granted? ==> r.lease.account.id != id
  {
    RunRevivesNobody(p, ops);
    R.GrantedIsUsable(sh, c, o, read);
  }
}

/** The pool is a coherent write-through cache: after any operation, reloading from the store shows every
    account exactly as memory does, across bucket moves, merges and unsaved default buckets. */
module PoolCoherence {
  import opened Domain
  import opened PoolState

  predicate DiskOk(d: Disk) {
    forall id <- d.accounts :: d.accounts[id].id == id
  }

  /** Memory and a fresh reload agree on the accounts and on every account's projection. */
  ghost predicate Coherent(p: Pool) {
    && p.accounts == Reload(p).accounts
    && forall id <- p.accounts :: Project(p.accounts[id], p.buckets) == Project(p.accounts[id], Reload(p).buckets)
  }

  /** Buckets are written through: memory holds every stored bucket, and beyond those only defaults. */
  ghost predicate Written(p: Pool) {
    && (forall k <- p.disk.buckets :: k in p.buckets && p.buckets[k] == Normal(p.disk.buckets[k]))
    && (forall k <- p.buckets :: k in p.disk.buckets || p.buckets[k] == DEFAULT_BUCKET)
    && DiskOk(p.disk)
  }

  /** Accounts are written through up to those in `pending`. */
  ghost predicate WrittenExcept(p: Pool, pending: set<string>) {
    && Written(p) && p.accounts.Keys == p.disk.accounts.Keys
    && (forall id <- p.accounts :: p.accounts[id].id == id)
    && (forall id <- p.accounts :: id in pending || p.accounts[id] == p.disk.accounts[id])
  }

  ghost predicate WrittenThrough(p: Pool) {
    WrittenExcept(p, {})
  }

  lemma WrittenThroughIsCoherent(p: Pool)
    requires WrittenThrough(p)
    ensures Coherent(p)
  {
    assert p.accounts == p.disk.accounts;
    forall id | id in p.accounts
      ensures Project(p.accounts[id], p.buckets) == Project(p.accounts[id], Reload(p).buckets)
    {
      var key := BucketKey(p.accounts[id]);
      assert key in KeysInUse(p.disk.accounts);
    }
  }

  lemma ReloadWrites(p: Pool)
    requires DiskOk(p.disk)
    ensures WrittenThrough(Reload(p))
  {
  }

  lemma SaveBucketWrites(p: Pool, key: string, b: Bucket, pending: set<string>)
    requires WrittenExcept(p, pending)
    ensures WrittenExcept(SaveBucket(p, key, b), pending)
  {
  }

  lemma SaveAccountWrites(p: Pool, a: Account, pending: set<string>)
    requires WrittenExcept(p, pending)
    ensures WrittenExcept(SaveAccount(p, a), pending - {a.id})
  {
  }

  lemma PutAccountWrites(p: Pool, a: Account, pending: set<string>)
    requires WrittenExcept(p, pending) && a.id in p.accounts
    ensures WrittenExcept(PutAccount(p, a), pending + {a.id})
  {
  }

  lemma MoveBucketWrites(p: Pool, from: string, to: string, pending: set<string>)
    requires WrittenExcept(p, pending)
    ensures WrittenExcept(MoveBucket(p, from, to), pending)
  {
  }

  lemma PersistWrites(p: Pool, pending: set<string>)
    requires WrittenExcept(p, pending)
    ensures WrittenThrough(PersistAccounts(p, pending))
  {
    var q := PersistAccounts(p, pending);
    assert q.disk.accounts.Keys == p.disk.accounts.Keys;
  }

  lemma ApplyEffectWrites(p: Pool, a: Account, e: Effect, now: int)
    requires WrittenThrough(p) && BucketKey(a) in p.buckets && a.id in p.accounts && p.accounts[a.id] == a
    ensures var q := ApplyEffect(p, a, e, now); WrittenExcept(q, Touched(e, a.id)) && BucketKey(a) in q.buckets
  {
    var key := BucketKey(a);
    PutAccountWrites(p, EffectAccount(a, e, now), {});
    var q := PutAccount(p, EffectAccount(a, e, now));
    assert Touched(e, a.id) == {} ==> q.accounts == p.accounts;
    assert WrittenExcept(q, Touched(e, a.id));
    EffectBucketWrites(q, key, e, now, Touched(e, a.id));
  }

  lemma EffectBucketWrites(p: Pool, key: string, e: Effect, now: int, pending: set<string>)
    requires WrittenExcept(p, pending) && key in p.buckets
    ensures WrittenExcept(EffectBucket(p, key, e, now), pending) && key in EffectBucket(p, key, e, now).buckets
  {
    var until := if e.kind == ServerError then now + BREAKER_PAUSE else e.until;
    SaveBucketWrites(p, key, p.buckets[key].(cooldown := Join(p.buckets[key].cooldown, until)), pending);
  }

  lemma {:induction false} RekeyMembersWrites(p: Pool, order: seq<string>, st: string, pending: set<string>)
    requires WrittenExcept(p, pending)
    ensures var (q, changed) := RekeyMembers(p, order, st); WrittenExcept(q, pending + changed)
    decreases |order|
  {
    if order != [] {
      if order[0] !in p.accounts {
        RekeyMembersWrites(p, order[1..], st, pending);
      } else {
        var a := p.accounts[order[0]];
        var b := Rekeyed(p, a, st);
        var q := RefreshKey(p, a, st);
        MoveBucketWrites(p, BucketKey(a), b.bucketKey, pending);
        RekeyOneWrites(q, a, b, pending);
        RekeyMembersWrites(PutAccount(q, b), order[1..], st,
                           pending + (if b.bucketKey != a.bucketKey then {a.id} else {}));
        assert pending + (if b.bucketKey != a.bucketKey then {a.id} else {}) + RekeyMembers(PutAccount(q, b), order[1..], st).1
            == pending + RekeyMembers(p, order, st).1;
      }
    }
  }

  /** An account whose key did not change needs no write. */
  lemma RekeyOneWrites(p: Pool, a: Account, b: Account, pending: set<string>)
    requires WrittenExcept(p, pending) && a.id in p.accounts && p.accounts[a.id] == a
    requires b == a.(bucketKey := b.bucketKey)
    ensures WrittenExcept(PutAccount(p, b), pending + (if b.bucketKey != a.bucketKey then {a.id} else {}))
  {
    if b.bucketKey != a.bucketKey { PutAccountWrites(p, b, pending); } else { assert b == a; }
  }

  lemma ObserveWrites(p0: Pool, id: string, e: Effect, now: int, order: seq<string>)
    requires DiskOk(p0.disk)
    ensures WrittenThrough(Observe(p0, id, e, now, order))
  {
    ReloadWrites(p0);
    var p := Reload(p0);
    if id in p.accounts {
      var a := p.accounts[id];
      SaveBucketWrites(p, BucketKey(a), DEFAULT_BUCKET, {});
      ApplyEffectWrites(EnsureBucket(p, BucketKey(a)), a, e, now);
      SettleWrites(ApplyEffect(EnsureBucket(p, BucketKey(a)), a, e, now), a, Touched(e, id), order, e.updatedState);
    }
  }

  lemma SettleWrites(p: Pool, a: Account, touched: set<string>, order: seq<string>, st: string)
    requires WrittenExcept(p, touched) && BucketKey(a) in p.buckets
    ensures WrittenThrough(Settle(p, a, touched, order, st))
  {
    var key := BucketKey(a);
    if st == "" {
      PersistWrites(p, touched);
    } else {
      SaveBucketWrites(p, key, p.buckets[key].(state := st), touched);
      RekeyMembersWrites(SaveBucket(p, key, p.buckets[key].(state := st)), Members(p, order, a.provider, key), st, touched);
      var (q, changed) := UpdateState(p, a, order, st);
      PersistWrites(q, touched + changed);
    }
  }

  lemma ClearWrites(p: Pool, key: string, pending: set<string>)
    requires WrittenExcept(p, pending)
    ensures WrittenExcept(ClearBucket(EnsureBucket(p, key), key), pending) && WrittenExcept(ClearBucket(p, key), pending)
  {
    SaveBucketWrites(p, key, DEFAULT_BUCKET, pending);
    var q := EnsureBucket(p, key);
    SaveBucketWrites(q, key, q.buckets[key].(cooldown := None), pending);
    if key in p.buckets { SaveBucketWrites(p, key, p.buckets[key].(cooldown := None), pending); }
  }

  lemma UpdateWrites(p0: Pool, id: string, edit: Edit)
    requires DiskOk(p0.disk)
    ensures WrittenThrough(Update(p0, id, edit))
  {
    ReloadWrites(p0);
    var p := Reload(p0);
    if id in p.accounts {
      var a := p.accounts[id];
      var e := edit(Project(a, p.buckets));
      EditedWrites(p, e.account.(id := a.id, bucketKey := a.bucketKey), e.cooldown, StateOr(e.state));
    }
  }

  lemma EditedWrites(p: Pool, b: Account, cooldown: Option<int>, st: string)
    requires WrittenThrough(p)
    ensures var c := Rekeyed(p, b, st); var q := EnsureBucket(RefreshKey(p, b, st), c.bucketKey);
      && c.bucketKey in q.buckets && WrittenThrough(SaveAccount(q, c))
      && WrittenThrough(SaveAccount(SaveBucket(q, c.bucketKey, Bucket(cooldown, st)), c))
  {
    var c := Rekeyed(p, b, st);
    var q := EnsureBucket(RefreshKey(p, b, st), c.bucketKey);
    RekeyedBucketWrites(p, b, st, Bucket(cooldown, st));
    SaveAccountWrites(q, c, {});
    SaveAccountWrites(SaveBucket(q, c.bucketKey, Bucket(cooldown, st)), c, {});
  }

  lemma RekeyedBucketWrites(p: Pool, a: Account, st: string, bucket: Bucket)
    requires WrittenThrough(p)
    ensures var key := Rekeyed(p, a, st).bucketKey; var q := EnsureBucket(RefreshKey(p, a, st), key);
      && WrittenThrough(q) && key in q.buckets && WrittenThrough(SaveBucket(q, key, bucket))
  {
    var key := Rekeyed(p, a, st).bucketKey;
    MoveBucketWrites(p, BucketKey(a), key, {});
    SaveBucketWrites(RefreshKey(p, a, st), key, DEFAULT_BUCKET, {});
    SaveBucketWrites(EnsureBucket(RefreshKey(p, a, st), key), key, bucket, {});
  }

  lemma AddWrites(p0: Pool, shown: Projection)
    requires DiskOk(p0.disk)
    ensures WrittenThrough(Add(p0, shown))
  {
    ReloadWrites(p0);
    var p, st := Reload(p0), StateOr(shown.state);
    RekeyedBucketWrites(p, shown.account, st, Bucket(shown.cooldown, st));
    var c := Rekeyed(p, shown.account, st);
    SaveAccountWrites(SaveBucket(EnsureBucket(RefreshKey(p, shown.account, st), c.bucketKey), c.bucketKey,
                                 Bucket(shown.cooldown, st)), c, {});
  }

  lemma DeleteWrites(p0: Pool, id: string)
    requires DiskOk(p0.disk)
    ensures WrittenThrough(Delete(p0, id))
  {
    ReloadWrites(p0);
  }

  lemma StoreTokensWrites(p0: Pool, id: string, tokens: Tokens, now: int)
    requires DiskOk(p0.disk)
    ensures WrittenThrough(StoreTokens(p0, id, tokens, now))
  {
    ReloadWrites(p0);
    var p := Reload(p0);
    if id in p.accounts {
      var a := p.accounts[id].(tokens := tokens, lastRefresh := Some(now), status := Active, errorMessage := "");
      ClearWrites(p, BucketKey(a), {});
      SaveAccountWrites(ClearBucket(EnsureBucket(p, BucketKey(a)), BucketKey(a)), a, {});
    }
  }

  lemma RecoverBucketWrites(p0: Pool, id: string)
    requires DiskOk(p0.disk)
    ensures WrittenThrough(RecoverBucket(p0, id))
  {
    ReloadWrites(p0);
    var p := Reload(p0);
    if id in p.accounts {
      var key := BucketKey(p.accounts[id]);
      var all := map i | i in p.accounts :: Recovered(p.accounts[i], key);
      var q := p.(accounts := all, disk := p.disk.(accounts := p.disk.accounts + all));
      assert q.disk.accounts == all;
      assert WrittenThrough(q);
      ClearWrites(q, key, {});
    }
  }

  lemma {:induction false} AdoptKeysWrites(p: Pool, order: seq<string>)
    requires WrittenThrough(p)
    ensures WrittenThrough(AdoptKeys(p, order))
    decreases |order|
  {
    if order != [] {
      if order[0] in p.accounts {
        AdoptKeyWrites(p, order[0]);
        AdoptKeysWrites(AdoptKey(p, order[0]), order[1..]);
      } else {
        AdoptKeysWrites(p, order[1..]);
      }
    }
  }

  lemma AdoptKeyWrites(p: Pool, id: string)
    requires WrittenThrough(p) && id in p.accounts
    ensures WrittenThrough(AdoptKey(p, id))
  {
    var a := p.accounts[id];
    var st := Project(a, p.buckets).state;
    var b := Rekeyed(p, a, st);
    RekeyedBucketWrites(p, a, st, DEFAULT_BUCKET);
    SaveAccountWrites(EnsureBucket(RefreshKey(p, a, st), b.bucketKey), b, {});
  }

  lemma {:induction false} ExpireWrites(p: Pool, keys: seq<string>, now: int)
    requires WrittenThrough(p)
    ensures WrittenThrough(ExpireAll(p, keys, now))
    decreases |keys|
  {
    if keys != [] {
      if keys[0] in p.buckets { SaveBucketWrites(p, keys[0], p.buckets[keys[0]].(cooldown := None), {}); }
      ExpireWrites(ExpireBucket(p, keys[0], now), keys[1..], now);
    }
  }

  lemma {:induction false} EnforceOneWrites(p: Pool, key: string, now: int, order: seq<string>)
    requires WrittenThrough(p)
    ensures WrittenThrough(EnforceBucket(p, key, now, order))
  {
    if order != [] {
      EnforceOneWrites(p, key, now, order[1..]);
      if order[0] in p.accounts && key in p.buckets {
        var t := Exhausted(p, p.accounts[order[0]], now);
        SaveBucketWrites(p, key, p.buckets[key].(cooldown := Join(p.buckets[key].cooldown, t)), {});
      }
    }
  }

  lemma {:induction false} EnforceWrites(p: Pool, keys: seq<string>, now: int, order: seq<string>)
    requires WrittenThrough(p)
    ensures WrittenThrough(EnforceAll(p, keys, now, order))
    decreases |keys|
  {
    if keys != [] {
      EnforceOneWrites(p, keys[0], now, order);
      EnforceWrites(EnforceAvailable(p, keys[0], now, order), keys[1..], now, order);
    }
  }

  /* ---------- every operation, every run ---------- */

  datatype Op =
    | DoObserve(id: string, effect: Effect, now: int, order: seq<string>)
    | DoUpdate(id: string, edit: Edit)
    | DoAdd(shown: Projection)
    | DoDelete(id: string)
    | DoStoreTokens(id: string, tokens: Tokens, now: int)
    | DoRecoverBucket(id: string)
    | DoMarkError(id: string, message: string)
    | DoClearCooldown(id: string)
    | DoSetDrivers(drivers: map<string, Driver>, order: seq<string>)
    | DoCleanup(now: int, first: seq<string>, second: seq<string>, order: seq<string>)
    | DoRefresh

  function Apply(p: Pool, op: Op): Pool {
    match op
    case DoObserve(id, e, now, order) => Observe(p, id, e, now, order)
    case DoUpdate(id, edit) => Update(p, id, edit)
    case DoAdd(shown) => Add(p, shown)
    case DoDelete(id) => Delete(p, id)
    case DoStoreTokens(id, tokens, now) => StoreTokens(p, id, tokens, now)
    case DoRecoverBucket(id) => RecoverBucket(p, id)
    case DoMarkError(id, message) => MarkError(p, id, message)
    case DoClearCooldown(id) => ClearCooldown(p, id)
    case DoSetDrivers(drivers, order) => SetDrivers(p, drivers, order)
    case DoCleanup(now, first, second, order) => Cleanup(p, now, first, second, order)
    case DoRefresh => Reload(p)
  }

  /** Whatever memory held before, even if it had gone stale, the operation leaves it coherent. */
  lemma OperationLeavesCoherent(p: Pool, op: Op)
    requires DiskOk(p.disk)
    ensures Coherent(Apply(p, op)) && DiskOk(Apply(p, op).disk)
  {
    OperationWritesThrough(p, op);
    WrittenThroughIsCoherent(Apply(p, op));
  }

  lemma OperationWritesThrough(p: Pool, op: Op)
    requires DiskOk(p.disk)
    ensures WrittenThrough(Apply(p, op))
  {
    if op.DoObserve? {
      ObserveWrites(p, op.id, op.effect, op.now, op.order);
    } else if op.DoSetDrivers? {
      SetDriversWrites(p, op.drivers, op.order);
    } else if op.DoCleanup? {
      CleanupWrites(p, op.now, op.first, op.second, op.order);
    } else if op.DoRefresh? {
      ReloadWrites(p);
    } else {
      AdministrationWrites(p, op);
    }
  }

  lemma AdministrationWrites(p: Pool, op: Op)
    requires DiskOk(p.disk) && !op.DoObserve? && !op.DoSetDrivers? && !op.DoCleanup? && !op.DoRefresh?
    ensures WrittenThrough(Apply(p, op))
  {
    if op.DoUpdate? {
      UpdateWrites(p, op.id, op.edit);
    } else if op.DoAdd? {
      AddWrites(p, op.shown);
    } else if op.DoDelete? {
      DeleteWrites(p, op.id);
    } else if op.DoStoreTokens? {
      StoreTokensWrites(p, op.id, op.tokens, op.now);
    } else if op.DoRecoverBucket? {
      RecoverBucketWrites(p, op.id);
    } else if op.DoMarkError? {
      MarkErrorWrites(p, op.id, op.message);
    } else {
      ClearCooldownWrites(p, op.id);
    }
  }

  lemma MarkErrorWrites(p: Pool, id: string, message: string)
    requires DiskOk(p.disk)
    ensures WrittenThrough(MarkError(p, id, message))
  {
    ReloadWrites(p);
    if id in p.disk.accounts {
      SaveAccountWrites(Reload(p), p.disk.accounts[id].(status := Error, errorMessage := message), {});
    }
  }

  lemma ClearCooldownWrites(p: Pool, id: string)
    requires DiskOk(p.disk)
    ensures WrittenThrough(ClearCooldown(p, id))
  {
    ReloadWrites(p);
    if id in p.disk.accounts { ClearWrites(Reload(p), BucketKey(p.disk.accounts[id]), {}); }
  }

  lemma SetDriversWrites(p: Pool, drivers: map<string, Driver>, order: seq<string>)
    requires DiskOk(p.disk)
    ensures WrittenThrough(SetDrivers(p, drivers, order))
  {
    ReloadWrites(p);
    AdoptKeysWrites(Reload(p).(drivers := drivers), order);
  }

  lemma CleanupWrites(p: Pool, now: int, first: seq<string>, second: seq<string>, order: seq<string>)
    requires DiskOk(p.disk)
    ensures WrittenThrough(Cleanup(p, now, first, second, order))
  {
    ReloadWrites(p);
    ExpireWrites(Reload(p), first, now);
    EnforceWrites(ExpireAll(Reload(p), first, now), second, now, order);
  }

  function ApplyAll(p: Pool, ops: seq<Op>): Pool
    decreases |ops|
  {
    if ops == [] then p else ApplyAll(Apply(p, ops[0]), ops[1..])
  }

  /** Coherence over whole runs: after every prefix of every sequence of operations. */
  lemma {:induction false} RunStaysCoherent(p: Pool, ops: seq<Op>, n: nat)
    requires DiskOk(p.disk) && Coherent(p) && n <= |ops|
    ensures Coherent(ApplyAll(p, ops[..n]))
    decreases n
  {
    if n > 0 {
      OperationLeavesCoherent(p, ops[0]);
      RunStaysCoherent(Apply(p, ops[0]), ops[1..], n - 1);
      assert ops[..n][1..] == ops[1..][..n - 1];
    }
  }
}

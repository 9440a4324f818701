/** What a bucket's cooldown and its circuit breaker look like after a whole history of operations, when the quota
    states observed leave the accounts' bucket keys as they are. */
module PoolHistory {
  import opened Domain
  import opened PoolState
  import opened PoolCoherence

  /** One call of Observe. */
  datatype Event = Event(id: string, effect: Effect, now: int, order: seq<string>)

  /** `b` is `a` up to what operations may change without moving the account to another bucket. */
  predicate Alike(a: Account, b: Account) {
    && b == a.(status := b.status, errorMessage := b.errorMessage, lastUsed := b.lastUsed, bucketKey := b.bucketKey,
               tokens := b.tokens, lastRefresh := b.lastRefresh)
    && BucketKey(b) == BucketKey(a)
  }

  /** For the quota state `st` the drivers derive the keys the accounts already have. */
  ghost predicate StableUnder(drivers: map<string, Driver>, accounts: map<string, Account>, st: string) {
    forall id, b | id in accounts && Alike(accounts[id], b) :: DerivedKey(drivers, b, st) == BucketKey(b)
  }

  /** An effect without a quota state moves nobody. */
  ghost predicate Stays(drivers: map<string, Driver>, accounts: map<string, Account>, st: string) {
    st != "" ==> StableUnder(drivers, accounts, st)
  }

  /** The bucket an account id belongs to, if the account exists. */
  function KeyOf(p: Pool, id: string): Option<string> {
    if id in p.disk.accounts then Some(BucketKey(p.disk.accounts[id])) else None
  }

  function CooldownOf(p: Pool, key: string): Option<int> {
    if key in p.disk.buckets then p.disk.buckets[key].cooldown else None
  }

  ghost predicate SameKeys(p: Pool, q: Pool) {
    && q.drivers == p.drivers && DiskOk(q.disk) && q.disk.accounts.Keys == p.disk.accounts.Keys
    && forall id <- p.disk.accounts :: Alike(p.disk.accounts[id], q.disk.accounts[id])
  }

  /** The cooldown an event proposes for its bucket when the breaker has counted `n` errors before it. */
  function Proposal(e: Event, n: nat): Option<int> {
    match e.effect.kind
    case ServerError => if n + 1 >= 3 then Some(e.now + 30) else None
    case Success => None
    case Reject => None
    case _ => Some(e.effect.until)
  }

  function Joined(c: Option<int>, proposal: Option<int>): Option<int> {
    if proposal.None? then c else Join(c, proposal.value)
  }

  function ErrorsAfter(e: Event, n: nat): nat {
    if e.effect.kind == ServerError && n + 1 < 3 then n + 1 else 0
  }

  /* ---------- one observation ---------- */

  /** `b` is `a`, with its key spelled out or not. */
  predicate KeyOnly(a: Account, b: Account) {
    b == a.(bucketKey := b.bucketKey) && BucketKey(b) == BucketKey(a)
  }

  lemma {:induction false} StableMembers(p: Pool, order: seq<string>, st: string)
    requires StableUnder(p.drivers, p.accounts, st) && (forall id <- p.accounts :: p.accounts[id].id == id)
    ensures var (q, changed) := RekeyMembers(p, order, st);
      && q.disk == p.disk && q.errs == p.errs && q.drivers == p.drivers && q.accounts.Keys == p.accounts.Keys
      && (forall id <- p.accounts :: KeyOnly(p.accounts[id], q.accounts[id]))
    decreases |order|
  {
    if order != [] {
      if order[0] in p.accounts {
        var a := p.accounts[order[0]];
        assert Alike(a, a);
        assert DerivedKey(p.drivers, a, st) == BucketKey(a);
        StableMembers(PutAccount(RefreshKey(p, a, st), Rekeyed(p, a, st)), order[1..], st);
      } else {
        StableMembers(p, order[1..], st);
      }
    }
  }

  /** Stored cooldowns are the ones in memory, for stored and for default buckets alike. */
  ghost predicate CooldownsStored(p: Pool) {
    && (forall k <- p.disk.buckets :: k in p.buckets)
    && (forall k <- p.buckets :: CooldownOf(p, k) == p.buckets[k].cooldown)
  }

  lemma EffectTouchesOne(p: Pool, a: Account, e: Effect, now: int)
    requires BucketKey(a) in p.buckets
    ensures var q := ApplyEffect(p, a, e, now);
      q.accounts == p.accounts[a.id := EffectAccount(a, e, now)] && BucketKey(a) in q.buckets && q.drivers == p.drivers
  {
  }

  lemma SaveChanges(p: Pool, key: string, b: Bucket)
    requires CooldownsStored(p) && key in p.buckets
    ensures var q := SaveBucket(p, key, b);
      && CooldownsStored(q) && key in q.buckets
      && (forall k :: CooldownOf(q, k) == if k == key then b.cooldown else CooldownOf(p, k))
  {
  }

  /** `q` differs from `p` by one event's proposal and count under `key`. */
  ghost predicate Changed(p: Pool, q: Pool, key: string, e: Event) {
    && (forall k :: CooldownOf(q, k) ==
          if k == key then Joined(CooldownOf(p, k), Proposal(e, Errors(p, key))) else CooldownOf(p, k))
    && (forall k :: Errors(q, k) == if k == key then ErrorsAfter(e, Errors(p, key)) else Errors(p, k))
  }

  lemma BucketChanges(p: Pool, key: string, e: Event)
    requires CooldownsStored(p) && key in p.buckets
    ensures var q := EffectBucket(p, key, e.effect, e.now);
      && Changed(p, q, key, e) && CooldownsStored(q) && key in q.buckets
      && q.accounts == p.accounts && q.disk.accounts == p.disk.accounts && q.drivers == p.drivers
  {
    var q := EffectBucket(p, key, e.effect, e.now);
    ErrorsChange(p, key, e);
    CooldownsChange(p, key, e);
  }

  lemma ErrorsChange(p: Pool, key: string, e: Event)
    requires key in p.buckets
    ensures var q := EffectBucket(p, key, e.effect, e.now);
      forall k :: Errors(q, k) == if k == key then ErrorsAfter(e, Errors(p, key)) else Errors(p, k)
  {
  }

  lemma CooldownsChange(p: Pool, key: string, e: Event)
    requires CooldownsStored(p) && key in p.buckets
    ensures var q := EffectBucket(p, key, e.effect, e.now);
      && CooldownsStored(q) && key in q.buckets
      && forall k :: CooldownOf(q, k) == if k == key then Joined(CooldownOf(p, k), Proposal(e, Errors(p, key))) else CooldownOf(p, k)
  {
    var q := EffectBucket(p, key, e.effect, e.now);
    if Proposal(e, Errors(p, key)).Some? {
      CoolChanges(p, q, key, Proposal(e, Errors(p, key)).value);
    } else {
      assert q.buckets == p.buckets && q.disk == p.disk;
    }
  }

  /** `q` has the buckets of `p` with one of them cooled down. */
  lemma CoolChanges(p: Pool, q: Pool, key: string, until: int)
    requires CooldownsStored(p) && key in p.buckets
    requires q.buckets == Cool(p, key, until).buckets && q.disk == Cool(p, key, until).disk
    ensures CooldownsStored(q) && key in q.buckets
    ensures forall k :: CooldownOf(q, k) == if k == key then Join(CooldownOf(p, k), until) else CooldownOf(p, k)
  {
    SaveChanges(p, key, p.buckets[key].(cooldown := Join(p.buckets[key].cooldown, until)));
  }

  /** Account `id` kept its key, and was not unblocked. */
  ghost predicate OneAccountChanged(p: Pool, q: Pool, id: string) {
    && id in p.accounts && q.accounts.Keys == p.accounts.Keys
    && (forall i <- p.accounts ::
          && q.accounts[i].id == i && Alike(p.accounts[i], q.accounts[i])
          && (q.accounts[i].status == p.accounts[i].status || q.accounts[i].status == Blocked))
  }

  ghost predicate Loaded(p: Pool) {
    && DiskOk(p.disk) && p.accounts == p.disk.accounts && CooldownsStored(p)
    && forall id <- p.accounts :: BucketKey(p.accounts[id]) in p.buckets
  }

  lemma EffectChanges(p: Pool, id: string, e: Event)
    requires Loaded(p) && id in p.accounts
    ensures var a := p.accounts[id]; var q := ApplyEffect(p, a, e.effect, e.now);
      && Changed(p, q, BucketKey(a), e) && OneAccountChanged(p, q, id) && CooldownsStored(q) && BucketKey(a) in q.buckets
      && q.disk.accounts == p.disk.accounts && q.drivers == p.drivers
  {
    var a := p.accounts[id];
    var m := PutAccount(p, EffectAccount(a, e.effect, e.now));
    PutChanges(p, id, EffectAccount(a, e.effect, e.now));
    BucketChanges(m, BucketKey(a), e);
  }

  lemma PutChanges(p: Pool, id: string, b: Account)
    requires Loaded(p) && id in p.accounts && Alike(p.accounts[id], b)
    requires b.status == p.accounts[id].status || b.status == Blocked
    ensures var m := PutAccount(p, b);
      && OneAccountChanged(p, m, id) && CooldownsStored(m)
      && (forall k :: CooldownOf(m, k) == CooldownOf(p, k) && Errors(m, k) == Errors(p, k))
  {
  }

  /** Accounts in memory and in the store have the same ids and keys. */
  ghost predicate KeysAgree(q: Pool) {
    && (forall id <- q.accounts :: q.accounts[id].id == id)
    && q.accounts.Keys == q.disk.accounts.Keys && DiskOk(q.disk)
    && (forall id <- q.accounts :: Alike(q.disk.accounts[id], q.accounts[id]))
  }

  lemma PersistKeeps(q: Pool, ids: set<string>)
    requires KeysAgree(q)
    ensures var t := PersistAccounts(q, ids);
      SameKeys(q, t) && t.errs == q.errs && t.accounts == q.accounts && t.disk.buckets == q.disk.buckets
  {
  }

  lemma AlikeStaysStable(drivers: map<string, Driver>, before: map<string, Account>, after: map<string, Account>,
                         st: string)
    requires Stays(drivers, before, st) && after.Keys == before.Keys
    requires forall id <- before :: Alike(before[id], after[id])
    ensures Stays(drivers, after, st)
  {
    if st == "" { return; }
    forall id, b | id in after && Alike(after[id], b) ensures DerivedKey(drivers, b, st) == BucketKey(b) {
      assert Alike(before[id], b);
    }
  }

  lemma UpdateStateKeeps(q: Pool, a: Account, order: seq<string>, st: string)
    requires StableUnder(q.drivers, q.disk.accounts, st) && BucketKey(a) in q.buckets && CooldownsStored(q)
    requires KeysAgree(q)
    ensures var t := UpdateState(q, a, order, st).0;
      && KeysAgree(t) && t.errs == q.errs && t.drivers == q.drivers && t.disk.accounts == q.disk.accounts
      && (forall k :: CooldownOf(t, k) == CooldownOf(q, k))
      && (forall id <- q.accounts :: id in t.accounts && t.accounts[id].status == q.accounts[id].status)
  {
    var key := BucketKey(a);
    SaveChanges(q, key, q.buckets[key].(state := st));
    AlikeStaysStable(q.drivers, q.disk.accounts, q.accounts, st);
    StableMembers(SaveBucket(q, key, q.buckets[key].(state := st)), Members(q, order, a.provider, key), st);
  }

  lemma SettleKeeps(q: Pool, a: Account, touched: set<string>, order: seq<string>, st: string)
    requires Stays(q.drivers, q.disk.accounts, st) && BucketKey(a) in q.buckets && CooldownsStored(q) && KeysAgree(q)
    ensures var t := Settle(q, a, touched, order, st);
      && SameKeys(q, t) && t.errs == q.errs && (forall k :: CooldownOf(t, k) == CooldownOf(q, k))
      && (forall id <- q.accounts :: id in t.accounts && t.accounts[id].status == q.accounts[id].status)
  {
    if st == "" {
      PersistKeeps(q, touched);
    } else {
      UpdateStateKeeps(q, a, order, st);
      var (u, changed) := UpdateState(q, a, order, st);
      PersistAfter(q, u, touched + changed);
    }
  }

  lemma PersistAfter(q: Pool, u: Pool, ids: set<string>)
    requires KeysAgree(u) && u.errs == q.errs && u.drivers == q.drivers && u.disk.accounts == q.disk.accounts
    requires forall k :: CooldownOf(u, k) == CooldownOf(q, k)
    requires forall id <- q.accounts :: id in u.accounts && u.accounts[id].status == q.accounts[id].status
    ensures var t := PersistAccounts(u, ids);
      && SameKeys(q, t) && t.errs == q.errs && (forall k :: CooldownOf(t, k) == CooldownOf(q, k))
      && (forall id <- q.accounts :: id in t.accounts && t.accounts[id].status == q.accounts[id].status)
  {
    PersistKeeps(u, ids);
  }

  lemma ReloadIsLoaded(p: Pool)
    requires DiskOk(p.disk)
    ensures Loaded(Reload(p))
    ensures forall k :: CooldownOf(Reload(p), k) == CooldownOf(p, k) && Errors(Reload(p), k) == Errors(p, k)
  {
    var r := Reload(p);
    forall id | id in r.accounts ensures BucketKey(r.accounts[id]) in r.buckets {
      assert BucketKey(r.accounts[id]) in KeysInUse(p.disk.accounts);
    }
  }

  /** One observation joins its proposal into its own bucket, counts for its own bucket, and leaves every
      other bucket, and everybody's key, alone. */
  lemma ObserveChanges(p: Pool, e: Event)
    requires DiskOk(p.disk) && Stays(p.drivers, p.disk.accounts, e.effect.updatedState)
    ensures var q := Observe(p, e.id, e.effect, e.now, e.order);
      && SameKeys(p, q)
      && (match KeyOf(p, e.id)
          case Some(key) => Changed(p, q, key, e)
          case None => (forall k :: CooldownOf(q, k) == CooldownOf(p, k) && Errors(q, k) == Errors(p, k)))
  {
    ReloadIsLoaded(p);
    var r := Reload(p);
    if e.id in r.accounts {
      LoadedChanges(r, e);
    }
  }

  lemma LoadedChanges(r: Pool, e: Event)
    requires Loaded(r) && e.id in r.accounts && Stays(r.drivers, r.disk.accounts, e.effect.updatedState)
    ensures var a := r.accounts[e.id]; var q := ObserveLoaded(r, a, e.effect, e.now, e.order);
      && SameKeys(r, q) && Changed(r, q, BucketKey(a), e)
      && (forall i <- r.accounts :: i in q.accounts &&
            (q.accounts[i].status == r.accounts[i].status || q.accounts[i].status == Blocked))
  {
    var a := r.accounts[e.id];
    EffectChanges(r, e.id, e);
    var q := ApplyEffect(r, a, e.effect, e.now);
    assert KeysAgree(q);
    SettleKeeps(q, a, Touched(e.effect, a.id), e.order, e.effect.updatedState);
    assert EnsureBucket(r, BucketKey(a)) == r;
    Composed(r, q, Settle(q, a, Touched(e.effect, a.id), e.order, e.effect.updatedState), BucketKey(a), e);
  }

  lemma Composed(r: Pool, q: Pool, t: Pool, key: string, e: Event)
    requires Changed(r, q, key, e) && OneAccountChanged(r, q, e.id) && SameKeys(q, t) && t.errs == q.errs
    requires q.disk.accounts == r.disk.accounts && q.drivers == r.drivers
    requires forall k :: CooldownOf(t, k) == CooldownOf(q, k)
    requires forall id <- q.accounts :: id in t.accounts && t.accounts[id].status == q.accounts[id].status
    ensures SameKeys(r, t) && Changed(r, t, key, e)
    ensures forall i <- r.accounts ::
      i in t.accounts && (t.accounts[i].status == r.accounts[i].status || t.accounts[i].status == Blocked)
  {
    assert forall k :: Errors(t, k) == Errors(q, k);
  }

  /* ---------- the other operations ---------- */

  /** Operations that leave every account where it is, provided that observed quota states do. */
  predicate KeepsKeys(op: Op) {
    op.DoObserve? || op.DoCleanup? || op.DoClearCooldown? || op.DoMarkError? || op.DoStoreTokens? || op.DoRecoverBucket? || op.DoRefresh?
  }

  /** Operations that neither clear nor enforce a cooldown of their own accord. */
  predicate NonClearing(op: Op) {
    op.DoObserve? || op.DoMarkError? || op.DoRefresh?
  }

  /** The error counters and the drivers are as before. */
  ghost predicate SameCounters(p: Pool, q: Pool) {
    q.errs == p.errs && q.drivers == p.drivers
  }

  lemma {:induction false} ExpireKeepsCounters(p: Pool, keys: seq<string>, now: int)
    ensures SameCounters(p, ExpireAll(p, keys, now)) && ExpireAll(p, keys, now).disk.accounts == p.disk.accounts
    decreases |keys|
  {
    if keys != [] { ExpireKeepsCounters(ExpireBucket(p, keys[0], now), keys[1..], now); }
  }

  lemma {:induction false} EnforceKeepsCounters(p: Pool, key: string, now: int, order: seq<string>)
    ensures SameCounters(p, EnforceBucket(p, key, now, order)) && EnforceBucket(p, key, now, order).disk.accounts == p.disk.accounts
  {
    if order != [] { EnforceKeepsCounters(p, key, now, order[1..]); }
  }

  lemma {:induction false} EnforceAllKeepsCounters(p: Pool, keys: seq<string>, now: int, order: seq<string>)
    ensures SameCounters(p, EnforceAll(p, keys, now, order)) && EnforceAll(p, keys, now, order).disk.accounts == p.disk.accounts
    decreases |keys|
  {
    if keys != [] {
      EnforceKeepsCounters(p, keys[0], now, order);
      EnforceAllKeepsCounters(EnforceAvailable(p, keys[0], now, order), keys[1..], now, order);
    }
  }

  /** `q` has the drivers, counters and stored accounts of `p`, up to one account or more that stay where they are. */
  ghost predicate StaysPut(p: Pool, q: Pool, accounts: map<string, Account>) {
    && SameCounters(p, q) && q.disk.accounts == accounts && accounts.Keys == p.disk.accounts.Keys
    && forall id <- p.disk.accounts :: accounts[id].id == id && Alike(p.disk.accounts[id], accounts[id])
  }

  lemma StaysPutKeeps(p: Pool, q: Pool, accounts: map<string, Account>)
    requires DiskOk(p.disk) && StaysPut(p, q, accounts)
    ensures SameKeys(p, q) && q.errs == p.errs
  {
  }

  lemma ClearFrame(p: Pool, key: string)
    ensures var q := ClearBucket(p, key); SameCounters(p, q) && q.disk.accounts == p.disk.accounts && q.accounts == p.accounts
    ensures var q := ClearBucket(EnsureBucket(p, key), key);
      SameCounters(p, q) && q.disk.accounts == p.disk.accounts && q.accounts == p.accounts
  {
  }

  lemma CleanupStaysPut(p: Pool, now: int, first: seq<string>, second: seq<string>, order: seq<string>)
    requires DiskOk(p.disk)
    ensures StaysPut(p, Cleanup(p, now, first, second, order), p.disk.accounts)
  {
    ExpireKeepsCounters(Reload(p), first, now);
    EnforceAllKeepsCounters(ExpireAll(Reload(p), first, now), second, now, order);
  }

  lemma RecoverStaysPut(p: Pool, id: string)
    requires DiskOk(p.disk) && id in p.disk.accounts
    ensures StaysPut(p, RecoverBucket(p, id), RecoverAll(p.disk.accounts, BucketKey(p.disk.accounts[id])))
  {
    var r := Reload(p);
    var key := BucketKey(p.disk.accounts[id]);
    var all := RecoverAll(r.accounts, key);
    ClearFrame(r.(accounts := all, disk := r.disk.(accounts := r.disk.accounts + all)), key);
    assert r.disk.accounts + all == all;
  }

  lemma TokensStayPut(p: Pool, id: string, tokens: Tokens, now: int)
    requires DiskOk(p.disk) && id in p.disk.accounts
    ensures var a := p.disk.accounts[id].(tokens := tokens, lastRefresh := Some(now), status := Active, errorMessage := "");
      StaysPut(p, StoreTokens(p, id, tokens, now), p.disk.accounts[id := a])
  {
    var r := Reload(p);
    var a := p.disk.accounts[id].(tokens := tokens, lastRefresh := Some(now), status := Active, errorMessage := "");
    ClearFrame(r, BucketKey(a));
    var q := ClearBucket(EnsureBucket(r, BucketKey(a)), BucketKey(a));
    assert StoreTokens(p, id, tokens, now) == SaveAccount(q, a);
  }

  lemma MarkErrorStaysPut(p: Pool, id: string, message: string)
    requires DiskOk(p.disk) && id in p.disk.accounts
    ensures StaysPut(p, MarkError(p, id, message),
                     p.disk.accounts[id := p.disk.accounts[id].(status := Error, errorMessage := message)])
  {
  }

  lemma ClearCooldownStaysPut(p: Pool, id: string)
    requires DiskOk(p.disk) && id in p.disk.accounts
    ensures StaysPut(p, ClearCooldown(p, id), p.disk.accounts)
  {
    ClearFrame(Reload(p), BucketKey(p.disk.accounts[id]));
  }

  /** Nothing but an observation touches a counter, and none of these operations moves anybody. */
  lemma OtherKeepsKeys(p: Pool, op: Op)
    requires DiskOk(p.disk) && KeepsKeys(op) && !op.DoObserve?
    ensures SameKeys(p, Apply(p, op)) && Apply(p, op).errs == p.errs
  {
    var accounts := OtherStaysPut(p, op);
    StaysPutKeeps(p, Apply(p, op), accounts);
  }

  lemma OtherStaysPut(p: Pool, op: Op) returns (accounts: map<string, Account>)
    requires DiskOk(p.disk) && KeepsKeys(op) && !op.DoObserve?
    ensures StaysPut(p, Apply(p, op), accounts)
  {
    accounts := p.disk.accounts;
    if op.DoCleanup? {
      CleanupStaysPut(p, op.now, op.first, op.second, op.order);
    } else if op.DoRefresh? {
    } else if op.id !in p.disk.accounts {
      assert Apply(p, op) == Reload(p);
    } else if op.DoRecoverBucket? {
      RecoverStaysPut(p, op.id);
      accounts := RecoverAll(p.disk.accounts, BucketKey(p.disk.accounts[op.id]));
    } else if op.DoStoreTokens? {
      TokensStayPut(p, op.id, op.tokens, op.now);
      accounts := Apply(p, op).disk.accounts;
    } else if op.DoMarkError? {
      MarkErrorStaysPut(p, op.id, op.message);
      accounts := Apply(p, op).disk.accounts;
    } else {
      ClearCooldownStaysPut(p, op.id);
    }
  }

  lemma OtherKeepsCooldowns(p: Pool, op: Op, k: string)
    requires DiskOk(p.disk) && NonClearing(op) && !op.DoObserve?
    ensures CooldownOf(Apply(p, op), k) == CooldownOf(p, k)
  {
  }

  /* ---------- whole histories ---------- */

  /** The pool after the operations of `h`. */
  function After(p: Pool, h: seq<Op>): Pool {
    if h == [] then p else Apply(After(p, h[..|h| - 1]), h[|h| - 1])
  }

  function EventOf(op: Op): Event
    requires op.DoObserve?
  {
    Event(op.id, op.effect, op.now, op.order)
  }

  /** Every operation leaves the accounts where they are, in particular the quota states observed do. */
  ghost predicate StableHistory(p: Pool, h: seq<Op>) {
    && DiskOk(p.disk)
    && forall i | 0 <= i < |h| ::
         KeepsKeys(h[i]) && (h[i].DoObserve? ==> Stays(p.drivers, p.disk.accounts, h[i].effect.updatedState))
  }

  predicate ClearsNothing(h: seq<Op>) {
    forall i | 0 <= i < |h| :: NonClearing(h[i])
  }

  /** `op` observes an effect of bucket `key`. */
  predicate Concerns(p: Pool, op: Op, key: string) {
    op.DoObserve? && KeyOf(p, op.id) == Some(key)
  }

  /** One operation: an observation changes what concerns its bucket, anything else no counter. */
  lemma OneOperation(p: Pool, op: Op, key: string)
    requires DiskOk(p.disk) && KeepsKeys(op) && (op.DoObserve? ==> Stays(p.drivers, p.disk.accounts, op.effect.updatedState))
    ensures var q := Apply(p, op);
      && SameKeys(p, q)
      && Errors(q, key) == (if Concerns(p, op, key) then ErrorsAfter(EventOf(op), Errors(p, key)) else Errors(p, key))
      && (NonClearing(op) ==>
            CooldownOf(q, key) ==
              if Concerns(p, op, key) then Joined(CooldownOf(p, key), Proposal(EventOf(op), Errors(p, key))) else CooldownOf(p, key))
  {
    if op.DoObserve? {
      ObserveChanges(p, EventOf(op));
    } else {
      OtherKeepsKeys(p, op);
      if NonClearing(op) { OtherKeepsCooldowns(p, op, key); }
    }
  }

  lemma {:induction false} HistoryKeepsKeys(p: Pool, h: seq<Op>)
    requires StableHistory(p, h)
    ensures SameKeys(p, After(p, h))
  {
    if h != [] {
      var op, prior := h[|h| - 1], h[..|h| - 1];
      HistoryKeepsKeys(p, prior);
      var q := After(p, prior);
      if op.DoObserve? { AlikeStaysStable(p.drivers, p.disk.accounts, q.disk.accounts, op.effect.updatedState); }
      OneOperation(q, op, "");
      SameKeysTransitive(p, q, After(p, h));
    }
  }

  lemma SameKeysTransitive(p: Pool, q: Pool, r: Pool)
    requires SameKeys(p, q) && SameKeys(q, r)
    ensures SameKeys(p, r)
  {
  }

  lemma LastStep(p: Pool, h: seq<Op>, key: string)
    requires StableHistory(p, h) && h != []
    ensures var op, q, r := h[|h| - 1], After(p, h[..|h| - 1]), After(p, h);
      && Errors(r, key) == (if Concerns(p, op, key) then ErrorsAfter(EventOf(op), Errors(q, key)) else Errors(q, key))
      && (NonClearing(op) ==>
            CooldownOf(r, key) ==
              if Concerns(p, op, key) then Joined(CooldownOf(q, key), Proposal(EventOf(op), Errors(q, key))) else CooldownOf(q, key))
  {
    var op, prior := h[|h| - 1], h[..|h| - 1];
    HistoryKeepsKeys(p, prior);
    var q := After(p, prior);
    if op.DoObserve? { AlikeStaysStable(p.drivers, p.disk.accounts, q.disk.accounts, op.effect.updatedState); }
    OneOperation(q, op, key);
    assert Concerns(q, op, key) == Concerns(p, op, key);
  }

  /* ---------- the circuit breaker ---------- */

  /** How many server errors the bucket has reported in a row at the end of the history, whichever of its accounts
      reported them and whatever else happened in between, counting on from what was counted at the start. */
  function Streak(p: Pool, h: seq<Op>, key: string): nat {
    if h == [] then Errors(p, key)
    else
      var op, before := h[|h| - 1], Streak(p, h[..|h| - 1], key);
      if !Concerns(p, op, key) then before
      else if op.effect.kind == ServerError then before + 1
      else 0
  }

  /** No counter has reached the limit. */
  ghost predicate BelowLimit(errs: map<string, nat>) {
    forall k <- errs :: errs[k] < 3
  }

  lemma {:induction false} RekeyKeepsCounters(p: Pool, order: seq<string>, st: string)
    ensures RekeyMembers(p, order, st).0.errs == p.errs
    decreases |order|
  {
    if order != [] {
      if order[0] in p.accounts {
        var a := p.accounts[order[0]];
        RekeyKeepsCounters(PutAccount(RefreshKey(p, a, st), Rekeyed(p, a, st)), order[1..], st);
      } else {
        RekeyKeepsCounters(p, order[1..], st);
      }
    }
  }

  lemma {:induction false} AdoptKeepsCounters(p: Pool, order: seq<string>)
    ensures AdoptKeys(p, order).errs == p.errs
    decreases |order|
  {
    if order != [] {
      if order[0] in p.accounts { AdoptKeepsCounters(AdoptKey(p, order[0]), order[1..]); } else { AdoptKeepsCounters(p, order[1..]); }
    }
  }

  lemma SettleKeepsCounters(q: Pool, a: Account, touched: set<string>, order: seq<string>, st: string)
    requires BucketKey(a) in q.buckets
    ensures Settle(q, a, touched, order, st).errs == q.errs
  {
    var key := BucketKey(a);
    if st != "" { RekeyKeepsCounters(SaveBucket(q, key, q.buckets[key].(state := st)), Members(q, order, a.provider, key), st); }
  }

  lemma EffectBelowLimit(p: Pool, a: Account, e: Effect, now: int)
    requires BucketKey(a) in p.buckets && BelowLimit(p.errs)
    ensures BelowLimit(ApplyEffect(p, a, e, now).errs) && BucketKey(a) in ApplyEffect(p, a, e, now).buckets
  {
  }

  lemma ObserveBelowLimit(p0: Pool, id: string, e: Effect, now: int, order: seq<string>)
    requires BelowLimit(p0.errs)
    ensures BelowLimit(Observe(p0, id, e, now, order).errs)
  {
    var p := Reload(p0);
    if id in p.accounts {
      var a := p.accounts[id];
      EffectBelowLimit(EnsureBucket(p, BucketKey(a)), a, e, now);
      SettleKeepsCounters(ApplyEffect(EnsureBucket(p, BucketKey(a)), a, e, now), a, Touched(e, a.id), order, e.updatedState);
    }
  }

  lemma SaveKeepsCounters(p: Pool, b: Account, cooldown: Option<int>, st: string)
    ensures SaveEdited(p, b, cooldown, st).errs == p.errs
  {
  }

  lemma UpdateKeepsCounters(p: Pool, id: string, edit: Edit)
    ensures Update(p, id, edit).errs == p.errs
  {
    var r := Reload(p);
    if id in r.accounts {
      var e := edit(Project(r.accounts[id], r.buckets));
      SaveKeepsCounters(r, e.account.(id := r.accounts[id].id, bucketKey := r.accounts[id].bucketKey), e.cooldown, StateOr(e.state));
    }
  }

  lemma AddKeepsCounters(p: Pool, shown: Projection)
    ensures Add(p, shown).errs == p.errs
  {
  }

  lemma DeleteKeepsCounters(p: Pool, id: string)
    ensures Delete(p, id).errs == p.errs
  {
  }

  /** Every operation whatsoever, stable or not, keeps every counter below the limit. */
  lemma OperationBelowLimit(p: Pool, op: Op)
    requires BelowLimit(p.errs)
    ensures BelowLimit(Apply(p, op).errs)
  {
    if op.DoObserve? {
      ObserveBelowLimit(p, op.id, op.effect, op.now, op.order);
    } else if op.DoSetDrivers? {
      AdoptKeepsCounters(Reload(p).(drivers := op.drivers), op.order);
    } else if op.DoUpdate? {
      UpdateKeepsCounters(p, op.id, op.edit);
    } else if op.DoAdd? {
      AddKeepsCounters(p, op.shown);
    } else if op.DoDelete? {
      DeleteKeepsCounters(p, op.id);
    } else {
      OthersKeepCounters(p, op);
    }
  }

  lemma OthersKeepCounters(p: Pool, op: Op)
    requires KeepsKeys(op) && !op.DoObserve?
    ensures Apply(p, op).errs == p.errs
  {
    if op.DoCleanup? {
      ExpireKeepsCounters(Reload(p), op.first, op.now);
      EnforceAllKeepsCounters(ExpireAll(Reload(p), op.first, op.now), op.second, op.now, op.order);
    } else if op.DoStoreTokens? {
      TokensKeepCounters(p, op.id, op.tokens, op.now);
    } else if op.DoRecoverBucket? {
      RecoverKeepsCounters(p, op.id);
    }
  }

  lemma TokensKeepCounters(p: Pool, id: string, tokens: Tokens, now: int)
    ensures StoreTokens(p, id, tokens, now).errs == p.errs
  {
  }

  lemma RecoverKeepsCounters(p: Pool, id: string)
    ensures RecoverBucket(p, id).errs == p.errs
  {
  }

  /** Between calls every counter is below the limit, on every run of operations. */
  lemma {:induction false} AlwaysBelowLimit(p: Pool, h: seq<Op>)
    requires BelowLimit(p.errs)
    ensures BelowLimit(After(p, h).errs)
  {
    if h != [] {
      AlwaysBelowLimit(p, h[..|h| - 1]);
      OperationBelowLimit(After(p, h[..|h| - 1]), h[|h| - 1]);
    }
  }

  /* ---------- the cooldown ---------- */

  /** The breaker's counter and the bucket's cooldown, computed from the history alone. */
  function Tally(p: Pool, h: seq<Op>, key: string): (r: (nat, Option<int>)) {
    if h == [] then (Errors(p, key), CooldownOf(p, key))
    else
      var op, (n, c) := h[|h| - 1], Tally(p, h[..|h| - 1], key);
      if Concerns(p, op, key) then (ErrorsAfter(EventOf(op), n), Joined(c, Proposal(EventOf(op), n))) else (n, c)
  }

  lemma {:induction false} TallyIsPool(p: Pool, h: seq<Op>, key: string)
    requires StableHistory(p, h)
    ensures Tally(p, h, key).0 == Errors(After(p, h), key)
    ensures ClearsNothing(h) ==> Tally(p, h, key).1 == CooldownOf(After(p, h), key)
  {
    if h != [] {
      TallyIsPool(p, h[..|h| - 1], key);
      LastStep(p, h, key);
    }
  }

  lemma {:induction false} TallyCountsStreak(p: Pool, h: seq<Op>, key: string)
    requires Errors(p, key) < 3
    ensures Tally(p, h, key).0 == Streak(p, h, key) % 3
  {
    if h != [] { TallyCountsStreak(p, h[..|h| - 1], key); }
  }

  /** The breaker's counter is the bucket's current streak of server errors modulo three, whatever other operations that
      keep the keys happen in between. */
  lemma BreakerCountsStreak(p: Pool, h: seq<Op>, key: string)
    requires StableHistory(p, h) && Errors(p, key) < 3
    ensures Errors(After(p, h), key) == Streak(p, h, key) % 3
  {
    TallyIsPool(p, h, key);
    TallyCountsStreak(p, h, key);
  }

  /** The cooldown that the i-th operation of a history proposes for a bucket: the effect's own time, or half a minute
      after every third server error in a row. */
  function Proposed(p: Pool, h: seq<Op>, i: nat, key: string): Option<int>
    requires i < |h|
  {
    var op := h[i];
    if !Concerns(p, op, key) || op.effect.kind == Success || op.effect.kind == Reject then None
    else if op.effect.kind != ServerError then Some(op.effect.until)
    else if Streak(p, h[..i + 1], key) % 3 == 0 then Some(op.now + 30)
    else None
  }

  predicate AtLeast(c: Option<int>, d: Option<int>) {
    d.Some? ==> c.Some? && c.value >= d.value
  }

  /** `c` is the greatest of the bucket's first cooldown and everything the history proposed for it. */
  ghost predicate IsLatest(p: Pool, h: seq<Op>, key: string, c: Option<int>) {
    && AtLeast(c, CooldownOf(p, key))
    && (forall i | 0 <= i < |h| :: AtLeast(c, Proposed(p, h, i, key)))
    && (c == CooldownOf(p, key) || exists i | 0 <= i < |h| :: Proposed(p, h, i, key) == c)
  }

  lemma {:induction false} TallyIsLatest(p: Pool, h: seq<Op>, key: string)
    requires Errors(p, key) < 3
    ensures IsLatest(p, h, key, Tally(p, h, key).1)
  {
    if h != [] {
      var n := |h| - 1;
      var prior := h[..n];
      TallyIsLatest(p, prior, key);
      TallyCountsStreak(p, prior, key);
      LastProposal(p, h, key);
      forall i | 0 <= i < n ensures Proposed(p, h, i, key) == Proposed(p, prior, i, key) {
        assert h[..i + 1] == prior[..i + 1];
      }
      ExtendLatest(p, h, key, Tally(p, prior, key).1);
    }
  }

  lemma LastProposal(p: Pool, h: seq<Op>, key: string)
    requires h != [] && Tally(p, h[..|h| - 1], key).0 == Streak(p, h[..|h| - 1], key) % 3
    ensures Tally(p, h, key).1 == Joined(Tally(p, h[..|h| - 1], key).1, Proposed(p, h, |h| - 1, key))
  {
    var op, prior := h[|h| - 1], h[..|h| - 1];
    if Concerns(p, op, key) {
      LastProposed(p, h, key);
      assert Tally(p, h, key).1 == Joined(Tally(p, prior, key).1, Proposal(EventOf(op), Tally(p, prior, key).0));
    }
  }

  lemma LastProposed(p: Pool, h: seq<Op>, key: string)
    requires h != [] && Concerns(p, h[|h| - 1], key)
    ensures Proposed(p, h, |h| - 1, key) == Proposal(EventOf(h[|h| - 1]), Streak(p, h[..|h| - 1], key) % 3)
  {
    var op, n := h[|h| - 1], Streak(p, h[..|h| - 1], key);
    assert h[..|h| - 1 + 1] == h;
    ProposalByStreak(EventOf(op), n);
    assert op.effect.kind == ServerError ==> Streak(p, h, key) == n + 1;
  }

  lemma ProposalByStreak(e: Event, n: nat)
    ensures e.effect.kind == ServerError ==>
      Proposal(e, n % 3) == if (n + 1) % 3 == 0 then Some(e.now + 30) else None
  {
  }

  /** Cooldown is a join over the whole history: between clearing operations it is the greatest of the bucket's first
      cooldown and everything proposed since. */
  lemma CooldownIsLatest(p: Pool, h: seq<Op>, key: string)
    requires StableHistory(p, h) && ClearsNothing(h) && Errors(p, key) < 3
    ensures IsLatest(p, h, key, CooldownOf(After(p, h), key))
  {
    TallyIsPool(p, h, key);
    TallyIsLatest(p, h, key);
  }

  lemma ExtendLatest(p: Pool, h: seq<Op>, key: string, c: Option<int>)
    requires h != [] && IsLatest(p, h[..|h| - 1], key, c)
    requires forall i | 0 <= i < |h| - 1 :: Proposed(p, h, i, key) == Proposed(p, h[..|h| - 1], i, key)
    ensures IsLatest(p, h, key, Joined(c, Proposed(p, h, |h| - 1, key)))
  {
    var n := |h| - 1;
    var d := Joined(c, Proposed(p, h, n, key));
    forall i | 0 <= i < |h| ensures AtLeast(d, Proposed(p, h, i, key)) {
      assert i < n ==> AtLeast(c, Proposed(p, h[..n], i, key));
    }
    if d == c && c != CooldownOf(p, key) {
      var i :| 0 <= i < n && Proposed(p, h[..n], i, key) == c;
      assert Proposed(p, h, i, key) == d;
    }
  }

  /** Between clearing operations a cooldown is never shortened, whatever the counters were at the start. */
  lemma {:induction false} ObservingNeverShortens(p: Pool, h: seq<Op>, key: string)
    requires StableHistory(p, h) && ClearsNothing(h)
    ensures AtLeast(CooldownOf(After(p, h), key), CooldownOf(p, key))
  {
    if h != [] {
      ObservingNeverShortens(p, h[..|h| - 1], key);
      LastStep(p, h, key);
    }
  }

  /** Two histories that propose the same times for a bucket leave it with the same cooldown: neither the order of the
      effects nor the account that reported each of them matters. */
  lemma SameProposalsSameCooldown(p: Pool, h1: seq<Op>, h2: seq<Op>, key: string)
    requires StableHistory(p, h1) && StableHistory(p, h2) && ClearsNothing(h1) && ClearsNothing(h2)
    requires Errors(p, key) < 3
    requires forall i | 0 <= i < |h1| && Proposed(p, h1, i, key).Some? ::
      exists j | 0 <= j < |h2| :: Proposed(p, h2, j, key) == Proposed(p, h1, i, key)
    requires forall j | 0 <= j < |h2| && Proposed(p, h2, j, key).Some? ::
      exists i | 0 <= i < |h1| :: Proposed(p, h1, i, key) == Proposed(p, h2, j, key)
    ensures CooldownOf(After(p, h1), key) == CooldownOf(After(p, h2), key)
  {
    CooldownIsLatest(p, h1, key);
    CooldownIsLatest(p, h2, key);
    LatestBelow(p, h1, h2, key, CooldownOf(After(p, h1), key), CooldownOf(After(p, h2), key));
    LatestBelow(p, h2, h1, key, CooldownOf(After(p, h2), key), CooldownOf(After(p, h1), key));
  }

  lemma LatestBelow(p: Pool, h1: seq<Op>, h2: seq<Op>, key: string, c1: Option<int>, c2: Option<int>)
    requires IsLatest(p, h1, key, c1) && IsLatest(p, h2, key, c2)
    requires forall i | 0 <= i < |h1| && Proposed(p, h1, i, key).Some? ::
      exists j | 0 <= j < |h2| :: Proposed(p, h2, j, key) == Proposed(p, h1, i, key)
    ensures AtLeast(c2, c1)
  {
    if c1 != CooldownOf(p, key) && c1.Some? {
      var i :| 0 <= i < |h1| && Proposed(p, h1, i, key) == c1;
      var j :| 0 <= j < |h2| && Proposed(p, h2, j, key) == Proposed(p, h1, i, key);
    }
  }

  /* ---------- other buckets ---------- */

  /** The operations of a history that observe an effect of one bucket. */
  function Own(p: Pool, h: seq<Op>, key: string): seq<Op> {
    if h == [] then []
    else
      var before := Own(p, h[..|h| - 1], key);
      if Concerns(p, h[|h| - 1], key) then before + [h[|h| - 1]] else before
  }

  lemma {:induction false} OwnIsStable(p: Pool, h: seq<Op>, key: string)
    ensures forall i | 0 <= i < |Own(p, h, key)| :: Own(p, h, key)[i] in h && Concerns(p, Own(p, h, key)[i], key)
    ensures StableHistory(p, h) ==> StableHistory(p, Own(p, h, key))
    ensures ClearsNothing(h) ==> ClearsNothing(Own(p, h, key))
  {
    if h != [] {
      assert h == h[..|h| - 1] + [h[|h| - 1]];
      OwnIsStable(p, h[..|h| - 1], key);
    }
  }

  lemma {:induction false} OwnTally(p: Pool, h: seq<Op>, key: string)
    ensures Tally(p, Own(p, h, key), key) == Tally(p, h, key)
  {
    if h != [] {
      var prior := h[..|h| - 1];
      OwnTally(p, prior, key);
      if Concerns(p, h[|h| - 1], key) {
        assert (Own(p, prior, key) + [h[|h| - 1]])[..|Own(p, prior, key)|] == Own(p, prior, key);
      }
    }
  }

  /** What other buckets report, and operations that observe nothing, may be dropped: a bucket's counter depends on its
      own observations alone, and so does its cooldown between clearing operations. */
  lemma OthersIrrelevant(p: Pool, h: seq<Op>, key: string)
    requires StableHistory(p, h)
    ensures Errors(After(p, Own(p, h, key)), key) == Errors(After(p, h), key)
    ensures ClearsNothing(h) ==> CooldownOf(After(p, Own(p, h, key)), key) == CooldownOf(After(p, h), key)
  {
    OwnIsStable(p, h, key);
    OwnTally(p, h, key);
    TallyIsPool(p, h, key);
    TallyIsPool(p, Own(p, h, key), key);
  }

  /** Two histories in which the bucket's own observations are the same up to order, without server errors among them,
      leave it with the same cooldown, whatever else they hold. */
  lemma InterleavingIrrelevant(p: Pool, h1: seq<Op>, h2: seq<Op>, key: string)
    requires StableHistory(p, h1) && StableHistory(p, h2) && ClearsNothing(h1) && ClearsNothing(h2)
    requires multiset(Own(p, h1, key)) == multiset(Own(p, h2, key))
    requires forall i | 0 <= i < |h1| :: Concerns(p, h1[i], key) ==> h1[i].effect.kind != ServerError
    ensures CooldownOf(After(p, h1), key) == CooldownOf(After(p, h2), key)
  {
    var o1, o2 := Own(p, h1, key), Own(p, h2, key);
    OwnIsStable(p, h1, key);
    OwnIsStable(p, h2, key);
    forall i | 0 <= i < |o1| ensures o1[i].effect.kind != ServerError {
      var n :| 0 <= n < |h1| && h1[n] == o1[i];
    }
    forall i | 0 <= i < |o2| ensures o2[i].effect.kind != ServerError {
      assert o2[i] in multiset(o2);
      assert o2[i] in o1;
    }
    OthersIrrelevant(p, h1, key);
    OthersIrrelevant(p, h2, key);
    TallyIsPool(p, o1, key);
    TallyIsPool(p, o2, key);
    JoinOfOwn(p, o1, key);
    JoinOfOwn(p, o2, key);
    SameJoin(p, o1, o2, key, Tally(p, o1, key).1, Tally(p, o2, key).1);
  }

  /** `c` is the greatest of the first cooldown and the times of the effects in `h` that carry one. */
  ghost predicate IsJoin(p: Pool, h: seq<Op>, key: string, c: Option<int>) {
    && AtLeast(c, CooldownOf(p, key))
    && (forall i | 0 <= i < |h| && h[i].DoObserve? :: AtLeast(c, Proposal(EventOf(h[i]), 0)))
    && (c == CooldownOf(p, key) || exists i | 0 <= i < |h| && h[i].DoObserve? :: Proposal(EventOf(h[i]), 0) == c)
  }

  lemma {:induction false} JoinOfOwn(p: Pool, h: seq<Op>, key: string)
    requires forall i | 0 <= i < |h| :: Concerns(p, h[i], key) && h[i].effect.kind != ServerError
    ensures IsJoin(p, h, key, Tally(p, h, key).1)
  {
    if h != [] {
      var n := |h| - 1;
      JoinOfOwn(p, h[..n], key);
      var c, d := Tally(p, h[..n], key).1, Tally(p, h, key).1;
      assert Proposal(EventOf(h[n]), Tally(p, h[..n], key).0) == Proposal(EventOf(h[n]), 0);
      forall i | 0 <= i < |h| ensures AtLeast(d, Proposal(EventOf(h[i]), 0)) {
        assert i < n ==> h[..n][i] == h[i];
      }
      if d == c && c != CooldownOf(p, key) {
        var i :| 0 <= i < n && Proposal(EventOf(h[..n][i]), 0) == c;
        assert h[i] == h[..n][i];
      }
    }
  }

  lemma SameJoin(p: Pool, h1: seq<Op>, h2: seq<Op>, key: string, c1: Option<int>, c2: Option<int>)
    requires IsJoin(p, h1, key, c1) && IsJoin(p, h2, key, c2) && multiset(h1) == multiset(h2)
    ensures c1 == c2
  {
    JoinBelow(p, h1, h2, key, c1, c2);
    JoinBelow(p, h2, h1, key, c2, c1);
  }

  lemma JoinBelow(p: Pool, h1: seq<Op>, h2: seq<Op>, key: string, c1: Option<int>, c2: Option<int>)
    requires IsJoin(p, h1, key, c1) && IsJoin(p, h2, key, c2) && multiset(h1) == multiset(h2)
    ensures AtLeast(c2, c1)
  {
    if c1 != CooldownOf(p, key) {
      var i :| 0 <= i < |h1| && h1[i].DoObserve? && Proposal(EventOf(h1[i]), 0) == c1;
      assert h1[i] in multiset(h1);
      assert h1[i] in h2;
      var j :| 0 <= j < |h2| && h2[j] == h1[i];
    }
  }
}

/** The pool's accounts and quota buckets in memory, the rows of its store, and every pool operation as a
    function on both. Every store write succeeds, and no operation is interrupted. */
module PoolState {
  import opened Domain

  datatype Disk = Disk(accounts: map<string, Account>, buckets: map<string, Bucket>)

  /** `errs` counts consecutive upstream server errors per bucket key; it is never stored. */
  datatype Pool = Pool(
    accounts: map<string, Account>, buckets: map<string, Bucket>, disk: Disk,
    errs: map<string, nat>, drivers: map<string, Driver>)

  datatype EffectKind = Success | Cooldown | Reject | Overload | Block | AuthFail | ServerError

  /** What a driver concluded from one upstream response; `updatedState` is empty when there is none. */
  datatype Effect = Effect(kind: EffectKind, until: int, errorMessage: string, updatedState: string)

  /* ---------- single writes ---------- */

  function Normal(b: Bucket): Bucket {
    if b.state == "" then b.(state := EMPTY_STATE) else b
  }

  function StateOr(st: string): string {
    if st == "" then EMPTY_STATE else st
  }

  function KeysInUse(accounts: map<string, Account>): set<string> {
    set id | id in accounts :: BucketKey(accounts[id])
  }

  /** The buckets a reload builds: the stored ones, and an unsaved default for every other key in use. */
  function LoadedBuckets(disk: Disk): map<string, Bucket> {
    map k | k in disk.buckets.Keys + KeysInUse(disk.accounts) ::
      if k in disk.buckets then Normal(disk.buckets[k]) else DEFAULT_BUCKET
  }

  function Reload(p: Pool): Pool {
    p.(accounts := p.disk.accounts, buckets := LoadedBuckets(p.disk))
  }

  function SaveBucket(p: Pool, key: string, b: Bucket): Pool {
    p.(buckets := p.buckets[key := Normal(b)], disk := p.disk.(buckets := p.disk.buckets[key := Normal(b)]))
  }

  function DropBucket(p: Pool, key: string): Pool {
    p.(buckets := p.buckets - {key}, disk := p.disk.(buckets := p.disk.buckets - {key}))
  }

  function PutAccount(p: Pool, a: Account): Pool {
    p.(accounts := p.accounts[a.id := a])
  }

  function SaveAccount(p: Pool, a: Account): Pool {
    p.(accounts := p.accounts[a.id := a], disk := p.disk.(accounts := p.disk.accounts[a.id := a]))
  }

  function EnsureBucket(p: Pool, key: string): Pool {
    if key in p.buckets then p else SaveBucket(p, key, DEFAULT_BUCKET)
  }

  /** The key the account's driver derives from the account and its quota state. */
  function DerivedKey(drivers: map<string, Driver>, a: Account, st: string): string {
    if a.provider !in drivers then BucketKey(a)
    else
      var key := drivers[a.provider].bucketKey(a.(bucketKey := BucketKey(a)), st);
      if key != "" then key else BucketKey(a)
  }

  /** Moving an account's quota to a new key: an existing bucket under the new key wins. */
  function MoveBucket(p: Pool, from: string, to: string): Pool {
    if from == to || from !in p.buckets then p
    else if to in p.buckets then DropBucket(p, from)
    else DropBucket(SaveBucket(p, to, p.buckets[from]), from)
  }

  function Rekeyed(p: Pool, a: Account, st: string): Account {
    a.(bucketKey := DerivedKey(p.drivers, a, st))
  }

  function RefreshKey(p: Pool, a: Account, st: string): Pool {
    MoveBucket(p, BucketKey(a), DerivedKey(p.drivers, a, st))
  }

  /** The later of two cooldowns; None is no cooldown at all. */
  function Join(current: Option<int>, proposed: int): Option<int> {
    if current.Some? && current.value > proposed then current else Some(proposed)
  }

  function Cool(p: Pool, key: string, proposed: int): Pool
    requires key in p.buckets
  {
    SaveBucket(p, key, p.buckets[key].(cooldown := Join(p.buckets[key].cooldown, proposed)))
  }

  function ClearBucket(p: Pool, key: string): Pool {
    if key in p.buckets && p.buckets[key].cooldown.Some? then SaveBucket(p, key, p.buckets[key].(cooldown := None)) else p
  }

  /* ---------- Observe ---------- */

  const BREAKER_LIMIT := 3
  const BREAKER_PAUSE := 30

  function Errors(p: Pool, key: string): nat {
    if key in p.errs then p.errs[key] else 0
  }

  /** The circuit breaker: the third server error in a row cools the bucket down and starts over. */
  function CountError(p: Pool, key: string, now: int): Pool
    requires key in p.buckets
  {
    var n := Errors(p, key) + 1;
    if n >= BREAKER_LIMIT then Cool(p, key, now + BREAKER_PAUSE).(errs := p.errs - {key})
    else p.(errs := p.errs[key := n])
  }

  function EffectAccount(a: Account, e: Effect, now: int): Account {
    match e.kind
    case Success => a.(lastUsed := Some(now))
    case ServerError => a.(lastUsed := Some(now))
    case Block => a.(status := Blocked, errorMessage := e.errorMessage)
    case _ => a
  }

  function EffectBucket(p: Pool, key: string, e: Effect, now: int): Pool
    requires key in p.buckets
  {
    match e.kind
    case ServerError => CountError(p, key, now)
    case Success => p.(errs := p.errs - {key})
    case Reject => p.(errs := p.errs - {key})
    case _ => Cool(p.(errs := p.errs - {key}), key, e.until)
  }

  /** The effect proper, before any quota state update. */
  function ApplyEffect(p: Pool, a: Account, e: Effect, now: int): Pool
    requires BucketKey(a) in p.buckets
  {
    EffectBucket(PutAccount(p, EffectAccount(a, e, now)), BucketKey(a), e, now)
  }

  /** Accounts that share the bucket `key` with an account of `provider`. */
  predicate IsMember(a: Account, provider: string, key: string) {
    a.provider == provider && BucketKey(a) == key
  }

  /** Rekeys the members in `order`; returns the ids whose stored key changed. */
  function RekeyMembers(p: Pool, order: seq<string>, st: string): (Pool, set<string>)
    decreases |order|
  {
    if order == [] then (p, {})
    else if order[0] !in p.accounts then RekeyMembers(p, order[1..], st)
    else
      var a := p.accounts[order[0]];
      var b := Rekeyed(p, a, st);
      var (q, changed) := RekeyMembers(PutAccount(RefreshKey(p, a, st), b), order[1..], st);
      (q, changed + (if b.bucketKey != a.bucketKey then {a.id} else {}))
  }

  function Members(p: Pool, order: seq<string>, provider: string, key: string): seq<string> {
    if order == [] then []
    else if order[0] in p.accounts && IsMember(p.accounts[order[0]], provider, key)
    then [order[0]] + Members(p, order[1..], provider, key)
    else Members(p, order[1..], provider, key)
  }

  function UpdateState(p: Pool, a: Account, order: seq<string>, st: string): (Pool, set<string>)
    requires BucketKey(a) in p.buckets
  {
    var key := BucketKey(a);
    var members := Members(p, order, a.provider, key);
    RekeyMembers(SaveBucket(p, key, p.buckets[key].(state := st)), members, st)
  }

  function PersistAccounts(p: Pool, ids: set<string>): Pool {
    p.(disk := p.disk.(accounts := p.disk.accounts + map id | id in ids && id in p.accounts :: p.accounts[id]))
  }

  /** The ids whose rows the effect itself changes. */
  function Touched(e: Effect, id: string): set<string> {
    if e.kind == Success || e.kind == ServerError || e.kind == Block then {id} else {}
  }

  /** The end of Observe: the quota state update, if there is one, and the writes of the touched accounts. */
  function Settle(p: Pool, a: Account, touched: set<string>, order: seq<string>, st: string): Pool
    requires BucketKey(a) in p.buckets
  {
    if st == "" then PersistAccounts(p, touched)
    else
      var (q, changed) := UpdateState(p, a, order, st);
      PersistAccounts(q, touched + changed)
  }

  function ObserveLoaded(p: Pool, a: Account, e: Effect, now: int, order: seq<string>): Pool {
    var q := ApplyEffect(EnsureBucket(p, BucketKey(a)), a, e, now);
    Settle(q, a, Touched(e, a.id), order, e.updatedState)
  }

  /** `order` is the iteration order of the account map met while looking for bucket members. */
  function Observe(p0: Pool, id: string, e: Effect, now: int, order: seq<string>): Pool {
    var p := Reload(p0);
    if id in p.accounts then ObserveLoaded(p, p.accounts[id], e, now, order) else p
  }

  /* ---------- the other operations ---------- */

  /** An administrator's edit of the projected account; `id` and `bucketKey` are not copied back. */
  type Edit = Projection -> Projection

  /** Saves `b` under its derived key, with its bucket set to the given cooldown and state if it differs. */
  function SaveEdited(p: Pool, b: Account, cooldown: Option<int>, st: string): Pool {
    var c := Rekeyed(p, b, st);
    var q := EnsureBucket(RefreshKey(p, b, st), c.bucketKey);
    var bucket := q.buckets[c.bucketKey];
    SaveAccount(if bucket.state != st || bucket.cooldown != cooldown then SaveBucket(q, c.bucketKey, Bucket(cooldown, st)) else q, c)
  }

  function Update(p0: Pool, id: string, edit: Edit): Pool {
    var p := Reload(p0);
    if id !in p.accounts then p
    else
      var a := p.accounts[id];
      var e := edit(Project(a, p.buckets));
      SaveEdited(p, e.account.(id := a.id, bucketKey := a.bucketKey), e.cooldown, StateOr(e.state))
  }

  function Add(p0: Pool, shown: Projection): Pool {
    var p := Reload(p0);
    var st := StateOr(shown.state);
    var c := Rekeyed(p, shown.account, st);
    var q := EnsureBucket(RefreshKey(p, shown.account, st), c.bucketKey);
    SaveAccount(SaveBucket(q, c.bucketKey, Bucket(shown.cooldown, st)), c)
  }

  function Delete(p0: Pool, id: string): Pool {
    var p := Reload(p0);
    if id !in p.accounts then p
    else
      var key := BucketKey(p.accounts[id]);
      var q := p.(accounts := p.accounts - {id}, disk := p.disk.(accounts := p.disk.accounts - {id}));
      if key in KeysInUse(q.accounts) then q else DropBucket(q, key)
  }

  function StoreTokens(p0: Pool, id: string, tokens: Tokens, now: int): Pool {
    var p := Reload(p0);
    if id !in p.accounts then p
    else
      var a := p.accounts[id].(tokens := tokens, lastRefresh := Some(now), status := Active, errorMessage := "");
      SaveAccount(ClearBucket(EnsureBucket(p, BucketKey(a)), BucketKey(a)), a)
  }

  function Recovered(a: Account, key: string): Account {
    if BucketKey(a) == key && a.status == Blocked then a.(status := Active, errorMessage := "") else a
  }

  function RecoverAll(accounts: map<string, Account>, key: string): map<string, Account> {
    map i | i in accounts :: Recovered(accounts[i], key)
  }

  function RecoverBucket(p0: Pool, id: string): Pool {
    var p := Reload(p0);
    if id !in p.accounts then p
    else
      var key := BucketKey(p.accounts[id]);
      var all := RecoverAll(p.accounts, key);
      ClearBucket(p.(accounts := all, disk := p.disk.(accounts := p.disk.accounts + all)), key)
  }

  function MarkError(p0: Pool, id: string, message: string): Pool {
    var p := Reload(p0);
    if id !in p.accounts then p
    else SaveAccount(p, p.accounts[id].(status := Error, errorMessage := message))
  }

  function ClearCooldown(p0: Pool, id: string): Pool {
    var p := Reload(p0);
    if id !in p.accounts then p
    else
      var key := BucketKey(p.accounts[id]);
      ClearBucket(EnsureBucket(p, key), key)
  }

  /** One account of SetDrivers: its key is derived from the state of whatever bucket it has by now. */
  function AdoptKey(p: Pool, id: string): Pool
    requires id in p.accounts
  {
    var a := p.accounts[id];
    var st := Project(a, p.buckets).state;
    var b := Rekeyed(p, a, st);
    var q := EnsureBucket(RefreshKey(p, a, st), b.bucketKey);
    if b.bucketKey != a.bucketKey then SaveAccount(q, b) else q
  }

  function AdoptKeys(p: Pool, order: seq<string>): Pool
    decreases |order|
  {
    if order == [] then p
    else if order[0] !in p.accounts then AdoptKeys(p, order[1..])
    else AdoptKeys(AdoptKey(p, order[0]), order[1..])
  }

  function SetDrivers(p0: Pool, drivers: map<string, Driver>, order: seq<string>): Pool {
    AdoptKeys(Reload(p0).(drivers := drivers), order)
  }

  /* ---------- cleanup ---------- */

  function ExpireBucket(p: Pool, key: string, now: int): Pool {
    if key in p.buckets && p.buckets[key].cooldown.Some? && now > p.buckets[key].cooldown.value
    then SaveBucket(p, key, p.buckets[key].(cooldown := None)) else p
  }

  function ExpireAll(p: Pool, keys: seq<string>, now: int): Pool
    decreases |keys|
  {
    if keys == [] then p else ExpireAll(ExpireBucket(p, keys[0], now), keys[1..], now)
  }

  /** Unix seconds of the driver's exhausted cooldown, 0 when there is none. */
  function Exhausted(p: Pool, a: Account, now: int): int {
    if a.provider !in p.drivers then 0
    else
      var t := p.drivers[a.provider].exhausted(Project(a, p.buckets).state, now);
      if t == ZERO_TIME then 0 else t
  }

  /** The first active account of `order` in bucket `key` decides. */
  function EnforceBucket(p: Pool, key: string, now: int, order: seq<string>): Pool {
    if order == [] then p
    else if order[0] in p.accounts && BucketKey(p.accounts[order[0]]) == key && p.accounts[order[0]].status == Active
    then
      var t := Exhausted(p, p.accounts[order[0]], now);
      if t > 0 && key in p.buckets then Cool(p, key, t) else p
    else EnforceBucket(p, key, now, order[1..])
  }

  /** Only a bucket that is not cooled down is looked at. */
  function EnforceAvailable(p: Pool, key: string, now: int, order: seq<string>): Pool {
    if key in p.buckets && p.buckets[key].cooldown.None? then EnforceBucket(p, key, now, order) else p
  }

  function EnforceAll(p: Pool, keys: seq<string>, now: int, order: seq<string>): Pool
    decreases |keys|
  {
    if keys == [] then p
    else
      EnforceAll(EnforceAvailable(p, keys[0], now, order), keys[1..], now, order)
  }

  /** `first` and `second` are the iteration orders of the bucket map in the two phases. */
  function Cleanup(p0: Pool, now: int, first: seq<string>, second: seq<string>, order: seq<string>): Pool {
    EnforceAll(ExpireAll(Reload(p0), first, now), second, now, order)
  }
}

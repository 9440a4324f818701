/** What each pool operation does to what callers are shown of the accounts: the account it is about, the accounts
    that share its bucket, and everybody else. */
module PoolEffects {
  import opened Domain
  import opened PoolState
  import opened PoolCoherence
  import opened PoolHistory

  /** What Get and List return for an account. */
  function Shown(p: Pool, id: string): Projection
    requires id in p.accounts
  {
    Project(p.accounts[id], p.buckets)
  }

  function KeyAt(p: Pool, id: string): string
    requires id in p.accounts
  {
    BucketKey(p.accounts[id])
  }

  /** What becomes of every account but `id` when `id` goes from bucket `from` to bucket `key` with the quota given:
      accounts under `key` are shown that quota, accounts left behind under `from` a fresh one, all others what they were. */
  ghost predicate OthersShown(p: Pool, q: Pool, id: string, from: string, key: string, cooldown: Option<int>, st: string) {
    forall j <- p.accounts :: j != id ==>
      && j in q.accounts
      && Shown(q, j) ==
           if KeyAt(p, j) == key then Shown(p, j).(cooldown := cooldown, state := st)
           else if KeyAt(p, j) == from then Shown(p, j).(cooldown := None, state := EMPTY_STATE)
           else Shown(p, j)
  }

  lemma LoadedHasBuckets(p: Pool)
    requires DiskOk(p.disk)
    ensures var r := Reload(p);
      && (forall id <- r.accounts :: r.accounts[id].id == id && KeyAt(r, id) in r.buckets)
      && (forall k <- r.buckets :: r.buckets[k].state != "")
  {
    var r := Reload(p);
    forall id | id in r.accounts ensures KeyAt(r, id) in r.buckets {
      assert BucketKey(r.accounts[id]) in KeysInUse(p.disk.accounts);
    }
  }

  /* ---------- administration ---------- */

  /** A bucket moved and then set touches the two keys only. */
  lemma RekeyedBuckets(p: Pool, b: Account, st: string, bucket: Bucket)
    requires bucket.state != ""
    ensures var c := Rekeyed(p, b, st); var q := EnsureBucket(RefreshKey(p, b, st), c.bucketKey);
      && c.bucketKey != "" && c.bucketKey in q.buckets && q.accounts == p.accounts
      && (BucketKey(b) != c.bucketKey && BucketKey(b) in p.buckets ==> BucketKey(b) !in q.buckets)
      && SaveBucket(q, c.bucketKey, bucket).buckets[c.bucketKey] == bucket
      && (forall k | k != BucketKey(b) && k != c.bucketKey :: k in p.buckets <==> k in q.buckets)
      && (forall k | k != BucketKey(b) && k != c.bucketKey && k in p.buckets :: q.buckets[k] == p.buckets[k])
  {
  }

  /** An account saved under its derived key, with its bucket set. */
  lemma SavedShows(p: Pool, b: Account, cooldown: Option<int>, st: string)
    requires st != "" && forall j <- p.accounts :: KeyAt(p, j) in p.buckets
    ensures var c := Rekeyed(p, b, st);
      var q := SaveAccount(SaveBucket(EnsureBucket(RefreshKey(p, b, st), c.bucketKey), c.bucketKey, Bucket(cooldown, st)), c);
      && q.accounts == p.accounts[b.id := c]
      && Shown(q, b.id) == Projection(c, cooldown, st)
      && OthersShown(p, q, b.id, BucketKey(b), c.bucketKey, cooldown, st)
  {
    RekeyedBuckets(p, b, st, Bucket(cooldown, st));
  }

  /** A quota state is never stored empty. */
  function StoredState(st: string): string {
    if st == "" then "{}" else st
  }

  /** The account an edit asks for: neither its id nor its key can be edited. */
  function Edited(p: Pool, id: string, edit: Edit): Account
    requires id in p.accounts
  {
    edit(Shown(p, id)).account.(id := id, bucketKey := p.accounts[id].bucketKey)
  }

  /** An update shows exactly the edited account, cooldown and state under the key its driver derives. Its new bucket
      fellows are shown the same quota, those it leaves behind a fresh one, and everybody else what they were. */
  lemma UpdateShows(p0: Pool, id: string, edit: Edit)
    requires DiskOk(p0.disk) && id in p0.disk.accounts
    ensures var p, q := Reload(p0), Update(p0, id, edit);
      var e, b := edit(Shown(p, id)), Edited(p, id, edit);
      var key := DerivedKey(p.drivers, b, StoredState(e.state));
      && q.accounts.Keys == p.accounts.Keys
      && Shown(q, id) == Projection(b.(bucketKey := key), e.cooldown, StoredState(e.state))
      && OthersShown(p, q, id, BucketKey(b), key, e.cooldown, StoredState(e.state))
  {
    LoadedHasBuckets(p0);
    var p := Reload(p0);
    var e, b := edit(Shown(p, id)), Edited(p, id, edit);
    EditedShows(p, b, e.cooldown, StoredState(e.state));
    assert Update(p0, id, edit) == SaveEdited(p, b, e.cooldown, StoredState(e.state));
  }

  lemma EditedShows(p: Pool, b: Account, cooldown: Option<int>, st: string)
    requires st != "" && forall j <- p.accounts :: KeyAt(p, j) in p.buckets
    ensures var c := Rekeyed(p, b, st); var q := SaveEdited(p, b, cooldown, st);
      && q.accounts == p.accounts[b.id := c] && Shown(q, b.id) == Projection(c, cooldown, st)
      && OthersShown(p, q, b.id, BucketKey(b), c.bucketKey, cooldown, st)
  {
    SavedShows(p, b, cooldown, st);
    var c := Rekeyed(p, b, st);
    var q := EnsureBucket(RefreshKey(p, b, st), c.bucketKey);
    if q.buckets[c.bucketKey] == Bucket(cooldown, st) {
      assert SaveBucket(q, c.bucketKey, Bucket(cooldown, st)).buckets == q.buckets;
    }
  }

  /** An added account is shown as it was given, under the key its driver derives, and so is the quota of its bucket
      fellows; accounts under a key it brought along and gave up are shown a fresh quota. */
  lemma AddShows(p0: Pool, shown: Projection)
    requires DiskOk(p0.disk)
    ensures var p, q := Reload(p0), Add(p0, shown);
      var key := DerivedKey(p.drivers, shown.account, StoredState(shown.state));
      && q.accounts.Keys == p.accounts.Keys + {shown.account.id}
      && Shown(q, shown.account.id) == Projection(shown.account.(bucketKey := key), shown.cooldown, StoredState(shown.state))
      && OthersShown(p, q, shown.account.id, BucketKey(shown.account), key, shown.cooldown, StoredState(shown.state))
  {
    LoadedHasBuckets(p0);
    SavedShows(Reload(p0), shown.account, shown.cooldown, StoredState(shown.state));
  }

  /** Deleting removes one account, and its bucket exactly if nobody else is in it. */
  lemma DeleteForgets(p0: Pool, id: string)
    requires DiskOk(p0.disk) && id in p0.disk.accounts
    ensures var p, q := Reload(p0), Delete(p0, id);
      && q.accounts.Keys == p.accounts.Keys - {id}
      && (forall j <- q.accounts :: Shown(q, j) == Shown(p, j))
      && q.buckets.Keys == (if exists j | j in q.accounts :: KeyAt(q, j) == KeyAt(p, id) then p.buckets.Keys
                            else p.buckets.Keys - {KeyAt(p, id)})
  {
    LoadedHasBuckets(p0);
    var p := Reload(p0);
    var rest := p.accounts - {id};
    assert KeyAt(p, id) in KeysInUse(rest) <==> exists j | j in rest :: BucketKey(rest[j]) == KeyAt(p, id);
  }

  /** Clearing a bucket's cooldown shows its accounts without one and changes nothing else. */
  lemma ClearShows(p: Pool, key: string, a: Account)
    requires key in p.buckets && p.buckets[key].state != ""
    ensures EnsureBucket(p, key) == p
    ensures var q := ClearBucket(p, key);
      && q.accounts == p.accounts && q.disk.accounts == p.disk.accounts
      && Project(a, q.buckets) == if BucketKey(a) == key then Project(a, p.buckets).(cooldown := None) else Project(a, p.buckets)
  {
  }

  /** New tokens put the account back into service: active, without error, its bucket without cooldown. */
  lemma StoreTokensShows(p0: Pool, id: string, tokens: Tokens, now: int, j: string)
    requires DiskOk(p0.disk) && id in p0.disk.accounts && j in p0.disk.accounts
    ensures var p, q := Reload(p0), StoreTokens(p0, id, tokens, now);
      var cleared := if KeyAt(p, j) == KeyAt(p, id) then Shown(p, j).(cooldown := None) else Shown(p, j);
      && q.accounts.Keys == p.accounts.Keys
      && Shown(q, j) == if j != id then cleared
         else cleared.(account := cleared.account.(tokens := tokens, lastRefresh := Some(now), status := Active, errorMessage := ""))
  {
    LoadedHasBuckets(p0);
    var p := Reload(p0);
    var a := p.accounts[id].(tokens := tokens, lastRefresh := Some(now), status := Active, errorMessage := "");
    ClearShows(p, BucketKey(a), if j == id then a else p.accounts[j]);
  }

  /** A recovered bucket has no blocked account and no cooldown; accounts that were not blocked keep their status,
      and other buckets are as they were. */
  lemma RecoverShows(p0: Pool, id: string, j: string)
    requires DiskOk(p0.disk) && id in p0.disk.accounts && j in p0.disk.accounts
    ensures var p, q := Reload(p0), RecoverBucket(p0, id); var was := Shown(p, j);
      && q.accounts.Keys == p.accounts.Keys
      && Shown(q, j) ==
           if KeyAt(p, j) != KeyAt(p, id) then was
           else if was.account.status != Blocked then was.(cooldown := None)
           else Projection(was.account.(status := Active, errorMessage := ""), None, was.state)
  {
    LoadedHasBuckets(p0);
    var p := Reload(p0);
    ClearShows(p, KeyAt(p, id), Recovered(p.accounts[j], KeyAt(p, id)));
  }

  lemma MarkErrorShows(p0: Pool, id: string, message: string, j: string)
    requires DiskOk(p0.disk) && id in p0.disk.accounts && j in p0.disk.accounts
    ensures var p, q := Reload(p0), MarkError(p0, id, message); var was := Shown(p, j);
      q.accounts.Keys == p.accounts.Keys
      && Shown(q, j) == if j == id then was.(account := was.account.(status := Error, errorMessage := message)) else was
  {
    LoadedHasBuckets(p0);
  }

  lemma ClearCooldownShows(p0: Pool, id: string, j: string)
    requires DiskOk(p0.disk) && id in p0.disk.accounts && j in p0.disk.accounts
    ensures var p, q := Reload(p0), ClearCooldown(p0, id);
      && q.accounts == p.accounts
      && Shown(q, j) == if KeyAt(p, j) == KeyAt(p, id) then Shown(p, j).(cooldown := None) else Shown(p, j)
  {
    LoadedHasBuckets(p0);
    ClearShows(Reload(p0), KeyAt(Reload(p0), id), Reload(p0).accounts[j]);
  }

  /* ---------- observing ---------- */

  /** A stable quota state moves no bucket. */
  lemma {:induction false} StableKeepsBuckets(p: Pool, order: seq<string>, st: string)
    requires StableUnder(p.drivers, p.accounts, st) && (forall id <- p.accounts :: p.accounts[id].id == id)
    ensures RekeyMembers(p, order, st).0.buckets == p.buckets
    decreases |order|
  {
    if order != [] {
      if order[0] in p.accounts {
        var a := p.accounts[order[0]];
        assert Alike(a, a);
        assert DerivedKey(p.drivers, a, st) == BucketKey(a);
        StableKeepsBuckets(PutAccount(RefreshKey(p, a, st), Rekeyed(p, a, st)), order[1..], st);
      } else {
        StableKeepsBuckets(p, order[1..], st);
      }
    }
  }

  /** Observe is the effect proper and then its settling. */
  lemma ObserveInTwo(p0: Pool, e: PoolHistory.Event)
    requires DiskOk(p0.disk) && e.id in p0.disk.accounts
    ensures var a := Reload(p0).accounts[e.id]; var q := ApplyEffect(Reload(p0), a, e.effect, e.now);
      && BucketKey(a) in q.buckets && q.drivers == p0.drivers
      && q.accounts == Reload(p0).accounts[e.id := EffectAccount(a, e.effect, e.now)]
      && Observe(p0, e.id, e.effect, e.now, e.order) == Settle(q, a, Touched(e.effect, a.id), e.order, e.effect.updatedState)
  {
    LoadedHasBuckets(p0);
    var a := Reload(p0).accounts[e.id];
    EffectTouchesOne(Reload(p0), a, e.effect, e.now);
    assert EnsureBucket(Reload(p0), BucketKey(a)) == Reload(p0);
  }

  /** After an observation the reporting bucket shows the reported quota state, if there is one, and every other
      bucket the state it had. */
  lemma ObserveShowsState(p0: Pool, e: PoolHistory.Event, j: string)
    requires DiskOk(p0.disk) && Stays(p0.drivers, p0.disk.accounts, e.effect.updatedState)
    requires e.id in p0.disk.accounts && j in p0.disk.accounts
    ensures var p, q := Reload(p0), Observe(p0, e.id, e.effect, e.now, e.order);
      && j in q.accounts && KeyAt(q, j) == KeyAt(p, j)
      && Shown(q, j).state == if e.effect.updatedState != "" && KeyAt(p, j) == KeyAt(p, e.id)
                              then e.effect.updatedState else Shown(p, j).state
  {
    LoadedHasBuckets(p0);
    ObserveInTwo(p0, e);
    var p := Reload(p0);
    var a := p.accounts[e.id];
    var q := ApplyEffect(p, a, e.effect, e.now);
    EffectReady(p, q, a, e);
    EffectKeepsStates(p, a, e);
    SettleShows(q, a, Touched(e.effect, a.id), e.order, e.effect.updatedState, j);
    StateComposed(p, q, Settle(q, a, Touched(e.effect, a.id), e.order, e.effect.updatedState), a, e.effect.updatedState, j);
  }

  lemma StateComposed(p: Pool, q: Pool, t: Pool, a: Account, st: string, j: string)
    requires j in p.accounts && j in q.accounts && j in t.accounts && KeyAt(t, j) == KeyAt(q, j) == KeyAt(p, j)
    requires q.buckets.Keys == p.buckets.Keys
    requires (forall k <- p.buckets :: q.buckets[k].state == p.buckets[k].state != "")
    requires BucketKey(a) in q.buckets
    requires t.buckets == if st == "" then q.buckets else q.buckets[BucketKey(a) := q.buckets[BucketKey(a)].(state := st)]
    ensures Shown(t, j).state == if st != "" && KeyAt(p, j) == BucketKey(a) then st else Shown(p, j).state
  {
  }

  /** The effect proper leaves ids and keys, hence stability. */
  lemma EffectReady(p: Pool, q: Pool, a: Account, e: PoolHistory.Event)
    requires a.id in p.accounts && p.accounts[a.id] == a
    requires q.drivers == p.drivers && q.accounts == p.accounts[a.id := EffectAccount(a, e.effect, e.now)]
    requires (forall id <- p.accounts :: p.accounts[id].id == id) && Stays(p.drivers, p.accounts, e.effect.updatedState)
    ensures (forall id <- q.accounts :: q.accounts[id].id == id) && (forall id <- p.accounts :: KeyAt(q, id) == KeyAt(p, id))
    ensures Stays(q.drivers, q.accounts, e.effect.updatedState)
  {
    AlikeStaysStable(p.drivers, p.accounts, q.accounts, e.effect.updatedState);
  }

  lemma EffectKeepsStates(p: Pool, a: Account, e: PoolHistory.Event)
    requires BucketKey(a) in p.buckets && forall k <- p.buckets :: p.buckets[k].state != ""
    ensures var q := ApplyEffect(p, a, e.effect, e.now);
      q.buckets.Keys == p.buckets.Keys && forall k <- p.buckets :: q.buckets[k].state == p.buckets[k].state
  {
  }

  lemma SettleShows(q: Pool, a: Account, touched: set<string>, order: seq<string>, st: string, j: string)
    requires BucketKey(a) in q.buckets && (forall id <- q.accounts :: q.accounts[id].id == id) && j in q.accounts
    requires st != "" ==> StableUnder(q.drivers, q.accounts, st)
    ensures var t := Settle(q, a, touched, order, st);
      && j in t.accounts && KeyOnly(q.accounts[j], t.accounts[j])
      && (st == "" ==> t.buckets == q.buckets && t.accounts == q.accounts)
      && (st != "" ==> t.buckets == q.buckets[BucketKey(a) := q.buckets[BucketKey(a)].(state := st)])
  {
    if st != "" {
      var key := BucketKey(a);
      var s := SaveBucket(q, key, q.buckets[key].(state := st));
      var members := Members(q, order, a.provider, key);
      StableKeepsBuckets(s, members, st);
      StableMembers(s, members, st);
    }
  }

  lemma ObserveShowsEffect(p0: Pool, e: PoolHistory.Event, j: string)
    requires DiskOk(p0.disk) && Stays(p0.drivers, p0.disk.accounts, e.effect.updatedState)
    requires e.id in p0.disk.accounts && j in p0.disk.accounts
    ensures var p, q := Reload(p0), Observe(p0, e.id, e.effect, e.now, e.order);
      && j in q.accounts
      && Shown(q, j).account ==
           (if j == e.id then EffectAccount(p.accounts[j], e.effect, e.now) else p.accounts[j]).(bucketKey := KeyAt(p, j))
  {
    LoadedHasBuckets(p0);
    ObserveInTwo(p0, e);
    var p := Reload(p0);
    var a := p.accounts[e.id];
    var q := ApplyEffect(p, a, e.effect, e.now);
    EffectReady(p, q, a, e);
    SettleShows(q, a, Touched(e.effect, a.id), e.order, e.effect.updatedState, j);
    AccountComposed(p, q, Settle(q, a, Touched(e.effect, a.id), e.order, e.effect.updatedState), a, e, j);
  }

  /** Of an account shown, an observation changes only what its kind says, and only of the reporting account; keys stay,
      spelled out where they were not. The cooldown of its bucket is as the history theorems say. */
  lemma ObserveShowsAccount(p0: Pool, e: PoolHistory.Event, j: string)
    requires DiskOk(p0.disk) && Stays(p0.drivers, p0.disk.accounts, e.effect.updatedState)
    requires e.id in p0.disk.accounts && j in p0.disk.accounts
    ensures var p, q := Reload(p0), Observe(p0, e.id, e.effect, e.now, e.order); var was := Shown(p, j).account;
      && j in q.accounts
      && Shown(q, j).account ==
           if j != e.id then was
           else if e.effect.kind == Success || e.effect.kind == ServerError then was.(lastUsed := Some(e.now))
           else if e.effect.kind == Block then was.(status := Blocked, errorMessage := e.effect.errorMessage)
           else was
  {
    ObserveShowsEffect(p0, e, j);
  }

  lemma AccountComposed(p: Pool, q: Pool, t: Pool, a: Account, e: PoolHistory.Event, j: string)
    requires j in p.accounts && e.id in p.accounts && p.accounts[e.id] == a && j in t.accounts && j in q.accounts
    requires q.accounts == p.accounts[e.id := EffectAccount(a, e.effect, e.now)] && KeyOnly(q.accounts[j], t.accounts[j])
    ensures Shown(t, j).account ==
      (if j == e.id then EffectAccount(a, e.effect, e.now) else p.accounts[j]).(bucketKey := KeyAt(p, j))
  {
  }

  /* ---------- cleanup ---------- */

  /** A bucket's cooldown after the expiry phase. */
  function Unexpired(c: Option<int>, now: int): Option<int> {
    if c.Some? && now > c.value then None else c
  }

  lemma {:induction false} ExpireAllExact(p: Pool, keys: seq<string>, now: int, k: string)
    requires k in p.buckets && forall i <- p.buckets :: p.buckets[i].state != ""
    ensures var q := ExpireAll(p, keys, now);
      && q.accounts == p.accounts && q.drivers == p.drivers && q.buckets.Keys == p.buckets.Keys
      && (forall i <- q.buckets :: q.buckets[i].state == p.buckets[i].state)
      && q.buckets[k].cooldown == if k in keys then Unexpired(p.buckets[k].cooldown, now) else p.buckets[k].cooldown
    decreases |keys|
  {
    if keys != [] { ExpireAllExact(ExpireBucket(p, keys[0], now), keys[1..], now, k); }
  }

  /** The first active account of `order` in the bucket, if any. */
  function FirstActive(p: Pool, key: string, order: seq<string>): Option<Account> {
    if order == [] then None
    else if order[0] in p.accounts && BucketKey(p.accounts[order[0]]) == key && p.accounts[order[0]].status == Active
    then Some(p.accounts[order[0]])
    else FirstActive(p, key, order[1..])
  }

  /** The cooldown that exhaustion imposes on a bucket without one: the time that the driver of its first active account
      names for the bucket's state, if that time is past the epoch. */
  function Imposed(p: Pool, key: string, now: int, order: seq<string>): Option<int> {
    var a := FirstActive(p, key, order);
    if a.None? || a.value.provider !in p.drivers then None
    else
      var t := p.drivers[a.value.provider].exhausted(
                 if key in p.buckets && p.buckets[key].state != "" then p.buckets[key].state else "{}", now);
      if t > 0 then Some(t) else None
  }

  lemma {:induction false} EnforceBucketExact(p: Pool, key: string, now: int, order: seq<string>)
    requires key in p.buckets && p.buckets[key].cooldown.None? && forall i <- p.buckets :: p.buckets[i].state != ""
    ensures EnforceBucket(p, key, now, order).accounts == p.accounts && EnforceBucket(p, key, now, order).drivers == p.drivers
    ensures EnforceBucket(p, key, now, order).buckets == p.buckets[key := p.buckets[key].(cooldown := Imposed(p, key, now, order))]
  {
    if order == [] {
      assert p.buckets == p.buckets[key := p.buckets[key].(cooldown := None)];
    } else if order[0] in p.accounts && BucketKey(p.accounts[order[0]]) == key && p.accounts[order[0]].status == Active {
      assert Imposed(p, key, now, order).None? ==> p.buckets == p.buckets[key := p.buckets[key].(cooldown := None)];
    } else {
      EnforceBucketExact(p, key, now, order[1..]);
      assert Imposed(p, key, now, order) == Imposed(p, key, now, order[1..]);
    }
  }

  /** Exhaustion looks at states only, which enforcement does not change. */
  lemma ImposedStable(p: Pool, q: Pool, key: string, now: int, order: seq<string>)
    requires q.accounts == p.accounts && q.drivers == p.drivers && q.buckets.Keys == p.buckets.Keys
    requires forall i <- p.buckets :: q.buckets[i].state == p.buckets[i].state
    ensures Imposed(q, key, now, order) == Imposed(p, key, now, order)
  {
    FirstActiveStable(p, q, key, order);
  }

  lemma {:induction false} FirstActiveStable(p: Pool, q: Pool, key: string, order: seq<string>)
    requires q.accounts == p.accounts
    ensures FirstActive(q, key, order) == FirstActive(p, key, order)
  {
    if order != [] { FirstActiveStable(p, q, key, order[1..]); }
  }

  lemma {:induction false} EnforceAllExact(p: Pool, keys: seq<string>, now: int, order: seq<string>, k: string)
    requires k in p.buckets && forall i <- p.buckets :: p.buckets[i].state != ""
    ensures var q := EnforceAll(p, keys, now, order);
      && q.accounts == p.accounts && q.buckets.Keys == p.buckets.Keys && q.buckets[k].state == p.buckets[k].state
      && q.buckets[k].cooldown == if k in keys && p.buckets[k].cooldown.None? then Imposed(p, k, now, order) else p.buckets[k].cooldown
    decreases |keys|
  {
    if keys != [] {
      var key := keys[0];
      var q := EnforceAvailable(p, key, now, order);
      if key in p.buckets && p.buckets[key].cooldown.None? { EnforceBucketExact(p, key, now, order); }
      ImposedStable(p, q, k, now, order);
      EnforceAllExact(q, keys[1..], now, order, k);
    }
  }

  /** Cleanup, for every order in which the bucket map is visited twice: an expired cooldown is gone, a running one
      stays, and a bucket left without one gets the cooldown that exhaustion of its first active account imposes.
      No account changes. */
  lemma CleanupExact(p0: Pool, now: int, first: seq<string>, second: seq<string>, order: seq<string>, k: string)
    requires DiskOk(p0.disk) && k in Reload(p0).buckets && k in first && k in second
    ensures var p, q := Reload(p0), Cleanup(p0, now, first, second, order);
      && q.accounts == p.accounts && k in q.buckets && q.buckets[k].state == p.buckets[k].state
      && q.buckets[k].cooldown ==
           if Unexpired(p.buckets[k].cooldown, now).Some? then p.buckets[k].cooldown else Imposed(p, k, now, order)
  {
    LoadedHasBuckets(p0);
    var p := Reload(p0);
    var m := ExpireAll(p, first, now);
    ExpireAllExact(p, first, now, k);
    EnforceAllExact(m, second, now, order, k);
    ImposedStable(p, m, k, now, order);
  }
}

/** The pool as the program keeps it: one object over a store object, updated in place. Every method is
    proved to do what module PoolState says of the same operation. */
module AccountPool {
  import opened Domain
  import Spec = PoolState
  import opened PoolState

  /** The rows of accounts and quota buckets; writes succeed. */
  class Store {
    var accounts: map<string, Account>
    var buckets: map<string, Bucket>

    constructor ()
      ensures accounts == map[] && buckets == map[]
    {
      accounts, buckets := map[], map[];
    }

    method SaveAccount(a: Account)
      modifies this`accounts
      ensures accounts == old(accounts)[a.id := a]
    {
      accounts := accounts[a.id := a];
    }

    method DeleteAccount(id: string)
      modifies this`accounts
      ensures accounts == old(accounts) - {id}
    {
      accounts := accounts - {id};
    }

    method SaveQuotaBucket(key: string, b: Bucket)
      modifies this`buckets
      ensures buckets == old(buckets)[key := b]
    {
      buckets := buckets[key := b];
    }

    method DeleteQuotaBucket(key: string)
      modifies this`buckets
      ensures buckets == old(buckets) - {key}
    {
      buckets := buckets - {key};
    }
  }

  class AccountPool {
    var accounts: map<string, Account>
    var buckets: map<string, Bucket>
    var errs: map<string, nat>
    var drivers: map<string, Driver>
    const store: Store

    ghost function View(): Pool
      reads this, store
    {
      Pool(accounts, buckets, Disk(store.accounts, store.buckets), errs, drivers)
    }

    constructor (store: Store)
      ensures this.store == store
      ensures View() == Spec.Reload(Pool(map[], map[], Disk(store.accounts, store.buckets), map[], map[]))
    {
      this.store, accounts, buckets, errs, drivers := store, map[], map[], map[], map[];
      new;
      Reload();
    }

    /* ---------- buckets ---------- */

    method Reload()
      modifies this`accounts, this`buckets
      ensures View() == Spec.Reload(old(View()))
    {
      accounts := store.accounts;
      LoadBuckets();
      AddDefaults();
      assert buckets == LoadedBuckets(View().disk);
    }

    method LoadBuckets()
      modifies this`buckets
      ensures buckets == map k | k in store.buckets :: Normal(store.buckets[k])
    {
      buckets := map[];
      var keys := store.buckets.Keys;
      while keys != {}
        invariant keys <= store.buckets.Keys
        invariant buckets == map k | k in store.buckets && k !in keys :: Normal(store.buckets[k])
        decreases |keys|
      {
        var k :| k in keys;
        buckets := buckets[k := Normal(store.buckets[k])];
        keys := keys - {k};
      }
    }

    method AddDefaults()
      modifies this`buckets
      ensures buckets == map k | k in old(buckets).Keys + KeysInUse(accounts) ::
        if k in old(buckets) then old(buckets)[k] else DEFAULT_BUCKET
    {
      var ids := accounts.Keys;
      while ids != {}
        invariant ids <= accounts.Keys && old(buckets).Keys <= buckets.Keys
        invariant forall k <- buckets :: buckets[k] == if k in old(buckets) then old(buckets)[k] else DEFAULT_BUCKET
        invariant forall k <- buckets :: k in old(buckets) || k in KeysInUse(accounts)
        invariant forall id | id in accounts && id !in ids :: BucketKey(accounts[id]) in buckets
        decreases |ids|
      {
        var id :| id in ids;
        var key := BucketKey(accounts[id]);
        if key !in buckets { buckets := buckets[key := DEFAULT_BUCKET]; }
        ids := ids - {id};
      }
    }

    /** Sets a bucket in memory and writes it through. */
    method PersistBucket(key: string, b: Bucket)
      modifies this`buckets, store`buckets
      ensures View() == SaveBucket(old(View()), key, b)
    {
      var saved := if b.state == "" then b.(state := EMPTY_STATE) else b;
      buckets := buckets[key := saved];
      store.SaveQuotaBucket(key, saved);
    }

    method EnsureBucket(a: Account)
      modifies this`buckets, store`buckets
      ensures View() == Spec.EnsureBucket(old(View()), BucketKey(a))
    {
      var key := BucketKey(a);
      if key in buckets { return; }
      PersistBucket(key, Bucket(None, EMPTY_STATE));
    }

    /** refreshBucketKeyLocked: returns the account with its new key and moves its bucket there. */
    method RefreshBucketKey(a: Account, st: string) returns (b: Account)
      modifies this`buckets, store`buckets
      ensures b == Rekeyed(old(View()), a, st) && View() == RefreshKey(old(View()), a, st)
    {
      var oldKey := BucketKey(a);
      var newKey := oldKey;
      if a.provider in drivers {
        var key := drivers[a.provider].bucketKey(a.(bucketKey := oldKey), st);
        if key != "" { newKey := key; }
      }
      b := a.(bucketKey := newKey);
      if oldKey == newKey { return; }
      if oldKey in buckets {
        var bucket := buckets[oldKey];
        buckets := buckets - {oldKey};
        if newKey !in buckets { PersistBucket(newKey, bucket); }
        store.DeleteQuotaBucket(oldKey);
        assert store.buckets == MoveBucket(old(View()), oldKey, newKey).disk.buckets;
      }
    }

    /** applyBucketCooldown with the write that always follows it. */
    method CoolBucket(key: string, proposed: int)
      requires key in buckets
      modifies this`buckets, store`buckets
      ensures View() == Cool(old(View()), key, proposed)
    {
      var bucket := buckets[key];
      if !(bucket.cooldown.Some? && bucket.cooldown.value > proposed) {
        bucket := bucket.(cooldown := Some(proposed));
      }
      PersistBucket(key, bucket);
    }

    method ClearBucketCooldown(key: string)
      modifies this`buckets, store`buckets
      ensures View() == ClearBucket(old(View()), key)
    {
      if key in buckets && buckets[key].cooldown.Some? {
        PersistBucket(key, buckets[key].(cooldown := None));
      }
    }

    method Persist(a: Account)
      modifies this`accounts, store`accounts
      ensures View() == SaveAccount(old(View()), a)
    {
      accounts := accounts[a.id := a];
      store.SaveAccount(a);
    }

    /* ---------- Observe ---------- */

    method BucketAccounts(a: Account, order: seq<string>) returns (members: seq<string>)
      ensures members == Members(View(), order, a.provider, BucketKey(a))
    {
      members := [];
      for i := 0 to |order|
        invariant members + Members(View(), order[i..], a.provider, BucketKey(a)) == Members(View(), order, a.provider, BucketKey(a))
      {
        var id := order[i];
        assert order[i..][1..] == order[i + 1..];
        if id in accounts && accounts[id].provider == a.provider && BucketKey(accounts[id]) == BucketKey(a) {
          members := members + [id];
        }
      }
    }

    method ApplyEffect(a: Account, e: Effect, now: int) returns (persisted: set<string>)
      requires BucketKey(a) in buckets && a.id in accounts && accounts[a.id] == a
      modifies this`accounts, this`buckets, this`errs, store`buckets
      ensures View() == Spec.ApplyEffect(old(View()), a, e, now) && persisted == Touched(e, a.id)
      ensures BucketKey(a) in buckets && accounts == old(accounts)[a.id := EffectAccount(a, e, now)]
    {
      var key := BucketKey(a);
      persisted := {};
      if e.kind != ServerError { errs := errs - {key}; }
      match e.kind {
        case Success =>
          accounts := accounts[a.id := a.(lastUsed := Some(now))];
          persisted := {a.id};
        case ServerError =>
          accounts := accounts[a.id := a.(lastUsed := Some(now))];
          persisted := {a.id};
          errs := errs[key := (if key in errs then errs[key] else 0) + 1];
          if errs[key] >= 3 {
            CoolBucket(key, now + 30);
            errs := errs - {key};
            assert errs == old(errs) - {key};
          }
        case Block =>
          accounts := accounts[a.id := a.(status := Blocked, errorMessage := e.errorMessage)];
          CoolBucket(key, e.until);
          persisted := {a.id};
        case Reject =>
          assert accounts == accounts[a.id := a];
        case _ =>
          assert accounts == accounts[a.id := a];
          CoolBucket(key, e.until);
      }
    }

    method UpdateState(a: Account, order: seq<string>, st: string) returns (changed: set<string>)
      requires BucketKey(a) in buckets
      modifies this`accounts, this`buckets, store`buckets
      ensures (View(), changed) == Spec.UpdateState(old(View()), a, order, st)
    {
      var key := BucketKey(a);
      var members := BucketAccounts(a, order);
      PersistBucket(key, buckets[key].(state := st));
      changed := RekeyMembers(members, st);
    }

    method RekeyMembers(members: seq<string>, st: string) returns (changed: set<string>)
      modifies this`accounts, this`buckets, store`buckets
      ensures (View(), changed) == Spec.RekeyMembers(old(View()), members, st)
    {
      changed := {};
      ghost var want := Spec.RekeyMembers(View(), members, st);
      for i := 0 to |members|
        invariant Spec.RekeyMembers(View(), members[i..], st).0 == want.0
        invariant changed + Spec.RekeyMembers(View(), members[i..], st).1 == want.1
      {
        var id := members[i];
        assert members[i..][1..] == members[i + 1..];
        if id in accounts {
          var a := accounts[id];
          var b := RefreshBucketKey(a, st);
          accounts := accounts[b.id := b];
          if b.bucketKey != a.bucketKey { changed := changed + {a.id}; }
        }
      }
    }

    method PersistAll(ids: set<string>)
      requires OwnIds(accounts)
      modifies store`accounts
      ensures View() == PersistAccounts(old(View()), ids)
    {
      var rest := ids;
      while rest != {}
        invariant rest <= ids
        invariant store.accounts == old(store.accounts) + Chosen(accounts, ids - rest)
        decreases |rest|
      {
        var id :| id in rest;
        ChooseOneMore(old(store.accounts), accounts, ids - rest, id);
        assert ids - (rest - {id}) == ids - rest + {id};
        if id in accounts { store.SaveAccount(accounts[id]); }
        rest := rest - {id};
      }
      assert ids - rest == ids;
    }

    method Observe(id: string, e: Effect, now: int, order: seq<string>)
      requires OwnIds(store.accounts)
      modifies this`accounts, this`buckets, this`errs, store
      ensures View() == Spec.Observe(old(View()), id, e, now, order)
    {
      Reload();
      if id in accounts { ObserveLoaded(accounts[id], e, now, order); }
    }

    method ObserveLoaded(a: Account, e: Effect, now: int, order: seq<string>)
      requires OwnIds(accounts) && a.id in accounts && accounts[a.id] == a
      modifies this`accounts, this`buckets, this`errs, store
      ensures View() == Spec.ObserveLoaded(old(View()), a, e, now, order)
    {
      EnsureBucket(a);
      var persisted := ApplyEffect(a, e, now);
      Settle(a, persisted, order, e.updatedState);
    }

    method Settle(a: Account, touched: set<string>, order: seq<string>, st: string)
      requires OwnIds(accounts) && BucketKey(a) in buckets
      modifies this`accounts, this`buckets, store
      ensures View() == Spec.Settle(old(View()), a, touched, order, st)
    {
      var persisted := touched;
      if st != "" {
        UpdateKeepsIds(View(), a, order, st);
        var changed := UpdateState(a, order, st);
        persisted := persisted + changed;
      }
      PersistAll(persisted);
    }

    /* ---------- administration ---------- */

    method Update(id: string, edit: Edit) returns (found: bool)
      modifies this`accounts, this`buckets, store
      ensures View() == Spec.Update(old(View()), id, edit) && found == (id in old(store.accounts))
    {
      Reload();
      found := id in accounts;
      if !found { return; }
      var a := accounts[id];
      var projected := edit(Project(a, buckets));
      var b := projected.account.(id := a.id, bucketKey := a.bucketKey);
      var st := if projected.state == "" then EMPTY_STATE else projected.state;
      var c := RefreshBucketKey(b, st);
      EnsureBucket(c);
      var bucket := buckets[c.bucketKey];
      if bucket.state != st || bucket.cooldown != projected.cooldown {
        PersistBucket(c.bucketKey, Bucket(projected.cooldown, st));
      }
      Persist(c);
    }

    method Add(shown: Projection)
      modifies this`accounts, this`buckets, store
      ensures View() == Spec.Add(old(View()), shown)
    {
      Reload();
      var st := if shown.state == "" then EMPTY_STATE else shown.state;
      var c := RefreshBucketKey(shown.account, st);
      EnsureBucket(c);
      PersistBucket(c.bucketKey, Bucket(shown.cooldown, st));
      Persist(c);
    }

    method BucketHasMembers(key: string) returns (found: bool)
      ensures found == (key in KeysInUse(accounts))
    {
      var ids := accounts.Keys;
      while ids != {}
        invariant ids <= accounts.Keys
        invariant forall id | id in accounts && id !in ids :: BucketKey(accounts[id]) != key
        decreases |ids|
      {
        var id :| id in ids;
        if BucketKey(accounts[id]) == key { return true; }
        ids := ids - {id};
      }
      found := false;
    }

    method Delete(id: string) returns (found: bool)
      modifies this`accounts, this`buckets, store
      ensures View() == Spec.Delete(old(View()), id) && found == (id in old(store.accounts))
    {
      Reload();
      found := id in accounts;
      if !found { return; }
      var key := BucketKey(accounts[id]);
      store.DeleteAccount(id);
      accounts := accounts - {id};
      var occupied := BucketHasMembers(key);
      if !occupied {
        buckets := buckets - {key};
        store.DeleteQuotaBucket(key);
      }
    }

    method StoreTokens(id: string, tokens: Tokens, now: int) returns (found: bool)
      modifies this`accounts, this`buckets, store
      ensures View() == Spec.StoreTokens(old(View()), id, tokens, now) && found == (id in old(store.accounts))
    {
      Reload();
      found := id in accounts;
      if !found { return; }
      var a := accounts[id].(tokens := tokens, lastRefresh := Some(now), status := Active, errorMessage := "");
      EnsureBucket(a);
      ClearBucketCooldown(BucketKey(a));
      Persist(a);
    }

    /** The result is the number of accounts that were blocked in this bucket. */
    method RecoverBucket(id: string) returns (recovered: nat)
      requires OwnIds(store.accounts)
      modifies this`accounts, this`buckets, store
      ensures View() == Spec.RecoverBucket(old(View()), id)
      ensures recovered == if id !in old(store.accounts) then 0 else
        |BlockedIn(old(store.accounts), BucketKey(old(store.accounts)[id]))|
    {
      Reload();
      if id !in accounts { return 0; }
      var key := BucketKey(accounts[id]);
      recovered := RecoverMembers(key);
      ClearBucketCooldown(key);
    }

    method RecoverMember(i: string, key: string) returns (wasBlocked: bool)
      requires accounts == store.accounts && i in accounts && accounts[i].id == i
      modifies this`accounts, store`accounts
      ensures accounts == store.accounts == old(accounts)[i := Recovered(old(accounts)[i], key)]
      ensures wasBlocked == (BucketKey(old(accounts)[i]) == key && old(accounts)[i].status == Blocked)
    {
      var member := accounts[i];
      wasBlocked := BucketKey(member) == key && member.status == Blocked;
      if wasBlocked { Persist(member.(status := Active, errorMessage := "")); }
      assert accounts == old(accounts)[i := Recovered(old(accounts)[i], key)];
    }

    method RecoverMembers(key: string) returns (recovered: nat)
      requires accounts == store.accounts && OwnIds(accounts)
      modifies this`accounts, store`accounts
      ensures store.accounts == accounts == RecoverAll(old(accounts), key)
      ensures recovered == |BlockedIn(old(accounts), key)|
    {
      ghost var start := accounts;
      ghost var blocked := BlockedIn(accounts, key);
      var ids := accounts.Keys;
      recovered := 0;
      RecoverNone(start, key);
      while ids != {}
        invariant ids <= start.Keys
        invariant store.accounts == accounts == HalfRecovered(start, ids, key)
        invariant recovered == |blocked - ids|
        decreases |ids|
      {
        var i :| i in ids;
        RecoverOneMore(start, ids, i, key);
        CountOneMore(blocked, ids, i);
        var wasBlocked := RecoverMember(i, key);
        if wasBlocked { recovered := recovered + 1; }
        ids := ids - {i};
      }
      assert blocked - ids == blocked;
    }

    method MarkError(id: string, message: string)
      modifies this`accounts, this`buckets, store`accounts
      ensures View() == Spec.MarkError(old(View()), id, message)
    {
      Reload();
      if id !in accounts { return; }
      Persist(accounts[id].(status := Error, errorMessage := message));
    }

    method ClearCooldown(id: string)
      modifies this`accounts, this`buckets, store`buckets
      ensures View() == Spec.ClearCooldown(old(View()), id)
    {
      Reload();
      if id !in accounts { return; }
      EnsureBucket(accounts[id]);
      ClearBucketCooldown(BucketKey(accounts[id]));
    }

    method SetDrivers(installed: map<string, Driver>, order: seq<string>)
      modifies this`accounts, this`buckets, this`drivers, store
      ensures View() == Spec.SetDrivers(old(View()), installed, order)
    {
      Reload();
      drivers := installed;
      for i := 0 to |order|
        invariant AdoptKeys(View(), order[i..]) == Spec.SetDrivers(old(View()), installed, order)
      {
        assert order[i..][1..] == order[i + 1..];
        if order[i] in accounts { AdoptDriverKey(order[i]); }
      }
    }

    method AdoptDriverKey(id: string)
      requires id in accounts
      modifies this`accounts, this`buckets, store
      ensures View() == AdoptKey(old(View()), id)
    {
      var a := accounts[id];
      var b := RefreshBucketKey(a, Project(a, buckets).state);
      EnsureBucket(b);
      if b.bucketKey != a.bucketKey { Persist(b); }
    }

    /* ---------- cleanup ---------- */

    /** Phase one of cleanup clears expired cooldowns, phase two enforces exhausted quotas. */
    method Cleanup(now: int, first: seq<string>, second: seq<string>, order: seq<string>)
      modifies this`accounts, this`buckets, store`buckets
      ensures View() == Spec.Cleanup(old(View()), now, first, second, order)
    {
      Reload();
      ghost var expired := ExpireAll(View(), first, now);
      for i := 0 to |first|
        invariant ExpireAll(View(), first[i..], now) == expired
      {
        var key := first[i];
        assert first[i..][1..] == first[i + 1..];
        if key in buckets && buckets[key].cooldown.Some? && now > buckets[key].cooldown.value {
          PersistBucket(key, buckets[key].(cooldown := None));
        }
      }
      for i := 0 to |second|
        invariant EnforceAll(View(), second[i..], now, order) == EnforceAll(expired, second, now, order)
      {
        var key := second[i];
        assert second[i..][1..] == second[i + 1..];
        if key in buckets && buckets[key].cooldown.None? { EnforceExhausted(key, now, order); }
      }
    }

    method EnforceExhausted(key: string, now: int, order: seq<string>)
      requires key in buckets
      modifies this`buckets, store`buckets
      ensures View() == EnforceBucket(old(View()), key, now, order)
    {
      for i := 0 to |order|
        invariant View() == old(View()) && EnforceBucket(View(), key, now, order[i..]) == EnforceBucket(View(), key, now, order)
      {
        assert order[i..][1..] == order[i + 1..];
        if order[i] in accounts && BucketKey(accounts[order[i]]) == key && accounts[order[i]].status == Active {
          var a := accounts[order[i]];
          var until := 0;
          if a.provider in drivers {
            var t := drivers[a.provider].exhausted(Project(a, buckets).state, now);
            if t != ZERO_TIME { until := t; }
          }
          if until > 0 { CoolBucket(key, until); }
          return;
        }
      }
    }
  }

  function BlockedIn(accounts: map<string, Account>, key: string): set<string> {
    set id | id in accounts && BucketKey(accounts[id]) == key && accounts[id].status == Blocked
  }

  function Chosen(accounts: map<string, Account>, ids: set<string>): map<string, Account> {
    map id | id in ids && id in accounts :: accounts[id]
  }

  lemma ChooseOneMore(base: map<string, Account>, accounts: map<string, Account>, ids: set<string>, id: string)
    ensures base + Chosen(accounts, ids + {id}) == if id in accounts then (base + Chosen(accounts, ids))[id := accounts[id]]
                                                   else base + Chosen(accounts, ids)
  {
  }

  /** Accounts not in `ids` are recovered, the others are as they were. */
  function HalfRecovered(start: map<string, Account>, ids: set<string>, key: string): map<string, Account> {
    map i | i in start :: if i in ids then start[i] else Recovered(start[i], key)
  }

  lemma RecoverNone(start: map<string, Account>, key: string)
    ensures HalfRecovered(start, start.Keys, key) == start && BlockedIn(start, key) - start.Keys == {}
    ensures HalfRecovered(start, {}, key) == RecoverAll(start, key)
  {
  }

  lemma RecoverOneMore(start: map<string, Account>, ids: set<string>, i: string, key: string)
    requires i in ids && i in start
    ensures HalfRecovered(start, ids - {i}, key) == HalfRecovered(start, ids, key)[i := Recovered(start[i], key)]
    ensures HalfRecovered(start, ids, key)[i := start[i]] == HalfRecovered(start, ids, key)
  {
  }

  lemma CountOneMore(all: set<string>, ids: set<string>, i: string)
    requires i in ids
    ensures |all - (ids - {i})| == |all - ids| + if i in all then 1 else 0
  {
    assert all - (ids - {i}) == if i in all then all - ids + {i} else all - ids;
  }

  ghost predicate OwnIds(accounts: map<string, Account>) {
    forall id <- accounts :: accounts[id].id == id
  }

  lemma {:induction false} RekeyKeepsIds(p: Pool, members: seq<string>, st: string)
    requires OwnIds(p.accounts)
    ensures OwnIds(Spec.RekeyMembers(p, members, st).0.accounts)
    decreases |members|
  {
    if members != [] {
      if members[0] !in p.accounts {
        RekeyKeepsIds(p, members[1..], st);
      } else {
        var a := p.accounts[members[0]];
        RekeyKeepsIds(PutAccount(RefreshKey(p, a, st), Rekeyed(p, a, st)), members[1..], st);
      }
    }
  }

  lemma UpdateKeepsIds(p: Pool, a: Account, order: seq<string>, st: string)
    requires BucketKey(a) in p.buckets && OwnIds(p.accounts)
    ensures OwnIds(Spec.UpdateState(p, a, order, st).0.accounts)
  {
    var key := BucketKey(a);
    RekeyKeepsIds(SaveBucket(p, key, p.buckets[key].(state := st)), Members(p, order, a.provider, key), st);
  }
}

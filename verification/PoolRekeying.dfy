/** What an observed quota state does to bucket keys: every account of the reporter's bucket goes to the key its driver
    derives from that state, and the bucket goes where the first of them goes. */
module PoolRekeying {
  import opened Domain
  import opened PoolState
  import opened PoolCoherence
  import opened PoolHistory
  import opened PoolEffects
  import BucketMoves

  /* ---------- what the drivers ask for ---------- */

  /** The key the account's driver derives from the account, its key spelled out, and a quota state; the account's own
      key without a driver or without an answer. */
  function KeyUnder(drivers: map<string, Driver>, a: Account, st: string): string {
    var own := BucketKey(a);
    var derived := if a.provider in drivers then drivers[a.provider].bucketKey(a.(bucketKey := own), st) else "";
    if derived == "" then own else derived
  }

  /** Account `j` as the observation leaves it, but for its key. */
  function Noted(p: Pool, e: Event, j: string): Account
    requires j in p.accounts
  {
    var a := p.accounts[j];
    if j != e.id then a
    else if e.effect.kind == Success || e.effect.kind == ServerError then a.(lastUsed := Some(e.now))
    else if e.effect.kind == Block then a.(status := Blocked, errorMessage := e.effect.errorMessage)
    else a
  }

  /** `j` shares provider and bucket with the reporting account. */
  predicate Fellow(p: Pool, e: Event, j: string)
    requires e.id in p.accounts && j in p.accounts
  {
    p.accounts[j].provider == p.accounts[e.id].provider && KeyAt(p, j) == KeyAt(p, e.id)
  }

  /** The key an account of the loaded pool has after the observation. */
  function KeyAfter(p: Pool, e: Event, j: string): string
    requires e.id in p.accounts && j in p.accounts
  {
    if Fellow(p, e, j) then KeyUnder(p.drivers, Noted(p, e, j), e.effect.updatedState) else KeyAt(p, j)
  }

  /** The row of account `j` after the observation; a fellow's key is spelled out. */
  function Left(p: Pool, e: Event, j: string): Account
    requires e.id in p.accounts && j in p.accounts
  {
    if Fellow(p, e, j) then Noted(p, e, j).(bucketKey := KeyAfter(p, e, j)) else Noted(p, e, j)
  }

  /** Where the bucket goes: with the first account of `order` that leaves it. */
  function Destination(p: Pool, e: Event, order: seq<string>): string
    requires e.id in p.accounts && forall id <- order :: id in p.accounts
  {
    if order == [] then KeyAt(p, e.id)
    else if Fellow(p, e, order[0]) && KeyAfter(p, e, order[0]) != KeyAt(p, e.id) then KeyAfter(p, e, order[0])
    else Destination(p, e, order[1..])
  }

  /** The reporting bucket as the observation leaves it: the reported state, and the cooldown joined with what the
      effect proposes. */
  function NotedBucket(p: Pool, e: Event): Bucket
    requires e.id in p.accounts && KeyAt(p, e.id) in p.buckets
  {
    var k := KeyAt(p, e.id);
    Bucket(Joined(p.buckets[k].cooldown, Proposal(e, Errors(p, k))), e.effect.updatedState)
  }

  /* ---------- rekeying one account after the other ---------- */

  lemma DerivedIsUnder(drivers: map<string, Driver>, a: Account, st: string)
    ensures DerivedKey(drivers, a, st) == KeyUnder(drivers, a, st)
  {
  }

  /** Accounts of `ms`, all under `key` and none of them rekeyed yet. */
  ghost predicate Waiting(accounts: map<string, Account>, ms: seq<string>, key: string) {
    && (forall i | 0 <= i < |ms| :: ms[i] in accounts && accounts[ms[i]].id == ms[i] && BucketKey(accounts[ms[i]]) == key)
    && (forall i, j | 0 <= i < j < |ms| :: ms[i] != ms[j])
  }

  lemma RekeyOne(p: Pool, a: Account, st: string)
    ensures var to := KeyUnder(p.drivers, a, st); var q := PutAccount(RefreshKey(p, a, st), Rekeyed(p, a, st));
      && q.drivers == p.drivers && q.accounts == p.accounts[a.id := a.(bucketKey := to)]
      && q.buckets == Moved(p.buckets, BucketKey(a), to)
  {
    DerivedIsUnder(p.drivers, a, st);
  }

  /** A bucket goes to another key, where an existing one wins. */
  function Moved(b: map<string, Bucket>, from: string, to: string): map<string, Bucket> {
    if from == to || from !in b then b
    else if to in b then b - {from}
    else b[to := Normal(b[from])] - {from}
  }

  /** The key of the first of `ms` that leaves `key`. */
  function FirstLeaves(drivers: map<string, Driver>, accounts: map<string, Account>, ms: seq<string>, st: string, key: string): string
    requires forall id <- ms :: id in accounts
  {
    if ms == [] then key
    else if KeyUnder(drivers, accounts[ms[0]], st) != key then KeyUnder(drivers, accounts[ms[0]], st)
    else FirstLeaves(drivers, accounts, ms[1..], st, key)
  }

  lemma {:induction false} RekeyAll(p: Pool, ms: seq<string>, st: string, key: string)
    requires Waiting(p.accounts, ms, key)
    ensures var q := RekeyMembers(p, ms, st).0;
      && q.drivers == p.drivers && q.accounts.Keys == p.accounts.Keys
      && (forall id <- p.accounts :: q.accounts[id] ==
            if id in ms then p.accounts[id].(bucketKey := KeyUnder(p.drivers, p.accounts[id], st)) else p.accounts[id])
      && q.buckets == Moved(p.buckets, key, FirstLeaves(p.drivers, p.accounts, ms, st, key))
    decreases |ms|
  {
    if ms != [] {
      var a := p.accounts[ms[0]];
      var q := PutAccount(RefreshKey(p, a, st), Rekeyed(p, a, st));
      RekeyOne(p, a, st);
      assert ms[0] !in ms[1..];
      RekeyAll(q, ms[1..], st, key);
      LeavesFramed(p.drivers, p.accounts, q.accounts, ms[1..], st, key);
    }
  }

  lemma {:induction false} LeavesFramed(drivers: map<string, Driver>, accounts: map<string, Account>, after: map<string, Account>,
                                        ms: seq<string>, st: string, key: string)
    requires forall id <- ms :: id in accounts && id in after && after[id] == accounts[id]
    ensures FirstLeaves(drivers, after, ms, st, key) == FirstLeaves(drivers, accounts, ms, st, key)
    decreases |ms|
  {
    if ms != [] { LeavesFramed(drivers, accounts, after, ms[1..], st, key); }
  }

  /* ---------- the members of the bucket ---------- */

  lemma {:induction false} MembersListed(p: Pool, order: seq<string>, provider: string, key: string)
    requires forall i, j | 0 <= i < j < |order| :: order[i] != order[j]
    ensures var ms := Members(p, order, provider, key);
      && (forall id :: id in ms <==> id in order && id in p.accounts && IsMember(p.accounts[id], provider, key))
      && (forall i, j | 0 <= i < j < |ms| :: ms[i] != ms[j])
  {
    if order != [] {
      MembersListed(p, order[1..], provider, key);
      assert order == [order[0]] + order[1..];
    }
  }

  /** The loaded pool `p` after the effect proper of an observation. */
  ghost predicate Effected(p: Pool, e: Event, accounts: map<string, Account>) {
    && e.id in p.accounts && (forall id <- p.accounts :: p.accounts[id].id == id)
    && accounts == p.accounts[e.id := Noted(p, e, e.id)]
  }

  lemma {:induction false} FirstToLeave(p: Pool, e: Event, q: Pool, order: seq<string>)
    requires Effected(p, e, q.accounts) && forall id <- order :: id in p.accounts
    ensures var a := p.accounts[e.id]; var ms := Members(q, order, a.provider, BucketKey(a));
      && (forall id <- ms :: id in q.accounts)
      && FirstLeaves(p.drivers, q.accounts, ms, e.effect.updatedState, BucketKey(a)) == Destination(p, e, order)
  {
    if order != [] {
      FirstToLeave(p, e, q, order[1..]);
      assert q.accounts[order[0]] == Noted(p, e, order[0]);
    }
  }

  /** The members of the bucket are the fellows of the reporter, each as the observation notes it. */
  lemma MembersAreFellows(p: Pool, e: Event, q: Pool)
    requires Effected(p, e, q.accounts) && BucketMoves.Lists(e.order, p.accounts.Keys)
    ensures var a := p.accounts[e.id]; var ms := Members(q, e.order, a.provider, BucketKey(a));
      && Waiting(q.accounts, ms, BucketKey(a))
      && forall id <- p.accounts :: q.accounts[id] == Noted(p, e, id) && (id in ms <==> Fellow(p, e, id))
  {
    var a := p.accounts[e.id];
    MembersListed(q, e.order, a.provider, BucketKey(a));
  }

  /* ---------- the whole observation ---------- */

  lemma EffectNotes(p: Pool, e: Event)
    requires e.id in p.accounts && p.accounts[e.id].id == e.id && KeyAt(p, e.id) in p.buckets
    requires p.buckets[KeyAt(p, e.id)].state != ""
    ensures var q := ApplyEffect(p, p.accounts[e.id], e.effect, e.now); var k := KeyAt(p, e.id);
      && q.accounts == p.accounts[e.id := Noted(p, e, e.id)] && q.drivers == p.drivers
      && q.buckets == p.buckets[k := NotedBucket(p, e).(state := p.buckets[k].state)]
  {
    var q, k := ApplyEffect(p, p.accounts[e.id], e.effect, e.now), KeyAt(p, e.id);
    if Proposal(e, Errors(p, k)).None? { assert q.buckets == p.buckets[k := p.buckets[k]]; }
  }

  /** `t` is the loaded pool `p` after the whole observation. */
  ghost predicate Observed(p: Pool, e: Event, t: Pool)
    requires e.id in p.accounts && KeyAt(p, e.id) in p.buckets && forall id <- e.order :: id in p.accounts
  {
    && t.accounts.Keys == p.accounts.Keys
    && (forall j <- p.accounts :: Shown(t, j).account == Noted(p, e, j).(bucketKey := KeyAfter(p, e, j)))
    && var from, to, noted := KeyAt(p, e.id), Destination(p, e, e.order), NotedBucket(p, e);
       t.buckets == if to == from then p.buckets[from := noted]
                    else if to in p.buckets then p.buckets - {from}
                    else p.buckets[to := noted] - {from}
  }

  lemma SettleIsRekeying(q: Pool, a: Account, touched: set<string>, order: seq<string>, st: string) returns (s: Pool)
    requires BucketKey(a) in q.buckets && st != ""
    ensures s.accounts == q.accounts && s.drivers == q.drivers
    ensures s.buckets == q.buckets[BucketKey(a) := q.buckets[BucketKey(a)].(state := st)]
    ensures var t := Settle(q, a, touched, order, st); var u := RekeyMembers(s, Members(s, order, a.provider, BucketKey(a)), st).0;
      t.accounts == u.accounts && t.buckets == u.buckets
  {
    s := SaveBucket(q, BucketKey(a), q.buckets[BucketKey(a)].(state := st));
    MembersFramed(q, s, order, a.provider, BucketKey(a));
  }

  lemma {:induction false} MembersFramed(p: Pool, q: Pool, order: seq<string>, provider: string, key: string)
    requires q.accounts == p.accounts
    ensures Members(q, order, provider, key) == Members(p, order, provider, key)
  {
    if order != [] { MembersFramed(p, q, order[1..], provider, key); }
  }

  lemma RekeyFellows(p: Pool, e: Event, s: Pool) returns (u: Pool)
    requires e.id in p.accounts && KeyAt(p, e.id) in p.buckets && Effected(p, e, s.accounts) && s.drivers == p.drivers
    requires BucketMoves.Lists(e.order, p.accounts.Keys) && s.buckets == p.buckets[KeyAt(p, e.id) := NotedBucket(p, e)]
    ensures u == RekeyMembers(s, Members(s, e.order, p.accounts[e.id].provider, KeyAt(p, e.id)), e.effect.updatedState).0
    ensures u.accounts.Keys == p.accounts.Keys
    ensures u.buckets == Moved(s.buckets, KeyAt(p, e.id), Destination(p, e, e.order))
    ensures forall j <- p.accounts :: u.accounts[j] == Left(p, e, j)
  {
    var ms := Members(s, e.order, p.accounts[e.id].provider, KeyAt(p, e.id));
    MembersAreFellows(p, e, s);
    FirstToLeave(p, e, s, e.order);
    RekeyAll(s, ms, e.effect.updatedState, KeyAt(p, e.id));
    u := RekeyMembers(s, ms, e.effect.updatedState).0;
  }

  lemma RekeyingShown(p: Pool, e: Event, t: Pool)
    requires e.id in p.accounts && KeyAt(p, e.id) in p.buckets && (forall id <- e.order :: id in p.accounts)
    requires t.accounts.Keys == p.accounts.Keys && e.effect.updatedState != ""
    requires t.buckets == Moved(p.buckets[KeyAt(p, e.id) := NotedBucket(p, e)], KeyAt(p, e.id), Destination(p, e, e.order))
    requires forall j <- p.accounts :: t.accounts[j] == Left(p, e, j)
    ensures Observed(p, e, t)
  {
    forall j | j in p.accounts ensures Shown(t, j).account == Noted(p, e, j).(bucketKey := KeyAfter(p, e, j)) {
      KeyIsShown(p, e, t, j);
    }
    BucketWentThere(p.buckets, t.buckets, KeyAt(p, e.id), Destination(p, e, e.order), NotedBucket(p, e));
  }

  lemma BucketWentThere(b: map<string, Bucket>, after: map<string, Bucket>, from: string, to: string, noted: Bucket)
    requires from in b && noted.state != "" && after == Moved(b[from := noted], from, to)
    ensures after == if to == from then b[from := noted] else if to in b then b - {from} else b[to := noted] - {from}
  {
  }

  /** Everything about an observation that reports a quota state, for every visiting order and whatever keys the drivers
      derive. Every account is as the effect notes it, under the key its driver derives from the reported state if it
      shares the reporter's bucket, and under its own otherwise. The noted bucket goes to the key of the first account
      that leaves; a bucket that is there already wins; and no bucket stays behind. */
  lemma ObserveRekeys(p0: Pool, e: Event)
    requires DiskOk(p0.disk) && e.id in p0.disk.accounts && e.effect.updatedState != ""
    requires BucketMoves.Lists(e.order, p0.disk.accounts.Keys)
    ensures var p := Reload(p0);
      && (forall id <- e.order :: id in p.accounts) && KeyAt(p, e.id) in p.buckets
      && Observed(p, e, Observe(p0, e.id, e.effect, e.now, e.order))
  {
    LoadedHasBuckets(p0);
    ObserveInTwo(p0, e);
    var p := Reload(p0);
    EffectNotes(p, e);
    ObserveEnds(p, e, ApplyEffect(p, p.accounts[e.id], e.effect, e.now), Observe(p0, e.id, e.effect, e.now, e.order));
  }

  lemma ObserveEnds(p: Pool, e: Event, q: Pool, t: Pool)
    requires e.id in p.accounts && KeyAt(p, e.id) in p.buckets && Effected(p, e, q.accounts) && e.effect.updatedState != ""
    requires BucketMoves.Lists(e.order, p.accounts.Keys) && q.drivers == p.drivers
    requires var k := KeyAt(p, e.id); q.buckets == p.buckets[k := NotedBucket(p, e).(state := p.buckets[k].state)]
    requires t == Settle(q, p.accounts[e.id], Touched(e.effect, e.id), e.order, e.effect.updatedState)
    ensures Observed(p, e, t)
  {
    var s := SettleIsRekeying(q, p.accounts[e.id], Touched(e.effect, e.id), e.order, e.effect.updatedState);
    var u := RekeyFellows(p, e, s);
    RekeyingShown(p, e, t);
  }

  lemma KeyIsShown(p: Pool, e: Event, t: Pool, j: string)
    requires e.id in p.accounts && j in p.accounts && j in t.accounts
    requires t.accounts[j] == Left(p, e, j)
    ensures Shown(t, j).account == Noted(p, e, j).(bucketKey := KeyAfter(p, e, j))
  {
  }

  /** The reported quota reaches every account of the bucket if and only if they all end under one key, and that key is
      the one they had or has no bucket yet: of accounts that go elsewhere the first takes the bucket along. */
  lemma ReportReachesAllIff(p0: Pool, e: Event)
    requires DiskOk(p0.disk) && e.id in p0.disk.accounts && e.effect.updatedState != ""
    requires BucketMoves.Lists(e.order, p0.disk.accounts.Keys)
    requires var p := Reload(p0);
      && KeyAt(p, e.id) in p.buckets && NotedBucket(p, e) != DEFAULT_BUCKET
      && forall k <- p.buckets :: p.buckets[k] != NotedBucket(p, e)
    ensures var p, q := Reload(p0), Observe(p0, e.id, e.effect, e.now, e.order);
      && (forall id <- e.order :: id in p.accounts)
      && var to := Destination(p, e, e.order);
         (forall j <- p.accounts :: Fellow(p, e, j) ==>
            j in q.accounts && Bucket(Shown(q, j).cooldown, Shown(q, j).state) == NotedBucket(p, e))
         <==> (to == KeyAt(p, e.id) || to !in p.buckets) && forall j <- p.accounts :: Fellow(p, e, j) ==> KeyAfter(p, e, j) == to
  {
    ObserveRekeys(p0, e);
    LoadedHasBuckets(p0);
    ReportReaches(Reload(p0), e, Observe(p0, e.id, e.effect, e.now, e.order));
  }

  lemma ReportReaches(p: Pool, e: Event, q: Pool)
    requires e.id in p.accounts && KeyAt(p, e.id) in p.buckets && BucketMoves.Lists(e.order, p.accounts.Keys)
    requires Observed(p, e, q) && e.effect.updatedState != "" && NotedBucket(p, e) != DEFAULT_BUCKET
    requires forall k <- p.buckets :: p.buckets[k] != NotedBucket(p, e) && p.buckets[k].state != ""
    ensures var to := Destination(p, e, e.order);
      (forall j <- p.accounts :: Fellow(p, e, j) ==>
         j in q.accounts && Bucket(Shown(q, j).cooldown, Shown(q, j).state) == NotedBucket(p, e))
      <==> (to == KeyAt(p, e.id) || to !in p.buckets) && forall j <- p.accounts :: Fellow(p, e, j) ==> KeyAfter(p, e, j) == to
  {
    forall j | j in p.accounts && Fellow(p, e, j)
      ensures Bucket(Shown(q, j).cooldown, Shown(q, j).state) == NotedBucket(p, e)
         <==> (Destination(p, e, e.order) == KeyAt(p, e.id) || Destination(p, e, e.order) !in p.buckets)
              && KeyAfter(p, e, j) == Destination(p, e, e.order)
    {
      ReportSeen(p, e, q, j);
    }
    assert Fellow(p, e, e.id);
  }

  lemma ReportSeen(p: Pool, e: Event, q: Pool, j: string)
    requires e.id in p.accounts && KeyAt(p, e.id) in p.buckets && (forall id <- e.order :: id in p.accounts)
    requires Observed(p, e, q) && j in p.accounts && Fellow(p, e, j) && e.effect.updatedState != ""
    requires NotedBucket(p, e) != DEFAULT_BUCKET && forall k <- p.buckets :: p.buckets[k] != NotedBucket(p, e) && p.buckets[k].state != ""
    ensures var to := Destination(p, e, e.order);
      Bucket(Shown(q, j).cooldown, Shown(q, j).state) == NotedBucket(p, e)
      <==> (to == KeyAt(p, e.id) || to !in p.buckets) && KeyAfter(p, e, j) == to
  {
    assert KeyAt(q, j) == KeyAfter(p, e, j) by { assert Shown(q, j).account.bucketKey == KeyAt(q, j); }
    QuotaShown(q, j);
    SeenIff(p.buckets, q.buckets, KeyAt(p, e.id), Destination(p, e, e.order), NotedBucket(p, e), KeyAfter(p, e, j));
  }

  lemma QuotaShown(q: Pool, j: string)
    requires j in q.accounts && (KeyAt(q, j) in q.buckets ==> q.buckets[KeyAt(q, j)].state != "")
    ensures Bucket(Shown(q, j).cooldown, Shown(q, j).state) == BucketMoves.Sees(q.buckets, KeyAt(q, j))
  {
  }

  lemma SeenIff(b: map<string, Bucket>, after: map<string, Bucket>, from: string, to: string, noted: Bucket, key: string)
    requires from in b && noted != DEFAULT_BUCKET && forall k <- b :: b[k] != noted
    requires after == if to == from then b[from := noted] else if to in b then b - {from} else b[to := noted] - {from}
    ensures BucketMoves.Sees(after, key) == noted <==> (to == from || to !in b) && key == to
  {
  }
}

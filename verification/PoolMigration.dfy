/** What happens to quota when SetDrivers moves accounts to the keys their drivers derive: exactly when everybody
    keeps the quota he had, whatever order the accounts are visited in. */
module PoolMigration {
  import opened Domain
  import opened PoolState
  import opened PoolCoherence
  import opened BucketMoves

  /** The quota an account is shown. */
  function QuotaOf(p: Pool, a: Account): Bucket {
    var v := Project(a, p.buckets);
    Bucket(v.cooldown, v.state)
  }

  /** The key the account's driver derives from the quota the account is shown now. */
  function Target(p: Pool, a: Account): string {
    DerivedKey(p.drivers, a, QuotaOf(p, a).state)
  }

  /** The key it derives once somebody else has taken the account's bucket away. */
  function Orphaned(p: Pool, a: Account): string {
    DerivedKey(p.drivers, a, EMPTY_STATE)
  }

  /** The plan of a loaded pool, read off its rows and the drivers' keys. */
  function PlanOf(p: Pool): Plan {
    Plan(p.buckets, map id | id in p.accounts :: BucketKey(p.accounts[id]),
         map id | id in p.accounts :: Target(p, p.accounts[id]), map id | id in p.accounts :: Orphaned(p, p.accounts[id]))
  }

  /** The pool just before keys are adopted: loaded, with a bucket for every account. */
  ghost predicate Ready(p: Pool) {
    WellFormed(PlanOf(p)) && forall id <- p.accounts :: p.accounts[id].id == id
  }

  ghost predicate KeepsQuotas(p: Pool, q: Pool) {
    forall id <- p.accounts :: id in q.accounts && QuotaOf(q, q.accounts[id]) == QuotaOf(p, p.accounts[id])
  }

  /* ---------- one account ---------- */

  lemma AdoptKeyEffect(q: Pool, id: string)
    requires id in q.accounts && q.accounts[id].id == id
    ensures var a := q.accounts[id]; var to := Target(q, a); var r := AdoptKey(q, id);
      && r.drivers == q.drivers && r.buckets == Shift(q.buckets, BucketKey(a), to)
      && r.accounts == q.accounts[id := a.(bucketKey := to)] && to != ""
  {
    var a := q.accounts[id];
    var b := Rekeyed(q, a, Project(a, q.buckets).state);
    if b.bucketKey == a.bucketKey { assert b == a; }
  }

  /** `r` is `q` after account `id` went to `to`. */
  ghost predicate Visit(q: Pool, r: Pool, id: string, to: string) {
    && id in q.accounts && to != "" && r.drivers == q.drivers && r.buckets == Shift(q.buckets, BucketKey(q.accounts[id]), to)
    && r.accounts == q.accounts[id := q.accounts[id].(bucketKey := to)]
  }

  /** An account not yet visited goes to its target while its bucket is as loaded, and as an orphan once it is gone. */
  lemma VisitGoes(p: Pool, q: Pool, id: string) returns (to: string)
    requires Ready(p) && q.drivers == p.drivers && id in p.accounts && id in q.accounts && q.accounts[id] == p.accounts[id]
    ensures Visit(q, AdoptKey(q, id), id, to)
    ensures var f := BucketKey(p.accounts[id]);
      && (f in q.buckets && q.buckets[f] == p.buckets[f] ==> to == PlanOf(p).target[id])
      && (f !in q.buckets ==> to == PlanOf(p).orphan[id])
  {
    AdoptKeyEffect(q, id);
    to := Target(q, q.accounts[id]);
  }

  /** The accounts of `rest` are as at the start. */
  ghost predicate Unvisited(p: Pool, q: Pool, rest: seq<string>) {
    && q.drivers == p.drivers
    && (forall i | 0 <= i < |rest| :: rest[i] in p.accounts && rest[i] in q.accounts && q.accounts[rest[i]] == p.accounts[rest[i]])
    && (forall i, j | 0 <= i < j < |rest| :: rest[i] != rest[j])
  }

  lemma AdoptFirst(p: Pool, q: Pool, order: seq<string>) returns (r: Pool, to: string)
    requires Ready(p) && Unvisited(p, q, order) && order != []
    ensures AdoptKeys(q, order) == AdoptKeys(r, order[1..]) && Unvisited(p, r, order[1..])
    ensures Goes(PlanOf(p), q.buckets, order[0], to) && r.buckets == Shift(q.buckets, BucketKey(p.accounts[order[0]]), to)
    ensures to != "" && r.accounts == q.accounts[order[0] := p.accounts[order[0]].(bucketKey := to)]
  {
    to := VisitGoes(p, q, order[0]);
    r := AdoptKey(q, order[0]);
  }

  /** Adopting keys in some order is a run of the plan. */
  lemma {:induction false} AdoptRun(p: Pool, q: Pool, pl: Plan, order: seq<string>) returns (tos: seq<string>, t: Pool)
    requires Ready(p) && pl == PlanOf(p) && Unvisited(p, q, order)
    ensures t == AdoptKeys(q, order) && Run(pl, q.buckets, order, tos) && t.buckets == After(pl, q.buckets, order, tos)
    ensures t.accounts.Keys == q.accounts.Keys && forall id <- q.accounts :: id !in order ==> t.accounts[id] == q.accounts[id]
    ensures forall n | 0 <= n < |order| :: tos[n] != "" && t.accounts[order[n]] == p.accounts[order[n]].(bucketKey := tos[n])
    decreases |order|
  {
    if order == [] {
      tos, t := [], q;
    } else {
      var r, to := AdoptFirst(p, q, order);
      var more;
      more, t := AdoptRun(p, r, pl, order[1..]);
      tos := [to] + more;
      RunCons(pl, q.buckets, order, to, more);
      AllArrive(p.accounts, q.accounts, t.accounts, order, to, more);
    }
  }

  lemma AllArrive(was: map<string, Account>, now: map<string, Account>, end: map<string, Account>,
                  order: seq<string>, to: string, more: seq<string>)
    requires order != [] && |more| == |order| - 1 && to != "" && (forall i | 0 <= i < |order| :: order[i] in was && order[i] in now)
    requires forall i, j | 0 <= i < j < |order| :: order[i] != order[j]
    requires end.Keys == now.Keys
    requires var r := now[order[0] := was[order[0]].(bucketKey := to)]; forall id <- r :: id !in order[1..] ==> end[id] == r[id]
    requires forall n | 0 <= n < |more| :: more[n] != "" && end[order[1..][n]] == was[order[1..][n]].(bucketKey := more[n])
    ensures forall id <- now :: id !in order ==> end[id] == now[id]
    ensures forall n | 0 <= n < |order| ::
      ([to] + more)[n] != "" && end[order[n]] == was[order[n]].(bucketKey := ([to] + more)[n])
  {
    forall n | 0 <= n < |order|
      ensures ([to] + more)[n] != "" && end[order[n]] == was[order[n]].(bucketKey := ([to] + more)[n])
    {
      if n > 0 { assert order[n] == order[1..][n - 1] && ([to] + more)[n] == more[n - 1]; } else { assert order[0] !in order[1..]; }
    }
  }

  lemma RunCons(pl: Plan, b: map<string, Bucket>, order: seq<string>, to: string, more: seq<string>)
    requires WellFormed(pl) && order != [] && order[0] in pl.key && Goes(pl, b, order[0], to)
    requires Run(pl, Shift(b, pl.key[order[0]], to), order[1..], more)
    ensures Run(pl, b, order, [to] + more)
    ensures After(pl, b, order, [to] + more) == After(pl, Shift(b, pl.key[order[0]], to), order[1..], more)
  {
    assert ([to] + more)[1..] == more;
  }

  /** Quotas are kept if the run keeps them. */
  lemma RunKeeps(p: Pool, order: seq<string>) returns (tos: seq<string>)
    requires Ready(p) && Lists(order, p.accounts.Keys)
    ensures Run(PlanOf(p), p.buckets, order, tos)
    ensures KeepsQuotas(p, AdoptKeys(p, order)) <==> Kept(PlanOf(p), order, tos)
  {
    var pl, t := PlanOf(p), p;
    tos, t := AdoptRun(p, p, pl, order);
    StatesKept(pl, p.buckets, order, tos);
    forall n | 0 <= n < |order|
      ensures order[n] in t.accounts && QuotaOf(t, t.accounts[order[n]]) == Sees(t.buckets, tos[n])
      ensures QuotaOf(p, p.accounts[order[n]]) == pl.start[pl.key[order[n]]]
    {
      QuotaUnderKey(t, p.accounts[order[n]].(bucketKey := tos[n]), tos[n]);
      QuotaUnderKey(p, p.accounts[order[n]], pl.key[order[n]]);
    }
    KeptEither(p, t, order, tos);
  }

  lemma QuotaUnderKey(t: Pool, a: Account, key: string)
    requires BucketKey(a) == key && forall k <- t.buckets :: t.buckets[k].state != ""
    ensures QuotaOf(t, a) == Sees(t.buckets, key)
  {
  }

  /** No bucket of a run has an empty state. */
  lemma {:induction false} StatesKept(pl: Plan, b: map<string, Bucket>, order: seq<string>, tos: seq<string>)
    requires WellFormed(pl) && Run(pl, b, order, tos) && forall k <- b :: b[k].state != ""
    ensures forall k <- After(pl, b, order, tos) :: After(pl, b, order, tos)[k].state != ""
    decreases |order|
  {
    if order != [] {
      ShiftEntries(b, pl.key[order[0]], tos[0]);
      StatesKept(pl, Shift(b, pl.key[order[0]], tos[0]), order[1..], tos[1..]);
    }
  }

  lemma KeptEither(p: Pool, t: Pool, order: seq<string>, tos: seq<string>)
    requires Ready(p) && Lists(order, p.accounts.Keys) && Run(PlanOf(p), p.buckets, order, tos)
    requires t.buckets == After(PlanOf(p), p.buckets, order, tos)
    requires forall n | 0 <= n < |order| ::
      order[n] in t.accounts && QuotaOf(t, t.accounts[order[n]]) == Sees(t.buckets, tos[n])
      && QuotaOf(p, p.accounts[order[n]]) == PlanOf(p).start[PlanOf(p).key[order[n]]]
    ensures KeepsQuotas(p, t) <==> Kept(PlanOf(p), order, tos)
  {
    if Kept(PlanOf(p), order, tos) {
      forall id | id in p.accounts ensures id in t.accounts && QuotaOf(t, t.accounts[id]) == QuotaOf(p, p.accounts[id]) {
        var n :| 0 <= n < |order| && order[n] == id;
      }
    }
  }

  /* ---------- the whole operation ---------- */

  lemma LoadedIsReady(p0: Pool, drivers: map<string, Driver>)
    requires DiskOk(p0.disk)
    ensures Ready(Reload(p0).(drivers := drivers))
  {
    var p := Reload(p0).(drivers := drivers);
    forall id | id in p.accounts ensures BucketKey(p.accounts[id]) in p.buckets {
      assert BucketKey(p.accounts[id]) in KeysInUse(p.disk.accounts);
    }
  }

  /** The condition suffices, whatever quotas the buckets hold: everybody keeps his in every visiting order. */
  lemma SetDriversKeepsQuotas(p0: Pool, drivers: map<string, Driver>, order: seq<string>)
    requires DiskOk(p0.disk) && Lists(order, p0.disk.accounts.Keys) && Clean(PlanOf(Reload(p0).(drivers := drivers)))
    ensures KeepsQuotas(Reload(p0).(drivers := drivers), SetDrivers(p0, drivers, order))
  {
    var p := Reload(p0).(drivers := drivers);
    LoadedIsReady(p0, drivers);
    var tos := RunKeeps(p, order);
    CleanKeeps(PlanOf(p), order, tos);
  }

  /** The loaded buckets hold pairwise different quotas, and none of them the default. */
  ghost predicate QuotasDiffer(p: Pool) {
    && (forall k, m | k in p.buckets && m in p.buckets && k != m :: p.buckets[k] != p.buckets[m])
    && (forall k <- p.buckets :: p.buckets[k] != DEFAULT_BUCKET)
  }

  lemma SomebodyLoses(p: Pool) returns (order: seq<string>)
    requires Ready(p) && QuotasDiffer(p) && !Clean(PlanOf(p))
    ensures Lists(order, p.accounts.Keys) && !KeepsQuotas(p, AdoptKeys(p, order))
  {
    order := UncleanLoses(PlanOf(p));
    var tos := RunKeeps(p, order);
  }

  /** While the loaded buckets hold different quotas, none of them the default, the condition is exact: everybody keeps
      his quota in every visiting order if and only if nobody moves onto a loaded bucket, accounts of different buckets
      go to different keys, and of two accounts of one bucket either both stay, or both leave and each goes to the key
      the other one derives from the empty state. */
  lemma SetDriversKeepsQuotasIff(p0: Pool, drivers: map<string, Driver>)
    requires DiskOk(p0.disk) && QuotasDiffer(Reload(p0).(drivers := drivers))
    ensures (forall order | Lists(order, p0.disk.accounts.Keys) ::
               KeepsQuotas(Reload(p0).(drivers := drivers), SetDrivers(p0, drivers, order)))
       <==> Clean(PlanOf(Reload(p0).(drivers := drivers)))
  {
    var p := Reload(p0).(drivers := drivers);
    LoadedIsReady(p0, drivers);
    if Clean(PlanOf(p)) {
      forall order | Lists(order, p0.disk.accounts.Keys) ensures KeepsQuotas(p, SetDrivers(p0, drivers, order)) {
        SetDriversKeepsQuotas(p0, drivers, order);
      }
    } else {
      var order := SomebodyLoses(p);
      assert !KeepsQuotas(p, SetDrivers(p0, drivers, order));
    }
  }

  /* ---------- a driver whose key depends on quota state ---------- */

  const GEM := "gemini"

  /** As the Gemini driver does it: provider, subject, and the project the quota state names, if any. */
  function ProjectKey(a: Account, st: string): string {
    if st == EMPTY_STATE then "g:" + a.subject else "g:" + a.subject + ":p"
  }

  function Member(id: string, subject: string): Account {
    Account(id, GEM, subject, Active, "", 0, "", "old", "", None, None, Tokens("", "", 0), "")
  }

  const LEGACY := Disk(map["a" := Member("a", "s"), "b" := Member("b", "t")], map["old" := Bucket(Some(100), "P")])
  const LEGACY_POOL := Pool(map[], map[], LEGACY, map[], map[])
  const GEMINI := Driver(GEM, ProjectKey, (m, s, n) => Assessment(true, 0, ""), (s, n) => ZERO_TIME)

  /** Rows the store can hold: provider and subject are unique. */
  ghost predicate Storable(d: Disk) {
    && DiskOk(d)
    && forall i, j | i in d.accounts && j in d.accounts && i != j ::
         d.accounts[i].provider != d.accounts[j].provider || d.accounts[i].subject != d.accounts[j].subject
  }

  /** From `p` to `q`, the account loses the quota of its cooled-down bucket and ends under a key without a project. */
  predicate StartsOver(p: Pool, q: Pool, id: string) {
    && id in p.accounts && QuotaOf(p, p.accounts[id]) == Bucket(Some(100), "P")
    && id in q.accounts && QuotaOf(q, q.accounts[id]) == DEFAULT_BUCKET && q.accounts[id].bucketKey == "g:" + p.accounts[id].subject
  }

  /** Two accounts of different subjects under one legacy bucket key: whoever comes second ends under a key without a
      project and is shown a fresh quota, although the bucket was cooled down. */
  lemma SetDriversCanLoseQuota(order: seq<string>)
    requires order == ["a", "b"] || order == ["b", "a"]
    ensures Storable(LEGACY) && QuotasDiffer(Reload(LEGACY_POOL)) && LEGACY.accounts.Keys == {"a", "b"}
    ensures StartsOver(Reload(LEGACY_POOL), SetDrivers(LEGACY_POOL, map[GEM := GEMINI], order), order[1])
  {
    LegacyLoaded();
    var p := Reload(LEGACY_POOL).(drivers := map[GEM := GEMINI]);
    SecondIsOrphaned(p, AdoptKeys(p, order), order);
  }

  lemma LegacyLoaded()
    ensures var p := Reload(LEGACY_POOL); p.accounts == LEGACY.accounts && p.buckets == LEGACY.buckets && QuotasDiffer(p)
    ensures Storable(LEGACY) && LEGACY.accounts.Keys == {"a", "b"}
  {
    assert BucketKey(Member("a", "s")) == "old" && BucketKey(Member("b", "t")) == "old";
    assert LEGACY.accounts.Keys == {"a", "b"} && LEGACY.accounts["a"] == Member("a", "s");
    assert BucketKey(LEGACY.accounts["a"]) in KeysInUse(LEGACY.accounts);
    assert "s" != "t";
  }

  lemma SecondIsOrphaned(p: Pool, end: Pool, order: seq<string>)
    requires p.accounts == LEGACY.accounts && p.buckets == LEGACY.buckets && p.drivers == map[GEM := GEMINI]
    requires (order == ["a", "b"] || order == ["b", "a"]) && end == AdoptKeys(p, order)
    ensures StartsOver(p, end, order[1])
  {
    var a, b := p.accounts[order[0]], p.accounts[order[1]];
    var to := "g:" + a.subject + ":p";
    assert |"old"| == 3 && |to| == 5 && |"g:" + b.subject| == 3 && "old"[0] == 'o' && ("g:" + b.subject)[0] == 'g';
    assert Target(p, a) == to by { assert "P" != EMPTY_STATE; }
    AdoptKeyEffect(p, order[0]);
    var q := AdoptKey(p, order[0]);
    ShiftEntries(p.buckets, "old", to);
    assert Target(q, b) == "g:" + b.subject;
    AdoptKeyEffect(q, order[1]);
    ShiftEntries(q.buckets, "old", "g:" + b.subject);
    AdoptTwo(p, q, order);
  }

  lemma AdoptTwo(p: Pool, q: Pool, order: seq<string>)
    requires |order| == 2 && order[0] in p.accounts && q == AdoptKey(p, order[0]) && order[1] in q.accounts
    ensures AdoptKeys(p, order) == AdoptKey(q, order[1])
  {
    assert order[1..] == [order[1]] && order[1..][1..] == [];
    assert AdoptKeys(p, order) == AdoptKeys(q, order[1..]) == AdoptKeys(AdoptKey(q, order[1]), []) == AdoptKey(q, order[1]);
  }
}

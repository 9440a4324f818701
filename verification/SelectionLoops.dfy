/** The loops of the scheduler, each proved to compute what module Selection specifies. */
module SelectionLoops {
  import opened Domain
  import opened Text
  import opened Selection

  method CollectBuckets(c: Context, order: seq<string>) returns (buckets: map<string, Candidate>)
    requires forall id <- order :: id in c.world.accounts
    ensures buckets == Groups(c, order)
  {
    buckets := map[];
    for i := 0 to |order|
      invariant buckets == Groups(c, order[..i])
    {
      assert order[..i + 1][..i] == order[..i];
      var a := c.world.accounts[order[i]];
      if Usable(c, a) {
        buckets := AddMember(c, buckets, a);
      }
    }
    assert order[..|order|] == order;
  }

  ghost predicate SortedByKey(s: seq<Candidate>) {
    forall i, j :: 0 <= i < j < |s| ==> Less(s[i].key, s[j].key)
  }

  method InsertByKey(s: seq<Candidate>, g: Candidate) returns (r: seq<Candidate>)
    requires SortedByKey(s) && forall x <- s :: x.key != g.key
    ensures SortedByKey(r) && |r| == |s| + 1 && forall x :: x in r <==> x in s || x == g
  {
    var i := 0;
    while i < |s| && Less(s[i].key, g.key)
      invariant 0 <= i <= |s|
      invariant forall j :: 0 <= j < i ==> Less(s[j].key, g.key)
    {
      i := i + 1;
    }
    if i < |s| {
      LessTotal(s[i].key, g.key);
      forall j | i < j < |s| ensures Less(g.key, s[j].key) { LessTransitive(g.key, s[i].key, s[j].key); }
    }
    r := s[..i] + [g] + s[i..];
    assert s == s[..i] + s[i..];
  }

  method SortCandidates(buckets: map<string, Candidate>) returns (candidates: seq<Candidate>)
    requires Keyed(buckets)
    ensures SortedByKey(candidates) && |candidates| == |buckets|
    ensures forall x :: x in candidates <==> x.key in buckets && buckets[x.key] == x
  {
    candidates := [];
    var pending := buckets.Keys;
    while pending != {}
      invariant pending <= buckets.Keys && SortedByKey(candidates)
      invariant |candidates| + |pending| == |buckets.Keys|
      invariant forall x :: x in candidates <==>
                  x.key in buckets && x.key !in pending && buckets[x.key] == x
      decreases pending
    {
      var k :| k in pending;
      candidates := InsertByKey(candidates, buckets[k]);
      pending := pending - {k};
    }
  }

  /** The running minimum of inflight per weight, ties to the least recently assigned, then to the key. */
  method LeastInflight(provider: string, root: Root, loads: Loads, candidates: seq<Candidate>)
    returns (best: nat)
    requires candidates != [] && SortedByKey(candidates)
    ensures best < |candidates|
    ensures forall j :: 0 <= j < |candidates| && j != best ==>
              Before(RankOf(provider, root, loads, candidates[best]), RankOf(provider, root, loads, candidates[j]))
  {
    best := 0;
    var bestLoad := LoadOf(loads, KeyOf(provider, candidates[0]));
    var bestScore := (bestLoad.inflight + 1) as real / Weight(root, candidates[0].priority);
    for i := 1 to |candidates|
      invariant best < i
      invariant Rank(bestScore, bestLoad.lastAssigned, candidates[best].key)
             == RankOf(provider, root, loads, candidates[best])
      invariant forall j :: 0 <= j < i && j != best ==>
                  Before(RankOf(provider, root, loads, candidates[best]), RankOf(provider, root, loads, candidates[j]))
    {
      var candidate := candidates[i];
      var load := LoadOf(loads, KeyOf(provider, candidate));
      var score := (load.inflight + 1) as real / Weight(root, candidate.priority);
      ghost var rb, ri := RankOf(provider, root, loads, candidates[best]), RankOf(provider, root, loads, candidate);
      assert rb.key != ri.key by { LessIrreflexive(rb.key); }
      BeforeTotal(ri, rb);
      if score < bestScore || (score == bestScore && (load.lastAssigned < bestLoad.lastAssigned ||
          (load.lastAssigned == bestLoad.lastAssigned && Less(candidate.key, candidates[best].key)))) {
        forall j | 0 <= j < i && j != best ensures Before(ri, RankOf(provider, root, loads, candidates[j])) {
          BeforeTransitive(ri, rb, RankOf(provider, root, loads, candidates[j]));
        }
        best, bestLoad, bestScore := i, load, score;
      }
    }
  }

  method LeastRecentlyUsed(members: seq<Account>) returns (best: nat)
    requires members != []
    ensures IsLeastRecentlyUsed(members, best)
  {
    best := 0;
    var bestTime := UsedAt(members[0]);
    for i := 1 to |members|
      invariant best < i && bestTime == UsedAt(members[best])
      invariant forall j :: 0 <= j < best ==> bestTime < UsedAt(members[j])
      invariant forall j :: best <= j < i ==> bestTime <= UsedAt(members[j])
    {
      var t := UsedAt(members[i]);
      if t < bestTime {
        best, bestTime := i, t;
      }
    }
  }

  lemma ListMinimumLeads(provider: string, root: Root, loads: Loads, candidates: seq<Candidate>, best: nat,
                         buckets: map<string, Candidate>)
    requires Keyed(buckets) && best < |candidates|
    requires forall x :: x in candidates <==> x.key in buckets && buckets[x.key] == x
    requires forall j :: 0 <= j < |candidates| && j != best ==>
               Before(RankOf(provider, root, loads, candidates[best]), RankOf(provider, root, loads, candidates[j]))
    ensures buckets != map[] && candidates[best].key in buckets
    ensures candidates[best] == buckets[Leader(provider, root, loads, buckets)]
  {
    var g := candidates[best];
    assert g in candidates;
    forall k | k in buckets && k != g.key
      ensures Before(RankOf(provider, root, loads, g), RankOf(provider, root, loads, buckets[k]))
    {
      assert buckets[k] in candidates;
    }
    LeaderUnique(provider, root, loads, buckets, g.key, Leader(provider, root, loads, buckets));
  }

  lemma GroupsShape(c: Context, order: seq<string>)
    requires WellFormed(c.world)
    requires forall id <- order :: id in c.world.accounts
    ensures Keyed(Groups(c, order))
    ensures forall k <- Groups(c, order) :: Groups(c, order)[k].members != []
  {
    GroupsMeaning(c, order);
    forall k | k in Groups(c, order) ensures Groups(c, order)[k].members != [] {
      assert GroupOf(c, order, Groups(c, order)[k]);
    }
  }

  lemma LruUnique(members: seq<Account>, i: nat)
    requires IsLeastRecentlyUsed(members, i)
    ensures i == Lru(members)
  {
  }

  method SelectUnbound(c: Context, order: seq<string>, loads: Loads) returns (p: Pick)
    requires WellFormed(c.world) && IsOrder(order, c.world.accounts)
    ensures p == PickUnbound(c, order, loads)
  {
    GroupsShape(c, order);
    var buckets := CollectBuckets(c, order);
    var candidates := SortCandidates(buckets);
    if |candidates| == 0 {
      return NoPick(NoAccounts);
    }
    var chosen := LeastInflight(c.drv.provider, c.root, loads, candidates);
    ListMinimumLeads(c.drv.provider, c.root, loads, candidates, chosen, buckets);
    p := PickMember(c, order, loads, candidates[chosen]);
  }

  method PickMember(c: Context, order: seq<string>, loads: Loads, g: Candidate) returns (p: Pick)
    requires WellFormed(c.world) && IsOrder(order, c.world.accounts)
    requires Keyed(Groups(c, order)) && Groups(c, order) != map[] && g.members != []
    requires g == Groups(c, order)[Leader(c.drv.provider, c.root, loads, Groups(c, order))]
    ensures p == PickUnbound(c, order, loads)
  {
    var i := LeastRecentlyUsed(g.members);
    LruUnique(g.members, i);
    p := Pick(g.members[i], LeaseKey(g.members[i], g.class_));
  }

  method SelectAccount(c: Context, order: seq<string>, loads: Loads, bound: string) returns (p: Pick)
    requires WellFormed(c.world) && IsOrder(order, c.world.accounts)
    ensures p == PickAccount(c, order, loads, bound)
  {
    var boundId := bound;
    if boundId != "" {
      if boundId in c.world.accounts && c.world.accounts[boundId].provider != c.drv.provider {
        boundId := "";
      } else if boundId in c.world.accounts {
        var a := c.world.accounts[boundId];
        if ExcludedAccount(c.req, a.id) || ExcludedBucket(c.req, BucketKey(a)) {
          return NoPick(BoundExcluded);
        }
        if AllowedOnSurface(c.world, a, c.req.surface) && StructurallyAvailable(c.world, a, c.now) {
          var assessment := Assess(c, a);
          if assessment.eligible {
            return Pick(a, LeaseKey(a, assessment.class_));
          }
        }
        return NoPick(BoundUnavailable);
      } else {
        return NoPick(BoundNotFound);
      }
    }
    p := SelectUnbound(c, order, loads);
  }
}

/** Fairness of the weighted least-inflight rule over whole runs of unbound acquisitions. */
module Balance {
  import opened Domain
  import opened Selection

  datatype Slot = Slot(priority: int, class_: string)

  /** The eligible buckets with their priorities and classes, for one provider and one weight scale. */
  datatype Field = Field(provider: string, root: Root, slots: map<string, Slot>)

  function FieldKey(f: Field, k: string): LoadKey
    requires k in f.slots
  {
    LoadKey(f.provider, k, f.slots[k].class_)
  }

  function Inflight(b: Book, f: Field, k: string): nat
    requires k in f.slots
  {
    LoadOf(b.loads, FieldKey(f, k)).inflight
  }

  function LastAssigned(b: Book, f: Field, k: string): nat
    requires k in f.slots
  {
    LoadOf(b.loads, FieldKey(f, k)).lastAssigned
  }

  function WeightOf(f: Field, k: string): real
    requires k in f.slots
  {
    Weight(f.root, f.slots[k].priority)
  }

  /* ---------- from the scheduler to the greedy rule ---------- */

  /** One acquisition: its context and the iteration order of the account map it met. */
  datatype Turn = Turn(c: Context, order: seq<string>)

  /** The turn sees exactly the buckets of `f`. */
  ghost predicate Sees(t: Turn, f: Field) {
    && WellFormed(t.c.world) && IsOrder(t.order, t.c.world.accounts)
    && t.c.drv.provider == f.provider && t.c.root == f.root
    && Groups(t.c, t.order).Keys == f.slots.Keys
    && forall k <- f.slots :: var g := Groups(t.c, t.order)[k]; Slot(g.priority, g.class_) == f.slots[k]
  }

  ghost predicate Steady(turns: seq<Turn>, f: Field) {
    f.slots != map[] && forall i | 0 <= i < |turns| :: Sees(turns[i], f)
  }

  function Score(b: Book, f: Field, k: string): real
    requires k in f.slots
  {
    (Inflight(b, f, k) + 1) as real / WeightOf(f, k)
  }

  /** `k` scores least, and is no more recently assigned than any bucket scoring the same. */
  ghost predicate Greedy(b: Book, f: Field, k: string) {
    && k in f.slots
    && forall j <- f.slots :: j != k ==>
         Score(b, f, k) < Score(b, f, j) ||
         (Score(b, f, k) == Score(b, f, j) && LastAssigned(b, f, k) <= LastAssigned(b, f, j))
  }

  /** What the scheduler does on a turn that sees `f` is one greedy step. */
  lemma TurnIsGreedy(t: Turn, b: Book, f: Field) returns (k: string)
    requires Sees(t, f) && f.slots != map[]
    ensures Greedy(b, f, k)
    ensures var p := PickUnbound(t.c, t.order, b.loads);
      p.Pick? && p.key == FieldKey(f, k) && BucketKey(p.account) == k
  {
    var groups := Groups(t.c, t.order);
    assert Keyed(groups) by { GroupsMeaning(t.c, t.order); }
    k := Leader(f.provider, f.root, b.loads, groups);
    assert GroupOf(t.c, t.order, groups[k]) by { GroupsMeaning(t.c, t.order); }
    ChosenMember(t.c, t.order, groups[k]);
    forall j | j in f.slots && j != k
      ensures Score(b, f, k) < Score(b, f, j) ||
              (Score(b, f, k) == Score(b, f, j) && LastAssigned(b, f, k) <= LastAssigned(b, f, j))
    {
      RankIsScore(t, b, f, j);
      RankIsScore(t, b, f, k);
    }
  }

  lemma RankIsScore(t: Turn, b: Book, f: Field, j: string)
    requires Sees(t, f) && j in f.slots && Keyed(Groups(t.c, t.order))
    ensures RankOf(f.provider, f.root, b.loads, Groups(t.c, t.order)[j]) == Rank(Score(b, f, j), LastAssigned(b, f, j), j)
  {
  }

  /** The counters after each turn acquired a route and kept it. */
  ghost function Hold(b: Book, turns: seq<Turn>): Book
    requires forall i | 0 <= i < |turns| :: WellFormed(turns[i].c.world) && IsOrder(turns[i].order, turns[i].c.world.accounts)
    decreases |turns|
  {
    if turns == [] then b
    else
      var p := PickUnbound(turns[0].c, turns[0].order, b.loads);
      Hold(if p.Pick? then Take(b, p.key) else b, turns[1..])
  }

  ghost function TakeAll(b: Book, f: Field, ks: seq<string>): Book
    requires forall i | 0 <= i < |ks| :: ks[i] in f.slots
    decreases |ks|
  {
    if ks == [] then b else TakeAll(Take(b, FieldKey(f, ks[0])), f, ks[1..])
  }

  ghost predicate GreedyRun(b: Book, f: Field, ks: seq<string>)
    decreases |ks|
  {
    ks == [] || (Greedy(b, f, ks[0]) && GreedyRun(Take(b, FieldKey(f, ks[0])), f, ks[1..]))
  }

  lemma {:induction false} HoldIsGreedy(b: Book, turns: seq<Turn>, f: Field) returns (ks: seq<string>)
    requires Steady(turns, f)
    ensures |ks| == |turns| && (forall i | 0 <= i < |ks| :: ks[i] in f.slots)
    ensures GreedyRun(b, f, ks) && Hold(b, turns) == TakeAll(b, f, ks)
    decreases |turns|
  {
    if turns == [] {
      ks := [];
    } else {
      var k := TurnIsGreedy(turns[0], b, f);
      var rest := HoldIsGreedy(Take(b, FieldKey(f, k)), turns[1..], f);
      ks := [k] + rest;
    }
  }

  /* ---------- acquisitions that are not finished ---------- */

  lemma MulMonotone(a: real, b: real, w: real)
    requires a <= b && w >= 0.0
    ensures a * w <= b * w
  {
  }

  lemma CrossMultiply(a: real, wa: real, b: real, wb: real)
    requires wa > 0.0 && wb > 0.0 && a / wa <= b / wb
    ensures a * wb <= b * wa
  {
    var x, y := a / wa, b / wb;
    assert a == x * wa && b == y * wb;
    MulMonotone(x, y, wa * wb);
    assert a * wb == x * (wa * wb) && b * wa == y * (wa * wb);
  }

  /** `i` is at most one request per unit of weight ahead of `j`. */
  ghost predicate Ahead(ni: nat, wi: real, nj: nat, wj: real) {
    ni as real * wj <= (nj + 1) as real * wi
  }

  ghost predicate Balanced(b: Book, f: Field) {
    forall i, j | i in f.slots && j in f.slots ::
      Ahead(Inflight(b, f, i), WeightOf(f, i), Inflight(b, f, j), WeightOf(f, j))
  }

  lemma TakeCounts(b: Book, f: Field, k: string)
    requires k in f.slots
    ensures forall j <- f.slots ::
      Inflight(Take(b, FieldKey(f, k)), f, j) == Inflight(b, f, j) + (if j == k then 1 else 0)
  {
  }

  lemma GreedyKeepsBalance(b: Book, f: Field, k: string)
    requires Balanced(b, f) && Greedy(b, f, k)
    ensures Balanced(Take(b, FieldKey(f, k)), f)
  {
    var after := Take(b, FieldKey(f, k));
    TakeCounts(b, f, k);
    forall i, j | i in f.slots && j in f.slots
      ensures Ahead(Inflight(after, f, i), WeightOf(f, i), Inflight(after, f, j), WeightOf(f, j))
    {
      AheadStep(Inflight(b, f, i), WeightOf(f, i), Inflight(b, f, j), WeightOf(f, j), i == k, j == k);
    }
  }

  lemma AheadStep(ni: nat, wi: real, nj: nat, wj: real, bumpI: bool, bumpJ: bool)
    requires wi >= 1.0 && wj >= 1.0 && Ahead(ni, wi, nj, wj)
    requires bumpI && !bumpJ ==> (ni + 1) as real / wi <= (nj + 1) as real / wj
    requires bumpI && bumpJ ==> ni == nj && wi == wj
    ensures Ahead(ni + (if bumpI then 1 else 0), wi, nj + (if bumpJ then 1 else 0), wj)
  {
    if bumpI && !bumpJ {
      CrossMultiply((ni + 1) as real, wi, (nj + 1) as real, wj);
    } else if bumpI {
      MulMonotone((ni + 1) as real, (nj + 2) as real, wi);
    } else if bumpJ {
      MulMonotone((nj + 1) as real, (nj + 2) as real, wi);
    }
  }

  lemma {:induction false} GreedyRunBalanced(b: Book, f: Field, ks: seq<string>)
    requires Balanced(b, f) && (forall i | 0 <= i < |ks| :: ks[i] in f.slots) && GreedyRun(b, f, ks)
    ensures Balanced(TakeAll(b, f, ks), f)
    decreases |ks|
  {
    if ks != [] {
      GreedyKeepsBalance(b, f, ks[0]);
      GreedyRunBalanced(Take(b, FieldKey(f, ks[0])), f, ks[1..]);
    }
  }

  ghost predicate Unloaded(b: Book, f: Field) {
    forall k <- f.slots :: Inflight(b, f, k) == 0
  }

  lemma UnloadedBalanced(b: Book, f: Field)
    requires Unloaded(b, f)
    ensures Balanced(b, f)
  {
    forall i, j | i in f.slots && j in f.slots
      ensures Ahead(Inflight(b, f, i), WeightOf(f, i), Inflight(b, f, j), WeightOf(f, j))
    {
      assert Inflight(b, f, i) == 0 == Inflight(b, f, j);
    }
  }

  /** D'Hondt's bound: from zero load, no bucket is ever more than one request per unit of weight
      ahead of another, whatever was acquired and kept. */
  lemma DHondtBalance(b: Book, turns: seq<Turn>, f: Field)
    requires Steady(turns, f) && Unloaded(b, f)
    ensures Balanced(Hold(b, turns), f)
  {
    var ks := HoldIsGreedy(b, turns, f);
    UnloadedBalanced(b, f);
    GreedyRunBalanced(b, f, ks);
  }

  /** Buckets of equal priority never differ by more than one request. */
  lemma EqualPriorityEqualLoad(b: Book, turns: seq<Turn>, f: Field, i: string, j: string)
    requires Steady(turns, f) && Unloaded(b, f) && i in f.slots && j in f.slots
    requires f.slots[i].priority == f.slots[j].priority
    ensures Inflight(Hold(b, turns), f, i) <= Inflight(Hold(b, turns), f, j) + 1
  {
    DHondtBalance(b, turns, f);
    CancelWeight(Inflight(Hold(b, turns), f, i), Inflight(Hold(b, turns), f, j), WeightOf(f, i));
  }

  lemma CancelWeight(ni: nat, nj: nat, w: real)
    requires w >= 1.0 && Ahead(ni, w, nj, w)
    ensures ni <= nj + 1
  {
    assert (nj + 2) as real * w == (nj + 1) as real * w + w;
    if ni >= nj + 2 {
      MulMonotone((nj + 2) as real, ni as real, w);
    }
  }

  /* ---------- optimality ---------- */

  function Sum(keys: seq<string>, m: map<string, nat>): nat
    requires forall i | 0 <= i < |keys| :: keys[i] in m
  {
    if keys == [] then 0 else m[keys[0]] + Sum(keys[1..], m)
  }

  ghost predicate Distinct(keys: seq<string>) {
    forall i, j :: 0 <= i < j < |keys| ==> keys[i] != keys[j]
  }

  ghost predicate Enumerates(keys: seq<string>, f: Field) {
    Distinct(keys) && forall k :: k in keys <==> k in f.slots
  }

  function Allocation(b: Book, f: Field): map<string, nat> {
    map k | k in f.slots :: Inflight(b, f, k)
  }

  lemma {:induction false} SumBump(keys: seq<string>, m: map<string, nat>, n: map<string, nat>, k: string)
    requires forall i | 0 <= i < |keys| ::
      keys[i] in m && keys[i] in n && n[keys[i]] == m[keys[i]] + (if keys[i] == k then 1 else 0)
    requires Distinct(keys)
    ensures Sum(keys, n) == Sum(keys, m) + (if k in keys then 1 else 0)
  {
    if keys != [] {
      assert keys == [keys[0]] + keys[1..];
      SumBump(keys[1..], m, n, k);
    }
  }

  lemma {:induction false} SumStrict(keys: seq<string>, m: map<string, nat>, n: map<string, nat>, k: string)
    requires forall i | 0 <= i < |keys| :: keys[i] in m && keys[i] in n && m[keys[i]] <= n[keys[i]]
    ensures Sum(keys, m) <= Sum(keys, n)
    ensures k in keys && m[k] < n[k] ==> Sum(keys, m) < Sum(keys, n)
  {
    if keys != [] { SumStrict(keys[1..], m, n, k); }
  }

  lemma {:induction false} ZeroSum(keys: seq<string>, m: map<string, nat>)
    requires forall i | 0 <= i < |keys| :: keys[i] in m && m[keys[i]] == 0
    ensures Sum(keys, m) == 0
  {
    if keys != [] { ZeroSum(keys[1..], m); }
  }

  lemma {:induction false} TakeAllCounts(b: Book, f: Field, ks: seq<string>, keys: seq<string>)
    requires (forall i | 0 <= i < |ks| :: ks[i] in f.slots) && Enumerates(keys, f)
    ensures Sum(keys, Allocation(TakeAll(b, f, ks), f)) == Sum(keys, Allocation(b, f)) + |ks|
    decreases |ks|
  {
    if ks != [] {
      var next := Take(b, FieldKey(f, ks[0]));
      TakeCounts(b, f, ks[0]);
      SumBump(keys, Allocation(b, f), Allocation(next, f), ks[0]);
      TakeAllCounts(next, f, ks[1..], keys);
    }
  }

  /** Every acquisition is accounted for: the loads of the field add up to the number of turns. */
  lemma EveryTurnCounts(b: Book, turns: seq<Turn>, f: Field, keys: seq<string>)
    requires Steady(turns, f) && Unloaded(b, f) && Enumerates(keys, f)
    ensures Sum(keys, Allocation(Hold(b, turns), f)) == |turns|
  {
    var ks := HoldIsGreedy(b, turns, f);
    TakeAllCounts(b, f, ks, keys);
    ZeroSum(keys, Allocation(b, f));
  }

  /** A bucket with `ni` requests and weight `wi` has no higher ratio than one with `nj` and `wj`. */
  ghost predicate RatioAtMost(ni: nat, wi: real, nj: nat, wj: real) {
    ni as real * wj <= nj as real * wi
  }

  /** No way of spreading the same number of requests over the same buckets has a lower peak of
      requests per unit of weight: every bucket's ratio is reached by some bucket of the rival. */
  lemma PeakLoadOptimal(b: Book, turns: seq<Turn>, f: Field, keys: seq<string>, rival: map<string, nat>, i: string)
    returns (j: string)
    requires Steady(turns, f) && Unloaded(b, f) && Enumerates(keys, f)
    requires rival.Keys == f.slots.Keys && Sum(keys, rival) == |turns| && i in f.slots
    ensures j in f.slots
    ensures RatioAtMost(Inflight(Hold(b, turns), f, i), WeightOf(f, i), rival[j], WeightOf(f, j))
  {
    EveryTurnCounts(b, turns, f, keys);
    var mine := Allocation(Hold(b, turns), f);
    j := Heavier(keys, f, mine, rival, i);
    if j == i {
      MulMonotone(mine[i] as real, rival[i] as real, WeightOf(f, i));
    } else {
      AheadAt(b, turns, f, i, j);
      HeavierBears(mine[i], WeightOf(f, i), mine[j], WeightOf(f, j), rival[j]);
    }
  }

  lemma AheadAt(b: Book, turns: seq<Turn>, f: Field, i: string, j: string)
    requires Steady(turns, f) && Unloaded(b, f) && i in f.slots && j in f.slots
    ensures var h := Hold(b, turns); Ahead(Inflight(h, f, i), WeightOf(f, i), Inflight(h, f, j), WeightOf(f, j))
  {
    DHondtBalance(b, turns, f);
  }

  lemma HeavierBears(ni: nat, wi: real, nj: nat, wj: real, rj: nat)
    requires Ahead(ni, wi, nj, wj) && rj > nj && wi >= 1.0
    ensures RatioAtMost(ni, wi, rj, wj)
  {
    MulMonotone((nj + 1) as real, rj as real, wi);
  }

  lemma Heavier(keys: seq<string>, f: Field, mine: map<string, nat>, rival: map<string, nat>, i: string)
    returns (j: string)
    requires Enumerates(keys, f) && mine.Keys == f.slots.Keys == rival.Keys && i in f.slots
    requires Sum(keys, mine) == Sum(keys, rival)
    ensures j in f.slots && (if j == i then rival[i] >= mine[i] else rival[j] > mine[j])
  {
    if rival[i] >= mine[i] {
      j := i;
    } else if k :| k in keys && rival[k] > mine[k] {
      j := k;
    } else {
      SumStrict(keys, rival, mine, i);
    }
  }

  /* ---------- acquisitions that are finished at once ---------- */

  /** The buckets served by consecutive acquire-then-finish turns. */
  ghost function Served(b: Book, turns: seq<Turn>): seq<string>
    requires forall i | 0 <= i < |turns| :: WellFormed(turns[i].c.world) && IsOrder(turns[i].order, turns[i].c.world.accounts)
    decreases |turns|
  {
    if turns == [] then []
    else
      var p := PickUnbound(turns[0].c, turns[0].order, b.loads);
      if p.Pick? then [BucketKey(p.account)] + Served(GiveBack(Take(b, p.key), p.key), turns[1..])
      else [""] + Served(b, turns[1..])
  }

  ghost function Cycle(b: Book, f: Field, k: string): Book
    requires k in f.slots
  {
    GiveBack(Take(b, FieldKey(f, k)), FieldKey(f, k))
  }

  ghost predicate CycleRun(b: Book, f: Field, ks: seq<string>)
    decreases |ks|
  {
    ks == [] || (Greedy(b, f, ks[0]) && CycleRun(Cycle(b, f, ks[0]), f, ks[1..]))
  }

  lemma {:induction false} ServedIsGreedy(b: Book, turns: seq<Turn>, f: Field)
    requires Steady(turns, f)
    ensures |Served(b, turns)| == |turns| && CycleRun(b, f, Served(b, turns))
    decreases |turns|
  {
    if turns != [] {
      var k := TurnIsGreedy(turns[0], b, f);
      ServedIsGreedy(Cycle(b, f, k), turns[1..], f);
      assert Served(b, turns)[1..] == Served(Cycle(b, f, k), turns[1..]);
    }
  }

  /** All buckets of the field are idle, weigh the same, and no counter is ahead of the sequence. */
  ghost predicate Idle(b: Book, f: Field) {
    && (forall k <- f.slots :: Inflight(b, f, k) == 0 && LastAssigned(b, f, k) <= b.routeSeq)
    && (forall j, k | j in f.slots && k in f.slots :: WeightOf(f, j) == WeightOf(f, k))
  }

  lemma CycleKeepsIdle(b: Book, f: Field, k: string)
    requires Idle(b, f) && Greedy(b, f, k)
    ensures Idle(Cycle(b, f, k), f) && Cycle(b, f, k).routeSeq == b.routeSeq + 1
    ensures forall j <- f.slots ::
      LastAssigned(Cycle(b, f, k), f, j) == (if j == k then b.routeSeq + 1 else LastAssigned(b, f, j))
    ensures forall j <- f.slots :: LastAssigned(b, f, k) <= LastAssigned(b, f, j)
  {
  }

  /** While some bucket has not been served since `mark`, each turn serves such a bucket. */
  lemma {:induction false} UnservedFirst(b: Book, f: Field, ks: seq<string>, mark: nat, unserved: set<string>)
    requires CycleRun(b, f, ks) && Idle(b, f) && mark <= b.routeSeq
    requires unserved <= f.slots.Keys && |ks| <= |unserved|
    requires forall k <- f.slots :: k in unserved <==> LastAssigned(b, f, k) <= mark
    ensures Distinct(ks) && forall i | 0 <= i < |ks| :: ks[i] in unserved
    decreases |ks|
  {
    if ks != [] {
      var k := ks[0];
      CycleKeepsIdle(b, f, k);
      var other :| other in unserved;
      assert LastAssigned(b, f, k) <= LastAssigned(b, f, other) <= mark;
      UnservedFirst(Cycle(b, f, k), f, ks[1..], mark, unserved - {k});
      forall i, j | 0 <= i < j < |ks| ensures ks[i] != ks[j] {
        assert ks[1..][j - 1] in unserved - {k};
      }
    }
  }

  lemma {:induction false} DistinctCover(s: seq<string>, keys: set<string>)
    requires |s| == |keys| && (forall i | 0 <= i < |s| :: s[i] in keys) && Distinct(s)
    ensures forall k :: k in s <==> k in keys
  {
    if s != [] {
      var last := s[|s| - 1];
      DistinctCover(s[..|s| - 1], keys - {last});
      assert s == s[..|s| - 1] + [last];
    }
  }

  lemma CycleRound(b: Book, f: Field, ks: seq<string>)
    requires CycleRun(b, f, ks) && Idle(b, f) && |ks| == |f.slots|
    ensures Distinct(ks) && forall k :: k in ks <==> k in f.slots
  {
    assert |f.slots| == |f.slots.Keys|;
    UnservedFirst(b, f, ks, b.routeSeq, f.slots.Keys);
    DistinctCover(ks, f.slots.Keys);
  }

  /** Rotation: with equal weights and nothing inflight, any |f| consecutive acquire-then-finish turns
      serve every bucket exactly once. */
  lemma Rotation(b: Book, turns: seq<Turn>, f: Field)
    requires Steady(turns, f) && Idle(b, f) && |turns| == |f.slots|
    ensures Distinct(Served(b, turns)) && forall k :: k in Served(b, turns) <==> k in f.slots
  {
    ServedIsGreedy(b, turns, f);
    CycleRound(b, f, Served(b, turns));
  }

  lemma {:induction false} CyclePrefix(b: Book, f: Field, ks: seq<string>, n: nat)
    requires CycleRun(b, f, ks) && n <= |ks|
    ensures CycleRun(b, f, ks[..n])
    decreases n
  {
    if n > 0 {
      CyclePrefix(Cycle(b, f, ks[0]), f, ks[1..], n - 1);
      assert ks[..n][1..] == ks[1..][..n - 1];
    }
  }

  /** The rotation repeats: after one round, each turn serves the bucket it served a round before. */
  lemma RotationRepeats(b: Book, turns: seq<Turn>, f: Field)
    requires Steady(turns, f) && Idle(b, f) && |turns| == |f.slots| + 1
    ensures var s := Served(b, turns); |s| == |turns| && s[|f.slots|] == s[0]
  {
    ServedIsGreedy(b, turns, f);
    CycleRunRepeats(b, f, Served(b, turns));
  }

  lemma CycleRunRepeats(b: Book, f: Field, s: seq<string>)
    requires f.slots != map[] && CycleRun(b, f, s) && Idle(b, f) && |s| == |f.slots| + 1
    ensures s[|f.slots|] == s[0]
  {
    var n := |f.slots|;
    CyclePrefix(b, f, s, n);
    CycleRound(b, f, s[..n]);
    CycleKeepsIdle(b, f, s[0]);
    CycleRound(Cycle(b, f, s[0]), f, s[1..]);
    WindowsAgree(s, n);
  }

  lemma WindowsAgree(s: seq<string>, n: nat)
    requires |s| == n + 1 && n > 0 && Distinct(s[..n])
    requires forall k :: k in s[..n] <==> k in s[1..]
    ensures s[n] == s[0]
  {
    assert s[..n][0] in s[1..];
    var m :| 0 <= m < n && s[1..][m] == s[0];
    assert forall i | 1 <= i < n :: s[i] == s[..n][i] != s[..n][0] == s[0];
    assert s[1..][m] == s[m + 1];
  }
}

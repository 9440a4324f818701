/** Account selection under the pool lock: who may serve a request, how accounts are grouped into
    quota buckets, and which bucket and which account are chosen. */
module Selection {
  import opened Domain
  import opened Text

  /** One exclusion names an account or a bucket; an empty field excludes nothing. */
  datatype Exclusion = Exclusion(accountId: string, bucketKey: string)

  datatype Snapshot = Snapshot(
    accounts: map<string, Account>, cells: map<string, Cell>, buckets: map<string, Bucket>)

  datatype Request = Request(
    exclusions: seq<Exclusion>, model: string, surface: string,
    hardAccount: string, affinityKey: string, mustContinue: bool)

  /** Square root as an arbitrary non-negative function. */
  type Root = f: int -> real | forall p :: f(p) >= 0.0 ghost witness (p: int) => 0.0

  /** Everything one call of the selection reads besides the route loads. */
  datatype Context = Context(world: Snapshot, drv: Driver, req: Request, now: int, root: Root)

  datatype LoadKey = LoadKey(provider: string, bucket: string, class_: string)
  datatype Load = Load(inflight: nat, lastAssigned: nat)
  type Loads = map<LoadKey, Load>

  datatype Candidate = Candidate(key: string, members: seq<Account>, priority: int, class_: string)

  datatype PickError = BoundExcluded | BoundUnavailable | BoundNotFound | NoAccounts
  datatype Pick = NoPick(error: PickError) | Pick(account: Account, key: LoadKey)

  predicate WellFormed(w: Snapshot) {
    forall id <- w.accounts :: id != "" && w.accounts[id].id == id
  }

  /** `order` is one iteration order of the account map. */
  ghost predicate IsOrder(order: seq<string>, accounts: map<string, Account>) {
    && (forall id :: id in order <==> id in accounts)
    && (forall i, j :: 0 <= i < j < |order| ==> order[i] != order[j])
  }

  /* ---------- who may serve ---------- */

  predicate CellAvailable(c: Cell, now: int) {
    && (c.status == CellActive || c.status == Unset)
    && !(c.cooldown.Some? && now < c.cooldown.value)
    && c.hasProxy
  }

  predicate StructurallyAvailable(w: Snapshot, a: Account, now: int) {
    && a.status == Active
    && (a.cellId != "" ==> a.cellId in w.cells && CellAvailable(w.cells[a.cellId], now))
    && (var until := Project(a, w.buckets).cooldown; !(until.Some? && now < until.value))
  }

  predicate AllowedOnSurface(w: Snapshot, a: Account, surface: string) {
    var s := NormalizeSurface(surface);
    if s == NoSurface || s == AllSurfaces || a.provider == CLAUDE then true
    else if a.cellId == "" || a.cellId !in w.cells then s == Native
    else
      var lane := NormalizeSurface(w.cells[a.cellId].lane);
      if s == Compat then lane == Compat || lane == AllSurfaces
      else lane == NoSurface || lane == Native || lane == AllSurfaces
  }

  predicate ExcludedAccount(req: Request, id: string) {
    id != "" && exists e <- req.exclusions :: e.accountId == id
  }

  predicate ExcludedBucket(req: Request, key: string) {
    key != "" && exists e <- req.exclusions :: e.bucketKey == key
  }

  function Assess(c: Context, a: Account): Assessment {
    var r := c.drv.assess(Project(a, c.world.buckets).state, c.req.model, c.now);
    if a.priorityMode != "auto" then r.(priority := a.priority) else r
  }

  /** The part of eligibility that bound and unbound selection share. */
  predicate Usable(c: Context, a: Account) {
    && !ExcludedAccount(c.req, a.id)
    && a.provider == c.drv.provider
    && !ExcludedBucket(c.req, BucketKey(a))
    && AllowedOnSurface(c.world, a, c.req.surface)
    && StructurallyAvailable(c.world, a, c.now)
    && Assess(c, a).eligible
  }

  /* ---------- grouping into buckets ---------- */

  function AddMember(c: Context, groups: map<string, Candidate>, a: Account): map<string, Candidate> {
    var key, r := BucketKey(a), Assess(c, a);
    if key in groups then
      var g := groups[key];
      groups[key := g.(members := g.members + [a],
                       priority := if r.priority > g.priority then r.priority else g.priority)]
    else
      groups[key := Candidate(key, [a], r.priority, r.class_)]
  }

  /** The candidate buckets after visiting the accounts of `order`. */
  function Groups(c: Context, order: seq<string>): map<string, Candidate>
    requires forall id <- order :: id in c.world.accounts
  {
    if order == [] then map[]
    else
      var before := Groups(c, order[..|order| - 1]);
      var a := c.world.accounts[order[|order| - 1]];
      if Usable(c, a) then AddMember(c, before, a) else before
  }

  ghost predicate Keyed(groups: map<string, Candidate>) {
    forall k <- groups :: groups[k].key == k
  }

  /** What a group is: all and only the usable accounts of one bucket, the greatest priority
      among them, and the capacity class they share. */
  ghost predicate GroupOf(c: Context, order: seq<string>, g: Candidate)
    requires forall id <- order :: id in c.world.accounts
  {
    && g.members != []
    && (forall a <- g.members ::
          && Usable(c, a) && BucketKey(a) == g.key && a.id in order && c.world.accounts[a.id] == a
          && Assess(c, a).priority <= g.priority && Assess(c, a).class_ == g.class_)
    && (exists a <- g.members :: Assess(c, a).priority == g.priority)
    && (forall id <- order :: var a := c.world.accounts[id];
          Usable(c, a) && BucketKey(a) == g.key ==> a in g.members)
  }

  /** Accounts of one bucket and one provider are assessed alike, up to a manual priority. */
  lemma SameBucketSameAssessment(c: Context, a: Account, b: Account)
    requires BucketKey(a) == BucketKey(b)
    ensures Assess(c, a).eligible == Assess(c, b).eligible && Assess(c, a).class_ == Assess(c, b).class_
  {
  }

  lemma {:induction false} GroupsCover(c: Context, order: seq<string>)
    requires forall id <- order :: id in c.world.accounts
    ensures forall id <- order :: Usable(c, c.world.accounts[id]) ==> BucketKey(c.world.accounts[id]) in Groups(c, order)
  {
    if order != [] {
      assert order == order[..|order| - 1] + [order[|order| - 1]];
      GroupsCover(c, order[..|order| - 1]);
    }
  }

  lemma {:induction false} GroupsMeaning(c: Context, order: seq<string>)
    requires WellFormed(c.world)
    requires forall id <- order :: id in c.world.accounts
    ensures Keyed(Groups(c, order))
    ensures forall k <- Groups(c, order) :: GroupOf(c, order, Groups(c, order)[k])
    ensures forall id <- order :: Usable(c, c.world.accounts[id]) ==>
              BucketKey(c.world.accounts[id]) in Groups(c, order)
  {
    GroupsCover(c, order);
    if order != [] {
      var prior, id := order[..|order| - 1], order[|order| - 1];
      assert order == prior + [id];
      GroupsMeaning(c, prior);
      var before, a := Groups(c, prior), c.world.accounts[id];
      var groups := Groups(c, order);
      forall k | k in groups ensures groups[k].key == k && GroupOf(c, order, groups[k]) {
        if Usable(c, a) && BucketKey(a) == k {
          GroupExtends(c, prior, id, before);
        } else {
          assert GroupOf(c, prior, before[k]);
        }
      }
    }
  }

  lemma GroupExtends(c: Context, prior: seq<string>, id: string, before: map<string, Candidate>)
    requires WellFormed(c.world)
    requires forall i <- prior + [id] :: i in c.world.accounts
    requires Usable(c, c.world.accounts[id])
    requires var k := BucketKey(c.world.accounts[id]);
      if k in before then before[k].key == k && GroupOf(c, prior, before[k])
      else forall i <- prior :: Usable(c, c.world.accounts[i]) ==> BucketKey(c.world.accounts[i]) != k
    ensures var a := c.world.accounts[id]; var k := BucketKey(a);
      var g := AddMember(c, before, a)[k]; g.key == k && GroupOf(c, prior + [id], g)
  {
    var a := c.world.accounts[id];
    var k := BucketKey(a);
    var g := AddMember(c, before, a)[k];
    if k in before {
      var was := before[k];
      assert was.members[0] in was.members;
      SameBucketSameAssessment(c, a, was.members[0]);
      var top :| top in was.members && Assess(c, top).priority == was.priority;
      assert top in g.members && a in g.members;
      forall i | i in prior + [id] && Usable(c, c.world.accounts[i]) && BucketKey(c.world.accounts[i]) == k
        ensures c.world.accounts[i] in g.members
      {
        assert i in prior ==> c.world.accounts[i] in was.members;
      }
    } else {
      assert a in g.members;
    }
  }

  /* ---------- choosing a bucket ---------- */

  function Weight(root: Root, priority: int): (w: real)
    ensures w >= 1.0
  {
    1.0 + root(if priority < 0 then 0 else priority)
  }

  function LoadOf(loads: Loads, key: LoadKey): Load {
    if key in loads then loads[key] else Load(0, 0)
  }

  function KeyOf(provider: string, g: Candidate): LoadKey {
    LoadKey(provider, g.key, g.class_)
  }

  /** The scheduler's counters: the load of each (provider, bucket, class) and the lease sequence. */
  datatype Book = Book(loads: Loads, routeSeq: nat)

  /** Leasing a route: one more request inflight under the key, stamped with the next sequence number. */
  function Take(b: Book, key: LoadKey): Book {
    Book(b.loads[key := Load(LoadOf(b.loads, key).inflight + 1, b.routeSeq + 1)], b.routeSeq + 1)
  }

  /** Finishing a lease. */
  function GiveBack(b: Book, key: LoadKey): Book {
    if key in b.loads && b.loads[key].inflight > 0
    then b.(loads := b.loads[key := b.loads[key].(inflight := b.loads[key].inflight - 1)])
    else b
  }

  datatype Rank = Rank(score: real, lastAssigned: nat, key: string)

  function RankOf(provider: string, root: Root, loads: Loads, g: Candidate): Rank {
    var load := LoadOf(loads, KeyOf(provider, g));
    Rank((load.inflight + 1) as real / Weight(root, g.priority), load.lastAssigned, g.key)
  }

  predicate Before(a: Rank, b: Rank) {
    a.score < b.score || (a.score == b.score && (a.lastAssigned < b.lastAssigned ||
      (a.lastAssigned == b.lastAssigned && Less(a.key, b.key))))
  }

  lemma BeforeTransitive(a: Rank, b: Rank, c: Rank)
    requires Before(a, b) && Before(b, c)
    ensures Before(a, c)
  {
    if a.score == b.score == c.score && a.lastAssigned == b.lastAssigned == c.lastAssigned {
      LessTransitive(a.key, b.key, c.key);
    }
  }

  lemma BeforeTotal(a: Rank, b: Rank)
    requires a.key != b.key
    ensures Before(a, b) != Before(b, a)
  {
    if a.score == b.score && a.lastAssigned == b.lastAssigned {
      LessTotal(a.key, b.key);
      if Less(a.key, b.key) && Less(b.key, a.key) {
        LessTransitive(a.key, b.key, a.key);
        LessIrreflexive(a.key);
      }
    }
  }

  /** `g` ranks strictly before every other candidate. */
  ghost predicate Leads(provider: string, root: Root, loads: Loads, groups: map<string, Candidate>, k: string) {
    && k in groups
    && forall j <- groups :: j != k ==>
         Before(RankOf(provider, root, loads, groups[k]), RankOf(provider, root, loads, groups[j]))
  }

  lemma {:induction false} LeaderExists(provider: string, root: Root, loads: Loads, groups: map<string, Candidate>)
    returns (k: string)
    requires groups != map[] && Keyed(groups)
    ensures Leads(provider, root, loads, groups, k)
    decreases groups.Keys
  {
    var first :| first in groups;
    var rest := map j | j in groups && j != first :: groups[j];
    assert rest.Keys == groups.Keys - {first};
    if j :| j in groups && j != first {
      assert j in rest;
      var best := LeaderExists(provider, root, loads, rest);
      var rf, rb := RankOf(provider, root, loads, groups[first]), RankOf(provider, root, loads, groups[best]);
      BeforeTotal(rf, rb);
      if Before(rf, rb) {
        k := first;
        forall j | j in groups && j != k ensures Before(rf, RankOf(provider, root, loads, groups[j])) {
          assert j in rest;
          if j != best { BeforeTransitive(rf, rb, RankOf(provider, root, loads, groups[j])); }
        }
      } else {
        k := best;
        forall j | j in groups && j != k ensures Before(rb, RankOf(provider, root, loads, groups[j])) {
          assert j == first || j in rest;
        }
      }
    } else {
      k := first;
    }
  }

  lemma LeaderUnique(provider: string, root: Root, loads: Loads, groups: map<string, Candidate>, k: string, j: string)
    requires Keyed(groups)
    requires Leads(provider, root, loads, groups, k) && Leads(provider, root, loads, groups, j)
    ensures k == j
  {
    if k != j {
      BeforeTotal(RankOf(provider, root, loads, groups[k]), RankOf(provider, root, loads, groups[j]));
    }
  }

  ghost function Leader(provider: string, root: Root, loads: Loads, groups: map<string, Candidate>): (k: string)
    requires groups != map[] && Keyed(groups)
    ensures Leads(provider, root, loads, groups, k)
  {
    assert exists k :: Leads(provider, root, loads, groups, k) by {
      var k := LeaderExists(provider, root, loads, groups);
    }
    var k :| Leads(provider, root, loads, groups, k);
    k
  }

  /* ---------- choosing an account of the bucket ---------- */

  function UsedAt(a: Account): int {
    if a.lastUsed.Some? then a.lastUsed.value else ZERO_TIME
  }

  /** The first account of least `lastUsed`. */
  ghost predicate IsLeastRecentlyUsed(members: seq<Account>, i: nat) {
    && i < |members|
    && (forall j :: 0 <= j < i ==> UsedAt(members[i]) < UsedAt(members[j]))
    && (forall j :: i <= j < |members| ==> UsedAt(members[i]) <= UsedAt(members[j]))
  }

  function Lru(members: seq<Account>): (i: nat)
    requires members != []
    ensures IsLeastRecentlyUsed(members, i)
  {
    if |members| == 1 then 0
    else
      var best := Lru(members[..|members| - 1]);
      if UsedAt(members[|members| - 1]) < UsedAt(members[best]) then |members| - 1 else best
  }

  /* ---------- the whole selection ---------- */

  function LeaseKey(a: Account, class_: string): LoadKey {
    LoadKey(a.provider, BucketKey(a), class_)
  }

  ghost function PickUnbound(c: Context, order: seq<string>, loads: Loads): Pick
    requires WellFormed(c.world) && IsOrder(order, c.world.accounts)
  {
    GroupsMeaning(c, order);
    var groups := Groups(c, order);
    if groups == map[] then NoPick(NoAccounts)
    else
      var g := groups[Leader(c.drv.provider, c.root, loads, groups)];
      var a := g.members[Lru(g.members)];
      Pick(a, LeaseKey(a, g.class_))
  }

  /** `bound` is the empty string when no account is asked for. */
  ghost function PickAccount(c: Context, order: seq<string>, loads: Loads, bound: string): Pick
    requires WellFormed(c.world) && IsOrder(order, c.world.accounts)
  {
    if bound == "" then PickUnbound(c, order, loads)
    else if bound !in c.world.accounts then NoPick(BoundNotFound)
    else
      var a := c.world.accounts[bound];
      if a.provider != c.drv.provider then PickUnbound(c, order, loads)
      else if ExcludedAccount(c.req, a.id) || ExcludedBucket(c.req, BucketKey(a)) then NoPick(BoundExcluded)
      else if Usable(c, a) then Pick(a, LeaseKey(a, Assess(c, a).class_))
      else NoPick(BoundUnavailable)
  }

  /** Unbound selection is sound and complete: it fails exactly when nobody may serve, and what it
      returns may serve, sits in the leading bucket, and is the least recently used there.
      The load key leased is the load key that was scored. */
  lemma UnboundSelection(c: Context, order: seq<string>, loads: Loads)
    requires WellFormed(c.world) && IsOrder(order, c.world.accounts)
    ensures var p := PickUnbound(c, order, loads);
      && (p.NoPick? <==> forall id <- c.world.accounts :: !Usable(c, c.world.accounts[id]))
      && (p.Pick? ==>
            var a := p.account;
            && a.id in c.world.accounts && c.world.accounts[a.id] == a && Usable(c, a)
            && p.key == LoadKey(c.drv.provider, BucketKey(a), Assess(c, a).class_)
            && (forall id <- c.world.accounts :: var b := c.world.accounts[id];
                  Usable(c, b) && BucketKey(b) == BucketKey(a) ==> UsedAt(a) <= UsedAt(b)))
  {
    GroupsMeaning(c, order);
    var groups := Groups(c, order);
    if groups == map[] {
      assert forall id <- c.world.accounts :: id in order;
    } else {
      var k := Leader(c.drv.provider, c.root, loads, groups);
      ChosenMember(c, order, groups[k]);
    }
  }

  lemma ChosenMember(c: Context, order: seq<string>, g: Candidate)
    requires WellFormed(c.world) && IsOrder(order, c.world.accounts)
    requires GroupOf(c, order, g)
    ensures var a := g.members[Lru(g.members)];
      && a.id in c.world.accounts && c.world.accounts[a.id] == a && Usable(c, a)
      && BucketKey(a) == g.key && g.class_ == Assess(c, a).class_
      && (forall id <- c.world.accounts :: var b := c.world.accounts[id];
            Usable(c, b) && BucketKey(b) == g.key ==> UsedAt(a) <= UsedAt(b))
  {
    var i := Lru(g.members);
    var a := g.members[i];
    assert a in g.members;
    forall id | id in c.world.accounts && Usable(c, c.world.accounts[id])
                && BucketKey(c.world.accounts[id]) == g.key
      ensures UsedAt(a) <= UsedAt(c.world.accounts[id])
    {
      assert id in order;
      var j :| 0 <= j < |g.members| && g.members[j] == c.world.accounts[id];
    }
  }

  /** Nobody else's bucket scores better than the bucket selected. */
  lemma SelectedBucketLeads(c: Context, order: seq<string>, loads: Loads, other: string)
    requires WellFormed(c.world) && IsOrder(order, c.world.accounts)
    requires PickUnbound(c, order, loads).Pick?
    requires other in c.world.accounts && Usable(c, c.world.accounts[other])
    ensures var groups := Groups(c, order);
      var mine, theirs := BucketKey(PickUnbound(c, order, loads).account), BucketKey(c.world.accounts[other]);
      && mine in groups && theirs in groups
      && (mine != theirs ==> Before(RankOf(c.drv.provider, c.root, loads, groups[mine]),
                                    RankOf(c.drv.provider, c.root, loads, groups[theirs])))
  {
    GroupsMeaning(c, order);
    assert other in order;
    var groups := Groups(c, order);
    var g := groups[Leader(c.drv.provider, c.root, loads, groups)];
    assert g.members[Lru(g.members)] in g.members;
  }

  /** Every selection, bound or not, respects provider, exclusions and availability. */
  lemma SelectionSound(c: Context, order: seq<string>, loads: Loads, bound: string)
    requires WellFormed(c.world) && IsOrder(order, c.world.accounts)
    ensures var p := PickAccount(c, order, loads, bound);
      p.Pick? ==>
        && p.account.id in c.world.accounts && c.world.accounts[p.account.id] == p.account
        && Usable(c, p.account)
        && p.key == LoadKey(c.drv.provider, BucketKey(p.account), Assess(c, p.account).class_)
        && (bound in c.world.accounts && c.world.accounts[bound].provider == c.drv.provider ==>
              p.account.id == bound)
  {
    UnboundSelection(c, order, loads);
  }

  /** Map iteration order decides nothing but ties of `lastUsed` inside the chosen bucket. */
  lemma IterationOrderIrrelevant(c: Context, o1: seq<string>, o2: seq<string>, loads: Loads)
    requires WellFormed(c.world) && IsOrder(o1, c.world.accounts) && IsOrder(o2, c.world.accounts)
    ensures var p1, p2 := PickUnbound(c, o1, loads), PickUnbound(c, o2, loads);
      && p1.Pick? == p2.Pick?
      && (p1.Pick? ==> p1.key == p2.key && UsedAt(p1.account) == UsedAt(p2.account))
  {
    UnboundSelection(c, o1, loads);
    UnboundSelection(c, o2, loads);
    if PickUnbound(c, o1, loads).Pick? {
      LeadersAgree(c, o1, o2, loads);
      SameBucketSameAssessment(c, PickUnbound(c, o1, loads).account, PickUnbound(c, o2, loads).account);
    }
  }

  lemma LeadersAgree(c: Context, o1: seq<string>, o2: seq<string>, loads: Loads)
    requires WellFormed(c.world) && IsOrder(o1, c.world.accounts) && IsOrder(o2, c.world.accounts)
    requires PickUnbound(c, o1, loads).Pick? && PickUnbound(c, o2, loads).Pick?
    ensures BucketKey(PickUnbound(c, o1, loads).account) == BucketKey(PickUnbound(c, o2, loads).account)
  {
    var a1, a2 := PickUnbound(c, o1, loads).account, PickUnbound(c, o2, loads).account;
    var k1, k2 := BucketKey(a1), BucketKey(a2);
    assert a1.id in c.world.accounts && c.world.accounts[a1.id] == a1 && Usable(c, a1) by {
      UnboundSelection(c, o1, loads);
    }
    assert a2.id in c.world.accounts && c.world.accounts[a2.id] == a2 && Usable(c, a2) by {
      UnboundSelection(c, o2, loads);
    }
    SelectedBucketLeads(c, o1, loads, a2.id);
    SelectedBucketLeads(c, o2, loads, a1.id);
    RanksAgree(c, o1, o2, loads, k1, k2);
  }

  lemma RanksAgree(c: Context, o1: seq<string>, o2: seq<string>, loads: Loads, k1: string, k2: string)
    requires WellFormed(c.world) && IsOrder(o1, c.world.accounts) && IsOrder(o2, c.world.accounts)
    requires var g := Groups(c, o1); k1 in g && k2 in g && (k1 != k2 ==>
      Before(RankOf(c.drv.provider, c.root, loads, g[k1]), RankOf(c.drv.provider, c.root, loads, g[k2])))
    requires var g := Groups(c, o2); k1 in g && k2 in g && (k1 != k2 ==>
      Before(RankOf(c.drv.provider, c.root, loads, g[k2]), RankOf(c.drv.provider, c.root, loads, g[k1])))
    ensures k1 == k2
  {
    GroupsAgree(c, o1, o2, k1);
    GroupsAgree(c, o1, o2, k2);
    if k1 != k2 {
      assert Keyed(Groups(c, o1)) by { GroupsMeaning(c, o1); }
      BeforeTotal(RankOf(c.drv.provider, c.root, loads, Groups(c, o1)[k1]),
                  RankOf(c.drv.provider, c.root, loads, Groups(c, o1)[k2]));
    }
  }

  lemma GroupsAgree(c: Context, o1: seq<string>, o2: seq<string>, k: string)
    requires WellFormed(c.world) && IsOrder(o1, c.world.accounts) && IsOrder(o2, c.world.accounts)
    requires k in Groups(c, o1)
    ensures k in Groups(c, o2)
    ensures var g1, g2 := Groups(c, o1)[k], Groups(c, o2)[k];
      g1.key == g2.key && g1.priority == g2.priority && g1.class_ == g2.class_
  {
    GroupWithin(c, o1, o2, k);
    GroupWithin(c, o2, o1, k);
  }

  lemma GroupWithin(c: Context, o1: seq<string>, o2: seq<string>, k: string)
    requires WellFormed(c.world) && IsOrder(o1, c.world.accounts) && IsOrder(o2, c.world.accounts)
    requires k in Groups(c, o1)
    ensures k in Groups(c, o2)
    ensures var g1, g2 := Groups(c, o1)[k], Groups(c, o2)[k];
      g1.key == g2.key && g1.priority <= g2.priority && g1.class_ == g2.class_
  {
    var g1 := Groups(c, o1)[k];
    var a :| a in g1.members && Assess(c, a).priority == g1.priority by { GroupsMeaning(c, o1); }
    assert Usable(c, a) && BucketKey(a) == k && a.id in o2 && c.world.accounts[a.id] == a
        && Assess(c, a).class_ == g1.class_ && g1.key == k by {
      GroupsMeaning(c, o1);
    }
    GroupsMeaning(c, o2);
    assert a in Groups(c, o2)[k].members;
  }
}

/** What selection promises, written on the columns of accounts, cells and buckets and on the driver's answers. */
module SelectionMeaning {
  import opened Domain
  import opened Text
  import opened Selection

  /* ---------- the conditions ---------- */

  /** The bucket an account belongs to: its own key, or else its provider with its subject, or with its id. */
  function KeyFor(a: Account): string {
    if a.bucketKey != "" then a.bucketKey
    else if a.subject != "" then a.provider + ":" + a.subject
    else a.provider + ":" + a.id
  }

  /** The driver's answer for the quota state of the account's bucket. */
  function Answer(c: Context, a: Account): Assessment {
    var k := KeyFor(a);
    c.drv.assess(if k in c.world.buckets && c.world.buckets[k].state != "" then c.world.buckets[k].state else "{}",
                 c.req.model, c.now)
  }

  /** A pause is over from its very last second on. */
  predicate Over(pause: Option<int>, now: int) {
    pause.Some? ==> pause.value <= now
  }

  /** Without a cell there is no egress to look at; with one it has to be known, in service and reachable. */
  predicate CellServes(c: Context, a: Account) {
    a.cellId != "" ==>
      && a.cellId in c.world.cells
      && var cell := c.world.cells[a.cellId];
         cell.status != CellDisabled && cell.status != CellError && Over(cell.cooldown, c.now) && cell.hasProxy
  }

  /** The lane of the account's cell; none without a cell. */
  function Lane(c: Context, a: Account): Surface {
    if a.cellId != "" && a.cellId in c.world.cells then NormalizeSurface(c.world.cells[a.cellId].lane) else NoSurface
  }

  /** A lane serves its own surface, the lane "all" both, and no lane means native. Claude accounts serve both, and so does
      a request that names neither. */
  predicate SurfaceServed(c: Context, a: Account) {
    var wanted, lane := NormalizeSurface(c.req.surface), Lane(c, a);
    || a.provider == "claude" || (wanted != Native && wanted != Compat)
    || lane == AllSurfaces || lane == wanted || (lane == NoSurface && wanted == Native)
  }

  predicate Excluded(c: Context, a: Account) {
    exists e <- c.req.exclusions :: (e.accountId != "" && e.accountId == a.id) || (e.bucketKey != "" && e.bucketKey == KeyFor(a))
  }

  /** The account may serve the request. */
  predicate Fit(c: Context, a: Account) {
    && a.status == Active && a.provider == c.drv.provider && !Excluded(c, a)
    && (KeyFor(a) in c.world.buckets ==> Over(c.world.buckets[KeyFor(a)].cooldown, c.now))
    && CellServes(c, a) && SurfaceServed(c, a) && Answer(c, a).eligible
  }

  /** In manual mode the account's own priority counts, otherwise the driver's. */
  function Priority(c: Context, a: Account): int {
    if a.priorityMode == "auto" then Answer(c, a).priority else a.priority
  }

  /** The load key under which the account's requests are counted. */
  function LoadKeyFor(c: Context, a: Account): LoadKey {
    LoadKey(c.drv.provider, KeyFor(a), Answer(c, a).class_)
  }

  /* ---------- what selection works with means these conditions ---------- */

  lemma AssessedAsAnswered(c: Context, a: Account)
    ensures BucketKey(a) == KeyFor(a)
    ensures Assess(c, a) == Answer(c, a).(priority := Priority(c, a))
  {
  }

  lemma LaneDecides(c: Context, a: Account)
    ensures AllowedOnSurface(c.world, a, c.req.surface) == SurfaceServed(c, a)
  {
  }

  lemma UsableIsFit(c: Context, a: Account)
    requires a.id != ""
    ensures Usable(c, a) == Fit(c, a)
  {
    AssessedAsAnswered(c, a);
    LaneDecides(c, a);
    assert (ExcludedAccount(c.req, a.id) || ExcludedBucket(c.req, BucketKey(a))) == Excluded(c, a);
  }

  /* ---------- the guarantees ---------- */

  /** When an account was last used; one never used comes first. */
  function LastUse(a: Account): int {
    if a.lastUsed.Some? then a.lastUsed.value else -62135596800
  }

  /** Unbound selection fails exactly if no account may serve; otherwise it picks one that may, under its own load key,
      that was used least recently among those of its bucket that may. */
  lemma UnboundPicksFit(c: Context, order: seq<string>, loads: Loads)
    requires WellFormed(c.world) && IsOrder(order, c.world.accounts)
    ensures var p := PickUnbound(c, order, loads);
      && (p == NoPick(NoAccounts) <==> forall id <- c.world.accounts :: !Fit(c, c.world.accounts[id]))
      && (p.NoPick? ==> p.error == NoAccounts)
      && (p.Pick? ==>
            var a := p.account;
            && a.id in c.world.accounts && c.world.accounts[a.id] == a && Fit(c, a) && p.key == LoadKeyFor(c, a)
            && (forall id <- c.world.accounts :: var b := c.world.accounts[id];
                  Fit(c, b) && KeyFor(b) == KeyFor(a) ==> LastUse(a) <= LastUse(b)))
  {
    UnboundSelection(c, order, loads);
    forall id | id in c.world.accounts ensures Usable(c, c.world.accounts[id]) == Fit(c, c.world.accounts[id]) {
      UsableIsFit(c, c.world.accounts[id]);
    }
    forall id | id in c.world.accounts ensures BucketKey(c.world.accounts[id]) == KeyFor(c.world.accounts[id]) {
      AssessedAsAnswered(c, c.world.accounts[id]);
    }
    if PickUnbound(c, order, loads).Pick? { AssessedAsAnswered(c, PickUnbound(c, order, loads).account); }
  }

  /** `a` may serve, and no account of its bucket that may has a greater priority. */
  ghost predicate Leading(c: Context, a: Account) {
    && a.id in c.world.accounts && c.world.accounts[a.id] == a && Fit(c, a)
    && forall id <- c.world.accounts :: var b := c.world.accounts[id];
         Fit(c, b) && KeyFor(b) == KeyFor(a) ==> Priority(c, b) <= Priority(c, a)
  }

  /** Requests inflight, the next one included, per unit of weight; weights grow with the root of the priority. */
  function Score(c: Context, loads: Loads, a: Account): real {
    (LoadOf(loads, LoadKeyFor(c, a)).inflight + 1) as real / (1.0 + c.root(if Priority(c, a) > 0 then Priority(c, a) else 0))
  }

  /** The bucket of `a` comes before that of `b`: lower score, then older assignment, then smaller key. */
  predicate Precedes(c: Context, loads: Loads, a: Account, b: Account) {
    var s, t := Score(c, loads, a), Score(c, loads, b);
    var m, n := LoadOf(loads, LoadKeyFor(c, a)).lastAssigned, LoadOf(loads, LoadKeyFor(c, b)).lastAssigned;
    s < t || (s == t && (m < n || (m == n && Less(KeyFor(a), KeyFor(b)))))
  }

  lemma TopMember(c: Context, order: seq<string>, k: string) returns (top: Account)
    requires WellFormed(c.world) && IsOrder(order, c.world.accounts) && k in Groups(c, order)
    ensures Leading(c, top) && KeyFor(top) == k
    ensures var g := Groups(c, order)[k]; g.priority == Priority(c, top) && KeyOf(c.drv.provider, g) == LoadKeyFor(c, top)
  {
    GroupsMeaning(c, order);
    var g := Groups(c, order)[k];
    top :| top in g.members && Assess(c, top).priority == g.priority;
    AssessedAsAnswered(c, top);
    UsableIsFit(c, top);
    forall id | id in c.world.accounts && Fit(c, c.world.accounts[id]) && KeyFor(c.world.accounts[id]) == k
      ensures Priority(c, c.world.accounts[id]) <= Priority(c, top)
    {
      AssessedAsAnswered(c, c.world.accounts[id]);
      UsableIsFit(c, c.world.accounts[id]);
      assert id in order;
    }
  }

  lemma ScoreIsRank(c: Context, loads: Loads, g: Candidate, a: Account)
    requires KeyOf(c.drv.provider, g) == LoadKeyFor(c, a) && g.priority == Priority(c, a) && g.key == KeyFor(a)
    ensures RankOf(c.drv.provider, c.root, loads, g)
         == Rank(Score(c, loads, a), LoadOf(loads, LoadKeyFor(c, a)).lastAssigned, KeyFor(a))
  {
    assert Weight(c.root, g.priority) == 1.0 + c.root(if Priority(c, a) > 0 then Priority(c, a) else 0);
  }

  /** The bucket picked precedes the bucket of every other account that may serve, each taken at its greatest priority. */
  lemma PickedBucketPrecedes(c: Context, order: seq<string>, loads: Loads, other: string)
    returns (mine: Account, theirs: Account)
    requires WellFormed(c.world) && IsOrder(order, c.world.accounts) && PickUnbound(c, order, loads).Pick?
    requires other in c.world.accounts && Fit(c, c.world.accounts[other])
    ensures Leading(c, mine) && KeyFor(mine) == KeyFor(PickUnbound(c, order, loads).account)
    ensures Leading(c, theirs) && KeyFor(theirs) == KeyFor(c.world.accounts[other])
    ensures KeyFor(mine) != KeyFor(theirs) ==> Precedes(c, loads, mine, theirs)
  {
    var a, b := PickUnbound(c, order, loads).account, c.world.accounts[other];
    AssessedAsAnswered(c, a);
    AssessedAsAnswered(c, b);
    UsableIsFit(c, b);
    SelectedBucketLeads(c, order, loads, other);
    mine := TopMember(c, order, BucketKey(a));
    theirs := TopMember(c, order, BucketKey(b));
    GroupKeys(c, order, BucketKey(a));
    GroupKeys(c, order, BucketKey(b));
    ScoreIsRank(c, loads, Groups(c, order)[BucketKey(a)], mine);
    ScoreIsRank(c, loads, Groups(c, order)[BucketKey(b)], theirs);
  }

  lemma GroupKeys(c: Context, order: seq<string>, k: string)
    requires WellFormed(c.world) && IsOrder(order, c.world.accounts) && k in Groups(c, order)
    ensures Groups(c, order)[k].key == k
  {
    GroupsMeaning(c, order);
  }

  /** A bound account is picked exactly if it may serve; otherwise the error says why. An account of another provider is
      ignored. */
  lemma BoundPicksFit(c: Context, order: seq<string>, loads: Loads, bound: string)
    requires WellFormed(c.world) && IsOrder(order, c.world.accounts) && bound != ""
    ensures var p := PickAccount(c, order, loads, bound);
      if bound !in c.world.accounts then p == NoPick(BoundNotFound)
      else
        var a := c.world.accounts[bound];
        if a.provider != c.drv.provider then p == PickUnbound(c, order, loads)
        else if Fit(c, a) then p == Pick(a, LoadKeyFor(c, a))
        else p == NoPick(if Excluded(c, a) then BoundExcluded else BoundUnavailable)
  {
    if bound in c.world.accounts {
      var a := c.world.accounts[bound];
      AssessedAsAnswered(c, a);
      UsableIsFit(c, a);
      assert (ExcludedAccount(c.req, a.id) || ExcludedBucket(c.req, BucketKey(a))) == Excluded(c, a);
    }
  }
}

/** The route-lease protocol: what one critical section of AcquireRoute, Accept and Finish does to the
    shared routing state, and every interleaving of such sections by any number of clients. */
module RouteProtocol {
  import opened Domain
  import opened Selection

  /** Claims are numbered in order of creation; `closed` counts how often each claim's channel was
      closed. Closing a channel twice would crash the program. */
  datatype Shared = Shared(book: Book, claims: map<string, nat>, closed: map<nat, nat>, nextClaim: nat)

  datatype Binding = Binding(provider: string, subject: string)

  datatype Lease = Lease(key: LoadKey, account: Account, affinityKey: string, claim: Option<nat>)

  datatype RouteError = OwnerMissing | OwnerUnavailable | PickFailed(error: PickError)

  /** How one pass through the lock region ends. */
  datatype Region = Failed(error: RouteError) | Granted(lease: Lease) | Await(claim: nat)

  /** The iteration orders of the account map met by the three loops of the lock region. */
  datatype Orders = Orders(lookup: seq<string>, bound: seq<string>, unbound: seq<string>)

  ghost predicate Proper(c: Context, o: Orders) {
    && WellFormed(c.world) && IsOrder(o.lookup, c.world.accounts)
    && IsOrder(o.bound, c.world.accounts) && IsOrder(o.unbound, c.world.accounts)
  }

  function ClosedCount(sh: Shared, id: nat): nat {
    if id in sh.closed then sh.closed[id] else 0
  }

  function ReleaseClaim(sh: Shared, key: string, claim: Option<nat>): Shared {
    if key != "" && claim.Some? && key in sh.claims && sh.claims[key] == claim.value
    then sh.(claims := sh.claims - {key}, closed := sh.closed[claim.value := ClosedCount(sh, claim.value) + 1])
    else sh
  }

  /** The id of the first account of `order` that the binding names, or the empty string. */
  function AccountFor(w: Snapshot, order: seq<string>, b: Binding): string
    requires forall id <- order :: id in w.accounts
  {
    if order == [] then ""
    else
      var a := w.accounts[order[0]];
      if a.provider == b.provider && a.subject == b.subject then a.id else AccountFor(w, order[1..], b)
  }

  function Grant(sh: Shared, req: Request, p: Pick, claim: Option<nat>): (Shared, Region)
    requires p.Pick?
  {
    (sh.(book := Take(sh.book, p.key)), Granted(Lease(p.key, p.account, req.affinityKey, claim)))
  }

  /** Unbound acquisition, serialised per affinity key by a claim; `p` is what selection finds. */
  function UnboundRegion(sh: Shared, req: Request, binding: Option<Binding>, p: Pick): (Shared, Region) {
    var key := req.affinityKey;
    if key != "" && binding.None? && req.mustContinue then (sh, Failed(OwnerMissing))
    else if key != "" && key in sh.claims then (sh, Await(sh.claims[key]))
    else
      var claim := if key != "" then Some(sh.nextClaim) else None;
      var sh1 := if key != "" then sh.(claims := sh.claims[key := sh.nextClaim], nextClaim := sh.nextClaim + 1) else sh;
      if p.Pick? then Grant(sh1, req, p, claim)
      else (ReleaseClaim(sh1, key, claim), Failed(PickFailed(p.error)))
  }

  /** The lock region once the bound account and the outcomes of both selections are known. */
  function RegionWith(sh: Shared, req: Request, pinned: bool, foreign: bool, read: Option<Binding>,
                      bound: string, boundPick: Pick, unboundPick: Pick): (Shared, Region)
  {
    if req.mustContinue && req.affinityKey == "" && !pinned then (sh, Failed(OwnerMissing))
    else if foreign && req.mustContinue then (sh, Failed(OwnerUnavailable))
    else
      var binding := if foreign then None else read;
      if req.hardAccount == "" && binding.Some? && bound == "" && req.mustContinue
      then (sh, Failed(OwnerUnavailable))
      else if bound == "" then UnboundRegion(sh, req, binding, unboundPick)
      else if boundPick.Pick? then Grant(sh, req, boundPick, None)
      else if req.hardAccount != "" then (sh, Failed(PickFailed(boundPick.error)))
      else if req.mustContinue then (sh, Failed(OwnerUnavailable))
      else UnboundRegion(sh, req, binding, unboundPick)
  }

  /** The hard account exists and belongs to the driver's provider. */
  predicate Pinned(c: Context) {
    c.req.hardAccount in c.world.accounts && c.world.accounts[c.req.hardAccount].provider == c.drv.provider
  }

  /** The binding was written for another provider. */
  predicate Foreign(c: Context, read: Option<Binding>) {
    read.Some? && read.value.provider != c.drv.provider
  }

  ghost function BoundAccount(c: Context, o: Orders, read: Option<Binding>): string
    requires Proper(c, o)
  {
    if c.req.hardAccount != "" then c.req.hardAccount
    else if read.Some? && !Foreign(c, read) then AccountFor(c.world, o.lookup, read.value)
    else ""
  }

  /** The lock region of AcquireRoute, for the binding read before the lock was taken. */
  ghost function LockRegion(sh: Shared, c: Context, o: Orders, read: Option<Binding>): (Shared, Region)
    requires Proper(c, o)
  {
    var bound := BoundAccount(c, o, read);
    RegionWith(sh, c.req, Pinned(c), Foreign(c, read), read, bound,
               PickAccount(c, o.bound, sh.book.loads, bound), PickUnbound(c, o.unbound, sh.book.loads))
  }

  lemma {:induction false} AccountForFinds(w: Snapshot, order: seq<string>, b: Binding)
    requires WellFormed(w) && forall i | 0 <= i < |order| :: order[i] in w.accounts
    ensures var id := AccountFor(w, order, b);
      if id == "" then forall i | 0 <= i < |order| ::
             !(w.accounts[order[i]].provider == b.provider && w.accounts[order[i]].subject == b.subject)
      else id in w.accounts && w.accounts[id].provider == b.provider && w.accounts[id].subject == b.subject
  {
    if order != [] { AccountForFinds(w, order[1..], b); }
  }

  /** The binding is read only without a hard account and under an affinity key. */
  predicate ReadOk(req: Request, read: Option<Binding>) {
    req.hardAccount != "" || req.affinityKey == "" ==> read.None?
  }

  /** The account that a request has to continue on: its hard account, or else the one its binding names. */
  predicate Continues(req: Request, read: Option<Binding>, a: Account) {
    if req.hardAccount != "" then a.id == req.hardAccount
    else read.Some? && a.provider == read.value.provider && a.subject == read.value.subject
  }

  /** A request under an affinity key is pinned to an account of another provider. */
  predicate ForeignPin(c: Context) {
    && c.req.affinityKey != "" && c.req.hardAccount != ""
    && c.req.hardAccount in c.world.accounts && c.world.accounts[c.req.hardAccount].provider != c.drv.provider
  }

  /** Required continuity. The region neither creates a claim nor waits for one, and a failure changes nothing. A
      granted route goes to the account the request continues on if and only if the request is not pinned to an
      account of another provider; if it is, the region grants whatever unbound selection finds. */
  lemma RequiredContinuity(sh: Shared, c: Context, o: Orders, read: Option<Binding>)
    requires Proper(c, o) && c.req.mustContinue && ReadOk(c.req, read)
    ensures var (sh', r) := LockRegion(sh, c, o, read); var p := PickUnbound(c, o.bound, sh.book.loads);
      && sh'.claims == sh.claims && sh'.nextClaim == sh.nextClaim && sh'.closed == sh.closed && !r.Await?
      && (r.Failed? ==> sh' == sh)
      && (r.Granted? ==>
            r.lease.account.provider == c.drv.provider && r.lease.claim == None
            && (Continues(c.req, read, r.lease.account) <==> !ForeignPin(c)))
      && (ForeignPin(c) ==>
            if p.Pick? then r.Granted? && r.lease.account == p.account else r == Failed(PickFailed(p.error)))
  {
    if c.req.hardAccount != "" {
      PinnedContinuity(sh, c, o, read);
    } else {
      BindingContinuity(sh, c, o, read);
    }
  }

  lemma BindingContinuity(sh: Shared, c: Context, o: Orders, read: Option<Binding>)
    requires Proper(c, o) && c.req.mustContinue && c.req.hardAccount == ""
    ensures var (sh', r) := LockRegion(sh, c, o, read);
      && sh'.claims == sh.claims && sh'.nextClaim == sh.nextClaim && sh'.closed == sh.closed && !r.Await?
      && (r.Failed? ==> sh' == sh)
      && (r.Granted? ==>
            r.lease.account.provider == c.drv.provider && r.lease.claim == None && Continues(c.req, read, r.lease.account))
  {
    if read.Some? { AccountForFinds(c.world, o.lookup, read.value); }
    if read.Some? && read.value.provider == c.drv.provider {
      var bound := AccountFor(c.world, o.lookup, read.value);
      if bound != "" { SelectionSound(c, o.bound, sh.book.loads, bound); }
    }
  }

  lemma PinnedContinuity(sh: Shared, c: Context, o: Orders, read: Option<Binding>)
    requires Proper(c, o) && c.req.mustContinue && c.req.hardAccount != "" && read.None?
    ensures var (sh', r) := LockRegion(sh, c, o, read); var p := PickUnbound(c, o.bound, sh.book.loads);
      && sh'.claims == sh.claims && sh'.nextClaim == sh.nextClaim && sh'.closed == sh.closed && !r.Await?
      && (r.Failed? ==> sh' == sh)
      && (r.Granted? ==>
            r.lease.account.provider == c.drv.provider && r.lease.claim == None
            && (r.lease.account.id == c.req.hardAccount <==> !ForeignPin(c)))
      && (ForeignPin(c) ==>
            if p.Pick? then r.Granted? && r.lease.account == p.account else r == Failed(PickFailed(p.error)))
  {
    SelectionSound(c, o.bound, sh.book.loads, c.req.hardAccount);
  }

  /** A user pinned to a Claude account continues a conversation of another provider: the request is granted an account
      that neither the pin nor any binding names. */
  lemma ContinuityLost(sh: Shared)
    ensures var pinned := Account("h", CLAUDE, "s", Active, "", 0, "auto", "", "", None, None, Tokens("", "", 0), "");
      var other := pinned.(id := "x", provider := "codex", subject := "t");
      var c := Context(Snapshot(map["h" := pinned, "x" := other], map[], map[]),
                       Driver("codex", (a, st) => "", (st, m, t) => Assessment(true, 0, ""), (st, t) => ZERO_TIME),
                       Request([], "m", "", "h", "k", true), 0, p => 0.0);
      var o := Orders(["h", "x"], ["h", "x"], ["h", "x"]);
      && Proper(c, o)
      && var r := LockRegion(sh, c, o, None).1; r.Granted? && r.lease.account == other && !Continues(c.req, None, other)
  {
    var pinned := Account("h", CLAUDE, "s", Active, "", 0, "auto", "", "", None, None, Tokens("", "", 0), "");
    var other := pinned.(id := "x", provider := "codex", subject := "t");
    var c := Context(Snapshot(map["h" := pinned, "x" := other], map[], map[]),
                     Driver("codex", (a, st) => "", (st, m, t) => Assessment(true, 0, ""), (st, t) => ZERO_TIME),
                     Request([], "m", "", "h", "k", true), 0, p => 0.0);
    var order := ["h", "x"];
    assert order[0] == "h" && order[1] == "x" && "codex" != CLAUDE;
    assert NormalizeSurface("") == NoSurface;
    assert Usable(c, other);
    UnboundSelection(c, order, sh.book.loads);
    RequiredContinuity(sh, c, Orders(order, order, order), None);
  }

  /** Every granted route is usable, whether it was bound or not. */
  lemma GrantedIsUsable(sh: Shared, c: Context, o: Orders, read: Option<Binding>)
    requires Proper(c, o)
    ensures var (_, r) := LockRegion(sh, c, o, read);
      r.Granted? ==>
        && Usable(c, r.lease.account) && r.lease.affinityKey == c.req.affinityKey
        && r.lease.account.id in c.world.accounts && c.world.accounts[r.lease.account.id] == r.lease.account
        && r.lease.key == LoadKey(c.drv.provider, BucketKey(r.lease.account), Assess(c, r.lease.account).class_)
        && (Pinned(c) ==> r.lease.account.id == c.req.hardAccount)
  {
    SelectionSound(c, o.bound, sh.book.loads, BoundAccount(c, o, read));
    SelectionSound(c, o.unbound, sh.book.loads, "");
  }
}

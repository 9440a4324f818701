/** All interleavings of the route-lease protocol: clients inside AcquireRoute with one program counter
    each, and leases inside Accept or Finish. Only the critical sections are atomic. */
module RouteRuns {
  import opened Domain
  import opened Selection
  import opened RouteProtocol

  /** One write of the binding store: a saved binding, or None for a removal or an expiry. */
  datatype Entry = Entry(key: string, binding: Option<Binding>)

  /** Where a client is in AcquireRoute. `woke` is the claim whose release it last waited for; `mark` is
      how much of the binding log existed when it read its binding. */
  datatype Client =
    | Start(req: Request, woke: Option<nat>)
    | HasRead(req: Request, woke: Option<nat>, binding: Option<Binding>, mark: nat)
    | Waiting(req: Request, claim: nat)
    | Returned

  /** Which part of Accept or Finish holds the lease's own lock. */
  datatype Phase = Free | Saving | Releasing | Finishing

  /** `savedAt` is the log position of the binding that Accept saved. */
  datatype Held = Held(lease: Lease, accepted: bool, terminal: bool, phase: Phase, savedAt: nat)

  /** `acceptedAt` maps each claim that was closed by a successful Accept to the log position of the
      binding saved for it. */
  datatype State = State(sh: Shared, clients: seq<Client>, held: seq<Held>, log: seq<Entry>, acceptedAt: map<nat, nat>)

  datatype Step =
    | Call(req: Request)
    | ReadBinding(i: nat)
    | Lock(i: nat, c: Context, o: Orders)
    | Resume(i: nat)
    | Cancel(i: nat)
    | AcceptStart(j: nat)
    | AcceptSave(j: nat, ok: bool)
    | AcceptRelease(j: nat)
    | FinishStart(j: nat)
    | FinishRelease(j: nat)
    | StoreWrite(entry: Entry)

  /** The binding stored under `key`: the last write, whoever made it. */
  function Stored(log: seq<Entry>, key: string): Option<Binding> {
    if log == [] then None
    else if log[|log| - 1].key == key then log[|log| - 1].binding
    else Stored(log[..|log| - 1], key)
  }

  function OwnerBinding(l: Lease): Binding {
    Binding(l.account.provider, l.account.subject)
  }

  ghost predicate Enabled(s: State, step: Step) {
    match step
    case Call(_) => true
    case ReadBinding(i) => i < |s.clients| && s.clients[i].Start?
    case Lock(i, c, o) => i < |s.clients| && s.clients[i].HasRead? && c.req == s.clients[i].req && Proper(c, o)
    case Resume(i) => i < |s.clients| && s.clients[i].Waiting? && ClosedCount(s.sh, s.clients[i].claim) > 0
    case Cancel(i) => i < |s.clients| && (s.clients[i].Start? || s.clients[i].Waiting?)
    case AcceptStart(j) => j < |s.held| && s.held[j].phase == Free && !s.held[j].terminal && !s.held[j].accepted
    case AcceptSave(j, ok) => j < |s.held| && s.held[j].phase == Saving && (ok ==> s.held[j].lease.account.subject != "")
    case AcceptRelease(j) => j < |s.held| && s.held[j].phase == Releasing
    case FinishStart(j) => j < |s.held| && s.held[j].phase == Free && !s.held[j].terminal
    case FinishRelease(j) => j < |s.held| && s.held[j].phase == Finishing
    case StoreWrite(_) => true
  }

  /** Client `i` leaves the lock region with outcome `r`. */
  function Locked(s: State, i: nat, req: Request, sh: Shared, r: Region): State
    requires i < |s.clients|
  {
    match r
    case Failed(_) => s.(sh := sh, clients := s.clients[i := Returned])
    case Await(id) => s.(sh := sh, clients := s.clients[i := Waiting(req, id)])
    case Granted(lease) =>
      s.(sh := sh, clients := s.clients[i := Returned], held := s.held + [Held(lease, false, false, Free, 0)])
  }

  /** Accept on a finished or accepted lease and Finish on a finished lease change nothing; they are not steps. */
  ghost function Next(s: State, step: Step): State
    requires Enabled(s, step)
  {
    match step
    case Call(req) => s.(clients := s.clients + [Start(req, None)])
    case ReadBinding(i) =>
      var req := s.clients[i].req;
      var binding := if req.hardAccount == "" && req.affinityKey != "" then Stored(s.log, req.affinityKey) else None;
      s.(clients := s.clients[i := HasRead(req, s.clients[i].woke, binding, |s.log|)])
    case Lock(i, c, o) =>
      var (sh, r) := LockRegion(s.sh, c, o, s.clients[i].binding);
      Locked(s, i, c.req, sh, r)
    case Resume(i) => s.(clients := s.clients[i := Start(s.clients[i].req, Some(s.clients[i].claim))])
    case Cancel(i) => s.(clients := s.clients[i := Returned])
    case AcceptStart(j) =>
      var h := s.held[j];
      s.(held := s.held[j := if h.lease.affinityKey != "" then h.(phase := Saving)
                             else h.(accepted := true, phase := Releasing)])
    case AcceptSave(j, ok) =>
      var h := s.held[j];
      if ok then
        s.(log := s.log + [Entry(h.lease.affinityKey, Some(OwnerBinding(h.lease)))],
           held := s.held[j := h.(accepted := true, phase := Releasing, savedAt := |s.log|)])
      else s.(held := s.held[j := h.(phase := Releasing)])
    case AcceptRelease(j) =>
      var h := s.held[j];
      var sh := ReleaseClaim(s.sh, h.lease.affinityKey, h.lease.claim);
      s.(sh := sh, held := s.held[j := h.(phase := Free)],
         acceptedAt := if h.accepted && sh != s.sh then s.acceptedAt[h.lease.claim.value := h.savedAt] else s.acceptedAt)
    case FinishStart(j) => s.(held := s.held[j := s.held[j].(terminal := true, phase := Finishing)])
    case FinishRelease(j) =>
      var h := s.held[j];
      var sh := s.sh.(book := GiveBack(s.sh.book, h.lease.key));
      s.(sh := ReleaseClaim(sh, h.lease.affinityKey, h.lease.claim), held := s.held[j := h.(phase := Free)])
    case StoreWrite(e) => s.(log := s.log + [e])
  }

  ghost const INIT: State := State(Shared(Book(map[], 0), map[], map[], 0), [], [], [], map[])

  ghost predicate Run(from: State, steps: seq<Step>, to: State)
    decreases |steps|
  {
    if steps == [] then from == to
    else Enabled(from, steps[0]) && Run(Next(from, steps[0]), steps[1..], to)
  }

  ghost predicate Reachable(s: State) {
    exists steps :: Run(INIT, steps, s)
  }

  /* ---------- the invariant ---------- */

  /** A claim is either registered under exactly one key and open, or closed exactly once. */
  ghost predicate ClaimsOk(sh: Shared) {
    && (forall k <- sh.claims :: k != "" && sh.claims[k] < sh.nextClaim)
    && (forall k, m | k in sh.claims && m in sh.claims && k != m :: sh.claims[k] != sh.claims[m])
    && (forall k <- sh.claims :: ClosedCount(sh, sh.claims[k]) == 0)
    && (forall id: nat :: id < sh.nextClaim && id !in sh.claims.Values ==> ClosedCount(sh, id) == 1)
    && (forall id: nat :: id >= sh.nextClaim ==> ClosedCount(sh, id) == 0)
  }

  /** The lease still has a release to do, or has decided nothing yet. */
  predicate Pending(h: Held) {
    (!h.terminal && !h.accepted) || h.phase == Releasing || h.phase == Finishing
  }

  predicate Owns(h: Held, key: string, id: nat) {
    h.lease.claim == Some(id) && h.lease.affinityKey == key
  }

  ghost predicate LeasesOk(sh: Shared, held: seq<Held>) {
    && (forall j | 0 <= j < |held| && held[j].lease.claim.Some? ::
          held[j].lease.claim.value < sh.nextClaim && held[j].lease.affinityKey != "")
    && (forall i, j | 0 <= i < j < |held| && held[i].lease.claim.Some? :: held[i].lease.claim != held[j].lease.claim)
    && (forall j | 0 <= j < |held| :: PhaseOk(held[j]))
    && (forall k <- sh.claims :: HasPendingOwner(held, k, sh.claims[k]))
  }

  ghost predicate HasPendingOwner(held: seq<Held>, key: string, id: nat) {
    exists j | 0 <= j < |held| :: Owns(held[j], key, id) && Pending(held[j])
  }

  predicate PhaseOk(h: Held) {
    && (h.phase == Saving ==> !h.accepted && !h.terminal && h.lease.affinityKey != "")
    && (h.phase == Releasing ==> !h.terminal)
    && (h.phase == Finishing ==> h.terminal)
  }

  /** The lease is counted in the load of its key. */
  predicate Counted(h: Held) {
    !h.terminal || h.phase == Finishing
  }

  function Count(held: seq<Held>, key: LoadKey): nat {
    if held == [] then 0
    else (if held[|held| - 1].lease.key == key && Counted(held[|held| - 1]) then 1 else 0)
         + Count(held[..|held| - 1], key)
  }

  ghost predicate LoadsOk(sh: Shared, held: seq<Held>) {
    forall key: LoadKey :: LoadOf(sh.book.loads, key).inflight == Count(held, key)
  }

  /** Sequence stamps never exceed the counter, and no two keys carry the same stamp. */
  ghost predicate StampsOk(b: Book) {
    && (forall key <- b.loads :: 1 <= b.loads[key].lastAssigned <= b.routeSeq)
    && (forall k, m | k in b.loads && m in b.loads && k != m :: b.loads[k].lastAssigned != b.loads[m].lastAssigned)
  }

  ghost predicate SavedOk(h: Held, log: seq<Entry>) {
    h.accepted && h.lease.affinityKey != "" ==>
      h.savedAt < |log| && log[h.savedAt] == Entry(h.lease.affinityKey, Some(OwnerBinding(h.lease)))
  }

  ghost predicate LogOk(s: State) {
    && (forall j | 0 <= j < |s.held| :: SavedOk(s.held[j], s.log))
    && (forall j | 0 <= j < |s.held| && s.held[j].lease.claim.Some? && s.held[j].lease.claim.value in s.acceptedAt ::
          s.held[j].accepted && s.acceptedAt[s.held[j].lease.claim.value] == s.held[j].savedAt)
    && (forall id <- s.acceptedAt :: id < s.sh.nextClaim && id !in s.sh.claims.Values && s.acceptedAt[id] < |s.log|)
  }

  /** A claim a client waits for, or waited for, was created under the client's own affinity key. */
  ghost predicate ClaimOfKey(s: State, id: nat, key: string) {
    id < s.sh.nextClaim && exists j | 0 <= j < |s.held| :: Owns(s.held[j], key, id)
  }

  ghost predicate ClientOk(s: State, c: Client) {
    match c
    case Start(req, woke) => woke.Some? ==> ClaimOfKey(s, woke.value, req.affinityKey) && ClosedCount(s.sh, woke.value) > 0
    case HasRead(req, woke, binding, mark) =>
      && mark <= |s.log|
      && binding == (if req.hardAccount == "" && req.affinityKey != "" then Stored(s.log[..mark], req.affinityKey) else None)
      && (woke.Some? ==>
            && ClaimOfKey(s, woke.value, req.affinityKey) && ClosedCount(s.sh, woke.value) > 0
            && (woke.value in s.acceptedAt ==> s.acceptedAt[woke.value] < mark))
    case Waiting(req, id) => ClaimOfKey(s, id, req.affinityKey)
    case Returned => true
  }

  ghost predicate ClientsOk(s: State) {
    forall i | 0 <= i < |s.clients| :: ClientOk(s, s.clients[i])
  }

  ghost predicate Inv(s: State) {
    ClaimsOk(s.sh) && LeasesOk(s.sh, s.held) && LoadsOk(s.sh, s.held) && StampsOk(s.sh.book) && LogOk(s) && ClientsOk(s)
  }

  /* ---------- preservation ---------- */

  /** What a pass through the lock region can do to the shared state. */
  ghost predicate RegionEffect(sh: Shared, req: Request, sh': Shared, r: Region) {
    var key := req.affinityKey;
    match r
    case Failed(_) =>
      sh' == sh || (sh'.book == sh.book && sh'.claims == sh.claims && sh'.nextClaim == sh.nextClaim + 1
                    && sh'.closed == sh.closed[sh.nextClaim := ClosedCount(sh, sh.nextClaim) + 1])
    case Await(id) => sh' == sh && key != "" && key in sh.claims && sh.claims[key] == id
    case Granted(lease) =>
      && lease.affinityKey == key && sh'.book == Take(sh.book, lease.key) && sh'.closed == sh.closed
      && (if lease.claim == None then sh'.claims == sh.claims && sh'.nextClaim == sh.nextClaim
          else key != "" && key !in sh.claims && lease.claim == Some(sh.nextClaim)
               && sh'.claims == sh.claims[key := sh.nextClaim] && sh'.nextClaim == sh.nextClaim + 1)
  }

  lemma RegionShape(sh: Shared, req: Request, pinned: bool, foreign: bool, read: Option<Binding>,
                    bound: string, boundPick: Pick, unboundPick: Pick)
    ensures var (sh', r) := RegionWith(sh, req, pinned, foreign, read, bound, boundPick, unboundPick);
      RegionEffect(sh, req, sh', r)
  {
    var key := req.affinityKey;
    if key != "" && key !in sh.claims {
      assert sh.claims[key := sh.nextClaim] - {key} == sh.claims;
    }
  }

  /** The state only grows where a client could notice. */
  ghost predicate Extends(s: State, s': State) {
    && s.log <= s'.log && |s.held| <= |s'.held| && s.sh.nextClaim <= s'.sh.nextClaim
    && (forall j | 0 <= j < |s.held| :: s'.held[j].lease == s.held[j].lease)
    && (forall id: nat :: ClosedCount(s.sh, id) > 0 ==> ClosedCount(s'.sh, id) > 0)
    && (forall id <- s'.acceptedAt :: ClosedCount(s.sh, id) > 0 ==> id in s.acceptedAt && s'.acceptedAt[id] == s.acceptedAt[id])
  }

  lemma ClientFrame(s: State, s': State, c: Client)
    requires ClientOk(s, c) && Extends(s, s')
    ensures ClientOk(s', c)
  {
    if c.HasRead? { assert s'.log[..c.mark] == s.log[..c.mark]; }
    forall id, key | ClaimOfKey(s, id, key) ensures ClaimOfKey(s', id, key) {
      var j :| 0 <= j < |s.held| && Owns(s.held[j], key, id);
      assert Owns(s'.held[j], key, id);
    }
  }

  lemma ClientsFrame(s: State, s': State)
    requires ClientsOk(s) && Extends(s, s') && |s.clients| <= |s'.clients|
    requires forall i | 0 <= i < |s'.clients| :: (i < |s.clients| && s'.clients[i] == s.clients[i]) || ClientOk(s', s'.clients[i])
    ensures ClientsOk(s')
  {
    forall i | 0 <= i < |s'.clients| ensures ClientOk(s', s'.clients[i]) {
      if i < |s.clients| && s'.clients[i] == s.clients[i] { ClientFrame(s, s', s.clients[i]); }
    }
  }

  lemma ClientMoves(s: State, step: Step)
    requires Inv(s) && Enabled(s, step)
    requires step.Call? || step.ReadBinding? || step.Resume? || step.Cancel?
    ensures Inv(Next(s, step))
  {
    var s' := Next(s, step);
    if step.ReadBinding? {
      assert s.log[..|s.log|] == s.log;
    }
    ClientsFrame(s, s');
  }

  lemma StoreMoves(s: State, e: Entry)
    requires Inv(s)
    ensures Inv(Next(s, StoreWrite(e)))
  {
    var s' := Next(s, StoreWrite(e));
    forall j | 0 <= j < |s'.held| ensures SavedOk(s'.held[j], s'.log) { assert SavedOk(s.held[j], s.log); }
    ClientsFrame(s, s');
  }

  lemma {:induction false} CountUpdate(held: seq<Held>, j: nat, h: Held, key: LoadKey)
    requires j < |held|
    ensures Count(held[j := h], key) + (if held[j].lease.key == key && Counted(held[j]) then 1 else 0)
         == Count(held, key) + (if h.lease.key == key && Counted(h) then 1 else 0)
  {
    var n := |held| - 1;
    if j < n {
      CountUpdate(held[..n], j, h, key);
      assert held[j := h][..n] == held[..n][j := h];
    } else {
      assert held[j := h][..n] == held[..n];
    }
  }

  /** Accept and Finish before their release: one lease changes phase, the shared state does not. */
  lemma LeaseMoves(s: State, step: Step)
    requires Inv(s) && Enabled(s, step)
    requires step.AcceptStart? || step.AcceptSave? || step.FinishStart?
    ensures Inv(Next(s, step))
  {
    var s', j := Next(s, step), step.j;
    var h, h' := s.held[j], s'.held[j];
    assert h'.lease == h.lease && PhaseOk(h') && Counted(h') == Counted(h) && (Pending(h) ==> Pending(h')) by {
      assert PhaseOk(h);
    }
    LeaseUpdated(s.sh, s.held, j, h');
    forall key: LoadKey ensures LoadOf(s'.sh.book.loads, key).inflight == Count(s'.held, key) {
      CountUpdate(s.held, j, h', key);
    }
    forall i | 0 <= i < |s'.held| ensures SavedOk(s'.held[i], s'.log) { assert SavedOk(s.held[i], s.log); }
    ClientsFrame(s, s');
  }

  lemma LeaseUpdated(sh: Shared, held: seq<Held>, j: nat, h: Held)
    requires LeasesOk(sh, held) && j < |held|
    requires h.lease == held[j].lease && PhaseOk(h) && (Pending(held[j]) ==> Pending(h))
    ensures LeasesOk(sh, held[j := h])
  {
    forall k | k in sh.claims
      ensures HasPendingOwner(held[j := h], k, sh.claims[k])
    {
      var i :| 0 <= i < |held| && Owns(held[i], k, sh.claims[k]) && Pending(held[i]);
      assert Owns(held[j := h][i], k, sh.claims[k]) && Pending(held[j := h][i]);
    }
  }

  /** The claim of lease j can only be registered under the lease's own affinity key. */
  lemma OwnKey(sh: Shared, held: seq<Held>, j: nat, k: string)
    requires LeasesOk(sh, held) && j < |held| && k in sh.claims && held[j].lease.claim == Some(sh.claims[k])
    ensures k == held[j].lease.affinityKey && Pending(held[j])
  {
    assert HasPendingOwner(held, k, sh.claims[k]);
    var i :| 0 <= i < |held| && Owns(held[i], k, sh.claims[k]) && Pending(held[i]);
    assert i == j;
  }

  lemma ReleaseKeepsClaims(sh: Shared, key: string, claim: Option<nat>)
    requires ClaimsOk(sh)
    ensures ClaimsOk(ReleaseClaim(sh, key, claim))
  {
    var sh' := ReleaseClaim(sh, key, claim);
    if sh' != sh {
      forall id: nat | id in sh.claims.Values && id != claim.value ensures id in sh'.claims.Values {
        var k :| k in sh.claims && sh.claims[k] == id;
        assert k in sh'.claims && sh'.claims[k] == id;
      }
      forall id: nat | id < sh'.nextClaim && id !in sh'.claims.Values ensures ClosedCount(sh', id) == 1 {
        assert ClosedCount(sh, id) == if id == claim.value then 0 else 1;
      }
      assert forall id: nat :: id >= sh'.nextClaim ==> ClosedCount(sh', id) == ClosedCount(sh, id);
    }
  }

  /** Releasing lease j's claim: afterwards no registered claim is lease j's, and no other claim moved. */
  lemma ReleaseEffect(sh: Shared, held: seq<Held>, j: nat)
    requires ClaimsOk(sh) && LeasesOk(sh, held) && j < |held|
    ensures var l := held[j].lease; var sh' := ReleaseClaim(sh, l.affinityKey, l.claim);
      && sh'.book == sh.book && sh'.nextClaim == sh.nextClaim
      && (forall k <- sh'.claims :: k in sh.claims && sh'.claims[k] == sh.claims[k] && l.claim != Some(sh.claims[k]))
      && (forall id: nat :: ClosedCount(sh, id) > 0 ==> ClosedCount(sh', id) > 0)
      && (sh' != sh ==> l.claim.Some? && ClosedCount(sh, l.claim.value) == 0 && l.claim.value !in sh'.claims.Values)
  {
    var l := held[j].lease;
    forall k | k in sh.claims && l.claim == Some(sh.claims[k]) ensures k == l.affinityKey && k != "" {
      OwnKey(sh, held, j, k);
    }
  }

  lemma ReleasedLeases(sh: Shared, held: seq<Held>, j: nat, sh': Shared, h: Held)
    requires LeasesOk(sh, held) && j < |held| && h.lease == held[j].lease && PhaseOk(h)
    requires sh'.nextClaim == sh.nextClaim
    requires forall k <- sh'.claims :: k in sh.claims && sh'.claims[k] == sh.claims[k] && h.lease.claim != Some(sh.claims[k])
    ensures LeasesOk(sh', held[j := h])
  {
    forall k | k in sh'.claims
      ensures HasPendingOwner(held[j := h], k, sh'.claims[k])
    {
      assert HasPendingOwner(held, k, sh.claims[k]);
      var i :| 0 <= i < |held| && Owns(held[i], k, sh.claims[k]) && Pending(held[i]);
      assert i != j && Owns(held[j := h][i], k, sh'.claims[k]) && Pending(held[j := h][i]);
    }
  }

  lemma AcceptReleaseMoves(s: State, j: nat)
    requires Inv(s) && Enabled(s, AcceptRelease(j))
    ensures Inv(Next(s, AcceptRelease(j)))
  {
    var s' := Next(s, AcceptRelease(j));
    var h := s.held[j].(phase := Free);
    ReleaseEffect(s.sh, s.held, j);
    ReleaseKeepsClaims(s.sh, h.lease.affinityKey, h.lease.claim);
    ReleasedLeases(s.sh, s.held, j, s'.sh, h);
    forall key: LoadKey ensures LoadOf(s'.sh.book.loads, key).inflight == Count(s'.held, key) {
      assert PhaseOk(s.held[j]);
      CountUpdate(s.held, j, h, key);
    }
    AcceptReleaseLog(s, j);
    ClientsFrame(s, s');
  }

  lemma AcceptReleaseLog(s: State, j: nat)
    requires Inv(s) && Enabled(s, AcceptRelease(j))
    ensures LogOk(Next(s, AcceptRelease(j)))
  {
    var s' := Next(s, AcceptRelease(j));
    ReleaseEffect(s.sh, s.held, j);
    assert SavedOk(s.held[j], s.log);
    forall i | 0 <= i < |s'.held| ensures SavedOk(s'.held[i], s'.log) { assert SavedOk(s.held[i], s.log); }
    ValuesShrink(s.sh, s'.sh);
  }

  lemma {:induction false} CountPositive(held: seq<Held>, j: nat)
    requires j < |held| && Counted(held[j])
    ensures Count(held, held[j].lease.key) > 0
  {
    if j < |held| - 1 { CountPositive(held[..|held| - 1], j); }
  }

  lemma FinishReleaseMoves(s: State, j: nat)
    requires Inv(s) && Enabled(s, FinishRelease(j))
    ensures Inv(Next(s, FinishRelease(j)))
  {
    var s' := Next(s, FinishRelease(j));
    FinishClaims(s, j);
    FinishLoads(s, j);
    FinishLog(s, j);
    ClientsFrame(s, s');
  }

  lemma FinishClaims(s: State, j: nat)
    requires ClaimsOk(s.sh) && LeasesOk(s.sh, s.held) && Enabled(s, FinishRelease(j))
    ensures var s' := Next(s, FinishRelease(j));
      && ClaimsOk(s'.sh) && LeasesOk(s'.sh, s'.held) && s'.sh.nextClaim == s.sh.nextClaim
      && (forall k <- s'.sh.claims :: k in s.sh.claims && s'.sh.claims[k] == s.sh.claims[k])
      && (forall id: nat :: ClosedCount(s.sh, id) > 0 ==> ClosedCount(s'.sh, id) > 0)
      && s'.sh.book == GiveBack(s.sh.book, s.held[j].lease.key)
  {
    var h := s.held[j].(phase := Free);
    var mid := s.sh.(book := GiveBack(s.sh.book, h.lease.key));
    assert forall id: nat :: ClosedCount(mid, id) == ClosedCount(s.sh, id);
    ReleaseEffect(mid, s.held, j);
    ReleaseKeepsClaims(mid, h.lease.affinityKey, h.lease.claim);
    assert PhaseOk(s.held[j]);
    ReleasedLeases(mid, s.held, j, ReleaseClaim(mid, h.lease.affinityKey, h.lease.claim), h);
  }

  lemma FinishLog(s: State, j: nat)
    requires Inv(s) && Enabled(s, FinishRelease(j))
    ensures LogOk(Next(s, FinishRelease(j)))
  {
    var s' := Next(s, FinishRelease(j));
    FinishClaims(s, j);
    forall i | 0 <= i < |s'.held| ensures SavedOk(s'.held[i], s'.log) { assert SavedOk(s.held[i], s.log); }
    ValuesShrink(s.sh, s'.sh);
  }

  lemma ValuesShrink(sh: Shared, sh': Shared)
    requires forall k <- sh'.claims :: k in sh.claims && sh'.claims[k] == sh.claims[k]
    ensures forall id: nat :: id in sh'.claims.Values ==> id in sh.claims.Values
  {
    forall id: nat | id in sh'.claims.Values ensures id in sh.claims.Values {
      var k :| k in sh'.claims && sh'.claims[k] == id;
      assert k in sh.claims;
    }
  }

  lemma FinishLoads(s: State, j: nat)
    requires LoadsOk(s.sh, s.held) && j < |s.held| && s.held[j].phase == Finishing && PhaseOk(s.held[j])
    ensures LoadsOk(s.sh.(book := GiveBack(s.sh.book, s.held[j].lease.key)), s.held[j := s.held[j].(phase := Free)])
  {
    var h := s.held[j].(phase := Free);
    CountPositive(s.held, j);
    forall key: LoadKey
      ensures LoadOf(GiveBack(s.sh.book, h.lease.key).loads, key).inflight == Count(s.held[j := h], key)
    {
      CountUpdate(s.held, j, h, key);
    }
  }

  lemma LockMoves(s: State, i: nat, c: Context, o: Orders)
    requires Inv(s) && Enabled(s, Lock(i, c, o))
    ensures Inv(Next(s, Lock(i, c, o)))
  {
    var read := s.clients[i].binding;
    var bound := BoundAccount(c, o, read);
    var (sh, r) := LockRegion(s.sh, c, o, read);
    RegionShape(s.sh, c.req, Pinned(c), Foreign(c, read), read, bound,
                PickAccount(c, o.bound, s.sh.book.loads, bound), PickUnbound(c, o.unbound, s.sh.book.loads));
    LockedKeepsInv(s, i, c.req, sh, r);
  }

  lemma LockedKeepsInv(s: State, i: nat, req: Request, sh: Shared, r: Region)
    requires Inv(s) && i < |s.clients| && RegionEffect(s.sh, req, sh, r)
    ensures Inv(Locked(s, i, req, sh, r))
  {
    match r {
      case Failed(_) => FailMoves(s, i, sh, req, r);
      case Await(id) => AwaitMoves(s, i, id, req);
      case Granted(lease) => GrantMoves(s, i, sh, lease, req);
    }
  }

  lemma AwaitMoves(s: State, i: nat, id: nat, req: Request)
    requires Inv(s) && i < |s.clients| && RegionEffect(s.sh, req, s.sh, Await(id))
    ensures Inv(s.(clients := s.clients[i := Waiting(req, id)]))
  {
    var s' := s.(clients := s.clients[i := Waiting(req, id)]);
    assert HasPendingOwner(s.held, req.affinityKey, id);
    var j :| 0 <= j < |s.held| && Owns(s.held[j], req.affinityKey, id) && Pending(s.held[j]);
    assert ClaimOfKey(s', id, req.affinityKey);
    ClientsFrame(s, s');
  }

  lemma FailMoves(s: State, i: nat, sh: Shared, req: Request, r: Region)
    requires Inv(s) && i < |s.clients| && r.Failed? && RegionEffect(s.sh, req, sh, r)
    ensures Inv(s.(sh := sh, clients := s.clients[i := Returned]))
  {
    var s' := s.(sh := sh, clients := s.clients[i := Returned]);
    FailClaims(s.sh, req, sh, r);
    assert LeasesOk(sh, s.held);
    ClientsFrame(s, s');
  }

  lemma FailClaims(sh: Shared, req: Request, sh': Shared, r: Region)
    requires ClaimsOk(sh) && r.Failed? && RegionEffect(sh, req, sh', r)
    ensures ClaimsOk(sh') && sh'.book == sh.book && sh'.claims == sh.claims && sh'.nextClaim >= sh.nextClaim
    ensures forall id: nat :: ClosedCount(sh, id) > 0 ==> ClosedCount(sh', id) > 0
  {
    assert ClosedCount(sh, sh.nextClaim) == 0;
    assert forall id: nat :: id != sh.nextClaim ==> ClosedCount(sh', id) == ClosedCount(sh, id);
  }

  lemma GrantMoves(s: State, i: nat, sh: Shared, lease: Lease, req: Request)
    requires Inv(s) && i < |s.clients| && RegionEffect(s.sh, req, sh, Granted(lease))
    ensures Inv(s.(sh := sh, clients := s.clients[i := Returned], held := s.held + [Held(lease, false, false, Free, 0)]))
  {
    var h := Held(lease, false, false, Free, 0);
    var s' := s.(sh := sh, clients := s.clients[i := Returned], held := s.held + [h]);
    GrantClaims(s.sh, sh, lease, req);
    GrantLeases(s.sh, s.held, sh, lease, req);
    GrantLoads(s.sh, s.held, sh, lease, req);
    GrantLog(s, s', h);
    ClientsFrame(s, s');
  }

  lemma GrantClaims(sh: Shared, sh': Shared, lease: Lease, req: Request)
    requires ClaimsOk(sh) && RegionEffect(sh, req, sh', Granted(lease))
    ensures ClaimsOk(sh')
    ensures forall id: nat :: id in sh'.claims.Values <==> id in sh.claims.Values || lease.claim == Some(id)
  {
    forall id: nat | id in sh.claims.Values ensures id in sh'.claims.Values {
      var k :| k in sh.claims && sh.claims[k] == id;
      assert k in sh'.claims && sh'.claims[k] == id;
    }
    if lease.claim.Some? { assert req.affinityKey in sh'.claims; }
    assert forall id: nat :: ClosedCount(sh', id) == ClosedCount(sh, id);
  }

  lemma GrantLeases(sh: Shared, held: seq<Held>, sh': Shared, lease: Lease, req: Request)
    requires LeasesOk(sh, held) && RegionEffect(sh, req, sh', Granted(lease))
    ensures LeasesOk(sh', held + [Held(lease, false, false, Free, 0)])
  {
    var h := Held(lease, false, false, Free, 0);
    forall k | k in sh'.claims ensures HasPendingOwner(held + [h], k, sh'.claims[k]) {
      if k in sh.claims {
        assert HasPendingOwner(held, k, sh.claims[k]);
        var j :| 0 <= j < |held| && Owns(held[j], k, sh.claims[k]) && Pending(held[j]);
        assert Owns((held + [h])[j], k, sh'.claims[k]) && Pending((held + [h])[j]);
      } else {
        assert Owns((held + [h])[|held|], k, sh'.claims[k]);
      }
    }
  }

  lemma GrantLoads(sh: Shared, held: seq<Held>, sh': Shared, lease: Lease, req: Request)
    requires LoadsOk(sh, held) && StampsOk(sh.book) && sh'.book == Take(sh.book, lease.key)
    ensures LoadsOk(sh', held + [Held(lease, false, false, Free, 0)]) && StampsOk(sh'.book)
  {
    var h := Held(lease, false, false, Free, 0);
    forall key: LoadKey ensures LoadOf(sh'.book.loads, key).inflight == Count(held + [h], key) {
      assert (held + [h])[..|held|] == held;
    }
  }

  lemma GrantLog(s: State, s': State, h: Held)
    requires LogOk(s) && LeasesOk(s.sh, s.held) && s'.log == s.log && s'.acceptedAt == s.acceptedAt
    requires s'.held == s.held + [h] && !h.accepted && s'.sh.nextClaim >= s.sh.nextClaim
    requires h.lease.claim.Some? ==> h.lease.claim.value == s.sh.nextClaim
    requires forall id: nat :: id in s'.sh.claims.Values <==> id in s.sh.claims.Values || h.lease.claim == Some(id)
    ensures LogOk(s')
  {
    forall j | 0 <= j < |s'.held| ensures SavedOk(s'.held[j], s'.log) {
      if j < |s.held| { assert SavedOk(s.held[j], s.log); }
    }
  }

  /** Every step of every client and every lease keeps the invariant. */
  lemma StepKeepsInv(s: State, step: Step)
    requires Inv(s) && Enabled(s, step)
    ensures Inv(Next(s, step))
  {
    match step {
      case Lock(i, c, o) => LockMoves(s, i, c, o);
      case AcceptRelease(j) => AcceptReleaseMoves(s, j);
      case FinishRelease(j) => FinishReleaseMoves(s, j);
      case StoreWrite(e) => StoreMoves(s, e);
      case AcceptStart(_) => LeaseMoves(s, step);
      case AcceptSave(_, _) => LeaseMoves(s, step);
      case FinishStart(_) => LeaseMoves(s, step);
      case _ => ClientMoves(s, step);
    }
  }

  lemma {:induction false} RunKeepsInv(from: State, steps: seq<Step>, to: State)
    requires Inv(from) && Run(from, steps, to)
    ensures Inv(to)
    decreases |steps|
  {
    if steps != [] {
      StepKeepsInv(from, steps[0]);
      RunKeepsInv(Next(from, steps[0]), steps[1..], to);
    }
  }
}

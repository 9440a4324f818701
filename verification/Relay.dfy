/** The retry loop that drives the scheduler for one client request. Tokens, the driver, the upstream and
    the pool's state at each attempt are arbitrary; what the loop does is recorded in a log of events. */
module Relay {
  import opened Domain
  import opened Selection
  import opened PoolState
  import opened RouteProtocol

  datatype Upstream = Upstream(status: int, headers: string, body: string)

  /** What a driver makes of an upstream response; `wholeBucket` is the effect's scope. */
  datatype Judgement = Judgement(effect: Effect, wholeBucket: bool, status: int)

  datatype RelayDriver = RelayDriver(
    core: Driver,
    shouldRetry: int -> bool,
    nonRetriable: (int, string) -> bool,
    retrySame: (int, string, nat) -> bool,
    interpret: (Upstream, string, string) -> Judgement)

  datatype Job = Job(model: string, surface: string, affinityKey: string, mustContinue: bool, isStream: bool,
                     boundAccount: string, maxRetry: int)

  /** How AcquireRoute ends; `seen` is the pool as it was when the route was granted. */
  datatype Acquisition = OwnerLost | NoRoute | Routed(shown: Projection, seen: Snapshot)

  datatype Build = Built | Invalid(status: int) | Unbuildable

  datatype Reply = TransportError | Reply(up: Upstream)

  /** Drivers without a preflight always pass. */
  datatype Preflight = Passed | Broken | Rejected(verdict: Judgement, body: Option<string>)

  /** Everything the outside world answers during one attempt. */
  datatype Attempt = Attempt(
    cancelled: bool, acquire: Request -> Acquisition, token: bool, build: Build, reply: Reply,
    preflight: Preflight, readable: bool, bindingSaved: bool)

  datatype Response = ErrorPage(status: int) | UpstreamError(status: int, body: string) | Answer(body: string) | Stream

  datatype Event =
    | Acquired(attempt: nat, shown: Projection)
    | Released(attempt: nat)
    | Observed(id: string, effect: Effect)
    | Banned(exclusion: Exclusion)
    | Accepted(saved: bool)
    | Again(id: string, status: int, body: string, prior: nat)
    | Failure(status: int, kept: Option<string>)
    | Responded(response: Response)

  /** `last` is the upstream error kept for the final answer, `leased` says that the lease is not yet terminal. */
  datatype Progress = Progress(
    exclusions: seq<Exclusion>, retries: map<string, nat>, retryAccount: string,
    last: Option<Response>, leased: bool, log: seq<Event>)

  datatype Outcome = Continue | Stop | Done

  datatype Ending = Cancelled | Finished

  const NEW: Progress := Progress([], map[], "", None, false, [])

  const OK := 200
  const BAD_REQUEST := 400
  const TOO_MANY := 429
  const UNAVAILABLE := 503

  function Log(s: Progress, e: Event): Progress {
    s.(log := s.log + [e])
  }

  function Retries(s: Progress, id: string): nat {
    if id in s.retries then s.retries[id] else 0
  }

  function RequestFor(job: Job, s: Progress): Request {
    Request(s.exclusions, job.model, job.surface, if s.retryAccount != "" then s.retryAccount else job.boundAccount,
            job.affinityKey, job.mustContinue)
  }

  function Ban(s: Progress, e: Exclusion): Progress {
    Log(s.(exclusions := s.exclusions + [e]), Banned(e))
  }

  function BanAccount(s: Progress, a: Account): Progress {
    Ban(s, Exclusion(a.id, ""))
  }

  /** The exclusion an effect asks for. */
  function ExclusionFor(a: Account, wholeBucket: bool): Exclusion {
    if wholeBucket && a.bucketKey != "" then Exclusion("", a.bucketKey) else Exclusion(a.id, "")
  }

  /** The pool is told of the effect, and its account or bucket is out. */
  function ObserveAndBan(s: Progress, a: Account, e: Effect, wholeBucket: bool): Progress {
    Ban(Log(s, Observed(a.id, e)), ExclusionFor(a, wholeBucket))
  }

  /** The next attempt is to go to the same account. */
  function RetryAccount(s: Progress, id: string, up: Upstream): Progress {
    Log(s.(retries := s.retries[id := Retries(s, id) + 1], retryAccount := id), Again(id, up.status, up.body, Retries(s, id)))
  }

  function Keep(s: Progress, status: int, body: Option<string>): Progress {
    Log(s.(last := if body.Some? then Some(UpstreamError(status, body.value)) else None), Failure(status, body))
  }

  function Execute(job: Job, drv: RelayDriver, s: Progress, n: nat, a: Attempt): (Progress, Outcome) {
    match a.acquire(RequestFor(job, s))
    case OwnerLost => (Log(s, Responded(ErrorPage(BAD_REQUEST))), Done)
    case NoRoute => (s, Stop)
    case Routed(shown, _) =>
      var (t, out) := Serve(job, drv, Log(s.(retryAccount := "", leased := true), Acquired(n, shown)), n, a, shown);
      (Release(t, n), out)
  }

  /** Finish or Abort of the attempt's lease: only the first has an effect. */
  function Release(s: Progress, n: nat): Progress {
    if s.leased then Log(s.(leased := false), Released(n)) else s
  }

  function Serve(job: Job, drv: RelayDriver, s: Progress, n: nat, a: Attempt, shown: Projection): (Progress, Outcome) {
    if !a.token then (BanAccount(s, shown.account), Continue)
    else
      match a.build
      case Invalid(status) => (Log(s, Responded(ErrorPage(status))), Done)
      case Unbuildable => (s, Stop)
      case Built =>
        match a.reply
        case TransportError => (BanAccount(s, shown.account), Continue)
        case Reply(up) => Handle(job, drv, s, n, a, shown, up)
  }

  /** The lease is accepted, the client answered, and the lease finished, unless the binding cannot be saved. */
  function AcceptAndAnswer(s: Progress, n: nat, a: Attempt, r: Response): (Progress, Outcome) {
    var t := Log(s, Accepted(a.bindingSaved));
    if !a.bindingSaved then (t, Stop) else (Release(Log(t, Responded(r)), n), Done)
  }

  function Handle(job: Job, drv: RelayDriver, s: Progress, n: nat, a: Attempt, shown: Projection,
                  up: Upstream): (Progress, Outcome)
  {
    var id := shown.account.id;
    var j := drv.interpret(up, job.model, shown.state);
    if drv.shouldRetry(up.status) && n < job.maxRetry then
      Retry(drv, Keep(s, up.status, Some(up.body)), shown, up, j)
    else if up.status != OK then
      (Log(Log(s, Observed(id, j.effect)), Responded(UpstreamError(up.status, up.body))), Done)
    else if job.isStream then Streaming(job, drv, s, n, a, shown, up)
    else if !a.readable then (s, Stop)
    else AcceptAndAnswer(Log(s, Observed(id, j.effect)), n, a, Answer(up.body))
  }

  function Retry(drv: RelayDriver, s: Progress, shown: Projection, up: Upstream, j: Judgement): (Progress, Outcome) {
    var id := shown.account.id;
    if drv.nonRetriable(up.status, up.body) then (Log(s, Responded(UpstreamError(up.status, up.body))), Done)
    else if drv.retrySame(up.status, up.body, Retries(s, id)) then
      (RetryAccount(s, id, up), Continue)
    else (ObserveAndBan(s, shown.account, j.effect, j.wholeBucket), Continue)
  }

  function Streaming(job: Job, drv: RelayDriver, s: Progress, n: nat, a: Attempt, shown: Projection,
                     up: Upstream): (Progress, Outcome)
  {
    var id := shown.account.id;
    match a.preflight
    case Broken => (BanAccount(s, shown.account), Continue)
    case Rejected(v, body) =>
      var t := Keep(s, if v.status == 0 then TOO_MANY else v.status, body);
      (ObserveAndBan(t, shown.account, v.effect, v.wholeBucket), Continue)
    case Passed =>
      var j := drv.interpret(up.(body := ""), job.model, shown.state);
      AcceptAndAnswer(Log(s, Observed(id, j.effect)), n, a, Stream)
  }

  function FinishFailure(s: Progress): Progress {
    Log(s, Responded(if s.last.Some? then s.last.value else ErrorPage(UNAVAILABLE)))
  }

  /** The loop from attempt `n` on. */
  function Loop(job: Job, drv: RelayDriver, env: nat -> Attempt, s: Progress, n: nat): (Progress, Ending)
    decreases job.maxRetry - n
  {
    if n > job.maxRetry then (FinishFailure(s), Finished)
    else if env(n).cancelled then (s, Cancelled)
    else
      var (t, out) := Execute(job, drv, s, n, env(n));
      match out
      case Done => (t, Finished)
      case Stop => (FinishFailure(t), Finished)
      case Continue => Loop(job, drv, env, t, n + 1)
  }

  function Run(job: Job, drv: RelayDriver, env: nat -> Attempt): (Progress, Ending) {
    Loop(job, drv, env, NEW, 0)
  }

  /* ---------- what the pool promises ---------- */

  /** The lock region granted this route for this request, in some state of the pool. */
  ghost predicate Grants(sh: Shared, c: Context, o: Orders, read: Option<Binding>, drv: RelayDriver, req: Request,
                         got: Acquisition)
  {
    && Proper(c, o) && c.req == req && c.drv == drv.core
    && var r := LockRegion(sh, c, o, read).1;
       r.Granted? && got == Routed(Project(r.lease.account, c.world.buckets), c.world)
  }

  /** Every acquired route is one that AcquireRoute can grant for the request made. */
  ghost predicate Honest(drv: RelayDriver, env: nat -> Attempt) {
    forall n: nat, req :: env(n).acquire(req).Routed? ==> HonestRoute(drv, req, env(n).acquire(req))
  }

  ghost predicate HonestRoute(drv: RelayDriver, req: Request, got: Acquisition)
    requires got.Routed?
  {
    exists sh, c, o, read :: Grants(sh, c, o, read, drv, req, got)
  }

  predicate Names(e: Exclusion, a: Account) {
    (e.accountId != "" && e.accountId == a.id) || (e.bucketKey != "" && e.bucketKey == BucketKey(a))
  }

  /** A granted account is named by none of the exclusions asked for, and has an id and a bucket key. */
  lemma RoutedIsAllowed(drv: RelayDriver, req: Request, got: Acquisition)
    requires got.Routed? && HonestRoute(drv, req, got)
    ensures got.shown.account.id != "" && got.shown.account.bucketKey == BucketKey(got.shown.account)
    ensures forall e <- req.exclusions :: !Names(e, got.shown.account)
  {
    var sh, c, o, read :| Grants(sh, c, o, read, drv, req, got);
    GrantedIsUsable(sh, c, o, read);
    var a := LockRegion(sh, c, o, read).1.lease.account;
    assert BucketKey(got.shown.account) == BucketKey(a);
    assert !ExcludedAccount(c.req, a.id) && !ExcludedBucket(c.req, BucketKey(a));
  }

  /** A same-account retry is routed to the same account, unless that account changed its provider meanwhile. */
  lemma RetryStays(job: Job, drv: RelayDriver, s: Progress, got: Acquisition)
    requires s.retryAccount != "" && got.Routed? && HonestRoute(drv, RequestFor(job, s), got)
    ensures got.shown.account.id == s.retryAccount
      || (s.retryAccount in got.seen.accounts && got.seen.accounts[s.retryAccount].provider != drv.core.provider)
  {
    var sh, c, o, read :| Grants(sh, c, o, read, drv, RequestFor(job, s), got);
    GrantedIsUsable(sh, c, o, read);
    HardAccountExists(sh, c, o, read);
  }

  lemma HardAccountExists(sh: Shared, c: Context, o: Orders, read: Option<Binding>)
    requires Proper(c, o) && c.req.hardAccount != "" && LockRegion(sh, c, o, read).1.Granted?
    ensures c.req.hardAccount in c.world.accounts
  {
    assert PickAccount(c, o.bound, sh.book.loads, BoundAccount(c, o, read)).Pick?;
  }
}

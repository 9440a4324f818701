/** What holds of every run of the retry loop, whatever the upstream, the driver and the pool answer. */
module RelaySafety {
  import opened Domain
  import opened Selection
  import opened RouteProtocol
  import opened Relay

  /* ---------- reading the log ---------- */

  function Responses(log: seq<Event>): nat {
    if log == [] then 0 else Responses(log[..|log| - 1]) + if log[|log| - 1].Responded? then 1 else 0
  }

  function Acquisitions(log: seq<Event>): nat {
    if log == [] then 0 else Acquisitions(log[..|log| - 1]) + if log[|log| - 1].Acquired? then 1 else 0
  }

  function Retried(log: seq<Event>): nat {
    if log == [] then 0 else Retried(log[..|log| - 1]) + if log[|log| - 1].Again? then 1 else 0
  }

  function RetriedOn(log: seq<Event>, id: string): nat {
    if log == [] then 0
    else RetriedOn(log[..|log| - 1], id) + if log[|log| - 1].Again? && log[|log| - 1].id == id then 1 else 0
  }

  function Bans(log: seq<Event>): seq<Exclusion> {
    if log == [] then []
    else Bans(log[..|log| - 1]) + if log[|log| - 1].Banned? then [log[|log| - 1].exclusion] else []
  }

  /** The account of the latest route. */
  function Current(log: seq<Event>): Option<Account> {
    if log == [] then None
    else if log[|log| - 1].Acquired? then Some(log[|log| - 1].shown.account)
    else Current(log[..|log| - 1])
  }

  /** The upstream error kept by the latest failure that kept one. */
  function LastFailure(log: seq<Event>): Option<Response> {
    if log == [] then None
    else
      var e := log[|log| - 1];
      if e.Failure? then (if e.kept.Some? then Some(UpstreamError(e.status, e.kept.value)) else None)
      else LastFailure(log[..|log| - 1])
  }

  /** Which lease is out. A second lease on top of the first, or a return of a lease that is not out, is Broken. */
  datatype Leasing = Idle | Out(attempt: nat) | Confused

  function Leases(log: seq<Event>): Leasing {
    if log == [] then Idle
    else
      var before, e := Leases(log[..|log| - 1]), log[|log| - 1];
      if e.Acquired? then (if before == Idle then Out(e.attempt) else Confused)
      else if e.Released? then (if before == Out(e.attempt) then Idle else Confused)
      else before
  }

  /** When an event may follow the events of `log`. */
  predicate Allowed(drv: RelayDriver, log: seq<Event>, e: Event) {
    match e
    case Acquired(_, shown) => forall x <- Bans(log) :: !Names(x, shown.account)
    case Banned(x) =>
      && Current(log).Some? && Names(x, Current(log).value) && Leases(log).Out?
      && forall y <- Bans(log) :: !Names(y, Current(log).value)
    case Accepted(_) => Leases(log).Out?
    case Observed(id, _) => Current(log).Some? && id == Current(log).value.id && Leases(log).Out?
    case Again(id, status, body, prior) =>
      && Current(log).Some? && id == Current(log).value.id && prior == RetriedOn(log, id) && drv.retrySame(status, body, prior)
    case Responded(r) =>
      && Responses(log) == 0
      && (r.Answer? || r.Stream? ==> Leases(log).Out?)
      && (Leases(log) == Idle ==>
            r == ErrorPage(BAD_REQUEST) || (if LastFailure(log).Some? then LastFailure(log) == Some(r) else r == ErrorPage(UNAVAILABLE)))
    case _ => true
  }

  ghost predicate Sound(drv: RelayDriver, log: seq<Event>) {
    forall k | 0 <= k < |log| :: Allowed(drv, log[..k], log[k])
  }

  lemma Appended(log: seq<Event>, e: Event)
    ensures var l := log + [e];
      && Responses(l) == Responses(log) + (if e.Responded? then 1 else 0)
      && Acquisitions(l) == Acquisitions(log) + (if e.Acquired? then 1 else 0)
      && Retried(l) == Retried(log) + (if e.Again? then 1 else 0)
      && (forall id :: RetriedOn(l, id) == RetriedOn(log, id) + if e.Again? && e.id == id then 1 else 0)
      && Bans(l) == Bans(log) + (if e.Banned? then [e.exclusion] else [])
      && (!e.Acquired? ==> Current(l) == Current(log)) && (e.Acquired? ==> Current(l) == Some(e.shown.account))
      && (!e.Failure? ==> LastFailure(l) == LastFailure(log))
      && (e.Failure? ==> LastFailure(l) == if e.kept.Some? then Some(UpstreamError(e.status, e.kept.value)) else None)
      && (!e.Acquired? && !e.Released? ==> Leases(l) == Leases(log))
      && (e.Acquired? && Leases(log) == Idle ==> Leases(l) == Out(e.attempt))
      && (e.Released? && Leases(log) == Out(e.attempt) ==> Leases(l) == Idle)
  {
    assert (log + [e])[..|log|] == log;
  }

  lemma SoundAppended(drv: RelayDriver, log: seq<Event>, e: Event)
    requires Sound(drv, log) && Allowed(drv, log, e)
    ensures Sound(drv, log + [e])
  {
    var l := log + [e];
    forall k | 0 <= k < |l| ensures Allowed(drv, l[..k], l[k]) {
      assert l[..k] == log[..k];
      if k == |log| { assert log[..k] == log; }
    }
  }

  /* ---------- the loop's invariant ---------- */

  /** The loop's own variables say what the log says. */
  ghost predicate Kept(drv: RelayDriver, s: Progress) {
    && Sound(drv, s.log) && Bans(s.log) == s.exclusions && LastFailure(s.log) == s.last
    && (s.last.Some? ==> s.last.value.UpstreamError?)
    && forall id :: Retries(s, id) == RetriedOn(s.log, id)
  }

  /** Before attempt `n`: every earlier attempt leased a route, gave it back, and then either banned
      somebody or retried the same account. */
  ghost predicate Ready(drv: RelayDriver, s: Progress, n: nat) {
    && Kept(drv, s) && !s.leased && Leases(s.log) == Idle && Responses(s.log) == 0
    && Acquisitions(s.log) == n && |s.exclusions| + Retried(s.log) == n
  }

  /** During attempt `n`, after its route was leased and before it is decided. */
  ghost predicate Serving(drv: RelayDriver, s: Progress, n: nat, a: Account) {
    && Kept(drv, s) && s.leased && Leases(s.log) == Out(n) && Responses(s.log) == 0
    && Acquisitions(s.log) == n + 1 && |s.exclusions| + Retried(s.log) == n
    && Current(s.log) == Some(a) && a.id != "" && a.bucketKey == BucketKey(a) && a.bucketKey != ""
    && forall x <- s.exclusions :: !Names(x, a)
  }

  /** Attempt `n` is decided; its lease may still be out. */
  ghost predicate Decided(drv: RelayDriver, s: Progress, n: nat, out: Outcome) {
    && Kept(drv, s) && Leases(s.log) == (if s.leased then Out(n) else Idle)
    && Responses(s.log) == (if out.Done? then 1 else 0) && Acquisitions(s.log) == n + 1
    && |s.exclusions| + Retried(s.log) == (if out.Continue? then n + 1 else n)
  }

  lemma ObservedKeeps(drv: RelayDriver, s: Progress, n: nat, a: Account, e: PoolState.Effect)
    requires Serving(drv, s, n, a)
    ensures Serving(drv, Log(s, Observed(a.id, e)), n, a)
  {
    Appended(s.log, Observed(a.id, e));
    SoundAppended(drv, s.log, Observed(a.id, e));
  }

  lemma KeepKeeps(drv: RelayDriver, s: Progress, n: nat, a: Account, status: int, body: Option<string>)
    requires Serving(drv, s, n, a)
    ensures Serving(drv, Keep(s, status, body), n, a)
  {
    Appended(s.log, Failure(status, body));
    SoundAppended(drv, s.log, Failure(status, body));
  }

  lemma BanDecides(drv: RelayDriver, s: Progress, n: nat, a: Account, x: Exclusion)
    requires Serving(drv, s, n, a) && Names(x, a)
    ensures Decided(drv, Ban(s, x), n, Continue)
  {
    Appended(s.log, Banned(x));
    SoundAppended(drv, s.log, Banned(x));
  }

  lemma EffectDecides(drv: RelayDriver, s: Progress, n: nat, a: Account, e: PoolState.Effect, wholeBucket: bool)
    requires Serving(drv, s, n, a)
    ensures Decided(drv, ObserveAndBan(s, a, e, wholeBucket), n, Continue)
  {
    ObservedKeeps(drv, s, n, a, e);
    BanDecides(drv, Log(s, Observed(a.id, e)), n, a, ExclusionFor(a, wholeBucket));
  }

  lemma AgainDecides(drv: RelayDriver, s: Progress, n: nat, a: Account, up: Upstream)
    requires Serving(drv, s, n, a) && drv.retrySame(up.status, up.body, Retries(s, a.id))
    ensures Decided(drv, RetryAccount(s, a.id, up), n, Continue)
  {
    var e := Again(a.id, up.status, up.body, Retries(s, a.id));
    Appended(s.log, e);
    SoundAppended(drv, s.log, e);
  }

  lemma RespondDecides(drv: RelayDriver, s: Progress, n: nat, a: Account, r: Response)
    requires Serving(drv, s, n, a)
    ensures Decided(drv, Log(s, Responded(r)), n, Done)
  {
    Appended(s.log, Responded(r));
    SoundAppended(drv, s.log, Responded(r));
  }

  lemma ReleaseKeeps(drv: RelayDriver, s: Progress, n: nat, out: Outcome)
    requires Decided(drv, s, n, out)
    ensures Decided(drv, Release(s, n), n, out) && !Release(s, n).leased
  {
    Appended(s.log, Released(n));
    SoundAppended(drv, s.log, Released(n));
  }

  lemma RetryDecides(drv: RelayDriver, s: Progress, n: nat, shown: Projection, up: Upstream, j: Judgement)
    requires Serving(drv, s, n, shown.account)
    ensures var (t, out) := Retry(drv, s, shown, up, j); Decided(drv, t, n, out)
  {
    var a := shown.account;
    if drv.nonRetriable(up.status, up.body) {
      RespondDecides(drv, s, n, a, UpstreamError(up.status, up.body));
    } else if drv.retrySame(up.status, up.body, Retries(s, a.id)) {
      AgainDecides(drv, s, n, a, up);
    } else {
      EffectDecides(drv, s, n, a, j.effect, j.wholeBucket);
    }
  }

  lemma StreamingDecides(job: Job, drv: RelayDriver, s: Progress, n: nat, a: Attempt, shown: Projection, up: Upstream)
    requires Serving(drv, s, n, shown.account)
    ensures var (t, out) := Streaming(job, drv, s, n, a, shown, up); Decided(drv, t, n, out)
  {
    var acct := shown.account;
    match a.preflight
    case Broken => BanDecides(drv, s, n, acct, Exclusion(acct.id, ""));
    case Rejected(v, body) =>
      var status := if v.status == 0 then TOO_MANY else v.status;
      KeepKeeps(drv, s, n, acct, status, body);
      EffectDecides(drv, Keep(s, status, body), n, acct, v.effect, v.wholeBucket);
    case Passed =>
      var j := drv.interpret(up.(body := ""), job.model, shown.state);
      AnswerDecides(drv, s, n, acct, j.effect, a, Stream);
  }

  /** Observe, accept, then answer and give the route back. */
  lemma AnswerDecides(drv: RelayDriver, s: Progress, n: nat, a: Account, e: PoolState.Effect, attempt: Attempt, r: Response)
    requires Serving(drv, s, n, a)
    ensures var (t, out) := AcceptAndAnswer(Log(s, Observed(a.id, e)), n, attempt, r); Decided(drv, t, n, out)
  {
    ObservedKeeps(drv, s, n, a, e);
    var u := Log(s, Observed(a.id, e));
    AcceptedKeeps(drv, u, n, a, attempt.bindingSaved);
    var v := Log(u, Accepted(attempt.bindingSaved));
    RespondDecides(drv, v, n, a, r);
    ReleaseKeeps(drv, Log(v, Responded(r)), n, Done);
  }

  lemma AcceptedKeeps(drv: RelayDriver, s: Progress, n: nat, a: Account, saved: bool)
    requires Serving(drv, s, n, a)
    ensures Serving(drv, Log(s, Accepted(saved)), n, a)
  {
    Appended(s.log, Accepted(saved));
    SoundAppended(drv, s.log, Accepted(saved));
  }

  lemma HandleDecides(job: Job, drv: RelayDriver, s: Progress, n: nat, a: Attempt, shown: Projection, up: Upstream)
    requires Serving(drv, s, n, shown.account)
    ensures var (t, out) := Handle(job, drv, s, n, a, shown, up); Decided(drv, t, n, out)
  {
    var acct := shown.account;
    var j := drv.interpret(up, job.model, shown.state);
    if drv.shouldRetry(up.status) && n < job.maxRetry {
      KeepKeeps(drv, s, n, acct, up.status, Some(up.body));
      RetryDecides(drv, Keep(s, up.status, Some(up.body)), n, shown, up, j);
    } else if up.status != OK {
      ObservedKeeps(drv, s, n, acct, j.effect);
      RespondDecides(drv, Log(s, Observed(acct.id, j.effect)), n, acct, UpstreamError(up.status, up.body));
    } else if job.isStream {
      StreamingDecides(job, drv, s, n, a, shown, up);
    } else if a.readable {
      AnswerDecides(drv, s, n, acct, j.effect, a, Answer(up.body));
    }
  }

  lemma ServeDecides(job: Job, drv: RelayDriver, s: Progress, n: nat, a: Attempt, shown: Projection)
    requires Serving(drv, s, n, shown.account)
    ensures var (t, out) := Serve(job, drv, s, n, a, shown); Decided(drv, t, n, out)
  {
    if !a.token || (a.build.Built? && a.reply.TransportError?) {
      BanDecides(drv, s, n, shown.account, Exclusion(shown.account.id, ""));
    } else if a.build.Invalid? {
      RespondDecides(drv, s, n, shown.account, ErrorPage(a.build.status));
    } else if a.build.Built? {
      HandleDecides(job, drv, s, n, a, shown, a.reply.up);
    }
  }

  lemma AcquireServes(drv: RelayDriver, job: Job, s: Progress, n: nat, a: Attempt)
    requires Ready(drv, s, n)
    requires var got := a.acquire(RequestFor(job, s)); got.Routed? && HonestRoute(drv, RequestFor(job, s), got)
    ensures var shown := a.acquire(RequestFor(job, s)).shown;
      Serving(drv, Log(s.(retryAccount := "", leased := true), Acquired(n, shown)), n, shown.account)
  {
    var got := a.acquire(RequestFor(job, s));
    RoutedIsAllowed(drv, RequestFor(job, s), got);
    Appended(s.log, Acquired(n, got.shown));
    SoundAppended(drv, s.log, Acquired(n, got.shown));
  }

  /** What one attempt leaves behind: a route only if one was leased, and never a lease. */
  lemma ExecuteDecides(job: Job, drv: RelayDriver, s: Progress, n: nat, a: Attempt)
    requires Ready(drv, s, n)
    requires forall req :: a.acquire(req).Routed? ==> HonestRoute(drv, req, a.acquire(req))
    ensures var (t, out) := Execute(job, drv, s, n, a);
      && Kept(drv, t) && Leases(t.log) == Idle && Responses(t.log) == (if out.Done? then 1 else 0)
      && (out.Continue? ==> Ready(drv, t, n + 1))
      && n <= Acquisitions(t.log) <= n + 1 && |t.exclusions| + Retried(t.log) == (if out.Continue? then n + 1 else n)
  {
    match a.acquire(RequestFor(job, s))
    case OwnerLost =>
      Appended(s.log, Responded(ErrorPage(BAD_REQUEST)));
      SoundAppended(drv, s.log, Responded(ErrorPage(BAD_REQUEST)));
    case NoRoute =>
    case Routed(shown, _) =>
      AcquireServes(drv, job, s, n, a);
      var u := Log(s.(retryAccount := "", leased := true), Acquired(n, shown));
      ServeDecides(job, drv, u, n, a, shown);
      var (t, out) := Serve(job, drv, u, n, a, shown);
      ReleaseKeeps(drv, t, n, out);
  }

  lemma FailureAnswers(drv: RelayDriver, s: Progress)
    requires Kept(drv, s) && Leases(s.log) == Idle && Responses(s.log) == 0
    ensures var t := FinishFailure(s);
      && Kept(drv, t) && Leases(t.log) == Idle && Responses(t.log) == 1 && Acquisitions(t.log) == Acquisitions(s.log)
      && Retried(t.log) == Retried(s.log) && t.exclusions == s.exclusions
  {
    var e := Responded(if s.last.Some? then s.last.value else ErrorPage(UNAVAILABLE));
    Appended(s.log, e);
    SoundAppended(drv, s.log, e);
  }

  lemma {:induction false} LoopKeeps(job: Job, drv: RelayDriver, env: nat -> Attempt, s: Progress, n: nat)
    requires Honest(drv, env) && Ready(drv, s, n) && (n == 0 || n <= job.maxRetry + 1)
    ensures var (t, ending) := Loop(job, drv, env, s, n);
      && Kept(drv, t) && Leases(t.log) == Idle && Responses(t.log) == (if ending == Cancelled then 0 else 1)
      && (ending == Cancelled ==> exists k: nat :: k <= job.maxRetry && env(k).cancelled)
      && Acquisitions(t.log) <= (if job.maxRetry < 0 then 0 else job.maxRetry + 1)
      && |t.exclusions| + Retried(t.log) <= Acquisitions(t.log) <= |t.exclusions| + Retried(t.log) + 1
    decreases job.maxRetry - n
  {
    if n > job.maxRetry {
      FailureAnswers(drv, s);
    } else if !env(n).cancelled {
      ExecuteDecides(job, drv, s, n, env(n));
      var (t, out) := Execute(job, drv, s, n, env(n));
      if out.Stop? { FailureAnswers(drv, t); }
      if out.Continue? { LoopKeeps(job, drv, env, t, n + 1); }
    }
  }

  /* ---------- the guarantees ---------- */

  /** Every run makes at most maxRetry + 1 attempts, answers the client exactly once unless it found the client
      gone, returns every lease before it takes the next, and every attempt but the last bans one more account or
      bucket or retries its account. */
  lemma RelayRun(job: Job, drv: RelayDriver, env: nat -> Attempt)
    requires Honest(drv, env)
    ensures var (t, ending) := Run(job, drv, env);
      && Sound(drv, t.log) && Leases(t.log) == Idle
      && Responses(t.log) == (if ending == Cancelled then 0 else 1)
      && ((forall n: nat | n <= job.maxRetry :: !env(n).cancelled) ==> Responses(t.log) == 1)
      && Acquisitions(t.log) <= (if job.maxRetry < 0 then 0 else job.maxRetry + 1)
      && |Bans(t.log)| + Retried(t.log) <= Acquisitions(t.log) <= |Bans(t.log)| + Retried(t.log) + 1
  {
    LoopKeeps(job, drv, env, NEW, 0);
  }

  lemma {:induction false} BanLogged(log: seq<Event>, i: nat)
    requires i < |log| && log[i].Banned?
    ensures log[i].exclusion in Bans(log)
  {
    if i < |log| - 1 { BanLogged(log[..|log| - 1], i); }
  }

  /** An account that was banned, by id or by bucket, is never leased again; nor is anything banned twice. */
  lemma NeverBack(drv: RelayDriver, log: seq<Event>, i: nat, j: nat)
    requires Sound(drv, log) && i < j < |log| && log[i].Banned?
    ensures log[j].Acquired? ==> !Names(log[i].exclusion, log[j].shown.account)
    ensures log[j].Banned? ==> log[j].exclusion != log[i].exclusion
  {
    BanLogged(log[..j], i);
    assert Allowed(drv, log[..j], log[j]);
  }

  /** While bucket keys are stable, the account of a banned attempt does not come back under any exclusion. */
  lemma BannedAccountGone(drv: RelayDriver, log: seq<Event>, i: nat, j: nat)
    requires Sound(drv, log) && i < j < |log| && log[i].Banned? && log[j].Acquired?
    requires Current(log[..i]).Some? && log[j].shown.account.id == Current(log[..i]).value.id ==>
      BucketKey(log[j].shown.account) == BucketKey(Current(log[..i]).value)
    ensures Current(log[..i]).Some? && log[j].shown.account.id != Current(log[..i]).value.id
  {
    NeverBack(drv, log, i, j);
    assert Allowed(drv, log[..i], log[i]);
  }

  /** A driver that allows `cap` same-account retries gets at most that many on any account. */
  lemma {:induction false} RetriesCapped(drv: RelayDriver, log: seq<Event>, id: string, cap: nat)
    requires Sound(drv, log)
    requires forall status, body, prior: nat :: drv.retrySame(status, body, prior) ==> prior < cap
    ensures RetriedOn(log, id) <= cap
  {
    if log != [] {
      var before := log[..|log| - 1];
      forall k | 0 <= k < |before| ensures Allowed(drv, before[..k], before[k]) {
        assert before[..k] == log[..k];
      }
      RetriesCapped(drv, before, id, cap);
      assert Allowed(drv, before, log[|log| - 1]);
    }
  }
}

/** The retry loop as the program runs it: a counted loop over one mutable attempt state. Each method is
    proved to do what module Relay says. */
module RelayLoop {
  import opened Domain
  import opened Selection
  import opened Relay

  class AttemptState {
    var exclusions: seq<Exclusion>
    var retries: map<string, nat>
    var retryAccount: string
    var last: Option<Response>
    var leased: bool
    var log: seq<Event>

    constructor ()
      ensures View() == NEW
    {
      exclusions, retries, retryAccount, last, leased, log := [], map[], "", None, false, [];
    }

    ghost function View(): Progress
      reads this
    {
      Progress(exclusions, retries, retryAccount, last, leased, log)
    }

    method Record(e: Event)
      modifies this`log
      ensures View() == Log(old(View()), e)
    {
      log := log + [e];
    }

    method Exclude(e: Exclusion)
      modifies this`exclusions, this`log
      ensures View() == Ban(old(View()), e)
    {
      exclusions := exclusions + [e];
      Record(Banned(e));
    }

    method FinishLease(n: nat)
      modifies this`leased, this`log
      ensures View() == Release(old(View()), n)
    {
      if leased {
        leased := false;
        Record(Released(n));
      }
    }

    method KeepError(status: int, body: Option<string>)
      modifies this`last, this`log
      ensures View() == Keep(old(View()), status, body)
    {
      last := if body.Some? then Some(UpstreamError(status, body.value)) else None;
      Record(Failure(status, body));
    }

    /** executeRelayAttempt; the lease is aborted on every way out. */
    method ExecuteAttempt(job: Job, drv: RelayDriver, n: nat, a: Attempt) returns (out: Outcome)
      modifies this
      ensures (View(), out) == Execute(job, drv, old(View()), n, a)
    {
      var hard := job.boundAccount;
      if retryAccount != "" { hard := retryAccount; }
      var got := a.acquire(Request(exclusions, job.model, job.surface, hard, job.affinityKey, job.mustContinue));
      match got {
        case OwnerLost =>
          Record(Responded(ErrorPage(BAD_REQUEST)));
          out := Done;
        case NoRoute =>
          out := Stop;
        case Routed(shown, _) =>
          retryAccount, leased := "", true;
          Record(Acquired(n, shown));
          out := ServeRoute(job, drv, n, a, shown);
          FinishLease(n);
      }
    }

    method ServeRoute(job: Job, drv: RelayDriver, n: nat, a: Attempt, shown: Projection) returns (out: Outcome)
      modifies this
      ensures (View(), out) == Serve(job, drv, old(View()), n, a, shown)
    {
      var id := shown.account.id;
      if !a.token {
        Exclude(Exclusion(id, ""));
        return Continue;
      }
      if a.build.Invalid? {
        Record(Responded(ErrorPage(a.build.status)));
        return Done;
      }
      if a.build.Unbuildable? { return Stop; }
      if a.reply.TransportError? {
        Exclude(Exclusion(id, ""));
        return Continue;
      }
      var up := a.reply.up;
      var j := drv.interpret(up, job.model, shown.state);
      if drv.shouldRetry(up.status) && n < job.maxRetry {
        KeepError(up.status, Some(up.body));
        out := RetryUpstream(drv, shown, up, j);
        return;
      }
      if up.status != OK {
        Record(Observed(id, j.effect));
        Record(Responded(UpstreamError(up.status, up.body)));
        return Done;
      }
      if job.isStream {
        out := FinishStream(job, drv, n, a, shown, up);
        return;
      }
      if !a.readable { return Stop; }
      Record(Observed(id, j.effect));
      Record(Accepted(a.bindingSaved));
      if !a.bindingSaved { return Stop; }
      Record(Responded(Answer(up.body)));
      FinishLease(n);
      out := Done;
    }

    method RetryUpstream(drv: RelayDriver, shown: Projection, up: Upstream, j: Judgement) returns (out: Outcome)
      modifies this
      ensures (View(), out) == Retry(drv, old(View()), shown, up, j)
    {
      var id := shown.account.id;
      if drv.nonRetriable(up.status, up.body) {
        Record(Responded(UpstreamError(up.status, up.body)));
        return Done;
      }
      var prior := if id in retries then retries[id] else 0;
      if drv.retrySame(up.status, up.body, prior) {
        retries := retries[id := prior + 1];
        retryAccount := id;
        Record(Again(id, up.status, up.body, prior));
        return Continue;
      }
      Record(Observed(id, j.effect));
      Exclude(ExclusionFor(shown.account, j.wholeBucket));
      out := Continue;
    }

    method FinishStream(job: Job, drv: RelayDriver, n: nat, a: Attempt, shown: Projection,
                        up: Upstream) returns (out: Outcome)
      modifies this
      ensures (View(), out) == Streaming(job, drv, old(View()), n, a, shown, up)
    {
      var id := shown.account.id;
      match a.preflight {
        case Broken =>
          Exclude(Exclusion(id, ""));
          return Continue;
        case Rejected(v, body) =>
          KeepError(if v.status == 0 then TOO_MANY else v.status, body);
          Record(Observed(id, v.effect));
          Exclude(ExclusionFor(shown.account, v.wholeBucket));
          return Continue;
        case Passed =>
      }
      var j := drv.interpret(up.(body := ""), job.model, shown.state);
      Record(Observed(id, j.effect));
      Record(Accepted(a.bindingSaved));
      if !a.bindingSaved { return Stop; }
      Record(Responded(Stream));
      FinishLease(n);
      out := Done;
    }

    method AnswerFailure()
      modifies this`log
      ensures View() == FinishFailure(old(View()))
    {
      if last.Some? { Record(Responded(last.value)); } else { Record(Responded(ErrorPage(UNAVAILABLE))); }
    }
  }

  /** handleWithDriver after the request was prepared. */
  method HandleWithDriver(job: Job, drv: RelayDriver, env: nat -> Attempt) returns (state: AttemptState, ending: Ending)
    ensures fresh(state) && (state.View(), ending) == Run(job, drv, env)
  {
    state := new AttemptState();
    var attempt := 0;
    while attempt <= job.maxRetry
      invariant Loop(job, drv, env, state.View(), attempt) == Run(job, drv, env)
      invariant attempt == 0 || attempt <= job.maxRetry + 1
      decreases job.maxRetry - attempt
    {
      if env(attempt).cancelled { return state, Cancelled; }
      var out := state.ExecuteAttempt(job, drv, attempt, env(attempt));
      if out.Done? { return state, Finished; }
      if out.Stop? {
        state.AnswerFailure();
        return state, Finished;
      }
      attempt := attempt + 1;
    }
    state.AnswerFailure();
    ending := Finished;
  }
}

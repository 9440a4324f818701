/** What the log of a run says about every attempt: what the pool is told, who is excluded, what is kept and what the
    client gets, each read off the outside world's answers; and why the run ended. */
module RelayReports {
  import opened Domain
  import opened Selection
  import opened Relay
  import opened RelaySafety

  /* ---------- what an attempt has to do, one kind of event at a time ---------- */

  /** The upstream answered. */
  predicate Heard(a: Attempt) {
    a.token && a.build.Built? && a.reply.Reply?
  }

  /** It answered with an error that may be retried elsewhere, and attempts are left. */
  predicate Retriable(job: Job, drv: RelayDriver, n: nat, a: Attempt) {
    Heard(a) && drv.shouldRetry(a.reply.up.status) && n < job.maxRetry
  }

  predicate Successful(job: Job, drv: RelayDriver, n: nat, a: Attempt) {
    Heard(a) && !Retriable(job, drv, n, a) && a.reply.up.status == 200
  }

  /** The stream's first event was a verdict. */
  predicate RejectedStream(job: Job, drv: RelayDriver, n: nat, a: Attempt) {
    Successful(job, drv, n, a) && job.isStream && a.preflight.Rejected?
  }

  /** The error that ends the attempt concerns the request, not the account. */
  predicate RequestsFault(job: Job, drv: RelayDriver, n: nat, a: Attempt) {
    Retriable(job, drv, n, a) && drv.nonRetriable(a.reply.up.status, a.reply.up.body)
  }

  /** The driver wants the same account once more; `prior` counts the earlier times. */
  predicate SameAgain(job: Job, drv: RelayDriver, n: nat, a: Attempt, prior: nat) {
    && Retriable(job, drv, n, a) && !RequestsFault(job, drv, n, a)
    && drv.retrySame(a.reply.up.status, a.reply.up.body, prior)
  }

  /** What is to be sent to the client was obtained. */
  predicate Obtained(job: Job, drv: RelayDriver, n: nat, a: Attempt) {
    Successful(job, drv, n, a) && if job.isStream then a.preflight.Passed? else a.readable
  }

  /** The judgement the pool has to be told: the driver's of the upstream's answer, without its body if that is streamed,
      or the preflight's. There is none without an answer, and none for an error that is the request's fault, a retry of
      the same account, an unreadable body or a broken stream. */
  function Reported(job: Job, drv: RelayDriver, n: nat, a: Attempt, shown: Projection, prior: nat): Option<Judgement> {
    if !Heard(a) || RequestsFault(job, drv, n, a) || SameAgain(job, drv, n, a, prior) then None
    else if RejectedStream(job, drv, n, a) then Some(a.preflight.verdict)
    else if Successful(job, drv, n, a) && !Obtained(job, drv, n, a) then None
    else
      var streamed := Successful(job, drv, n, a) && job.isStream;
      Some(drv.interpret(if streamed then a.reply.up.(body := "") else a.reply.up, job.model, shown.state))
  }

  /** Nothing was heard, through no fault of the request, or the stream broke before its first event. */
  predicate NothingHeard(job: Job, drv: RelayDriver, n: nat, a: Attempt) {
    || !a.token || (a.build.Built? && a.reply.TransportError?)
    || (Successful(job, drv, n, a) && job.isStream && a.preflight.Broken?)
  }

  /** Who is not to be asked again: the account if nothing was heard of it, and with a report that another attempt follows
      the bucket exactly if the judgement is about the whole bucket, else the account. */
  function Barred(job: Job, drv: RelayDriver, n: nat, a: Attempt, shown: Projection, prior: nat): Option<Exclusion> {
    var j := Reported(job, drv, n, a, shown, prior);
    if NothingHeard(job, drv, n, a) then Some(Exclusion(shown.account.id, ""))
    else if j.Some? && (Retriable(job, drv, n, a) || RejectedStream(job, drv, n, a)) then
      Some(if j.value.wholeBucket then Exclusion("", shown.account.bucketKey) else Exclusion(shown.account.id, ""))
    else None
  }

  /** The upstream error kept for a final answer, with its status. */
  function KeptError(job: Job, drv: RelayDriver, n: nat, a: Attempt): Option<(int, Option<string>)> {
    if Retriable(job, drv, n, a) then Some((a.reply.up.status, Some(a.reply.up.body)))
    else if RejectedStream(job, drv, n, a) then
      Some((if a.preflight.verdict.status != 0 then a.preflight.verdict.status else 429, a.preflight.body))
    else None
  }

  /** What the client gets from this very attempt. */
  function Given(job: Job, drv: RelayDriver, n: nat, a: Attempt): Option<Response> {
    if a.token && a.build.Invalid? then Some(ErrorPage(a.build.status))
    else if RequestsFault(job, drv, n, a) || (Heard(a) && !Retriable(job, drv, n, a) && a.reply.up.status != 200) then
      Some(UpstreamError(a.reply.up.status, a.reply.up.body))
    else if Obtained(job, drv, n, a) && a.bindingSaved then Some(if job.isStream then Stream else Answer(a.reply.up.body))
    else None
  }

  /** The attempt can neither be answered nor repeated. */
  predicate Stuck(job: Job, drv: RelayDriver, n: nat, a: Attempt) {
    || (a.token && a.build.Unbuildable?)
    || (Successful(job, drv, n, a) && !job.isStream && !a.readable)
    || (Obtained(job, drv, n, a) && !a.bindingSaved)
  }

  /** Everything that happens while the attempt holds its lease, in order. */
  function Course(job: Job, drv: RelayDriver, n: nat, a: Attempt, shown: Projection, prior: nat): seq<Event> {
    var id, j, x := shown.account.id, Reported(job, drv, n, a, shown, prior), Barred(job, drv, n, a, shown, prior);
    var kept, given := KeptError(job, drv, n, a), Given(job, drv, n, a);
    (if kept.Some? then [Failure(kept.value.0, kept.value.1)] else [])
    + (if SameAgain(job, drv, n, a, prior) then [Again(id, a.reply.up.status, a.reply.up.body, prior)] else [])
    + (if j.Some? then [Observed(id, j.value.effect)] else [])
    + (if Obtained(job, drv, n, a) then [Accepted(a.bindingSaved)] else [])
    + (if x.Some? then [Banned(x.value)] else [])
    + (if given.Some? then [Responded(given.value)] else [])
  }

  /** The attempt from the lease taken to the lease returned. */
  function Segment(job: Job, drv: RelayDriver, n: nat, a: Attempt, shown: Projection, prior: nat): seq<Event> {
    [Acquired(n, shown)] + Course(job, drv, n, a, shown, prior) + [Released(n)]
  }

  /* ---------- one attempt ---------- */

  /** How the attempt ends, and whom the next one goes to. */
  predicate Follows(job: Job, drv: RelayDriver, s: Progress, n: nat, a: Attempt, shown: Projection, t: Progress, out: Outcome) {
    var prior := Retries(s, shown.account.id);
    && (out.Done? <==> Given(job, drv, n, a).Some?) && (out.Stop? <==> Stuck(job, drv, n, a))
    && t.retryAccount == if SameAgain(job, drv, n, a, prior) then shown.account.id else s.retryAccount
  }

  lemma RetryCourse(job: Job, drv: RelayDriver, s: Progress, n: nat, a: Attempt, shown: Projection)
    requires Retriable(job, drv, n, a) && shown.account.bucketKey != "" && s.leased
    ensures var up := a.reply.up;
      var (t, out) := Retry(drv, Keep(s, up.status, Some(up.body)), shown, up, drv.interpret(up, job.model, shown.state));
      && Release(t, n).log == s.log + Course(job, drv, n, a, shown, Retries(s, shown.account.id)) + [Released(n)]
      && Follows(job, drv, s, n, a, shown, t, out)
  {
  }

  lemma StreamCourse(job: Job, drv: RelayDriver, s: Progress, n: nat, a: Attempt, shown: Projection)
    requires Successful(job, drv, n, a) && job.isStream && shown.account.bucketKey != "" && s.leased
    ensures var (t, out) := Streaming(job, drv, s, n, a, shown, a.reply.up);
      && Release(t, n).log == s.log + Course(job, drv, n, a, shown, Retries(s, shown.account.id)) + [Released(n)]
      && Follows(job, drv, s, n, a, shown, t, out)
  {
  }

  lemma ServeCourse(job: Job, drv: RelayDriver, s: Progress, n: nat, a: Attempt, shown: Projection)
    requires shown.account.bucketKey != "" && s.leased
    ensures var (t, out) := Serve(job, drv, s, n, a, shown);
      && Release(t, n).log == s.log + Course(job, drv, n, a, shown, Retries(s, shown.account.id)) + [Released(n)]
      && Follows(job, drv, s, n, a, shown, t, out)
  {
    if Retriable(job, drv, n, a) {
      RetryCourse(job, drv, s, n, a, shown);
    } else if Successful(job, drv, n, a) && job.isStream {
      StreamCourse(job, drv, s, n, a, shown);
    }
  }

  /* ---------- the whole run ---------- */

  /** The account that the last attempt wants the next one to go to. */
  function Wanted(log: seq<Event>): string {
    if log == [] then ""
    else
      var e := log[|log| - 1];
      if e.Again? then e.id else if e.Acquired? then "" else Wanted(log[..|log| - 1])
  }

  /** The request with which a route is asked for after the events of `log`: everything barred so far is excluded, and the
      account to be retried, or else the user's own, is asked for. */
  function Asked(job: Job, log: seq<Event>): Request {
    Request(Bans(log), job.model, job.surface, if Wanted(log) != "" then Wanted(log) else job.boundAccount,
            job.affinityKey, job.mustContinue)
  }

  /** The lease taken at position `k` was asked for as it has to be, and is followed by the course of its attempt. */
  ghost predicate Proceeds(job: Job, drv: RelayDriver, env: nat -> Attempt, log: seq<Event>, k: nat)
    requires k < |log| && log[k].Acquired?
  {
    var n, shown := log[k].attempt, log[k].shown;
    && env(n).acquire(Asked(job, log[..k])).Routed? && env(n).acquire(Asked(job, log[..k])).shown == shown
    && Segment(job, drv, n, env(n), shown, RetriedOn(log[..k], shown.account.id)) <= log[k..]
  }

  ghost predicate Orderly(job: Job, drv: RelayDriver, env: nat -> Attempt, log: seq<Event>) {
    forall k | 0 <= k < |log| && log[k].Acquired? :: Proceeds(job, drv, env, log, k)
  }

  /** Why a run ends after the events of `before`, without a lease: no attempt is left, no route, or the last attempt got
      stuck; or a required owner is lost. */
  ghost predicate NoneLeft(job: Job, drv: RelayDriver, env: nat -> Attempt, before: seq<Event>) {
    var n := Acquisitions(before);
    || n > job.maxRetry
    || env(n).acquire(Asked(job, before)).NoRoute?
    || (n > 0 && Stuck(job, drv, n - 1, env(n - 1)))
  }

  ghost predicate Ended(job: Job, drv: RelayDriver, env: nat -> Attempt, log: seq<Event>, ending: Ending) {
    var n := Acquisitions(log);
    if ending == Cancelled then n <= job.maxRetry && env(n).cancelled && Responses(log) == 0
    else
      && log != []
      && var before, e := log[..|log| - 1], log[|log| - 1];
         || (n > 0 && Given(job, drv, n - 1, env(n - 1)).Some? && e == Released(n - 1))
         || (n <= job.maxRetry && env(n).acquire(Asked(job, before)).OwnerLost? && e == Responded(ErrorPage(400)))
         || (NoneLeft(job, drv, env, before)
             && e == Responded(if LastFailure(before).Some? then LastFailure(before).value else ErrorPage(503)))
  }

  lemma {:induction false} WantedAfter(log: seq<Event>, more: seq<Event>)
    requires forall i | 0 <= i < |more| :: !more[i].Again? && !more[i].Acquired?
    ensures Wanted(log + more) == Wanted(log)
    decreases |more|
  {
    if more == [] {
      assert log + more == log;
    } else {
      var init := more[..|more| - 1];
      assert log + more == (log + init) + [more[|more| - 1]];
      WantedAfter(log, init);
    }
  }

  lemma OrderlyExtended(job: Job, drv: RelayDriver, env: nat -> Attempt, log: seq<Event>, more: seq<Event>)
    requires Orderly(job, drv, env, log) && forall i | 0 <= i < |more| :: !more[i].Acquired?
    ensures Orderly(job, drv, env, log + more)
  {
    var l := log + more;
    forall k | 0 <= k < |l| && l[k].Acquired? ensures Proceeds(job, drv, env, l, k) {
      assert k < |log| && l[k] == log[k] && l[..k] == log[..k] && l[k..] == log[k..] + more;
      assert Proceeds(job, drv, env, log, k);
    }
  }

  /** Taking and returning a lease are no part of the course between. */
  lemma CourseQuiet(job: Job, drv: RelayDriver, n: nat, a: Attempt, shown: Projection, prior: nat)
    ensures forall i | 0 <= i < |Course(job, drv, n, a, shown, prior)| ::
      !Course(job, drv, n, a, shown, prior)[i].Acquired? && !Course(job, drv, n, a, shown, prior)[i].Released?
  {
  }

  lemma SegmentQuiet(job: Job, drv: RelayDriver, n: nat, a: Attempt, shown: Projection, prior: nat) returns (seg: seq<Event>)
    ensures seg == Segment(job, drv, n, a, shown, prior) && seg != [] && seg[0] == Acquired(n, shown)
    ensures forall i | 0 < i < |seg| :: !seg[i].Acquired?
  {
    CourseQuiet(job, drv, n, a, shown, prior);
    seg := Segment(job, drv, n, a, shown, prior);
  }

  /** `seg` is what has to follow when a route is taken after `log`. */
  ghost predicate Due(job: Job, drv: RelayDriver, env: nat -> Attempt, log: seq<Event>, seg: seq<Event>) {
    && seg != [] && seg[0].Acquired? && (forall i | 0 < i < |seg| :: !seg[i].Acquired?)
    && Proceeds(job, drv, env, log + seg, |log|)
  }

  lemma OrderlyAppended(job: Job, drv: RelayDriver, env: nat -> Attempt, log: seq<Event>, seg: seq<Event>)
    requires Orderly(job, drv, env, log) && Due(job, drv, env, log, seg)
    ensures Orderly(job, drv, env, log + seg)
  {
    var l := log + seg;
    forall k | 0 <= k < |l| && l[k].Acquired? ensures Proceeds(job, drv, env, l, k) {
      if k < |log| {
        assert l[k] == log[k] && l[..k] == log[..k] && l[k..] == log[k..] + seg;
        assert Proceeds(job, drv, env, log, k);
      } else {
        assert l[k] == seg[k - |log|];
      }
    }
  }

  lemma OrderlyAcquired(job: Job, drv: RelayDriver, env: nat -> Attempt, log: seq<Event>, n: nat, shown: Projection)
    requires Orderly(job, drv, env, log)
    requires env(n).acquire(Asked(job, log)).Routed? && env(n).acquire(Asked(job, log)).shown == shown
    ensures Orderly(job, drv, env, log + Segment(job, drv, n, env(n), shown, RetriedOn(log, shown.account.id)))
  {
    var seg := SegmentQuiet(job, drv, n, env(n), shown, RetriedOn(log, shown.account.id));
    var l := log + seg;
    assert l[..|log|] == log && l[|log|..] == seg && l[|log|] == seg[0];
    OrderlyAppended(job, drv, env, log, seg);
  }

  /** The loop's own variables say what the log says, and whom to retry. */
  ghost predicate Set(job: Job, drv: RelayDriver, s: Progress, n: nat) {
    Ready(drv, s, n) && s.retryAccount == Wanted(s.log)
  }

  lemma AskedIsRequest(job: Job, drv: RelayDriver, s: Progress, n: nat)
    requires Set(job, drv, s, n)
    ensures RequestFor(job, s) == Asked(job, s.log)
  {
  }

  /** One attempt of the loop, on the log. */
  lemma AttemptProceeds(job: Job, drv: RelayDriver, env: nat -> Attempt, s: Progress, n: nat, shown: Projection)
    requires Honest(drv, env) && Set(job, drv, s, n)
    requires env(n).acquire(Asked(job, s.log)).Routed? && env(n).acquire(Asked(job, s.log)).shown == shown
    ensures var (t, out) := Execute(job, drv, s, n, env(n));
      && t.log == s.log + Segment(job, drv, n, env(n), shown, RetriedOn(s.log, shown.account.id))
      && Follows(job, drv, s.(retryAccount := ""), n, env(n), shown, t, out)
  {
    AskedIsRequest(job, drv, s, n);
    AcquireServes(drv, job, s, n, env(n));
    var u := Log(s.(retryAccount := "", leased := true), Acquired(n, shown));
    ServeCourse(job, drv, u, n, env(n), shown);
    SegmentIs(s.log, Acquired(n, shown), Course(job, drv, n, env(n), shown, RetriedOn(s.log, shown.account.id)), Released(n));
  }

  lemma SegmentIs(log: seq<Event>, first: Event, course: seq<Event>, last: Event)
    ensures log + [first] + course + [last] == log + ([first] + course + [last])
  {
  }

  /** A same-account retry logs the kept error and the retry, nothing else; any other course has no retry in it. */
  lemma CourseRetries(job: Job, drv: RelayDriver, n: nat, a: Attempt, shown: Projection, prior: nat)
    ensures var course := Course(job, drv, n, a, shown, prior);
      if SameAgain(job, drv, n, a, prior) then
        |course| == 2 && course[0].Failure? && course[1].Again? && course[1].id == shown.account.id
      else forall i | 0 <= i < |course| :: !course[i].Again?
  {
  }

  lemma WantedNext(job: Job, drv: RelayDriver, n: nat, a: Attempt, log: seq<Event>, shown: Projection, prior: nat)
    ensures Wanted(log + Segment(job, drv, n, a, shown, prior)) == if SameAgain(job, drv, n, a, prior) then shown.account.id else ""
  {
    CourseRetries(job, drv, n, a, shown, prior);
    CourseQuiet(job, drv, n, a, shown, prior);
    var course := Course(job, drv, n, a, shown, prior);
    var rest := course + [Released(n)];
    assert log + Segment(job, drv, n, a, shown, prior) == (log + [Acquired(n, shown)]) + rest;
    if SameAgain(job, drv, n, a, prior) {
      assert (log + [Acquired(n, shown)]) + rest == (log + [Acquired(n, shown), course[0], course[1]]) + [Released(n)];
      WantedAfter(log + [Acquired(n, shown), course[0], course[1]], [Released(n)]);
    } else {
      WantedAfter(log + [Acquired(n, shown)], rest);
    }
  }

  /** One attempt that is followed by another leaves the loop ready for it. */
  lemma AttemptContinues(job: Job, drv: RelayDriver, env: nat -> Attempt, s: Progress, n: nat)
    requires Honest(drv, env) && Set(job, drv, s, n) && Orderly(job, drv, env, s.log)
    requires env(n).acquire(Asked(job, s.log)).Routed?
    ensures var (t, out) := Execute(job, drv, s, n, env(n));
      && Orderly(job, drv, env, t.log) && t.log != [] && t.log[|t.log| - 1] == Released(n)
      && (out.Continue? ==> Set(job, drv, t, n + 1)) && Kept(drv, t) && Acquisitions(t.log) == n + 1
      && (out.Done? <==> Given(job, drv, n, env(n)).Some?) && (out.Stop? <==> Stuck(job, drv, n, env(n)))
      && Leases(t.log) == Idle && Responses(t.log) == if out.Done? then 1 else 0
  {
    var shown := env(n).acquire(Asked(job, s.log)).shown;
    var prior := RetriedOn(s.log, shown.account.id);
    AskedIsRequest(job, drv, s, n);
    ExecuteDecides(job, drv, s, n, env(n));
    AttemptProceeds(job, drv, env, s, n, shown);
    OrderlyAcquired(job, drv, env, s.log, n, shown);
    WantedNext(job, drv, n, env(n), s.log, shown, prior);
    SegmentCounts(job, drv, n, env(n), s.log, shown, prior);
  }

  lemma SegmentCounts(job: Job, drv: RelayDriver, n: nat, a: Attempt, log: seq<Event>, shown: Projection, prior: nat)
    ensures var l := log + Segment(job, drv, n, a, shown, prior);
      l != [] && l[|l| - 1] == Released(n) && Acquisitions(l) == Acquisitions(log) + 1
  {
    CourseQuiet(job, drv, n, a, shown, prior);
    var rest := Course(job, drv, n, a, shown, prior) + [Released(n)];
    assert log + Segment(job, drv, n, a, shown, prior) == (log + [Acquired(n, shown)]) + rest;
    Appended(log, Acquired(n, shown));
    NoMoreAcquired(log + [Acquired(n, shown)], rest);
  }

  lemma {:induction false} NoMoreAcquired(log: seq<Event>, more: seq<Event>)
    requires forall i | 0 <= i < |more| :: !more[i].Acquired?
    ensures Acquisitions(log + more) == Acquisitions(log)
    decreases |more|
  {
    if more == [] {
      assert log + more == log;
    } else {
      var init := more[..|more| - 1];
      assert log + more == (log + init) + [more[|more| - 1]];
      Appended(log + init, more[|more| - 1]);
      NoMoreAcquired(log, init);
    }
  }

  /** The final answer of a run that gave up. */
  lemma GivenUp(job: Job, drv: RelayDriver, env: nat -> Attempt, s: Progress)
    requires Kept(drv, s) && Orderly(job, drv, env, s.log) && NoneLeft(job, drv, env, s.log)
    ensures Orderly(job, drv, env, FinishFailure(s).log) && Ended(job, drv, env, FinishFailure(s).log, Finished)
  {
    var e := Responded(if s.last.Some? then s.last.value else ErrorPage(503));
    OrderlyExtended(job, drv, env, s.log, [e]);
    Appended(s.log, e);
    assert (s.log + [e])[..|s.log|] == s.log;
  }

  lemma OwnerIsLost(job: Job, drv: RelayDriver, env: nat -> Attempt, s: Progress, n: nat)
    requires Set(job, drv, s, n) && Orderly(job, drv, env, s.log) && n <= job.maxRetry
    requires env(n).acquire(Asked(job, s.log)).OwnerLost?
    ensures var (t, out) := Execute(job, drv, s, n, env(n));
      out.Done? && Orderly(job, drv, env, t.log) && Ended(job, drv, env, t.log, Finished)
  {
    AskedIsRequest(job, drv, s, n);
    var e := Responded(ErrorPage(400));
    OrderlyExtended(job, drv, env, s.log, [e]);
    Appended(s.log, e);
    assert (s.log + [e])[..|s.log|] == s.log;
  }

  lemma NobodyThere(job: Job, drv: RelayDriver, env: nat -> Attempt, s: Progress, n: nat)
    requires Set(job, drv, s, n) && env(n).acquire(Asked(job, s.log)).NoRoute?
    ensures Execute(job, drv, s, n, env(n)) == (s, Stop) && NoneLeft(job, drv, env, s.log)
  {
    AskedIsRequest(job, drv, s, n);
  }

  /** One attempt, however it ends. */
  lemma TurnProceeds(job: Job, drv: RelayDriver, env: nat -> Attempt, s: Progress, n: nat)
    requires Honest(drv, env) && Set(job, drv, s, n) && Orderly(job, drv, env, s.log) && n <= job.maxRetry
    ensures var (t, out) := Execute(job, drv, s, n, env(n));
      && Orderly(job, drv, env, t.log)
      && (out.Continue? ==> Set(job, drv, t, n + 1)) && (out.Stop? ==> Kept(drv, t) && NoneLeft(job, drv, env, t.log))
      && (out.Done? ==> Ended(job, drv, env, t.log, Finished))
  {
    var got := env(n).acquire(Asked(job, s.log));
    if got.Routed? {
      AttemptContinues(job, drv, env, s, n);
    } else if got.NoRoute? {
      NobodyThere(job, drv, env, s, n);
    } else {
      OwnerIsLost(job, drv, env, s, n);
    }
  }

  /** A run ends properly after `log`. */
  ghost predicate Concludes(job: Job, drv: RelayDriver, env: nat -> Attempt, r: (Progress, Ending)) {
    Orderly(job, drv, env, r.0.log) && Ended(job, drv, env, r.0.log, r.1)
  }

  lemma LoopOver(job: Job, drv: RelayDriver, env: nat -> Attempt, s: Progress, n: nat)
    requires Set(job, drv, s, n) && Orderly(job, drv, env, s.log) && (n > job.maxRetry || env(n).cancelled)
    ensures Concludes(job, drv, env, Loop(job, drv, env, s, n))
  {
    if n > job.maxRetry { GivenUp(job, drv, env, s); }
  }

  /** One turn of the loop: the run is over, or it goes on from a state that is as it has to be. */
  lemma LoopTurns(job: Job, drv: RelayDriver, env: nat -> Attempt, s: Progress, n: nat) returns (t: Progress, more: bool)
    requires Honest(drv, env) && Set(job, drv, s, n) && Orderly(job, drv, env, s.log) && n <= job.maxRetry && !env(n).cancelled
    ensures if more then
              Set(job, drv, t, n + 1) && Orderly(job, drv, env, t.log) && Loop(job, drv, env, s, n) == Loop(job, drv, env, t, n + 1)
            else Concludes(job, drv, env, Loop(job, drv, env, s, n))
  {
    TurnProceeds(job, drv, env, s, n);
    var r := Execute(job, drv, s, n, env(n));
    t, more := r.0, r.1.Continue?;
    if r.1.Stop? { GivenUp(job, drv, env, t); }
  }

  lemma {:induction false} LoopProceeds(job: Job, drv: RelayDriver, env: nat -> Attempt, s: Progress, n: nat)
    requires Honest(drv, env) && Set(job, drv, s, n) && Orderly(job, drv, env, s.log)
    ensures Concludes(job, drv, env, Loop(job, drv, env, s, n))
    decreases job.maxRetry - n
  {
    if n > job.maxRetry || env(n).cancelled {
      LoopOver(job, drv, env, s, n);
    } else {
      var t, more := LoopTurns(job, drv, env, s, n);
      if more { LoopProceeds(job, drv, env, t, n + 1); }
    }
  }

  /** On every run, every lease is asked for with everything barred so far excluded, and between the lease taken and the
      lease returned exactly this happens: the error worth keeping is kept, the pool is told the one judgement that
      counts, the lease is accepted, the account or its bucket is barred, and the client answered, each when it has to be
      and not otherwise. And the run ends only when the client is gone or answered, or when nothing is left to try. */
  lemma RunProceeds(job: Job, drv: RelayDriver, env: nat -> Attempt)
    requires Honest(drv, env)
    ensures var (t, ending) := Run(job, drv, env); Orderly(job, drv, env, t.log) && Ended(job, drv, env, t.log, ending)
  {
    LoopProceeds(job, drv, env, NEW, 0);
  }

  /** In particular the pool is told of every answer that has to be reported, once, of the account that was leased, after
      the lease is taken and before it is returned, and of nothing else. */
  lemma ReportedOnce(job: Job, drv: RelayDriver, n: nat, a: Attempt, shown: Projection, prior: nat)
    ensures var seg := Segment(job, drv, n, a, shown, prior); var j := Reported(job, drv, n, a, shown, prior);
      forall i | 0 <= i < |seg| :: seg[i].Observed? ==> j.Some? && seg[i] == Observed(shown.account.id, j.value.effect)
    ensures var seg := Segment(job, drv, n, a, shown, prior); var j := Reported(job, drv, n, a, shown, prior);
      j.Some? ==> exists i | 0 < i < |seg| - 1 :: seg[i].Observed? && forall m | 0 <= m < |seg| && m != i :: !seg[m].Observed?
  {
    var seg, j := Segment(job, drv, n, a, shown, prior), Reported(job, drv, n, a, shown, prior);
    if j.Some? {
      var i := if KeptError(job, drv, n, a).Some? then 2 else 1;
      assert seg[i] == Observed(shown.account.id, j.value.effect);
    }
  }
}

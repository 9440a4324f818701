/** The per-key limiter: at most so many admissions in a sliding minute and so many requests at a time. It forgets
    what a minute has passed over; it is compared with a limiter that remembers everything. */
module RateLimiter {
  import opened Domain

  /** Zero means no limit. */
  datatype Config = Config(perMinute: nat, concurrent: nat)

  datatype Entry = Entry(started: seq<int>, inflight: nat)

  type Table = map<string, Entry>

  const MINUTE := 60
  const IDLE := Entry([], 0)

  datatype Event = Acquire(key: string, now: int) | Release(key: string, now: int)

  /** Unlimited is the answer for the empty key; Returned that of a release. */
  datatype Decision = Unlimited | Admitted | TooMany | TooFast | Returned

  function EntryOf(t: Table, key: string): Entry {
    if key in t then t[key] else IDLE
  }

  /** The times from `cutoff` on, in order. */
  function Recent(times: seq<int>, cutoff: int): seq<int> {
    if times == [] then []
    else
      var before := Recent(times[..|times| - 1], cutoff);
      if times[|times| - 1] >= cutoff then before + [times[|times| - 1]] else before
  }

  /** One request for an entry: the old start times go, then the limits are checked. */
  function Admit(c: Config, e: Entry, now: int): (Entry, Decision) {
    var kept := e.(started := Recent(e.started, now - MINUTE));
    if c.concurrent > 0 && kept.inflight >= c.concurrent then (kept, TooMany)
    else if c.perMinute > 0 && |kept.started| >= c.perMinute then (kept, TooFast)
    else (Entry(if c.perMinute > 0 then kept.started + [now] else kept.started, kept.inflight + 1), Admitted)
  }

  function GiveBack(c: Config, e: Entry, now: int): Entry {
    Entry(if c.perMinute > 0 then Recent(e.started, now - MINUTE) else e.started,
          if e.inflight > 0 then e.inflight - 1 else 0)
  }

  function AcquireStep(c: Config, t: Table, key: string, now: int): (Table, Decision) {
    if key == "" then (t, Unlimited)
    else
      var (e, d) := Admit(c, EntryOf(t, key), now);
      (t[key := e], d)
  }

  /** An idle entry is deleted. */
  function ReleaseStep(c: Config, t: Table, key: string, now: int): Table {
    if key !in t then t
    else
      var e := GiveBack(c, t[key], now);
      if e == IDLE then t - {key} else t[key := e]
  }

  /** Releasing under the empty key is the empty function. */
  function Step(c: Config, t: Table, e: Event): (Table, Decision) {
    match e
    case Acquire(key, now) => AcquireStep(c, t, key, now)
    case Release(key, now) => (if key == "" then t else ReleaseStep(c, t, key, now), Returned)
  }

  /* ---------- the limiter that remembers everything ---------- */

  datatype Record = Record(event: Event, decision: Decision)

  predicate Admits(r: Record, key: string) {
    r.event.Acquire? && r.event.key == key && r.decision == Admitted
  }

  /** The times of all admissions under `key`. */
  function Times(h: seq<Record>, key: string): seq<int> {
    if h == [] then []
    else
      var before := Times(h[..|h| - 1], key);
      if Admits(h[|h| - 1], key) then before + [h[|h| - 1].event.now] else before
  }

  /** Admissions minus releases. */
  function Outstanding(h: seq<Record>, key: string): int {
    if h == [] then 0
    else
      var r := h[|h| - 1];
      Outstanding(h[..|h| - 1], key)
        + (if Admits(r, key) then 1 else 0) - (if r.event.Release? && r.event.key == key then 1 else 0)
  }

  function Decide(c: Config, h: seq<Record>, e: Event): Decision {
    match e
    case Release(_, _) => Returned
    case Acquire(key, now) =>
      if key == "" then Unlimited
      else if c.concurrent > 0 && Outstanding(h, key) >= c.concurrent then TooMany
      else if c.perMinute > 0 && |Recent(Times(h, key), now - 60)| >= c.perMinute then TooFast
      else Admitted
  }

  /** The clock never goes back, and every release belongs to one earlier admission. */
  ghost predicate Legal(h: seq<Record>) {
    && (forall i, j | 0 <= i < j < |h| :: h[i].event.now <= h[j].event.now)
    && (forall k | 0 <= k < |h| :: h[k].event.Release? && h[k].event.key != "" ==> Outstanding(h[..k], h[k].event.key) > 0)
  }

  /** The decisions of `h` are those of the limiter that remembers everything. */
  ghost predicate Remembered(c: Config, h: seq<Record>) {
    forall k | 0 <= k < |h| :: h[k].decision == Decide(c, h[..k], h[k].event)
  }

  /** The table after the events of `h`. */
  function After(c: Config, h: seq<Record>): Table {
    if h == [] then map[] else Step(c, After(c, h[..|h| - 1]), h[|h| - 1].event).0
  }

  /** The decisions of `h` are those of the program's limiter. */
  ghost predicate Produced(c: Config, h: seq<Record>) {
    forall k | 0 <= k < |h| :: h[k].decision == Step(c, After(c, h[..k]), h[k].event).1
  }

  /* ---------- filtering ---------- */

  lemma RecentAppend(times: seq<int>, t: int, cutoff: int)
    ensures Recent(times + [t], cutoff) == if t >= cutoff then Recent(times, cutoff) + [t] else Recent(times, cutoff)
  {
    assert (times + [t])[..|times|] == times;
  }

  lemma {:induction false} RecentTwice(times: seq<int>, early: int, late: int)
    requires early <= late
    ensures Recent(Recent(times, early), late) == Recent(times, late)
  {
    if times != [] {
      var init, last := times[..|times| - 1], times[|times| - 1];
      RecentTwice(init, early, late);
      if last >= early { RecentAppend(Recent(init, early), last, late); }
    }
  }

  /* ---------- refinement ---------- */

  /** At time `clock`, the table knows of every key the open requests and the admissions of the last minute. */
  ghost predicate Refines(c: Config, t: Table, h: seq<Record>, clock: int) {
    && (forall key | key != "" :: EntryOf(t, key).inflight == Outstanding(h, key))
    && (forall key, cutoff | key != "" && cutoff >= clock - MINUTE ::
          Recent(EntryOf(t, key).started, cutoff) == if c.perMinute > 0 then Recent(Times(h, key), cutoff) else [])
    && (c.perMinute == 0 ==> forall key | key != "" :: EntryOf(t, key).started == [])
  }

  lemma HistoryAppend(h: seq<Record>, r: Record, key: string)
    ensures Times(h + [r], key) == if Admits(r, key) then Times(h, key) + [r.event.now] else Times(h, key)
    ensures Outstanding(h + [r], key) == Outstanding(h, key)
      + (if Admits(r, key) then 1 else 0) - (if r.event.Release? && r.event.key == key then 1 else 0)
  {
    assert (h + [r])[..|h|] == h;
  }

  /** What one event does to one key's entry. */
  lemma EntryStep(c: Config, t: Table, e: Event, key: string)
    requires key != ""
    ensures e.key != key || (e.Release? && key !in t) ==> EntryOf(Step(c, t, e).0, key) == EntryOf(t, key)
    ensures e.key == key && e.Release? && key in t ==> EntryOf(Step(c, t, e).0, key) == GiveBack(c, t[key], e.now)
    ensures e.key == key && e.Acquire? ==> var (u, d) := Step(c, t, e); var was := EntryOf(t, key);
      EntryOf(u, key) == Entry(var kept := Recent(was.started, e.now - MINUTE); if d == Admitted && c.perMinute > 0 then kept + [e.now] else kept,
                               was.inflight + if d == Admitted then 1 else 0)
  {
  }

  lemma SameDecision(c: Config, t: Table, h: seq<Record>, clock: int, e: Event)
    requires Refines(c, t, h, clock) && e.now >= clock
    ensures Step(c, t, e).1 == Decide(c, h, e)
  {
    if e.Acquire? && e.key != "" {
      assert Recent(EntryOf(t, e.key).started, e.now - MINUTE) == if c.perMinute > 0 then Recent(Times(h, e.key), e.now - MINUTE) else [];
    }
  }

  lemma KeyRefines(c: Config, t: Table, h: seq<Record>, clock: int, e: Event, key: string, cutoff: int)
    requires Refines(c, t, h, clock) && e.now >= clock && key != "" && cutoff >= e.now - MINUTE
    requires e.Release? && e.key == key ==> Outstanding(h, key) > 0
    ensures var (u, d) := Step(c, t, e); var h' := h + [Record(e, d)];
      && EntryOf(u, key).inflight == Outstanding(h', key)
      && Recent(EntryOf(u, key).started, cutoff) == (if c.perMinute > 0 then Recent(Times(h', key), cutoff) else [])
      && (c.perMinute == 0 ==> EntryOf(u, key).started == [])
  {
    var (u, d) := Step(c, t, e);
    var was := EntryOf(t, key);
    EntryStep(c, t, e, key);
    HistoryAppend(h, Record(e, d), key);
    assert Recent(was.started, cutoff) == if c.perMinute > 0 then Recent(Times(h, key), cutoff) else [];
    RecentTwice(was.started, e.now - MINUTE, cutoff);
    RecentAppend(Recent(was.started, e.now - MINUTE), e.now, cutoff);
    RecentAppend(Times(h, key), e.now, cutoff);
    if e.key == key && e.Release? { assert was.inflight > 0 && key in t; }
  }

  lemma StepRefines(c: Config, t: Table, h: seq<Record>, clock: int, e: Event)
    requires Refines(c, t, h, clock) && e.now >= clock
    requires e.Release? && e.key != "" ==> Outstanding(h, e.key) > 0
    ensures var (u, d) := Step(c, t, e); d == Decide(c, h, e) && Refines(c, u, h + [Record(e, d)], e.now)
  {
    SameDecision(c, t, h, clock, e);
    var (u, d) := Step(c, t, e);
    forall key, cutoff | key != "" && cutoff >= e.now - MINUTE
      ensures Recent(EntryOf(u, key).started, cutoff) == if c.perMinute > 0 then Recent(Times(h + [Record(e, d)], key), cutoff) else []
    {
      KeyRefines(c, t, h, clock, e, key, cutoff);
    }
    forall key | key != ""
      ensures EntryOf(u, key).inflight == Outstanding(h + [Record(e, d)], key)
      ensures c.perMinute == 0 ==> EntryOf(u, key).started == []
    {
      KeyRefines(c, t, h, clock, e, key, e.now);
    }
  }

  lemma RefinesLater(c: Config, t: Table, h: seq<Record>, clock: int, later: int)
    requires Refines(c, t, h, clock) && clock <= later
    ensures Refines(c, t, h, later)
  {
  }

  /** What the last record of a history adds. */
  lemma LastRecord(c: Config, init: seq<Record>, r: Record)
    requires Legal(init + [r]) && Produced(c, init + [r])
    ensures After(c, init + [r]) == Step(c, After(c, init), r.event).0 && r.decision == Step(c, After(c, init), r.event).1
    ensures r.event.Release? && r.event.key != "" ==> Outstanding(init, r.event.key) > 0
    ensures Legal(init) && Produced(c, init) && (init != [] ==> init[|init| - 1].event.now <= r.event.now)
  {
    var h := init + [r];
    assert h[..|init|] == init && h[|init|] == r;
    InitLegal(c, h);
    if init != [] { assert h[|init| - 1] == init[|init| - 1]; }
  }

  /** After every history the table refines the history, at any time not before its end. */
  lemma {:induction false} RunRefines(c: Config, h: seq<Record>, clock: int)
    requires Legal(h) && Produced(c, h) && (h == [] || clock >= h[|h| - 1].event.now)
    ensures Refines(c, After(c, h), h, clock)
  {
    if h != [] {
      var init, r := h[..|h| - 1], h[|h| - 1];
      assert h == init + [r];
      LastRecord(c, init, r);
      RunRefines(c, init, r.event.now);
      StepRefines(c, After(c, init), init, r.event.now, r.event);
      RefinesLater(c, After(c, h), h, r.event.now, clock);
    }
  }

  /** The limiter decides as one that remembers every admission. */
  lemma {:induction false} RunRemembers(c: Config, h: seq<Record>)
    requires Legal(h) && Produced(c, h)
    ensures Remembered(c, h)
  {
    if h != [] {
      var init, r := h[..|h| - 1], h[|h| - 1];
      assert h == init + [r];
      LastRecord(c, init, r);
      RunRemembers(c, init);
      RunRefines(c, init, r.event.now);
      SameDecision(c, After(c, init), init, r.event.now, r.event);
      RememberedMore(c, init, r);
    }
  }

  lemma RememberedMore(c: Config, init: seq<Record>, r: Record)
    requires Remembered(c, init) && r.decision == Decide(c, init, r.event)
    ensures Remembered(c, init + [r])
  {
    var h := init + [r];
    forall k | 0 <= k < |h| ensures h[k].decision == Decide(c, h[..k], h[k].event) {
      if k < |init| { assert init[..k] == h[..k] && init[k] == h[k]; } else { assert h[..k] == init; }
    }
  }

  lemma InitLegal(c: Config, h: seq<Record>)
    requires h != [] && Legal(h) && Produced(c, h)
    ensures Legal(h[..|h| - 1]) && Produced(c, h[..|h| - 1])
  {
    var init := h[..|h| - 1];
    forall k | 0 <= k < |init| ensures init[..k] == h[..k] && init[k] == h[k] {
    }
  }

  /* ---------- the guarantees ---------- */

  /** Admissions with times in [a, b]. */
  function CountIn(times: seq<int>, a: int, b: int): nat {
    if times == [] then 0
    else CountIn(times[..|times| - 1], a, b) + if a <= times[|times| - 1] <= b then 1 else 0
  }

  lemma {:induction false} CountAtMostRecent(times: seq<int>, a: int, b: int, cutoff: int)
    requires cutoff <= a
    ensures CountIn(times, a, b) <= |Recent(times, cutoff)|
  {
    if times != [] { CountAtMostRecent(times[..|times| - 1], a, b, cutoff); }
  }

  lemma {:induction false} WindowOfRemembered(c: Config, h: seq<Record>, key: string, a: int)
    requires Remembered(c, h) && c.perMinute > 0 && key != ""
    ensures CountIn(Times(h, key), a, a + 60) <= c.perMinute
  {
    if h != [] {
      var init, r := h[..|h| - 1], h[|h| - 1];
      assert forall k | 0 <= k < |init| :: init[..k] == h[..k];
      WindowOfRemembered(c, init, key, a);
      if Admits(r, key) {
        assert (Times(init, key) + [r.event.now])[..|Times(init, key)|] == Times(init, key);
        if a <= r.event.now <= a + MINUTE { CountAtMostRecent(Times(init, key), a, a + MINUTE, r.event.now - MINUTE); }
      }
    }
  }

  lemma {:induction false} LoadOfRemembered(c: Config, h: seq<Record>, key: string)
    requires Remembered(c, h) && c.concurrent > 0 && key != ""
    ensures Outstanding(h, key) <= c.concurrent
  {
    if h != [] {
      var init := h[..|h| - 1];
      assert forall k | 0 <= k < |init| :: init[..k] == h[..k];
      LoadOfRemembered(c, init, key);
    }
  }

  /** Forgetting is harmless: the limiter decides as one that remembers every admission, so that no closed minute
      holds more admissions of a key than allowed and never more requests of a key are open than allowed; and it
      knows exactly how many are open. */
  lemma LimiterIsExact(c: Config, h: seq<Record>, key: string, a: int)
    requires Legal(h) && Produced(c, h) && key != ""
    ensures Remembered(c, h)
    ensures c.perMinute > 0 ==> CountIn(Times(h, key), a, a + 60) <= c.perMinute
    ensures c.concurrent > 0 ==> Outstanding(h, key) <= c.concurrent
    ensures EntryOf(After(c, h), key).inflight == Outstanding(h, key)
  {
    RunRefines(c, h, if h == [] then 0 else h[|h| - 1].event.now);
    RunRemembers(c, h);
    if c.perMinute > 0 { WindowOfRemembered(c, h, key, a); }
    if c.concurrent > 0 { LoadOfRemembered(c, h, key); }
  }

  /** The guard against a negative count and the check for a missing entry are never needed. */
  lemma ReleaseFindsItsEntry(c: Config, h: seq<Record>, key: string, now: int)
    requires Legal(h + [Record(Release(key, now), Returned)]) && Produced(c, h) && key != ""
    ensures key in After(c, h) && After(c, h)[key].inflight > 0
  {
    var h' := h + [Record(Release(key, now), Returned)];
    assert h'[..|h|] == h && h'[|h|].event == Release(key, now);
    forall k | 0 <= k < |h| ensures h'[..k] == h[..k] && h'[k] == h[k] {
    }
    assert Legal(h);
    LimiterIsExact(c, h, key, 0);
  }

  /** What the table knows of one key. */
  lemma KnownOf(c: Config, h: seq<Record>, key: string, clock: int)
    requires Legal(h) && Produced(c, h) && (h == [] || clock >= h[|h| - 1].event.now) && key != ""
    ensures var e := EntryOf(After(c, h), key);
      && e.inflight == Outstanding(h, key) && (c.perMinute == 0 ==> e.started == [])
      && Recent(e.started, clock - MINUTE) == if c.perMinute > 0 then Recent(Times(h, key), clock - MINUTE) else []
  {
    RunRefines(c, h, clock);
  }

  /** The table forgets: after a release its key is there exactly if a request is still open or, where admissions are
      counted, one was made in the minute before. */
  lemma TableForgets(c: Config, init: seq<Record>, r: Record)
    requires Legal(init + [r]) && Produced(c, init + [r]) && r.event.Release? && r.event.key != ""
    ensures var h, key := init + [r], r.event.key;
      key in After(c, h) <==>
        Outstanding(h, key) > 0 || (c.perMinute > 0 && Recent(Times(h, key), r.event.now - 60) != [])
  {
    var h, key := init + [r], r.event.key;
    assert h[|h| - 1] == r;
    KnownOf(c, h, key, r.event.now);
    var t := BeforeRelease(c, h, init, r);
    ReleasedEntry(c, t, After(c, h), key, r.event.now);
  }

  lemma BeforeRelease(c: Config, h: seq<Record>, init: seq<Record>, r: Record) returns (t: Table)
    requires Legal(h) && Produced(c, h) && h == init + [r] && r.event.Release? && r.event.key != ""
    ensures After(c, h) == ReleaseStep(c, t, r.event.key, r.event.now)
    ensures r.event.key in t && t[r.event.key].inflight > 0 && (c.perMinute == 0 ==> t[r.event.key].started == [])
  {
    LastRecord(c, init, r);
    KnownOf(c, init, r.event.key, r.event.now);
    t := After(c, init);
  }

  lemma ReleasedEntry(c: Config, t: Table, u: Table, key: string, now: int)
    requires u == ReleaseStep(c, t, key, now) && key in t && t[key].inflight > 0 && (c.perMinute == 0 ==> t[key].started == [])
    ensures key in u <==> EntryOf(u, key).inflight > 0 || Recent(EntryOf(u, key).started, now - MINUTE) != []
  {
    var e := GiveBack(c, t[key], now);
    RecentTwice(t[key].started, now - MINUTE, now - MINUTE);
  }
}

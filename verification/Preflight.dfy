/** The preflight that looks for a capacity error in the first event of an upstream stream before anything is
    sent to the client. What counts as a capacity error is an arbitrary function of the bytes. */
module Preflight {
  import opened Domain
  import opened Text

  const LIMIT := 8192
  const CHUNK := 1024
  const OK := 200
  const LF2 := "\n\n"
  const CRLF2 := "\r\n\r\n"

  /* ---------- the first event ---------- */

  predicate At(data: string, i: nat, sep: string) {
    i + |sep| <= |data| && data[i..i + |sep|] == sep
  }

  /** The least place from `i` on where `sep` stands, or -1. */
  function IndexFrom(data: string, i: nat, sep: string): (r: int)
    ensures r == -1 || (i <= r && At(data, r, sep))
    ensures forall j: nat | i <= j && (r == -1 || j < r) :: !At(data, j, sep)
    decreases |data| - i
  {
    if i > |data| then -1 else if At(data, i, sep) then i else IndexFrom(data, i + 1, sep)
  }

  /** The bytes up to and with the first blank line, in either of its two spellings. */
  function FirstEvent(data: string): Option<string> {
    var lf, crlf := IndexFrom(data, 0, LF2), IndexFrom(data, 0, CRLF2);
    if lf >= 0 && (crlf < 0 || lf <= crlf) then Some(data[..lf + 2])
    else if crlf >= 0 then Some(data[..crlf + 4])
    else None
  }

  /* ---------- reading ---------- */

  datatype End = Eof | Broken

  /** The bytes still to come and how the stream ends after them. */
  datatype Body = Body(rest: string, end: End)

  /** How one Read behaves: how many bytes it would like to return, whether it reports the end together with
      the last bytes, and whether the request was cancelled before it. */
  datatype Choice = Choice(take: nat, early: bool, cancelled: bool)

  type Schedule = nat -> Choice

  /** A Read into `size` bytes returns at least one byte unless the stream is at its end. */
  function Taken(b: Body, size: nat, ch: Choice): (n: nat)
    ensures n <= |b.rest| && n <= size && (size > 0 && b.rest != "" ==> n > 0)
  {
    var most := if |b.rest| < size then |b.rest| else size;
    if ch.take == 0 then (if most == 0 then 0 else 1) else if ch.take < most then ch.take else most
  }

  function Ended(b: Body, size: nat, ch: Choice): bool {
    Taken(b, size, ch) == |b.rest| && (b.rest == "" || ch.early)
  }

  function Left(b: Body, size: nat, ch: Choice): Body {
    b.(rest := b.rest[Taken(b, size, ch)..])
  }

  /* ---------- the preflight ---------- */

  /** A refusal carries the pattern found and a copy of what was read; an acceptance the bytes to replay and
      the body they are replayed in front of. */
  datatype Result = Cancelled | Failed | Refused(pattern: string, copy: string) | Accepted(prefix: string, body: Body)

  type Classifier = string -> Option<string>

  function Room(prefix: string): nat {
    if LIMIT - |prefix| >= CHUNK then CHUNK else if LIMIT >= |prefix| then LIMIT - |prefix| else 0
  }

  function AtEnd(f: Classifier, prefix: string, b: Body): Result {
    if b.end == Broken then Failed
    else if f(prefix).Some? then Refused(f(prefix).value, prefix)
    else Accepted(prefix, b)
  }

  /** The read loop, from its k-th iteration on. */
  function Scan(f: Classifier, prefix: string, b: Body, s: Schedule, k: nat): Result
    decreases |b.rest|
  {
    if |prefix| >= LIMIT then Accepted(prefix, b)
    else if s(k).cancelled then Cancelled
    else
      var n, rest := Taken(b, Room(prefix), s(k)), Left(b, Room(prefix), s(k));
      var read := prefix + b.rest[..n];
      if n > 0 && FirstEvent(read).Some? then
        var e := FirstEvent(read).value;
        if f(e).Some? then Refused(f(e).value, read) else Accepted(read, rest)
      else if Ended(b, Room(prefix), s(k)) then AtEnd(f, read, rest)
      else Scan(f, read, rest, s, k + 1)
  }

  predicate Contains(s: string, sub: string) {
    exists i | 0 <= i <= |s| :: At(s, i, sub)
  }

  /** Only a successful event stream is looked at. */
  function PreflightStream(f: Classifier, status: int, contentType: string, b: Body, s: Schedule): Result {
    if status != OK || !Contains(ToLower(contentType), "text/event-stream") then Accepted("", b) else Scan(f, "", b, s, 0)
  }

  /* ---------- conservation ---------- */

  lemma {:induction false} ScanConserves(f: Classifier, prefix: string, b: Body, s: Schedule, k: nat)
    requires |prefix| <= LIMIT
    ensures match Scan(f, prefix, b, s, k)
      case Accepted(p, rest) => p + rest.rest == prefix + b.rest && rest.end == b.end && |p| <= LIMIT
      case Refused(_, copy) => copy <= prefix + b.rest && |copy| <= LIMIT
      case _ => true
    decreases |b.rest|
  {
    if |prefix| < LIMIT && !s(k).cancelled {
      var n, rest := Taken(b, Room(prefix), s(k)), Left(b, Room(prefix), s(k));
      var read := prefix + b.rest[..n];
      assert b.rest == b.rest[..n] + b.rest[n..];
      assert read + rest.rest == prefix + b.rest;
      if !(n > 0 && FirstEvent(read).Some?) && !Ended(b, Room(prefix), s(k)) { ScanConserves(f, read, rest, s, k + 1); }
    }
  }

  /** Reads of the restored body: the prefix first, as fast as the buffer allows, then the original body. */
  function ReadRestored(prefix: string, b: Body, sizes: nat -> nat, s: Schedule, k: nat): string
    requires forall i :: sizes(i) > 0
    decreases |prefix| + |b.rest|
  {
    if prefix != "" then
      var n := if sizes(k) < |prefix| then sizes(k) else |prefix|;
      prefix[..n] + ReadRestored(prefix[n..], b, sizes, s, k + 1)
    else
      var n := Taken(b, sizes(k), s(k));
      if Ended(b, sizes(k), s(k)) then b.rest[..n]
      else b.rest[..n] + ReadRestored("", Left(b, sizes(k), s(k)), sizes, s, k + 1)
  }

  lemma {:induction false} RestoredBytes(prefix: string, b: Body, sizes: nat -> nat, s: Schedule, k: nat)
    requires forall i :: sizes(i) > 0
    ensures ReadRestored(prefix, b, sizes, s, k) == prefix + b.rest
    decreases |prefix| + |b.rest|
  {
    if prefix != "" {
      var n := if sizes(k) < |prefix| then sizes(k) else |prefix|;
      RestoredBytes(prefix[n..], b, sizes, s, k + 1);
      assert prefix == prefix[..n] + prefix[n..];
    } else if !Ended(b, sizes(k), s(k)) {
      var n := Taken(b, sizes(k), s(k));
      RestoredBytes("", Left(b, sizes(k), s(k)), sizes, s, k + 1);
      assert b.rest == b.rest[..n] + b.rest[n..];
    }
  }

  /** An accepted stream reaches the client byte for byte, for every way the upstream delivers it and every way
      the restored body is read, and no more than 8192 bytes are held back. */
  lemma AcceptedConserves(f: Classifier, status: int, contentType: string, b: Body, s: Schedule, sizes: nat -> nat,
                          t: Schedule)
    requires forall i :: sizes(i) > 0
    requires PreflightStream(f, status, contentType, b, s).Accepted?
    ensures var r := PreflightStream(f, status, contentType, b, s);
      ReadRestored(r.prefix, r.body, sizes, t, 0) == b.rest && r.body.end == b.end && |r.prefix| <= 8192
  {
    ScanConserves(f, "", b, s, 0);
    var r := PreflightStream(f, status, contentType, b, s);
    RestoredBytes(r.prefix, r.body, sizes, t, 0);
    assert "" + b.rest == b.rest;
  }

  /* ---------- the verdict does not depend on the reads ---------- */

  lemma AtPrefix(p: string, q: string, i: nat, sep: string)
    requires i + |sep| <= |p|
    ensures At(p + q, i, sep) == At(p, i, sep)
  {
    assert (p + q)[i..i + |sep|] == p[i..i + |sep|];
  }

  /** An index found is found in every extension, and nothing found stays before the end. */
  lemma IndexStable(p: string, q: string, sep: string)
    requires IndexFrom(p, 0, sep) >= 0
    ensures IndexFrom(p + q, 0, sep) == IndexFrom(p, 0, sep)
  {
    var i, j := IndexFrom(p, 0, sep), IndexFrom(p + q, 0, sep);
    AtPrefix(p, q, i, sep);
    assert 0 <= j <= i;
    AtPrefix(p, q, j, sep);
  }

  lemma BlankLineChars(data: string, i: nat)
    ensures At(data, i, LF2) ==> data[i] == data[i + 1] == '\n'
    ensures At(data, i, CRLF2) ==> data[i + 1] == '\n' && data[i + 2] == '\r'
  {
    if At(data, i, LF2) { assert data[i..i + 2][0] == '\n' && data[i..i + 2][1] == '\n'; }
    if At(data, i, CRLF2) { assert data[i..i + 4][1] == '\n' && data[i..i + 4][2] == '\r'; }
  }

  /** A blank line spelled with carriage returns that starts before a plain one also ends before it does. */
  lemma EarlierCrlf(p: string, q: string, lf: nat, crlf: nat)
    requires At(p, lf, LF2) && At(p + q, crlf, CRLF2) && crlf < lf
    ensures At(p, crlf, CRLF2)
  {
    BlankLineChars(p, lf);
    BlankLineChars(p + q, crlf);
    assert crlf + 4 <= |p|;
    AtPrefix(p, q, crlf, CRLF2);
  }

  /** The first event is stable: nothing that a later read completes starts before it. */
  lemma FirstEventStable(p: string, q: string)
    requires FirstEvent(p).Some?
    ensures FirstEvent(p + q) == FirstEvent(p)
  {
    var lf, crlf := IndexFrom(p, 0, LF2), IndexFrom(p, 0, CRLF2);
    var lf', crlf' := IndexFrom(p + q, 0, LF2), IndexFrom(p + q, 0, CRLF2);
    FirstEventTaken(p, q);
    if crlf >= 0 { IndexStable(p, q, CRLF2); }
    if lf >= 0 {
      IndexStable(p, q, LF2);
      if 0 <= crlf' < lf { EarlierCrlf(p, q, lf, crlf'); }
    } else if 0 <= lf' <= crlf {
      AtPrefix(p, q, lf', LF2);
    }
  }

  lemma FirstEventTaken(p: string, q: string)
    ensures forall i | 0 <= i <= |p| :: (p + q)[..i] == p[..i]
  {
  }

  /** The first event ends with the first separator, of either kind, and there is one exactly if there is a separator. */
  lemma FirstEventNearest(data: string)
    ensures FirstEvent(data).None? <==> forall i: nat :: !At(data, i, "\n\n") && !At(data, i, "\r\n\r\n")
    ensures FirstEvent(data).Some? ==>
      exists i: nat | i <= |data| ::
        && (forall j: nat | j < i :: !At(data, j, "\n\n") && !At(data, j, "\r\n\r\n"))
        && ((At(data, i, "\n\n") && FirstEvent(data) == Some(data[..i + 2]))
            || (At(data, i, "\r\n\r\n") && FirstEvent(data) == Some(data[..i + 4])))
  {
    var lf, crlf := IndexFrom(data, 0, LF2), IndexFrom(data, 0, CRLF2);
    var i := if lf >= 0 && (crlf < 0 || lf <= crlf) then lf else crlf;
    if i >= 0 { assert forall j: nat | j < i :: !At(data, j, LF2) && !At(data, j, CRLF2); }
  }

  /** What the client is told, without the copies of the bytes. */
  datatype Verdict = Gone | Lost | Capacity(pattern: string) | Pass

  function VerdictOf(r: Result): Verdict {
    match r
    case Cancelled => Gone
    case Failed => Lost
    case Refused(p, _) => Capacity(p)
    case Accepted(_, _) => Pass
  }

  function Judge(f: Classifier, bytes: string): Verdict {
    if f(bytes).Some? then Capacity(f(bytes).value) else Pass
  }

  /** The verdict at the end of a stream without a complete event. */
  function EndVerdict(f: Classifier, b: Body): Verdict {
    if b.end == Broken then Lost else Judge(f, b.rest)
  }

  function Head(b: Body): string {
    if |b.rest| <= 8192 then b.rest else b.rest[..8192]
  }

  /** The verdict as a function of the whole stream. */
  function Expected(f: Classifier, b: Body): Verdict {
    if FirstEvent(Head(b)).Some? then Judge(f, FirstEvent(Head(b)).value)
    else if |b.rest| < 8192 then EndVerdict(f, b)
    else Pass
  }

  /** The stream ends exactly at the limit without a complete event. */
  predicate Edge(b: Body) {
    |b.rest| == 8192 && FirstEvent(b.rest).None?
  }

  ghost predicate Uncancelled(s: Schedule) {
    forall k :: !s(k).cancelled
  }

  /** `whole` is the stream of which `prefix` was read so far without a complete event. */
  ghost predicate Reading(whole: Body, prefix: string, b: Body) {
    whole == Body(prefix + b.rest, b.end) && |prefix| <= LIMIT && FirstEvent(prefix).None?
  }

  /** One uncancelled iteration: a complete event, the end, or more to read. */
  lemma ReadStep(whole: Body, prefix: string, b: Body, ch: Choice)
    requires Reading(whole, prefix, b) && |prefix| < LIMIT
    ensures var n, rest := Taken(b, Room(prefix), ch), Left(b, Room(prefix), ch); var read := prefix + b.rest[..n];
      && read + rest.rest == whole.rest && |read| <= LIMIT
      && (n == 0 ==> read == prefix) && (n > 0 || Ended(b, Room(prefix), ch))
      && (FirstEvent(read).None? ==> Reading(whole, read, rest))
  {
    var n := Taken(b, Room(prefix), ch);
    assert b.rest == b.rest[..n] + b.rest[n..];
    assert prefix + b.rest[..n] + b.rest[n..] == whole.rest;
    if n == 0 { assert prefix + b.rest[..n] == prefix; }
  }

  lemma {:induction false} ScanVerdict(f: Classifier, whole: Body, prefix: string, b: Body, s: Schedule, k: nat)
    requires Reading(whole, prefix, b) && Uncancelled(s)
    ensures var v := VerdictOf(Scan(f, prefix, b, s, k));
      if Edge(whole) then v == Pass || v == EndVerdict(f, whole) else v == Expected(f, whole)
    decreases |b.rest|
  {
    if |prefix| == LIMIT {
      assert Head(whole) == prefix;
    } else {
      var n, rest := Taken(b, Room(prefix), s(k)), Left(b, Room(prefix), s(k));
      var read := prefix + b.rest[..n];
      ReadStep(whole, prefix, b, s(k));
      if n > 0 && FirstEvent(read).Some? {
        EventVerdict(whole, read, rest.rest);
      } else if Ended(b, Room(prefix), s(k)) {
        assert read == whole.rest;
      } else {
        ScanVerdict(f, whole, read, rest, s, k + 1);
      }
    }
  }

  ghost predicate AlwaysEarly(s: Schedule, early: bool) {
    forall k :: s(k).early == early
  }

  /** At the edge, the verdict turns on whether the end is reported with the last bytes. */
  lemma {:induction false} EdgeVerdict(f: Classifier, whole: Body, prefix: string, b: Body, s: Schedule, k: nat,
                                       early: bool)
    requires Reading(whole, prefix, b) && Uncancelled(s) && Edge(whole) && |prefix| < LIMIT && AlwaysEarly(s, early)
    ensures VerdictOf(Scan(f, prefix, b, s, k)) == if early then EndVerdict(f, whole) else Pass
    decreases |b.rest|
  {
    var n, rest := Taken(b, Room(prefix), s(k)), Left(b, Room(prefix), s(k));
    var read := prefix + b.rest[..n];
    ReadStep(whole, prefix, b, s(k));
    if FirstEvent(read).Some? { EventVerdict(whole, read, rest.rest); }
    if |read| < LIMIT {
      EdgeVerdict(f, whole, read, rest, s, k + 1, early);
    } else {
      assert read == whole.rest && rest.rest == "";
    }
  }

  lemma EventVerdict(whole: Body, read: string, later: string)
    requires read + later == whole.rest && |read| <= LIMIT && FirstEvent(read).Some?
    ensures FirstEvent(Head(whole)) == FirstEvent(read) && !Edge(whole)
  {
    FirstEventStable(read, later);
    var more := Head(whole)[|read|..];
    assert Head(whole) == read + more;
    FirstEventStable(read, more);
  }

  lemma StartsReading(b: Body)
    ensures Reading(b, "", b)
  {
    assert "" + b.rest == b.rest;
  }

  /** The verdict on an uncancelled event stream is the expected one, however it is delivered, except for a stream
      that ends exactly at the limit without a complete event. */
  lemma VerdictExpected(f: Classifier, b: Body, s: Schedule)
    requires Uncancelled(s) && !Edge(b)
    ensures VerdictOf(Scan(f, "", b, s, 0)) == Expected(f, b)
  {
    StartsReading(b);
    ScanVerdict(f, b, "", b, s, 0);
  }

  /** The whole preflight: a response that is not a successful event stream passes as it is; on an event stream the verdict
      is the expected one, off the edge. */
  lemma PreflightExpected(f: Classifier, status: int, contentType: string, b: Body, s: Schedule)
    requires Uncancelled(s)
    ensures var r := PreflightStream(f, status, contentType, b, s);
      if status == 200 && exists i: nat :: At(ToLower(contentType), i, "text/event-stream") then
        !Edge(b) ==> VerdictOf(r) == Expected(f, b)
      else r == Accepted("", b)
  {
    assert Contains(ToLower(contentType), "text/event-stream") == exists i: nat :: At(ToLower(contentType), i, "text/event-stream");
    if !Edge(b) { VerdictExpected(f, b, s); }
  }

  function Steady(early: bool): Schedule {
    (k: nat) => Choice(CHUNK, early, false)
  }

  /** The verdict is independent of the delivery exactly unless the stream ends at the limit without a complete
      event and its end alone would not let it pass: then it passes when the end is reported late only. */
  lemma VerdictIndependentIff(f: Classifier, b: Body)
    ensures (forall s, t | Uncancelled(s) && Uncancelled(t) :: VerdictOf(Scan(f, "", b, s, 0)) == VerdictOf(Scan(f, "", b, t, 0)))
       <==> !(Edge(b) && EndVerdict(f, b) != Pass)
  {
    StartsReading(b);
    if Edge(b) && EndVerdict(f, b) != Pass {
      EdgeVerdict(f, b, "", b, Steady(true), 0, true);
      EdgeVerdict(f, b, "", b, Steady(false), 0, false);
      assert Uncancelled(Steady(true)) && Uncancelled(Steady(false));
    } else {
      forall s, t | Uncancelled(s) && Uncancelled(t)
        ensures VerdictOf(Scan(f, "", b, s, 0)) == VerdictOf(Scan(f, "", b, t, 0))
      {
        ScanVerdict(f, b, "", b, s, 0);
        ScanVerdict(f, b, "", b, t, 0);
      }
    }
  }
}

/** The preflight as the program runs it: a prefix buffer grown by a read loop over a body that is consumed in
    place. The loop is proved to do what module Preflight says. */
module PreflightLoop {
  import opened Domain
  import opened Text
  import opened Preflight

  /** A response body; the schedule decides how each read behaves. */
  class ResponseBody {
    var rest: string
    var closed: bool
    var readCount: nat
    const end: End
    const schedule: Schedule

    constructor (bytes: string, end: End, schedule: Schedule)
      ensures View() == Body(bytes, end) && !closed && readCount == 0 && this.schedule == schedule
    {
      rest, closed, readCount, this.end, this.schedule := bytes, false, 0, end, schedule;
    }

    ghost function View(): Body
      reads this
    {
      Body(rest, end)
    }

    method Read(size: nat) returns (got: string, ended: bool)
      modifies this`rest, this`readCount
      ensures var ch := schedule(old(readCount));
        && got == old(rest)[..Taken(old(View()), size, ch)] && View() == Left(old(View()), size, ch)
        && ended == Ended(old(View()), size, ch)
      ensures readCount == old(readCount) + 1
    {
      var n := Taken(Body(rest, end), size, schedule(readCount));
      got := rest[..n];
      rest := rest[n..];
      ended := rest == "" && (n == 0 || schedule(readCount).early);
      readCount := readCount + 1;
    }

    method Close()
      modifies this`closed
      ensures closed
    {
      closed := true;
    }
  }

  /** firstCompleteSSEEvent: the nearest of the two separators. */
  method FirstCompleteEvent(data: string) returns (event: Option<string>)
    ensures event == FirstEvent(data)
  {
    var separators := [LF2, CRLF2];
    var end, separatorLen := -1, 0;
    for i := 0 to 2
      invariant i == 0 ==> end == -1
      invariant i == 1 ==> end == IndexFrom(data, 0, LF2) && (end >= 0 ==> separatorLen == 2)
      invariant i == 2 && end < 0 ==> FirstEvent(data) == None
      invariant i == 2 && end >= 0 ==> 0 <= end + separatorLen <= |data| && FirstEvent(data) == Some(data[..end + separatorLen])
    {
      var at := IndexFrom(data, 0, separators[i]);
      if at >= 0 && (end < 0 || at < end) { end, separatorLen := at, |separators[i]|; }
    }
    event := if end < 0 then None else Some(data[..end + separatorLen]);
  }

  /** The read loop; the body is closed exactly when it is not handed on. */
  method ScanBody(f: Classifier, body: ResponseBody) returns (r: Result)
    requires body.readCount == 0 && !body.closed
    modifies body
    ensures r == Scan(f, "", old(body.View()), body.schedule, 0)
    ensures body.closed == !r.Accepted? && (r.Accepted? ==> r.body == body.View())
  {
    var prefix := "";
    ghost var start := body.View();
    while |prefix| < LIMIT
      invariant !body.closed && |prefix| <= LIMIT
      invariant Scan(f, prefix, body.View(), body.schedule, body.readCount) == Scan(f, "", start, body.schedule, 0)
      decreases |body.rest|, LIMIT - |prefix|
    {
      if body.schedule(body.readCount).cancelled {
        body.Close();
        return Cancelled;
      }
      var remaining := LIMIT - |prefix|;
      var got, ended := body.Read(if remaining < CHUNK then remaining else CHUNK);
      prefix := prefix + got;
      if got != "" {
        var event := FirstCompleteEvent(prefix);
        if event.Some? {
          var pattern := f(event.value);
          if pattern.Some? {
            body.Close();
            return Refused(pattern.value, prefix);
          }
          return Accepted(prefix, Body(body.rest, body.end));
        }
      }
      if ended {
        if body.end == Broken {
          body.Close();
          return Failed;
        }
        var pattern := f(prefix);
        if pattern.Some? {
          body.Close();
          return Refused(pattern.value, prefix);
        }
        return Accepted(prefix, Body(body.rest, body.end));
      }
    }
    r := Accepted(prefix, Body(body.rest, body.end));
  }
}

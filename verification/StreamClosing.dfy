/** When [DONE] is the last thing the client gets: exactly if no line after the one that closed the stream emits
    anything. What a line emits is read off the input: its event type, its payload and the lines before it. */
module StreamClosing {
  import opened Domain
  import opened Text
  import opened StreamWriter
  import opened StreamSafety

  /* ---------- what the input says ---------- */

  /** What the lines so far determine: the event type, the id of chunks, and whether the role was announced. */
  datatype Reading = Reading(last: string, chunkId: string, roleSent: bool)

  const START: Reading := Reading("", "", false)

  function Renamed(chunkId: string, id: Option<string>): string {
    if id.Some? && TrimSpace(id.value) != "" then id.value else chunkId
  }

  function ReadClaude(d: Dialect, r: Reading, payload: string): Reading
    requires d.ClaudeEvents?
  {
    if r.last != "message_start" then r
    else Reading(r.last, Renamed(r.chunkId, d.messageId(payload)), true)
  }

  function ReadGemini(d: Dialect, r: Reading, payload: string): Reading
    requires d.GeminiEvents?
  {
    if payload == "" || payload == "[DONE]" then r
    else
      match d.parse(payload)
      case None => r
      case Some(reply) =>
        Reading(r.last, Renamed(r.chunkId, Some(reply.responseId)),
                r.roleSent || (reply.candidates != [] && reply.candidates[0].parts.Some?))
  }

  /** What is known after one more line. */
  function Read(d: Dialect, r: Reading, line: string): Reading {
    match d
    case ClaudeEvents(_, _, _, _) =>
      if HasPrefix(line, "event: ") then r.(last := After(line, "event: "))
      else if HasPrefix(line, "data: ") then ReadClaude(d, r, After(line, "data: "))
      else r
    case GeminiEvents(_, _) =>
      if HasPrefix(line, "data: ") then ReadGemini(d, r, TrimSpace(After(line, "data: "))) else r
  }

  /** The line asks for [DONE] to be sent. */
  predicate Closes(d: Dialect, last: string, line: string) {
    && HasPrefix(line, "data: ")
    && match d
       case ClaudeEvents(_, _, _, _) => last == "message_stop"
       case GeminiEvents(_, _) => TrimSpace(After(line, "data: ")) == "" || TrimSpace(After(line, "data: ")) == "[DONE]"
  }

  /** A chunk with these contents can be printed. */
  predicate Prints(c: Codec, chunkId: string, d: Delta, finish: Option<string>) {
    c.encode(if TrimSpace(chunkId) != "" then chunkId else "chatcmpl-compat", d, finish).Some?
  }

  predicate PrintsRole(c: Codec, r: Reading, chunkId: string) {
    !r.roleSent && Prints(c, chunkId, Delta("assistant", ""), None)
  }

  predicate EmitsClaude(c: Codec, r: Reading, payload: string)
    requires c.dialect.ClaudeEvents?
  {
    match r.last
    case "message_start" => PrintsRole(c, r, Renamed(r.chunkId, c.dialect.messageId(payload)))
    case "content_block_delta" =>
      && c.dialect.delta(payload).Some?
      && var (kind, text) := c.dialect.delta(payload).value;
         kind == "text_delta" && text != "" && Prints(c, r.chunkId, Delta("", text), None)
    case "message_delta" =>
      && c.dialect.stopReason(payload).Some?
      && var reason := c.dialect.stopReason(payload).value;
         TrimSpace(reason) != "" && Prints(c, r.chunkId, Delta("", ""), Some(c.dialect.claudeFinish(reason)))
    case "ping" => true
    case _ => false
  }

  predicate EmitsParts(c: Codec, r: Reading, chunkId: string, parts: seq<string>) {
    PrintsRole(c, r, chunkId) || (Concat(parts) != "" && Prints(c, chunkId, Delta("", Concat(parts)), None))
  }

  predicate EmitsFinish(c: Codec, chunkId: string, finish: string)
    requires c.dialect.GeminiEvents?
  {
    TrimSpace(finish) != "" && Prints(c, chunkId, Delta("", ""), Some(c.dialect.geminiFinish(finish)))
  }

  predicate EmitsCandidate(c: Codec, r: Reading, chunkId: string, candidate: GeminiCandidate)
    requires c.dialect.GeminiEvents?
  {
    (candidate.parts.Some? && EmitsParts(c, r, chunkId, candidate.parts.value)) || EmitsFinish(c, chunkId, candidate.finish)
  }

  predicate EmitsGemini(c: Codec, r: Reading, payload: string)
    requires c.dialect.GeminiEvents?
  {
    && payload != "" && payload != "[DONE]" && c.dialect.parse(payload).Some?
    && var reply := c.dialect.parse(payload).value;
       reply.candidates != [] && EmitsCandidate(c, r, Renamed(r.chunkId, Some(reply.responseId)), reply.candidates[0])
  }

  /** The line makes the writer send something other than [DONE]. */
  predicate Emits(c: Codec, r: Reading, line: string) {
    && HasPrefix(line, "data: ")
    && match c.dialect
       case ClaudeEvents(_, _, _, _) => EmitsClaude(c, r, After(line, "data: "))
       case GeminiEvents(_, _) => EmitsGemini(c, r, TrimSpace(After(line, "data: ")))
  }

  predicate AnyEmits(c: Codec, r: Reading, lines: seq<string>)
    decreases |lines|
  {
    lines != [] && (Emits(c, r, lines[0]) || AnyEmits(c, Read(c.dialect, r, lines[0]), lines[1..]))
  }

  /** Some line closes the stream, and some line after it emits something. */
  predicate EmitsLate(c: Codec, r: Reading, lines: seq<string>)
    decreases |lines|
  {
    && lines != []
    && var next := Read(c.dialect, r, lines[0]);
       if Closes(c.dialect, r.last, lines[0]) then AnyEmits(c, next, lines[1..]) else EmitsLate(c, next, lines[1..])
  }

  /* ---------- what one line sends ---------- */

  predicate EndsDone(pieces: seq<Piece>) {
    pieces != [] && pieces[|pieces| - 1].kind == DonePiece
  }

  /** `v` is `w` after further writes, none of them [DONE]; some exactly if `emits`. */
  predicate Sends(w: Output, v: Output, emits: bool) {
    && !v.failed && v.doneSent == w.doneSent && v.lastEvent == w.lastEvent
    && if emits then v.pieces != [] && !EndsDone(v.pieces) else v.pieces == w.pieces
  }

  predicate Known(w: Output, r: Reading) {
    w.lastEvent == r.last && w.chunkId == r.chunkId && w.roleSent == r.roleSent
  }

  predicate SameNames(w: Output, v: Output) {
    v.chunkId == w.chunkId && v.roleSent == w.roleSent
  }

  lemma SendsFrame(c: Codec, w: Output, kind: Kind, a: string, b: string, d: string)
    requires NeverFails(c) && !w.failed && kind != DonePiece
    ensures var v := SendAll(c, w, kind, [a, b, d]); Sends(w, v, true) && SameNames(w, v)
  {
    FrameSent(c, w, kind, a, b, d);
  }

  lemma SendsChunk(c: Codec, w: Output, d: Delta, finish: Option<string>)
    requires NeverFails(c) && !w.failed
    ensures var v := EmitChunk(c, w, d, finish); Sends(w, v, Prints(c, w.chunkId, d, finish)) && SameNames(w, v)
  {
    match c.encode(ChunkId(w.(headers := true)), d, finish)
    case None =>
    case Some(body) =>
      var v := w.(headers := true, contentChunks := if d.content != "" then w.contentChunks + 1 else w.contentChunks,
                  chunks := w.chunks + 1);
      SendsFrame(c, v, ChunkPiece, DATA, body, "\n\n");
  }

  lemma SendsRole(c: Codec, w: Output, r: Reading)
    requires NeverFails(c) && !w.failed && w.roleSent == r.roleSent
    ensures var v := EmitRole(c, w); Sends(w, v, PrintsRole(c, r, w.chunkId)) && v.chunkId == w.chunkId && v.roleSent
  {
    if !w.roleSent { SendsChunk(c, w.(roleSent := true), Delta("assistant", ""), None); }
  }

  lemma ClaudeSends(c: Codec, w: Output, r: Reading, payload: string)
    requires c.dialect.ClaudeEvents? && NeverFails(c) && !w.failed && Known(w, r) && r.last != "message_stop"
    ensures var v := ClaudeData(c, w, payload);
      Sends(w, v, EmitsClaude(c, r, payload)) && Known(v, ReadClaude(c.dialect, r, payload))
  {
    if r.last == "message_start" {
      SendsRole(c, w.(chunkId := Renamed(w.chunkId, c.dialect.messageId(payload))), r);
    } else if r.last == "content_block_delta" {
      var d := c.dialect.delta(payload);
      if d.Some? { SendsChunk(c, w, Delta("", d.value.1), None); }
    } else if r.last == "message_delta" {
      var reason := c.dialect.stopReason(payload);
      if reason.Some? { SendsChunk(c, w, Delta("", ""), Some(c.dialect.claudeFinish(reason.value))); }
    } else if r.last == "ping" {
      SendsFrame(c, w.(headers := true), PingPiece, ": ", "ping", "\n\n");
    }
  }

  lemma ContentSends(c: Codec, w: Output, r: Reading, parts: seq<string>)
    requires NeverFails(c) && !w.failed && w.roleSent == r.roleSent
    ensures var v := GeminiContent(c, w, parts);
      Sends(w, v, EmitsParts(c, r, w.chunkId, parts)) && v.chunkId == w.chunkId && v.roleSent
  {
    JoinedIsConcat(parts);
    SendsRole(c, w, r);
    SendsChunk(c, EmitRole(c, w), Delta("", Joined(parts)), None);
  }

  lemma FinishSends(c: Codec, w: Output, finish: string)
    requires c.dialect.GeminiEvents? && NeverFails(c) && !w.failed
    ensures var v := GeminiCandidateLine(c, w, GeminiCandidate(None, finish));
      Sends(w, v, EmitsFinish(c, w.chunkId, finish)) && SameNames(w, v)
  {
    SendsChunk(c, w.(terminal := true), Delta("", ""), Some(c.dialect.geminiFinish(finish)));
  }

  lemma CandidateSends(c: Codec, w: Output, r: Reading, candidate: GeminiCandidate)
    requires c.dialect.GeminiEvents? && NeverFails(c) && !w.failed && w.roleSent == r.roleSent
    ensures var v := GeminiCandidateLine(c, w, candidate);
      && Sends(w, v, EmitsCandidate(c, r, w.chunkId, candidate))
      && v.chunkId == w.chunkId && v.roleSent == (w.roleSent || candidate.parts.Some?)
  {
    if candidate.parts.Some? {
      ContentSends(c, w, r, candidate.parts.value);
      var u := GeminiContent(c, w, candidate.parts.value);
      FinishSends(c, u, candidate.finish);
      assert GeminiCandidateLine(c, w, candidate) == GeminiCandidateLine(c, u, GeminiCandidate(None, candidate.finish));
    } else {
      FinishSends(c, w, candidate.finish);
    }
  }

  lemma GeminiSends(c: Codec, w: Output, r: Reading, payload: string)
    requires c.dialect.GeminiEvents? && NeverFails(c) && !w.failed && Known(w, r) && payload != "" && payload != DONE
    ensures var v := GeminiData(c, w, payload);
      Sends(w, v, EmitsGemini(c, r, payload)) && Known(v, ReadGemini(c.dialect, r, payload))
  {
    match c.dialect.parse(payload)
    case None =>
    case Some(reply) =>
      var u := w.(chunkId := Renamed(w.chunkId, Some(reply.responseId)));
      if reply.candidates != [] { CandidateSends(c, u, r, reply.candidates[0]); }
  }

  /** A line that does not close the stream sends something exactly if it emits, and never [DONE]. */
  lemma LineSends(c: Codec, w: Output, r: Reading, line: string)
    requires NeverFails(c) && !w.failed && Known(w, r) && !Closes(c.dialect, r.last, line)
    ensures Sends(w.(lastEvent := Read(c.dialect, r, line).last), Handle(c, w, line), Emits(c, r, line))
    ensures Known(Handle(c, w, line), Read(c.dialect, r, line))
  {
    if HasPrefix(line, DATA) {
      assert !HasPrefix(line, EVENT) by { assert DATA[0] != EVENT[0]; }
      if c.dialect.ClaudeEvents? {
        ClaudeSends(c, w, r, After(line, DATA));
      } else {
        GeminiSends(c, w, r, TrimSpace(After(line, DATA)));
      }
    }
  }

  /** A line that closes the stream sends [DONE] unless that was done before, and nothing else. */
  lemma LineCloses(c: Codec, w: Output, r: Reading, line: string)
    requires NeverFails(c) && !w.failed && Known(w, r) && Closes(c.dialect, r.last, line)
    ensures var v := Handle(c, w, line);
      && !v.failed && v.doneSent && Known(v, Read(c.dialect, r, line))
      && if w.doneSent then v.pieces == w.pieces else EndsDone(v.pieces)
    ensures !Emits(c, r, line)
  {
    assert !HasPrefix(line, EVENT) by { assert DATA[0] != EVENT[0]; }
  }

  /* ---------- what all lines send ---------- */

  lemma {:induction false} FoldClosed(c: Codec, w: Output, r: Reading, lines: seq<string>)
    requires NeverFails(c) && !w.failed && Known(w, r) && w.doneSent
    ensures var v := Fold(c, w, lines);
      !v.failed && v.doneSent && EndsDone(v.pieces) == (EndsDone(w.pieces) && !AnyEmits(c, r, lines))
    decreases |lines|
  {
    if lines != [] {
      if Closes(c.dialect, r.last, lines[0]) { LineCloses(c, w, r, lines[0]); } else { LineSends(c, w, r, lines[0]); }
      FoldClosed(c, Handle(c, w, lines[0]), Read(c.dialect, r, lines[0]), lines[1..]);
    }
  }

  lemma {:induction false} FoldOpen(c: Codec, w: Output, r: Reading, lines: seq<string>)
    requires NeverFails(c) && !w.failed && Known(w, r) && !w.doneSent
    ensures EndsDone(Close(c, Fold(c, w, lines)).pieces) == !EmitsLate(c, r, lines)
    decreases |lines|
  {
    if lines != [] {
      var v, next := Handle(c, w, lines[0]), Read(c.dialect, r, lines[0]);
      if Closes(c.dialect, r.last, lines[0]) {
        LineCloses(c, w, r, lines[0]);
        FoldClosed(c, v, next, lines[1..]);
      } else {
        LineSends(c, w, r, lines[0]);
        FoldOpen(c, v, next, lines[1..]);
      }
    }
  }

  /** If no downstream write fails, [DONE] is the last write if and only if no line after the one that closed the
      stream emits anything; with no closing line the finalizer's [DONE] is last. */
  lemma DoneIsLastIff(c: Codec, started: bool, chunks: seq<string>)
    requires NeverFails(c)
    ensures var o := Finalize(c, WriteAll(c, FRESH.(status := if started then 200 else 0), chunks)).out;
      EndsDone(o.pieces) <==> !EmitsLate(c, START, SplitLines(Concat(chunks)))
  {
    StreamRefinesReference(c, started, chunks);
    FoldOpen(c, NOTHING, START, SplitLines(Concat(chunks)));
  }
}

/** The bytes the client gets: one well-formed event per chunk, comment or closing mark, each read off the input line
    that causes it, in the order of the lines. */
module StreamBytes {
  import opened Domain
  import opened Text
  import opened StreamWriter
  import opened StreamSafety
  import opened StreamClosing

  /* ---------- what the lines cause ---------- */

  /** One event of the stream. */
  function Event(body: string): string {
    "data: " + body + "\n\n"
  }

  /** The event of a chunk; nothing if it cannot be printed. */
  function ChunkEvent(c: Codec, chunkId: string, d: Delta, finish: Option<string>): string {
    var printed := c.encode(if TrimSpace(chunkId) != "" then chunkId else "chatcmpl-compat", d, finish);
    if printed.Some? then Event(printed.value) else ""
  }

  /** The role is announced once. */
  function RoleEvent(c: Codec, r: Reading, chunkId: string): string {
    if r.roleSent then "" else ChunkEvent(c, chunkId, Delta("assistant", ""), None)
  }

  function TextEvent(c: Codec, chunkId: string, text: string): string {
    if text == "" then "" else ChunkEvent(c, chunkId, Delta("", text), None)
  }

  function ClaudeBytes(c: Codec, r: Reading, payload: string): string
    requires c.dialect.ClaudeEvents?
  {
    match r.last
    case "message_start" => RoleEvent(c, r, Renamed(r.chunkId, c.dialect.messageId(payload)))
    case "content_block_delta" =>
      var d := c.dialect.delta(payload);
      if d.Some? && d.value.0 == "text_delta" then TextEvent(c, r.chunkId, d.value.1) else ""
    case "message_delta" =>
      var reason := c.dialect.stopReason(payload);
      if reason.Some? && TrimSpace(reason.value) != ""
      then ChunkEvent(c, r.chunkId, Delta("", ""), Some(c.dialect.claudeFinish(reason.value))) else ""
    case "ping" => ": ping\n\n"
    case _ => ""
  }

  function FinishEvent(c: Codec, chunkId: string, finish: string): string
    requires c.dialect.GeminiEvents?
  {
    if TrimSpace(finish) == "" then "" else ChunkEvent(c, chunkId, Delta("", ""), Some(c.dialect.geminiFinish(finish)))
  }

  function PartsBytes(c: Codec, r: Reading, chunkId: string, parts: seq<string>): string {
    RoleEvent(c, r, chunkId) + TextEvent(c, chunkId, Concat(parts))
  }

  function CandidateBytes(c: Codec, r: Reading, chunkId: string, candidate: GeminiCandidate): string
    requires c.dialect.GeminiEvents?
  {
    (if candidate.parts.Some? then PartsBytes(c, r, chunkId, candidate.parts.value) else "")
    + FinishEvent(c, chunkId, candidate.finish)
  }

  function GeminiBytes(c: Codec, r: Reading, payload: string): string
    requires c.dialect.GeminiEvents?
  {
    match c.dialect.parse(payload)
    case None => ""
    case Some(reply) =>
      if reply.candidates == [] then ""
      else CandidateBytes(c, r, Renamed(r.chunkId, Some(reply.responseId)), reply.candidates[0])
  }

  /** What a line that does not close the stream causes after the lines that `r` stands for. */
  function LineBytes(c: Codec, r: Reading, line: string): string {
    if !HasPrefix(line, "data: ") then ""
    else
      var payload := line[6..];
      match c.dialect
      case ClaudeEvents(_, _, _, _) => ClaudeBytes(c, r, payload)
      case GeminiEvents(_, _) => GeminiBytes(c, r, TrimSpace(payload))
  }

  /** What a line causes, the closing mark included, which is sent once. */
  function Caused(c: Codec, r: Reading, closed: bool, line: string): string {
    if !Closes(c.dialect, r.last, line) then LineBytes(c, r, line) else if closed then "" else "data: [DONE]\n\n"
  }

  /** What the lines cause after those of `r`, and the closing mark: at the first line that closes, or else at the end. */
  function AllBytes(c: Codec, r: Reading, closed: bool, lines: seq<string>): string
    decreases |lines|
  {
    if lines == [] then (if closed then "" else "data: [DONE]\n\n")
    else
      Caused(c, r, closed, lines[0])
      + AllBytes(c, Read(c.dialect, r, lines[0]), closed || Closes(c.dialect, r.last, lines[0]), lines[1..])
  }

  /* ---------- what is written ---------- */

  /** The bytes of all writes, in order. */
  function Written(pieces: seq<Piece>): string {
    if pieces == [] then "" else Written(pieces[..|pieces| - 1]) + pieces[|pieces| - 1].text
  }

  /** `v` is `w` after writing `more`. */
  ghost predicate Writes(w: Output, v: Output, more: string) {
    !v.failed && Written(v.pieces) == Written(w.pieces) + more
  }

  lemma SendWrites(c: Codec, w: Output, p: Piece)
    requires NeverFails(c) && !w.failed
    ensures Writes(w, Send(c, w, p), p.text)
  {
    assert (w.pieces + [p])[..|w.pieces|] == w.pieces;
  }

  lemma FrameWrites(c: Codec, w: Output, kind: Kind, a: string, b: string, d: string)
    requires NeverFails(c) && !w.failed
    ensures Writes(w, SendAll(c, w, kind, [a, b, d]), a + b + d)
  {
    FrameSent(c, w, kind, a, b, d);
    var x := Send(c, w, Piece(kind, a));
    SendWrites(c, w, Piece(kind, a));
    SendWrites(c, x, Piece(kind, b));
    SendWrites(c, Send(c, x, Piece(kind, b)), Piece(kind, d));
    assert Written(w.pieces) + a + b + d == Written(w.pieces) + (a + b + d);
  }

  lemma ChunkWrites(c: Codec, w: Output, d: Delta, finish: Option<string>)
    requires NeverFails(c) && !w.failed
    ensures Writes(w, EmitChunk(c, w, d, finish), ChunkEvent(c, w.chunkId, d, finish))
  {
    match c.encode(ChunkId(w.(headers := true)), d, finish)
    case None =>
      assert Written(w.pieces) + "" == Written(w.pieces);
    case Some(body) =>
      var v := w.(headers := true, contentChunks := if d.content != "" then w.contentChunks + 1 else w.contentChunks,
                  chunks := w.chunks + 1);
      FrameWrites(c, v, ChunkPiece, "data: ", body, "\n\n");
  }

  lemma RoleWrites(c: Codec, w: Output, r: Reading)
    requires NeverFails(c) && !w.failed && w.roleSent == r.roleSent
    ensures Writes(w, EmitRole(c, w), RoleEvent(c, r, w.chunkId)) && EmitRole(c, w).chunkId == w.chunkId
  {
    SendsRole(c, w, r);
    if w.roleSent {
      assert Written(w.pieces) + "" == Written(w.pieces);
    } else {
      ChunkWrites(c, w.(roleSent := true), Delta("assistant", ""), None);
    }
  }

  lemma NothingWritten(w: Output, v: Output)
    requires !v.failed && v.pieces == w.pieces
    ensures Writes(w, v, "")
  {
    assert Written(w.pieces) + "" == Written(w.pieces);
  }

  lemma WritesBoth(w: Output, u: Output, v: Output, a: string, b: string)
    requires Writes(w, u, a) && Writes(u, v, b)
    ensures Writes(w, v, a + b)
  {
    assert Written(w.pieces) + a + b == Written(w.pieces) + (a + b);
  }

  lemma StartWrites(c: Codec, w: Output, r: Reading, payload: string)
    requires c.dialect.ClaudeEvents? && NeverFails(c) && !w.failed && Known(w, r) && r.last == "message_start"
    ensures Writes(w, ClaudeData(c, w, payload), ClaudeBytes(c, r, payload))
  {
    RoleWrites(c, w.(chunkId := Renamed(w.chunkId, c.dialect.messageId(payload))), r);
  }

  lemma DeltaWrites(c: Codec, w: Output, r: Reading, payload: string)
    requires c.dialect.ClaudeEvents? && NeverFails(c) && !w.failed && Known(w, r) && r.last == "content_block_delta"
    ensures Writes(w, ClaudeData(c, w, payload), ClaudeBytes(c, r, payload))
  {
    NothingWritten(w, w);
    var d := c.dialect.delta(payload);
    if d.Some? { ChunkWrites(c, w, Delta("", d.value.1), None); }
  }

  lemma StopWrites(c: Codec, w: Output, r: Reading, payload: string)
    requires c.dialect.ClaudeEvents? && NeverFails(c) && !w.failed && Known(w, r) && r.last == "message_delta"
    ensures Writes(w, ClaudeData(c, w, payload), ClaudeBytes(c, r, payload))
  {
    NothingWritten(w, w);
    var reason := c.dialect.stopReason(payload);
    if reason.Some? { ChunkWrites(c, w, Delta("", ""), Some(c.dialect.claudeFinish(reason.value))); }
  }

  lemma PingWrites(c: Codec, w: Output, r: Reading, payload: string)
    requires c.dialect.ClaudeEvents? && NeverFails(c) && !w.failed && Known(w, r) && r.last == "ping"
    ensures Writes(w, ClaudeData(c, w, payload), ClaudeBytes(c, r, payload))
  {
    FrameWrites(c, w.(headers := true), PingPiece, ": ", "ping", "\n\n");
    assert ": " + "ping" + "\n\n" == ": ping\n\n";
  }

  lemma ClaudeWrites(c: Codec, w: Output, r: Reading, payload: string)
    requires c.dialect.ClaudeEvents? && NeverFails(c) && !w.failed && Known(w, r) && r.last != "message_stop"
    ensures Writes(w, ClaudeData(c, w, payload), ClaudeBytes(c, r, payload))
  {
    if r.last == "message_start" {
      StartWrites(c, w, r, payload);
    } else if r.last == "content_block_delta" {
      DeltaWrites(c, w, r, payload);
    } else if r.last == "message_delta" {
      StopWrites(c, w, r, payload);
    } else if r.last == "ping" {
      PingWrites(c, w, r, payload);
    } else {
      NothingWritten(w, w);
    }
  }

  lemma ContentWrites(c: Codec, w: Output, r: Reading, parts: seq<string>)
    requires NeverFails(c) && !w.failed && w.roleSent == r.roleSent
    ensures Writes(w, GeminiContent(c, w, parts), PartsBytes(c, r, w.chunkId, parts))
  {
    JoinedIsConcat(parts);
    RoleWrites(c, w, r);
    var u := EmitRole(c, w);
    if Joined(parts) != "" { ChunkWrites(c, u, Delta("", Joined(parts)), None); } else { NothingWritten(u, u); }
    WritesBoth(w, u, GeminiContent(c, w, parts), RoleEvent(c, r, w.chunkId), TextEvent(c, w.chunkId, Joined(parts)));
  }

  lemma FinishWrites(c: Codec, w: Output, finish: string)
    requires c.dialect.GeminiEvents? && NeverFails(c) && !w.failed
    ensures Writes(w, GeminiCandidateLine(c, w, GeminiCandidate(None, finish)), FinishEvent(c, w.chunkId, finish))
  {
    NothingWritten(w, w);
    ChunkWrites(c, w.(terminal := true), Delta("", ""), Some(c.dialect.geminiFinish(finish)));
  }

  lemma CandidateWrites(c: Codec, w: Output, r: Reading, candidate: GeminiCandidate)
    requires c.dialect.GeminiEvents? && NeverFails(c) && !w.failed && w.roleSent == r.roleSent
    ensures Writes(w, GeminiCandidateLine(c, w, candidate), CandidateBytes(c, r, w.chunkId, candidate))
  {
    if candidate.parts.Some? {
      PartsThenFinish(c, w, r, candidate.parts.value, candidate.finish);
    } else {
      FinishWrites(c, w, candidate.finish);
      assert "" + FinishEvent(c, w.chunkId, candidate.finish) == FinishEvent(c, w.chunkId, candidate.finish);
    }
  }

  lemma PartsThenFinish(c: Codec, w: Output, r: Reading, parts: seq<string>, finish: string)
    requires c.dialect.GeminiEvents? && NeverFails(c) && !w.failed && w.roleSent == r.roleSent
    ensures Writes(w, GeminiCandidateLine(c, w, GeminiCandidate(Some(parts), finish)),
                   PartsBytes(c, r, w.chunkId, parts) + FinishEvent(c, w.chunkId, finish))
  {
    ContentSends(c, w, r, parts);
    ContentWrites(c, w, r, parts);
    var u := GeminiContent(c, w, parts);
    FinishWrites(c, u, finish);
    var v := GeminiCandidateLine(c, u, GeminiCandidate(None, finish));
    assert GeminiCandidateLine(c, w, GeminiCandidate(Some(parts), finish)) == v;
    WritesBoth(w, u, v, PartsBytes(c, r, w.chunkId, parts), FinishEvent(c, w.chunkId, finish));
  }

  lemma GeminiWrites(c: Codec, w: Output, r: Reading, payload: string)
    requires c.dialect.GeminiEvents? && NeverFails(c) && !w.failed && Known(w, r) && payload != "" && payload != DONE
    ensures Writes(w, GeminiData(c, w, payload), GeminiBytes(c, r, payload))
  {
    match c.dialect.parse(payload)
    case None => NothingWritten(w, w);
    case Some(reply) =>
      var u := w.(chunkId := Renamed(w.chunkId, Some(reply.responseId)));
      if reply.candidates != [] { CandidateWrites(c, u, r, reply.candidates[0]); } else { NothingWritten(w, u); }
  }

  lemma LineWrites(c: Codec, w: Output, r: Reading, line: string)
    requires NeverFails(c) && !w.failed && Known(w, r) && !Closes(c.dialect, r.last, line)
    ensures Writes(w, Handle(c, w, line), LineBytes(c, r, line))
  {
    if HasPrefix(line, DATA) {
      assert !HasPrefix(line, EVENT) by { assert DATA[0] != EVENT[0]; }
      if c.dialect.ClaudeEvents? {
        ClaudeWrites(c, w, r, After(line, DATA));
      } else {
        GeminiWrites(c, w, r, TrimSpace(After(line, DATA)));
      }
    } else {
      NothingWritten(w, Handle(c, w, line));
    }
  }

  lemma DoneWrites(c: Codec, w: Output, synthetic: bool)
    requires NeverFails(c) && !w.failed
    ensures Writes(w, EmitDone(c, w, synthetic), if w.doneSent then "" else "data: [DONE]\n\n")
  {
    if w.doneSent {
      NothingWritten(w, w);
    } else {
      SendWrites(c, w.(headers := true, synthetic := synthetic), Piece(DonePiece, DATA + DONE + "\n\n"));
    }
  }

  lemma ClosingWrites(c: Codec, w: Output, r: Reading, line: string)
    requires NeverFails(c) && !w.failed && Known(w, r) && Closes(c.dialect, r.last, line)
    ensures Writes(w, Handle(c, w, line), if w.doneSent then "" else "data: [DONE]\n\n")
  {
    assert !HasPrefix(line, EVENT) by { assert DATA[0] != EVENT[0]; }
    DoneWrites(c, w.(terminal := true), false);
  }

  lemma StepWrites(c: Codec, w: Output, r: Reading, line: string) returns (v: Output)
    requires NeverFails(c) && !w.failed && Known(w, r)
    ensures v == Handle(c, w, line) && Writes(w, v, Caused(c, r, w.doneSent, line))
    ensures Known(v, Read(c.dialect, r, line)) && v.doneSent == (w.doneSent || Closes(c.dialect, r.last, line))
  {
    v := Handle(c, w, line);
    if Closes(c.dialect, r.last, line) {
      LineCloses(c, w, r, line);
      ClosingWrites(c, w, r, line);
    } else {
      LineSends(c, w, r, line);
      LineWrites(c, w, r, line);
    }
  }

  lemma {:induction false} FoldWrites(c: Codec, w: Output, r: Reading, lines: seq<string>)
    requires NeverFails(c) && !w.failed && Known(w, r)
    ensures Writes(w, Close(c, Fold(c, w, lines)), AllBytes(c, r, w.doneSent, lines))
    decreases |lines|
  {
    if lines == [] {
      DoneWrites(c, w, !w.terminal);
    } else {
      var v := StepWrites(c, w, r, lines[0]);
      var next := Read(c.dialect, r, lines[0]);
      FoldWrites(c, v, next, lines[1..]);
      WritesBoth(w, v, Close(c, Fold(c, v, lines[1..])), Caused(c, r, w.doneSent, lines[0]), AllBytes(c, next, v.doneSent, lines[1..]));
    }
  }

  /** If no downstream write fails, the client gets, byte for byte, one event per chunk that the input lines cause and that
      can be printed, one comment per ping, and one closing mark, in the order of the lines, in both dialects and whatever
      the chunks of the input are. */
  lemma BytesExact(c: Codec, started: bool, chunks: seq<string>)
    requires NeverFails(c)
    ensures var o := Finalize(c, WriteAll(c, FRESH.(status := if started then 200 else 0), chunks)).out;
      Written(o.pieces) == AllBytes(c, START, false, SplitLines(Concat(chunks)))
  {
    StreamRefinesReference(c, started, chunks);
    FoldWrites(c, NOTHING, START, SplitLines(Concat(chunks)));
    assert "" + AllBytes(c, START, false, SplitLines(Concat(chunks))) == AllBytes(c, START, false, SplitLines(Concat(chunks)));
  }
}

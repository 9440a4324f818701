/** The text a client reads out of the chunks is exactly the text of the upstream events, in order. */
module StreamText {
  import opened Domain
  import opened Text
  import opened StreamWriter
  import opened StreamSafety

  /** `text` reads the content back out of a printed chunk, and nothing out of the framing around it. */
  ghost predicate ReadsBack(c: Codec, text: string -> string) {
    && (forall id, d, finish, body :: c.encode(id, d, finish) == Some(body) ==> text(body) == d.content)
    && text(DATA) == "" && text("\n\n") == ""
  }

  ghost predicate AlwaysPrints(c: Codec) {
    forall id, d, finish :: c.encode(id, d, finish).Some?
  }

  ghost predicate Faithful(c: Codec, text: string -> string) {
    NeverFails(c) && AlwaysPrints(c) && ReadsBack(c, text)
  }

  /** What the client has read. */
  function Received(text: string -> string, pieces: seq<Piece>): string {
    if pieces == [] then ""
    else
      var before, p := Received(text, pieces[..|pieces| - 1]), pieces[|pieces| - 1];
      if p.kind == ChunkPiece then before + text(p.text) else before
  }

  /** The text one upstream line carries after event type `last`. */
  function LineText(d: Dialect, last: string, line: string): string {
    if !HasPrefix(line, DATA) then ""
    else
      var payload := After(line, DATA);
      match d
      case ClaudeEvents(_, delta, _, _) =>
        if last == "content_block_delta" && delta(payload).Some? && delta(payload).value.0 == "text_delta"
        then delta(payload).value.1 else ""
      case GeminiEvents(parse, _) =>
        var reply := parse(TrimSpace(payload));
        if TrimSpace(payload) == "" || TrimSpace(payload) == DONE || reply.None? || reply.value.candidates == []
           || reply.value.candidates[0].parts.None? then ""
        else Concat(reply.value.candidates[0].parts.value)
  }

  function UpstreamText(d: Dialect, last: string, lines: seq<string>): string
    decreases |lines|
  {
    if lines == [] then "" else LineText(d, last, lines[0]) + UpstreamText(d, NextEvent(d, last, lines[0]), lines[1..])
  }

  /** `r` is `w` after the client read `t` more. */
  ghost predicate Adds(text: string -> string, w: Output, r: Output, t: string) {
    !r.failed && Received(text, r.pieces) == Received(text, w.pieces) + t
  }

  lemma SendReads(c: Codec, text: string -> string, w: Output, p: Piece)
    requires NeverFails(c) && !w.failed
    ensures Adds(text, w, Send(c, w, p), if p.kind == ChunkPiece then text(p.text) else "")
  {
    assert (w.pieces + [p])[..|w.pieces|] == w.pieces;
  }

  lemma FrameReads(c: Codec, text: string -> string, w: Output, kind: Kind, a: string, b: string, d: string)
    requires NeverFails(c) && !w.failed
    ensures Adds(text, w, SendAll(c, w, kind, [a, b, d]), if kind == ChunkPiece then text(a) + text(b) + text(d) else "")
  {
    FrameSent(c, w, kind, a, b, d);
    var x := Send(c, w, Piece(kind, a));
    SendReads(c, text, w, Piece(kind, a));
    SendReads(c, text, x, Piece(kind, b));
    SendReads(c, text, Send(c, x, Piece(kind, b)), Piece(kind, d));
  }

  lemma ChunkReads(c: Codec, text: string -> string, w: Output, d: Delta, finish: Option<string>)
    requires Faithful(c, text) && !w.failed
    ensures Adds(text, w, EmitChunk(c, w, d, finish), d.content)
  {
    var body := c.encode(ChunkId(w.(headers := true)), d, finish);
    assert body.Some?;
    var v := w.(headers := true, contentChunks := if d.content != "" then w.contentChunks + 1 else w.contentChunks,
                chunks := w.chunks + 1);
    FrameReads(c, text, v, ChunkPiece, DATA, body.value, "\n\n");
    assert text(DATA) + text(body.value) + text("\n\n") == d.content;
  }

  lemma RoleReads(c: Codec, text: string -> string, w: Output)
    requires Faithful(c, text) && !w.failed
    ensures Adds(text, w, EmitRole(c, w), "")
  {
    if !w.roleSent { ChunkReads(c, text, w.(roleSent := true), Delta("assistant", ""), None); }
  }

  lemma DoneReads(c: Codec, text: string -> string, w: Output, synthetic: bool)
    requires NeverFails(c) && !w.failed
    ensures Adds(text, w, EmitDone(c, w, synthetic), "")
  {
    if !w.doneSent { SendReads(c, text, w.(headers := true, synthetic := synthetic), Piece(DonePiece, DATA + DONE + "\n\n")); }
  }

  lemma ClaudeReads(c: Codec, text: string -> string, w: Output, line: string)
    requires Faithful(c, text) && !w.failed && c.dialect.ClaudeEvents? && HasPrefix(line, DATA)
    ensures Adds(text, w, ClaudeData(c, w, After(line, DATA)), LineText(c.dialect, w.lastEvent, line))
  {
    var payload := After(line, DATA);
    if w.lastEvent == "message_start" {
      var id := c.dialect.messageId(payload);
      RoleReads(c, text, if id.Some? && TrimSpace(id.value) != "" then w.(chunkId := id.value) else w);
    } else if w.lastEvent == "content_block_delta" {
      var d := c.dialect.delta(payload);
      if d.Some? { ChunkReads(c, text, w, Delta("", d.value.1), None); }
    } else if w.lastEvent == "message_delta" {
      var reason := c.dialect.stopReason(payload);
      if reason.Some? { ChunkReads(c, text, w, Delta("", ""), Some(c.dialect.claudeFinish(reason.value))); }
    } else if w.lastEvent == "message_stop" {
      DoneReads(c, text, w.(terminal := true), false);
    } else if w.lastEvent == "ping" {
      FrameReads(c, text, w.(headers := true), PingPiece, ": ", "ping", "\n\n");
    }
  }

  lemma CandidateReads(c: Codec, text: string -> string, w: Output, candidate: GeminiCandidate)
    requires Faithful(c, text) && !w.failed && c.dialect.GeminiEvents?
    ensures Adds(text, w, GeminiCandidateLine(c, w, candidate), if candidate.parts.Some? then Concat(candidate.parts.value) else "")
  {
    var u := w;
    if candidate.parts.Some? {
      JoinedIsConcat(candidate.parts.value);
      RoleReads(c, text, w);
      ChunkReads(c, text, EmitRole(c, w), Delta("", Joined(candidate.parts.value)), None);
      u := GeminiContent(c, w, candidate.parts.value);
    }
    ChunkReads(c, text, u.(terminal := true), Delta("", ""), Some(c.dialect.geminiFinish(candidate.finish)));
  }

  lemma GeminiReads(c: Codec, text: string -> string, w: Output, line: string)
    requires Faithful(c, text) && !w.failed && c.dialect.GeminiEvents? && HasPrefix(line, DATA)
    ensures Adds(text, w, GeminiData(c, w, TrimSpace(After(line, DATA))), LineText(c.dialect, w.lastEvent, line))
  {
    var payload := TrimSpace(After(line, DATA));
    if payload == "" || payload == DONE {
      DoneReads(c, text, w.(terminal := true), false);
    } else if c.dialect.parse(payload).Some? {
      var reply := c.dialect.parse(payload).value;
      var u := if TrimSpace(reply.responseId) != "" then w.(chunkId := reply.responseId) else w;
      if reply.candidates != [] { CandidateReads(c, text, u, reply.candidates[0]); }
    }
  }

  lemma HandleReads(c: Codec, text: string -> string, w: Output, line: string)
    requires Faithful(c, text) && !w.failed
    ensures Adds(text, w, Handle(c, w, line), LineText(c.dialect, w.lastEvent, line))
    ensures Handle(c, w, line).lastEvent == NextEvent(c.dialect, w.lastEvent, line)
  {
    HandleEvent(c, w, line);
    if HasPrefix(line, DATA) {
      assert !HasPrefix(line, EVENT) by { assert DATA[0] != EVENT[0]; }
      if c.dialect.ClaudeEvents? { ClaudeReads(c, text, w, line); } else { GeminiReads(c, text, w, line); }
    }
  }

  /** Only event lines set the event type. */
  lemma HandleEvent(c: Codec, w: Output, line: string)
    ensures Handle(c, w, line).lastEvent == NextEvent(c.dialect, w.lastEvent, line)
  {
    if HasPrefix(line, DATA) {
      assert !HasPrefix(line, EVENT) by { assert DATA[0] != EVENT[0]; }
      if c.dialect.ClaudeEvents? {
        if w.lastEvent != "message_stop" { ClaudeNeutral(c, w, After(line, DATA)); }
      } else {
        GeminiEvent(c, w, TrimSpace(After(line, DATA)));
      }
    }
  }

  lemma GeminiEvent(c: Codec, w: Output, payload: string)
    requires c.dialect.GeminiEvents?
    ensures GeminiData(c, w, payload).lastEvent == w.lastEvent
  {
    if payload != "" && payload != DONE && c.dialect.parse(payload).Some? {
      var reply := c.dialect.parse(payload).value;
      var u := if TrimSpace(reply.responseId) != "" then w.(chunkId := reply.responseId) else w;
      if reply.candidates != [] {
        var candidate := reply.candidates[0];
        if candidate.parts.Some? { GeminiContentNeutral(c, u, candidate.parts.value); }
        var v := if candidate.parts.Some? then GeminiContent(c, u, candidate.parts.value) else u;
        EmitChunkNeutral(c, v.(terminal := true), Delta("", ""), Some(c.dialect.geminiFinish(candidate.finish)));
      }
    }
  }

  lemma {:induction false} FoldReads(c: Codec, text: string -> string, w: Output, lines: seq<string>)
    requires Faithful(c, text) && !w.failed
    ensures Adds(text, w, Fold(c, w, lines), UpstreamText(c.dialect, w.lastEvent, lines))
    decreases |lines|
  {
    if lines != [] {
      HandleReads(c, text, w, lines[0]);
      FoldReads(c, text, Handle(c, w, lines[0]), lines[1..]);
    }
  }

  /** Text is conserved: if no downstream write fails and every chunk can be printed, then what a client reads out of
      the chunks is what the upstream lines carry, whatever the chunks of the input were. */
  lemma TextConserved(c: Codec, text: string -> string, started: bool, chunks: seq<string>)
    requires Faithful(c, text)
    ensures var o := Finalize(c, WriteAll(c, FRESH.(status := if started then 200 else 0), chunks)).out;
      Received(text, o.pieces) == UpstreamText(c.dialect, "", SplitLines(Concat(chunks)))
  {
    StreamRefinesReference(c, started, chunks);
    var lines := SplitLines(Concat(chunks));
    FoldReads(c, text, NOTHING, lines);
    var w := Fold(c, NOTHING, lines);
    DoneReads(c, text, w, !w.terminal);
  }
}

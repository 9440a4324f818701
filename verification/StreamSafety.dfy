/** The incremental writer refines a reference that sees the whole input at once and splits it into lines;
    hence chunking does not matter, nor does a missing final newline, and the stream is closed exactly once. */
module StreamSafety {
  import opened Domain
  import opened Text
  import opened StreamWriter

  /* ---------- the reference ---------- */

  /** Every line of `s` without its line end; what follows the last newline is the last line. */
  function SplitLines(s: string): seq<string> {
    var i := NewlineAt(s);
    if i == |s| then [TrimEnd(s, "\r")] else [TrimEnd(s[..i], "\r")] + SplitLines(s[i + 1..])
  }

  /** Handles the lines in turn, until a downstream write fails. */
  function Fold(c: Codec, w: Output, lines: seq<string>): Output
    decreases |lines|
  {
    if lines == [] || w.failed then w else Fold(c, Handle(c, w, lines[0]), lines[1..])
  }

  function Concat(chunks: seq<string>): string {
    if chunks == [] then "" else chunks[0] + Concat(chunks[1..])
  }

  /** What the client should see of the whole input `s`, for a stream with status 200. */
  function Reference(c: Codec, s: string): Output {
    Close(c, Fold(c, NOTHING, SplitLines(s)))
  }

  function Close(c: Codec, w: Output): Output {
    if w.failed then w else EmitDone(c, w, !w.terminal)
  }

  /** The joined parts of an event are its parts one after the other. */
  lemma {:induction false} JoinedIsConcat(parts: seq<string>)
    ensures Joined(parts) == Concat(parts)
  {
    if parts != [] {
      var init, last := parts[..|parts| - 1], parts[|parts| - 1];
      JoinedIsConcat(init);
      ConcatAppended(init, last);
      assert parts == init + [last];
    }
  }

  /* ---------- draining refines folding over lines ---------- */

  lemma {:induction false} NewlineUnique(s: string, i: nat)
    requires i < |s| && s[i] == '\n' && '\n' !in s[..i]
    ensures NewlineAt(s) == i
  {
    if i > 0 {
      assert s[0] in s[..i];
      assert '\n' !in s[1..][..i - 1] by { assert s[1..][..i - 1] == s[..i][1..]; }
      NewlineUnique(s[1..], i - 1);
    }
  }

  lemma SplitAppended(b: string, q: string)
    requires NewlineAt(b) < |b|
    ensures var i := NewlineAt(b); SplitLines(b + q) == [TrimEnd(b[..i], "\r")] + SplitLines(b[i + 1..] + q)
  {
    var i := NewlineAt(b);
    assert (b + q)[..i] == b[..i] && (b + q)[i + 1..] == b[i + 1..] + q;
    NewlineUnique(b + q, i);
  }

  lemma FoldStep(c: Codec, w: Output, line: string, lines: seq<string>)
    ensures Fold(c, w, [line] + lines) == if w.failed then w else Fold(c, Handle(c, w, line), lines)
  {
    assert ([line] + lines)[1..] == lines;
  }

  /** Draining one line is folding one line. */
  lemma DrainOne(c: Codec, b: string, w: Output, q: string) returns (rest: string, v: Output)
    requires !w.failed && NewlineAt(b) < |b|
    ensures |rest| < |b| && Drain(c, b, w) == Drain(c, rest, v)
    ensures Fold(c, w, SplitLines(b + q)) == Fold(c, v, SplitLines(rest + q))
  {
    var i := NewlineAt(b);
    var line := TrimEnd(b[..i], "\r");
    rest, v := b[i + 1..], Handle(c, w, line);
    SplitAppended(b, q);
    FoldStep(c, w, line, SplitLines(rest + q));
  }

  /** What draining leaves in the buffer, followed by any later input `q`, is all that remains to be folded. */
  lemma {:induction false} DrainFolds(c: Codec, b: string, w: Output, q: string)
    ensures var (rest, v) := Drain(c, b, w);
      && Fold(c, w, SplitLines(b + q)) == Fold(c, v, SplitLines(rest + q))
      && (v.failed || NewlineAt(rest) == |rest|)
    decreases |b|
  {
    if !w.failed && NewlineAt(b) < |b| {
      var rest, v := DrainOne(c, b, w, q);
      DrainFolds(c, rest, v, q);
    }
  }

  /** Trimming cuts off the end all characters of a set, and no others. */
  lemma {:induction false} TrimEndMeans(s: string, cut: string) returns (k: nat)
    ensures k <= |s| && TrimEnd(s, cut) == s[..k] && (forall j | k <= j < |s| :: s[j] in cut) && (k > 0 ==> s[k - 1] !in cut)
  {
    if s != "" && s[|s| - 1] in cut {
      k := TrimEndMeans(s[..|s| - 1], cut);
    } else {
      k := |s|;
    }
  }

  lemma {:induction false} TrimNoNewline(s: string)
    requires '\n' !in s
    ensures TrimEnd(s, "\r\n") == TrimEnd(s, "\r")
  {
    if s != "" && s[|s| - 1] in "\r" {
      TrimNoNewline(s[..|s| - 1]);
    } else if s != "" {
      assert s[|s| - 1] in s;
    }
  }

  /** Finishing handles what is left in the buffer as one more line. */
  lemma FinalizeFolds(c: Codec, w: Writer)
    requires w.status == 0 || w.status == OK
    requires w.out.failed || NewlineAt(w.lineBuf) == |w.lineBuf|
    ensures Finalize(c, w).out == Close(c, Fold(c, w.out, SplitLines(w.lineBuf)))
  {
    if !w.out.failed {
      TrimNoNewline(w.lineBuf);
      var line := TrimEnd(w.lineBuf, "\r");
      assert SplitLines(w.lineBuf) == [line] + [];
      FoldStep(c, w.out, line, []);
      assert line == "" ==> Handle(c, w.out, line) == w.out;
    }
  }

  lemma {:induction false} WritesFold(c: Codec, w: Writer, chunks: seq<string>)
    requires w.status == OK && (w.out.failed || NewlineAt(w.lineBuf) == |w.lineBuf|)
    ensures var v := WriteAll(c, w, chunks);
      && v.status == OK && (v.out.failed || NewlineAt(v.lineBuf) == |v.lineBuf|)
      && Fold(c, w.out, SplitLines(w.lineBuf + Concat(chunks))) == Fold(c, v.out, SplitLines(v.lineBuf))
    decreases |chunks|
  {
    if chunks == [] {
      assert w.lineBuf + Concat(chunks) == w.lineBuf;
    } else {
      var rest := Concat(chunks[1..]);
      assert w.lineBuf + Concat(chunks) == w.lineBuf + chunks[0] + rest;
      if !w.out.failed { DrainFolds(c, w.lineBuf + chunks[0], w.out, rest); }
      WritesFold(c, Write(c, w, chunks[0]), chunks[1..]);
    }
  }

  /* ---------- the guarantees ---------- */

  /** With status 200, the client sees exactly what the reference shows of the concatenated input, whether or
      not downstream writes fail. `started` says that the status was set before the first write. */
  lemma StreamRefinesReference(c: Codec, started: bool, chunks: seq<string>)
    ensures Finalize(c, WriteAll(c, FRESH.(status := if started then 200 else 0), chunks)).out == Reference(c, Concat(chunks))
  {
    var w := FRESH.(status := OK);
    if !started && chunks == [] { FinalizeFolds(c, FRESH); }
    if !started && chunks != [] { assert Write(c, FRESH, chunks[0]) == Write(c, w, chunks[0]); }
    WritesFold(c, w, chunks);
    assert w.lineBuf + Concat(chunks) == Concat(chunks);
    FinalizeFolds(c, WriteAll(c, w, chunks));
  }

  /** Any two ways to split the same bytes show the client the same. */
  lemma ChunkIndependence(c: Codec, these: seq<string>, those: seq<string>)
    requires Concat(these) == Concat(those)
    ensures Finalize(c, WriteAll(c, FRESH, these)).out == Finalize(c, WriteAll(c, FRESH, those)).out
  {
    StreamRefinesReference(c, false, these);
    StreamRefinesReference(c, false, those);
  }

  lemma {:induction false} SplitWithNewline(s: string)
    ensures SplitLines(s + "\n") == SplitLines(s) + [""]
    decreases |s|
  {
    var i := NewlineAt(s);
    if i < |s| {
      var line, rest := TrimEnd(s[..i], "\r"), s[i + 1..];
      SplitAppended(s, "\n");
      SplitWithNewline(rest);
      assert [line] + (SplitLines(rest) + [""]) == [line] + SplitLines(rest) + [""];
    } else {
      SplitLast(s);
    }
  }

  lemma SplitLast(s: string)
    requires NewlineAt(s) == |s|
    ensures SplitLines(s + "\n") == SplitLines(s) + [""]
  {
    var t := s + "\n";
    assert t[..|s|] == s && t[|s| + 1..] == "";
    NewlineUnique(t, |s|);
    assert SplitLines("") == [TrimEnd("", "\r")] == [""];
  }

  lemma {:induction false} FoldBlank(c: Codec, w: Output, lines: seq<string>)
    ensures Fold(c, w, lines + [""]) == Fold(c, w, lines)
    decreases |lines|
  {
    if lines == [] {
      assert [] + [""] == [""] + [];
      FoldStep(c, w, "", []);
    } else if !w.failed {
      assert lines + [""] == [lines[0]] + (lines[1..] + [""]);
      FoldStep(c, w, lines[0], lines[1..] + [""]);
      FoldBlank(c, Handle(c, w, lines[0]), lines[1..]);
    }
  }

  /** A missing newline at the very end changes nothing. */
  lemma FinalNewlineIrrelevant(c: Codec, chunks: seq<string>)
    ensures Finalize(c, WriteAll(c, FRESH, chunks)).out == Finalize(c, WriteAll(c, FRESH, chunks + ["\n"])).out
  {
    ConcatAppended(chunks, "\n");
    SplitWithNewline(Concat(chunks));
    FoldBlank(c, NOTHING, SplitLines(Concat(chunks)));
    StreamRefinesReference(c, false, chunks);
    StreamRefinesReference(c, false, chunks + ["\n"]);
  }

  lemma {:induction false} ConcatAppended(chunks: seq<string>, p: string)
    ensures Concat(chunks + [p]) == Concat(chunks) + p
  {
    if chunks == [] {
      assert [p][1..] == [];
    } else {
      assert (chunks + [p])[1..] == chunks[1..] + [p];
      ConcatAppended(chunks[1..], p);
    }
  }

  /** With any other status the client gets one error page made from the whole body. */
  lemma {:induction false} ErrorBodyComplete(c: Codec, w: Writer, chunks: seq<string>)
    requires w.status != 0 && w.status != 200 && !w.out.failed
    ensures Finalize(c, WriteAll(c, w, chunks)).out.pieces
         == w.out.pieces + [Piece(ErrorPiece, c.errorPage(w.status, w.rawError + Concat(chunks)))]
    decreases |chunks|
  {
    if chunks == [] {
      assert w.rawError + Concat(chunks) == w.rawError;
    } else {
      assert w.rawError + chunks[0] + Concat(chunks[1..]) == w.rawError + Concat(chunks);
      ErrorBodyComplete(c, Write(c, w, chunks[0]), chunks[1..]);
    }
  }

  /* ---------- closing the stream ---------- */

  function Dones(pieces: seq<Piece>): nat {
    if pieces == [] then 0 else Dones(pieces[..|pieces| - 1]) + if pieces[|pieces| - 1].kind == DonePiece then 1 else 0
  }

  lemma SendCounts(c: Codec, w: Output, p: Piece)
    ensures Dones(Send(c, w, p).pieces) == Dones(w.pieces) + if p.kind == DonePiece then 1 else 0
  {
    assert (w.pieces + [p])[..|w.pieces|] == w.pieces;
  }

  ghost predicate NeverFails(c: Codec) {
    forall k, s :: c.sink(k, s).ok
  }

  /** `r` differs from `w` by writes that say nothing about the end of the stream. */
  predicate Neutral(c: Codec, w: Output, r: Output) {
    && r.doneSent == w.doneSent && r.terminal == w.terminal && r.synthetic == w.synthetic && r.lastEvent == w.lastEvent
    && Dones(r.pieces) == Dones(w.pieces) && (w.failed ==> r.failed)
  }

  lemma {:induction false} SendAllNeutral(c: Codec, w: Output, kind: Kind, texts: seq<string>)
    requires kind != DonePiece
    ensures Neutral(c, w, SendAll(c, w, kind, texts)) && (NeverFails(c) && !w.failed ==> !SendAll(c, w, kind, texts).failed)
    decreases |texts|
  {
    if texts != [] && !w.failed {
      SendCounts(c, w, Piece(kind, texts[0]));
      SendAllNeutral(c, Send(c, w, Piece(kind, texts[0])), kind, texts[1..]);
    }
  }

  lemma EmitChunkNeutral(c: Codec, w: Output, d: Delta, finish: Option<string>)
    ensures Neutral(c, w, EmitChunk(c, w, d, finish)) && (NeverFails(c) && !w.failed ==> !EmitChunk(c, w, d, finish).failed)
  {
    match c.encode(ChunkId(w), d, finish)
    case None =>
    case Some(body) =>
      var v := w.(headers := true, contentChunks := if d.content != "" then w.contentChunks + 1 else w.contentChunks,
                  chunks := w.chunks + 1);
      assert ChunkId(w.(headers := true)) == ChunkId(w);
      SendAllNeutral(c, v, ChunkPiece, [DATA, body, "\n\n"]);
  }

  lemma RoleNeutral(c: Codec, w: Output)
    ensures Neutral(c, w, EmitRole(c, w)) && (NeverFails(c) && !w.failed ==> !EmitRole(c, w).failed)
  {
    EmitChunkNeutral(c, w.(roleSent := true), Delta("assistant", ""), None);
  }

  /** `line`, after event type `last`, tells the writer that the upstream finished. */
  predicate Signals(d: Dialect, last: string, line: string) {
    match d
    case ClaudeEvents(_, _, _, _) => HasPrefix(line, DATA) && last == "message_stop"
    case GeminiEvents(parse, _) =>
      && HasPrefix(line, DATA)
      && var payload := TrimSpace(After(line, DATA));
         || payload == "" || payload == DONE
         || (parse(payload).Some? && parse(payload).value.candidates != []
             && TrimSpace(parse(payload).value.candidates[0].finish) != "")
  }

  function NextEvent(d: Dialect, last: string, line: string): string {
    if d.ClaudeEvents? && HasPrefix(line, EVENT) then After(line, EVENT) else last
  }

  predicate SawEnd(d: Dialect, last: string, lines: seq<string>)
    decreases |lines|
  {
    lines != [] && (Signals(d, last, lines[0]) || SawEnd(d, NextEvent(d, last, lines[0]), lines[1..]))
  }

  /** Before the stream is closed: at most one [DONE] was sent, and only on a terminal signal. */
  predicate Tidy(w: Output) {
    if w.doneSent then Dones(w.pieces) == 1 && w.terminal && !w.synthetic
    else Dones(w.pieces) <= (if w.failed then 1 else 0)
  }

  /** What one line does to the end of the stream; `signal` says that the line is a terminal signal. */
  ghost predicate Advances(c: Codec, w: Output, r: Output, signal: bool) {
    && Tidy(r) && (!r.failed ==> r.terminal == (w.terminal || signal)) && (NeverFails(c) ==> !r.failed)
  }

  lemma DoneAdvances(c: Codec, w: Output)
    requires Tidy(w) && !w.failed
    ensures var r := EmitDone(c, w.(terminal := true), false); Advances(c, w, r, true) && r.lastEvent == w.lastEvent
  {
    SendCounts(c, w.(headers := true, terminal := true, synthetic := false), Piece(DonePiece, DATA + DONE + "\n\n"));
  }

  lemma NeutralAdvances(c: Codec, w: Output, r: Output)
    requires Tidy(w) && !w.failed && Neutral(c, w, r) && (NeverFails(c) ==> !r.failed)
    ensures Advances(c, w, r, false)
  {
  }

  lemma ClaudeNeutral(c: Codec, w: Output, payload: string)
    requires c.dialect.ClaudeEvents? && w.lastEvent != "message_stop"
    ensures var r := ClaudeData(c, w, payload); Neutral(c, w, r) && (NeverFails(c) && !w.failed ==> !r.failed)
  {
    if w.lastEvent == "message_start" {
      var id := c.dialect.messageId(payload);
      RoleNeutral(c, if id.Some? && TrimSpace(id.value) != "" then w.(chunkId := id.value) else w);
    } else if w.lastEvent == "content_block_delta" {
      var d := c.dialect.delta(payload);
      if d.Some? { EmitChunkNeutral(c, w, Delta("", d.value.1), None); }
    } else if w.lastEvent == "message_delta" {
      var reason := c.dialect.stopReason(payload);
      if reason.Some? { EmitChunkNeutral(c, w, Delta("", ""), Some(c.dialect.claudeFinish(reason.value))); }
    } else if w.lastEvent == "ping" {
      SendAllNeutral(c, w.(headers := true), PingPiece, [": ", "ping", "\n\n"]);
    }
  }

  lemma ClaudeAdvances(c: Codec, w: Output, payload: string)
    requires c.dialect.ClaudeEvents? && Tidy(w) && !w.failed
    ensures var r := ClaudeData(c, w, payload); Advances(c, w, r, w.lastEvent == "message_stop") && r.lastEvent == w.lastEvent
  {
    if w.lastEvent == "message_stop" {
      DoneAdvances(c, w);
    } else {
      ClaudeNeutral(c, w, payload);
      NeutralAdvances(c, w, ClaudeData(c, w, payload));
    }
  }

  lemma GeminiContentNeutral(c: Codec, w: Output, parts: seq<string>)
    ensures var r := GeminiContent(c, w, parts); Neutral(c, w, r) && (NeverFails(c) && !w.failed ==> !r.failed)
  {
    RoleNeutral(c, w);
    EmitChunkNeutral(c, EmitRole(c, w), Delta("", Joined(parts)), None);
  }

  lemma GeminiCandidateAdvances(c: Codec, w: Output, candidate: GeminiCandidate)
    requires c.dialect.GeminiEvents? && Tidy(w) && !w.failed
    ensures Advances(c, w, GeminiCandidateLine(c, w, candidate), TrimSpace(candidate.finish) != "")
    ensures GeminiCandidateLine(c, w, candidate).lastEvent == w.lastEvent
  {
    if candidate.parts.Some? { GeminiContentNeutral(c, w, candidate.parts.value); }
    var u := if candidate.parts.Some? then GeminiContent(c, w, candidate.parts.value) else w;
    EmitChunkNeutral(c, u.(terminal := true), Delta("", ""), Some(c.dialect.geminiFinish(candidate.finish)));
  }

  lemma GeminiAdvances(c: Codec, w: Output, line: string)
    requires c.dialect.GeminiEvents? && Tidy(w) && !w.failed && HasPrefix(line, DATA)
    ensures var r := Handle(c, w, line); Advances(c, w, r, Signals(c.dialect, w.lastEvent, line)) && r.lastEvent == w.lastEvent
  {
    var payload := TrimSpace(After(line, DATA));
    if payload == "" || payload == DONE {
      DoneAdvances(c, w);
    } else if c.dialect.parse(payload).Some? {
      var reply := c.dialect.parse(payload).value;
      var u := if TrimSpace(reply.responseId) != "" then w.(chunkId := reply.responseId) else w;
      if reply.candidates != [] { GeminiCandidateAdvances(c, u, reply.candidates[0]); }
    }
  }

  lemma HandleAdvances(c: Codec, w: Output, line: string)
    requires Tidy(w) && !w.failed
    ensures Advances(c, w, Handle(c, w, line), Signals(c.dialect, w.lastEvent, line))
    ensures Handle(c, w, line).lastEvent == NextEvent(c.dialect, w.lastEvent, line)
  {
    if HasPrefix(line, DATA) {
      assert !HasPrefix(line, EVENT) by { assert DATA[0] != EVENT[0]; }
      if c.dialect.ClaudeEvents? {
        ClaudeAdvances(c, w, After(line, DATA));
      } else {
        GeminiAdvances(c, w, line);
      }
    }
  }

  lemma {:induction false} FoldAdvances(c: Codec, w: Output, lines: seq<string>)
    requires Tidy(w) && !w.failed
    ensures Advances(c, w, Fold(c, w, lines), SawEnd(c.dialect, w.lastEvent, lines))
    decreases |lines|
  {
    if lines != [] {
      HandleAdvances(c, w, lines[0]);
      var u := Handle(c, w, lines[0]);
      if !u.failed { FoldAdvances(c, u, lines[1..]); }
    }
  }

  /** A stream is closed by at most one [DONE]; by exactly one unless a downstream write failed, and that one
      is synthetic exactly if no line of the input was a terminal signal. */
  lemma ClosedOnce(c: Codec, started: bool, chunks: seq<string>)
    ensures var o := Finalize(c, WriteAll(c, FRESH.(status := if started then 200 else 0), chunks)).out;
      && Dones(o.pieces) <= 1
      && (NeverFails(c) ==> !o.failed)
      && (!o.failed ==>
            && Dones(o.pieces) == 1 && o.doneSent
            && o.synthetic == !o.terminal == !SawEnd(c.dialect, "", SplitLines(Concat(chunks)))
            && (o.synthetic ==> o.pieces[|o.pieces| - 1].kind == DonePiece))
  {
    StreamRefinesReference(c, started, chunks);
    var w := Fold(c, NOTHING, SplitLines(Concat(chunks)));
    FoldAdvances(c, NOTHING, SplitLines(Concat(chunks)));
    SendCounts(c, w.(headers := true, synthetic := !w.terminal), Piece(DonePiece, DATA + DONE + "\n\n"));
  }

  /** [DONE] need not be the last write: after it, a late ping event still sends a comment. When it is the last write
      is said by `DoneIsLastIff`. */
  lemma PingAfterDone(c: Codec, w: Output, payload: string)
    requires c.dialect.ClaudeEvents? && NeverFails(c) && !w.failed
    ensures var o := Close(c, Fold(c, w, [EVENT + "message_stop", DATA, EVENT + "ping", DATA + payload]));
      |o.pieces| >= 3 && o.pieces[|o.pieces| - 3..] == [Piece(PingPiece, ": "), Piece(PingPiece, "ping"), Piece(PingPiece, "\n\n")]
  {
    var stop, ping := [EVENT + "message_stop", DATA + ""], [EVENT + "ping", DATA + payload];
    assert DATA + "" == DATA;
    assert [EVENT + "message_stop", DATA, EVENT + "ping", DATA + payload] == stop + ping && ping == ping + [];
    var v := ClaudeData(c, w.(lastEvent := "message_stop"), "");
    assert v.doneSent && !v.failed;
    EventFolds(c, w, "message_stop", "", ping);
    EventFolds(c, v, "ping", payload, []);
    PingPieces(c, v.(lastEvent := "ping"));
  }

  lemma EventFolds(c: Codec, w: Output, event: string, payload: string, lines: seq<string>)
    requires c.dialect.ClaudeEvents? && !w.failed
    ensures Fold(c, w, [EVENT + event, DATA + payload] + lines) == Fold(c, ClaudeData(c, w.(lastEvent := event), payload), lines)
  {
    assert (EVENT + event)[..|EVENT|] == EVENT && After(EVENT + event, EVENT) == event;
    assert (DATA + payload)[..|DATA|] == DATA && After(DATA + payload, DATA) == payload;
    assert (DATA + payload)[0] != EVENT[0];
    assert [EVENT + event, DATA + payload] + lines == [EVENT + event] + ([DATA + payload] + lines);
    FoldStep(c, w, EVENT + event, [DATA + payload] + lines);
    FoldStep(c, w.(lastEvent := event), DATA + payload, lines);
  }

  /** While no write fails, a frame is three writes. */
  lemma FrameSent(c: Codec, w: Output, kind: Kind, a: string, b: string, d: string)
    requires NeverFails(c) && !w.failed
    ensures SendAll(c, w, kind, [a, b, d]) == Send(c, Send(c, Send(c, w, Piece(kind, a)), Piece(kind, b)), Piece(kind, d))
    ensures !SendAll(c, w, kind, [a, b, d]).failed
  {
    var texts := [a, b, d];
    assert texts[1..] == [b, d] && texts[1..][1..] == [d] && texts[1..][1..][1..] == [];
    var x := Send(c, w, Piece(kind, a));
    var y := Send(c, x, Piece(kind, b));
    assert SendAll(c, y, kind, [d]) == SendAll(c, Send(c, y, Piece(kind, d)), kind, []) == Send(c, y, Piece(kind, d));
    assert SendAll(c, x, kind, [b, d]) == SendAll(c, y, kind, [d]);
  }

  lemma PingPieces(c: Codec, w: Output)
    requires NeverFails(c) && !w.failed
    ensures EmitPing(c, w).pieces == w.pieces + [Piece(PingPiece, ": "), Piece(PingPiece, "ping"), Piece(PingPiece, "\n\n")]
    ensures !EmitPing(c, w).failed && EmitPing(c, w).doneSent == w.doneSent
  {
    FrameSent(c, w.(headers := true), PingPiece, ": ", "ping", "\n\n");
  }
}

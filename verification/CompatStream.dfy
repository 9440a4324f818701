/** The stream writer as the program keeps it: one object whose line buffer, flags and counters are updated in
    place. Each method is proved to do what module StreamWriter says of the same step. */
module CompatStream {
  import opened Domain
  import opened Text
  import opened StreamWriter
  import Spec = StreamWriter

  class CompatStreamWriter {
    const codec: Codec
    var lineBuf: string
    var status: int
    var rawError: string
    var lastEvent: string
    var chunkId: string
    var roleSent: bool
    var doneSent: bool
    var chunks: nat
    var contentChunks: nat
    var terminal: bool
    var synthetic: bool
    var headers: bool
    var bytes: nat
    var failed: bool
    var pieces: seq<Piece>

    constructor (codec: Codec)
      ensures this.codec == codec && View() == FRESH
    {
      this.codec := codec;
      lineBuf, status, rawError, lastEvent, chunkId := "", 0, "", "", "";
      roleSent, doneSent, terminal, synthetic, headers, failed := false, false, false, false, false, false;
      chunks, contentChunks, bytes, pieces := 0, 0, 0, [];
    }

    ghost function Out(): Output
      reads this
    {
      Output(lastEvent, chunkId, roleSent, doneSent, chunks, contentChunks, terminal, synthetic, headers, bytes, failed, pieces)
    }

    ghost function View(): Writer
      reads this
    {
      Writer(lineBuf, status, rawError, Out())
    }

    /** Only the first status counts. */
    method WriteHeader(code: int)
      modifies this`status
      ensures View() == old(View()).(status := if old(status) == 0 then code else old(status))
    {
      if status == 0 { status := code; }
    }

    method WriteDownstream(kind: Kind, text: string) returns (ok: bool)
      requires !failed
      modifies this`bytes, this`failed, this`pieces
      ensures Out() == Send(codec, old(Out()), Piece(kind, text)) && ok == !failed
    {
      var sent := codec.sink(|pieces|, text);
      pieces := pieces + [Piece(kind, text)];
      bytes := bytes + sent.n;
      if !sent.ok { failed := true; }
      ok := sent.ok;
    }

    /** The writes of one frame, up to the first that fails. */
    method WriteFrame(kind: Kind, a: string, b: string, d: string) returns (ok: bool)
      requires !failed
      modifies this`bytes, this`failed, this`pieces
      ensures Out() == SendAll(codec, old(Out()), kind, [a, b, d]) && ok == !failed
    {
      ghost var w := Out();
      ok := WriteDownstream(kind, a);
      SendAllStep(codec, w, kind, a, [b, d]);
      if !ok { return; }
      SendAllStep(codec, Out(), kind, b, [d]);
      ok := WriteDownstream(kind, b);
      if !ok { return; }
      SendAllStep(codec, Out(), kind, d, []);
      ok := WriteDownstream(kind, d);
    }

    method EmitChunk(d: Delta, finish: Option<string>) returns (ok: bool)
      requires !failed
      modifies this`headers, this`chunks, this`contentChunks, this`bytes, this`failed, this`pieces
      ensures Out() == Spec.EmitChunk(codec, old(Out()), d, finish) && ok == !failed
    {
      headers := true;
      var id := if TrimSpace(chunkId) != "" then chunkId else "chatcmpl-compat";
      assert id == ChunkId(Out());
      var body := codec.encode(id, d, finish);
      if body.None? { return true; }
      if d.content != "" { contentChunks := contentChunks + 1; }
      chunks := chunks + 1;
      ok := WriteFrame(ChunkPiece, DATA, body.value, "\n\n");
    }

    method EmitRole() returns (ok: bool)
      requires !failed
      modifies this`roleSent, this`headers, this`chunks, this`contentChunks, this`bytes, this`failed, this`pieces
      ensures Out() == Spec.EmitRole(codec, old(Out())) && ok == !failed
    {
      ok := true;
      if !roleSent {
        roleSent := true;
        ok := EmitChunk(Delta("assistant", ""), None);
      }
    }

    method EmitDone(isSynthetic: bool) returns (ok: bool)
      requires !failed
      modifies this`headers, this`synthetic, this`doneSent, this`bytes, this`failed, this`pieces
      ensures Out() == Spec.EmitDone(codec, old(Out()), isSynthetic) && ok == !failed
    {
      if doneSent { return true; }
      headers := true;
      synthetic := isSynthetic;
      ok := WriteDownstream(DonePiece, DATA + DONE + "\n\n");
      if ok { doneSent := true; }
    }

    method HandleClaude(payload: string) returns (ok: bool)
      requires !failed && codec.dialect.ClaudeEvents?
      modifies this`chunkId, this`roleSent, this`terminal, this`synthetic, this`doneSent
      modifies this`headers, this`chunks, this`contentChunks, this`bytes, this`failed, this`pieces
      ensures Out() == ClaudeData(codec, old(Out()), payload) && ok == !failed
    {
      ok := true;
      if lastEvent == "message_start" {
        var id := codec.dialect.messageId(payload);
        if id.Some? && TrimSpace(id.value) != "" { chunkId := id.value; }
        ok := EmitRole();
      } else if lastEvent == "content_block_delta" {
        var delta := codec.dialect.delta(payload);
        if delta.Some? && delta.value.0 == "text_delta" && delta.value.1 != "" {
          ok := EmitChunk(Delta("", delta.value.1), None);
        }
      } else if lastEvent == "message_delta" {
        var reason := codec.dialect.stopReason(payload);
        if reason.Some? && TrimSpace(reason.value) != "" {
          ok := EmitChunk(Delta("", ""), Some(codec.dialect.claudeFinish(reason.value)));
        }
      } else if lastEvent == "message_stop" {
        terminal := true;
        ok := EmitDone(false);
      } else if lastEvent == "ping" {
        headers := true;
        ok := WriteFrame(PingPiece, ": ", "ping", "\n\n");
      }
    }

    method JoinParts(parts: seq<string>) returns (text: string)
      ensures text == Joined(parts)
    {
      text := "";
      for i := 0 to |parts|
        invariant text == Joined(parts[..i])
      {
        assert parts[..i + 1][..i] == parts[..i];
        if parts[i] != "" { text := text + parts[i]; }
      }
      assert parts[..|parts|] == parts;
    }

    method HandleCandidate(candidate: GeminiCandidate) returns (ok: bool)
      requires !failed && codec.dialect.GeminiEvents?
      modifies this`roleSent, this`terminal
      modifies this`headers, this`chunks, this`contentChunks, this`bytes, this`failed, this`pieces
      ensures Out() == GeminiCandidateLine(codec, old(Out()), candidate) && ok == !failed
    {
      ok := true;
      if candidate.parts.Some? {
        ok := EmitRole();
        if !ok { return; }
        var text := JoinParts(candidate.parts.value);
        if text != "" { ok := EmitChunk(Delta("", text), None); }
        if !ok { return; }
      }
      if TrimSpace(candidate.finish) != "" {
        terminal := true;
        ok := EmitChunk(Delta("", ""), Some(codec.dialect.geminiFinish(candidate.finish)));
      }
    }

    method HandleGemini(payload: string) returns (ok: bool)
      requires !failed && codec.dialect.GeminiEvents?
      modifies this`chunkId, this`roleSent, this`terminal, this`synthetic, this`doneSent
      modifies this`headers, this`chunks, this`contentChunks, this`bytes, this`failed, this`pieces
      ensures Out() == GeminiData(codec, old(Out()), payload) && ok == !failed
    {
      if payload == "" || payload == DONE {
        terminal := true;
        ok := EmitDone(false);
        return;
      }
      var reply := codec.dialect.parse(payload);
      if reply.None? { return true; }
      if TrimSpace(reply.value.responseId) != "" { chunkId := reply.value.responseId; }
      if reply.value.candidates == [] { return true; }
      ok := HandleCandidate(reply.value.candidates[0]);
    }

    method HandleLine(line: string) returns (ok: bool)
      requires !failed
      modifies this`lastEvent, this`chunkId, this`roleSent, this`terminal, this`synthetic, this`doneSent
      modifies this`headers, this`chunks, this`contentChunks, this`bytes, this`failed, this`pieces
      ensures Out() == Handle(codec, old(Out()), line) && ok == !failed
    {
      ok := true;
      if line == "" { return; }
      if codec.dialect.ClaudeEvents? {
        if HasPrefix(line, EVENT) {
          lastEvent := line[|EVENT|..];
        } else if HasPrefix(line, DATA) {
          ok := HandleClaude(line[|DATA|..]);
        }
      } else if HasPrefix(line, DATA) {
        ok := HandleGemini(TrimSpace(line[|DATA|..]));
      }
    }

    /** Takes the first complete line out of the buffer. */
    method NextLine() returns (line: string, ok: bool)
      modifies this`lineBuf
      ensures ok == (NewlineAt(old(lineBuf)) < |old(lineBuf)|)
      ensures ok ==> line == TrimEnd(old(lineBuf)[..NewlineAt(old(lineBuf))], "\r")
      ensures lineBuf == if ok then old(lineBuf)[NewlineAt(old(lineBuf)) + 1..] else old(lineBuf)
    {
      var i := 0;
      while i < |lineBuf| && lineBuf[i] != '\n'
        invariant i <= |lineBuf| && forall j | 0 <= j < i :: lineBuf[j] != '\n'
      {
        i := i + 1;
      }
      assert i == NewlineAt(lineBuf);
      if i == |lineBuf| { return "", false; }
      line, ok := TrimEnd(lineBuf[..i], "\r"), true;
      lineBuf := lineBuf[i + 1..];
    }

    method HandleLines() returns (ok: bool)
      requires !failed
      modifies this`lineBuf, this`lastEvent, this`chunkId, this`roleSent, this`terminal, this`synthetic, this`doneSent
      modifies this`headers, this`chunks, this`contentChunks, this`bytes, this`failed, this`pieces
      ensures (lineBuf, Out()) == Drain(codec, old(lineBuf), old(Out())) && ok == !failed
    {
      ghost var want := Drain(codec, lineBuf, Out());
      while true
        invariant !failed && Drain(codec, lineBuf, Out()) == want
        decreases |lineBuf|
      {
        var line, found := NextLine();
        if !found { return true; }
        ok := HandleLine(line);
        if !ok { return; }
      }
    }

    /** Write answers whether the stream is still healthy. */
    method Write(p: string) returns (ok: bool)
      modifies this
      ensures View() == Spec.Write(codec, old(View()), p) && ok == !failed
    {
      if status == 0 { status := OK; }
      if failed { return false; }
      if status != OK {
        rawError := rawError + p;
        return true;
      }
      lineBuf := lineBuf + p;
      ok := HandleLines();
    }

    method Finalize()
      modifies this
      ensures View() == Spec.Finalize(codec, old(View()))
    {
      if failed { return; }
      if status != 0 && status != OK {
        pieces := pieces + [Piece(ErrorPiece, codec.errorPage(status, rawError))];
        return;
      }
      if |lineBuf| > 0 {
        var line := TrimEnd(lineBuf, "\r\n");
        lineBuf := "";
        if line != "" {
          var ok := HandleLine(line);
          if !ok { return; }
        }
      }
      var _ := EmitDone(!terminal);
    }
  }

  lemma SendAllStep(c: Codec, w: Output, kind: Kind, text: string, rest: seq<string>)
    requires !w.failed
    ensures SendAll(c, w, kind, [text] + rest) == SendAll(c, Send(c, w, Piece(kind, text)), kind, rest)
  {
    assert ([text] + rest)[1..] == rest;
  }
}

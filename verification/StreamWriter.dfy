/** The incremental writers that turn an upstream event stream into chat-completion chunks. The two dialects
    differ only in how they handle one line; JSON parsing and printing are arbitrary functions. */
module StreamWriter {
  import opened Domain
  import opened Text

  datatype GeminiCandidate = GeminiCandidate(parts: Option<seq<string>>, finish: string)

  datatype GeminiReply = GeminiReply(responseId: string, candidates: seq<GeminiCandidate>)

  /** The parsers answer None when the payload is not the expected JSON. */
  datatype Dialect =
    | ClaudeEvents(
        messageId: string -> Option<string>, delta: string -> Option<(string, string)>,
        stopReason: string -> Option<string>, claudeFinish: string -> string)
    | GeminiEvents(parse: string -> Option<GeminiReply>, geminiFinish: string -> string)

  /** `role` and `content` are empty when absent. */
  datatype Delta = Delta(role: string, content: string)

  /** One downstream write takes `n` bytes and may fail. */
  datatype Sent = Sent(n: nat, ok: bool)

  /** `encode` prints a chunk, or fails; `sink` answers the k-th downstream write. */
  datatype Codec = Codec(
    dialect: Dialect, encode: (string, Delta, Option<string>) -> Option<string>,
    errorPage: (int, string) -> string, sink: (nat, string) -> Sent)

  datatype Kind = ChunkPiece | PingPiece | DonePiece | ErrorPiece

  /** One write to the client. */
  datatype Piece = Piece(kind: Kind, text: string)

  /** The part of a writer that handling a line reads and changes. */
  datatype Output = Output(
    lastEvent: string, chunkId: string, roleSent: bool, doneSent: bool, chunks: nat, contentChunks: nat,
    terminal: bool, synthetic: bool, headers: bool, bytes: nat, failed: bool, pieces: seq<Piece>)

  datatype Writer = Writer(lineBuf: string, status: int, rawError: string, out: Output)

  const NOTHING: Output := Output("", "", false, false, 0, 0, false, false, false, 0, false, [])
  const FRESH: Writer := Writer("", 0, "", NOTHING)

  const OK := 200
  const DATA := "data: "
  const EVENT := "event: "
  const DONE := "[DONE]"

  /* ---------- lines ---------- */

  /** The place of the first newline, or the length if there is none. */
  function NewlineAt(s: string): (i: nat)
    ensures i <= |s| && (forall j | 0 <= j < i :: s[j] != '\n') && (i < |s| ==> s[i] == '\n')
  {
    if s == "" || s[0] == '\n' then 0 else 1 + NewlineAt(s[1..])
  }

  function TrimEnd(s: string, cut: string): string {
    if s != "" && s[|s| - 1] in cut then TrimEnd(s[..|s| - 1], cut) else s
  }

  function After(s: string, prefix: string): string
    requires HasPrefix(s, prefix)
  {
    s[|prefix|..]
  }

  /* ---------- sending ---------- */

  function Send(c: Codec, w: Output, p: Piece): Output {
    var r := c.sink(|w.pieces|, p.text);
    w.(pieces := w.pieces + [p], bytes := w.bytes + r.n, failed := w.failed || !r.ok)
  }

  /** Sends until a write fails. */
  function SendAll(c: Codec, w: Output, kind: Kind, texts: seq<string>): Output
    decreases |texts|
  {
    if texts == [] || w.failed then w else SendAll(c, Send(c, w, Piece(kind, texts[0])), kind, texts[1..])
  }

  function ChunkId(w: Output): string {
    if TrimSpace(w.chunkId) != "" then w.chunkId else "chatcmpl-compat"
  }

  function EmitChunk(c: Codec, w: Output, d: Delta, finish: Option<string>): Output
  {
    var u := w.(headers := true);
    match c.encode(ChunkId(u), d, finish)
    case None => u
    case Some(body) =>
      var v := u.(contentChunks := if d.content != "" then u.contentChunks + 1 else u.contentChunks, chunks := u.chunks + 1);
      SendAll(c, v, ChunkPiece, [DATA, body, "\n\n"])
  }

  function EmitDone(c: Codec, w: Output, synthetic: bool): Output
  {
    if w.doneSent then w
    else
      var u := Send(c, w.(headers := true, synthetic := synthetic), Piece(DonePiece, DATA + DONE + "\n\n"));
      if u.failed then u else u.(doneSent := true)
  }

  function EmitPing(c: Codec, w: Output): Output
  {
    SendAll(c, w.(headers := true), PingPiece, [": ", "ping", "\n\n"])
  }

  /* ---------- one line ---------- */

  function EmitRole(c: Codec, w: Output): Output
  {
    if w.roleSent then w else EmitChunk(c, w.(roleSent := true), Delta("assistant", ""), None)
  }

  function ClaudeData(c: Codec, w: Output, payload: string): Output
    requires c.dialect.ClaudeEvents?
  {
    if w.lastEvent == "message_start" then
      var id := c.dialect.messageId(payload);
      EmitRole(c, if id.Some? && TrimSpace(id.value) != "" then w.(chunkId := id.value) else w)
    else if w.lastEvent == "content_block_delta" then
      var d := c.dialect.delta(payload);
      if d.Some? && d.value.0 == "text_delta" && d.value.1 != "" then EmitChunk(c, w, Delta("", d.value.1), None) else w
    else if w.lastEvent == "message_delta" then
      var reason := c.dialect.stopReason(payload);
      if reason.Some? && TrimSpace(reason.value) != ""
      then EmitChunk(c, w, Delta("", ""), Some(c.dialect.claudeFinish(reason.value))) else w
    else if w.lastEvent == "message_stop" then EmitDone(c, w.(terminal := true), false)
    else if w.lastEvent == "ping" then EmitPing(c, w)
    else w
  }

  function Joined(parts: seq<string>): string {
    if parts == [] then "" else Joined(parts[..|parts| - 1]) + parts[|parts| - 1]
  }

  function GeminiContent(c: Codec, w: Output, parts: seq<string>): Output
  {
    var u := EmitRole(c, w);
    if !u.failed && Joined(parts) != "" then EmitChunk(c, u, Delta("", Joined(parts)), None) else u
  }

  function GeminiCandidateLine(c: Codec, w: Output, candidate: GeminiCandidate): Output
    requires c.dialect.GeminiEvents?
  {
    var u := if candidate.parts.Some? then GeminiContent(c, w, candidate.parts.value) else w;
    if u.failed || TrimSpace(candidate.finish) == "" then u
    else EmitChunk(c, u.(terminal := true), Delta("", ""), Some(c.dialect.geminiFinish(candidate.finish)))
  }

  function GeminiData(c: Codec, w: Output, payload: string): Output
    requires c.dialect.GeminiEvents?
  {
    if payload == "" || payload == DONE then EmitDone(c, w.(terminal := true), false)
    else
      match c.dialect.parse(payload)
      case None => w
      case Some(reply) =>
        var u := if TrimSpace(reply.responseId) != "" then w.(chunkId := reply.responseId) else w;
        if reply.candidates == [] then u else GeminiCandidateLine(c, u, reply.candidates[0])
  }

  /** What one complete line does; the line handler answers false exactly if a downstream write failed. */
  function Handle(c: Codec, w: Output, line: string): Output
  {
    match c.dialect
    case ClaudeEvents(_, _, _, _) =>
      if HasPrefix(line, EVENT) then w.(lastEvent := After(line, EVENT))
      else if HasPrefix(line, DATA) then ClaudeData(c, w, After(line, DATA))
      else w
    case GeminiEvents(_, _) =>
      if HasPrefix(line, DATA) then GeminiData(c, w, TrimSpace(After(line, DATA))) else w
  }

  /* ---------- Write and finalize ---------- */

  /** Handles the complete lines of the buffer until a downstream write fails; returns what stays in it. */
  function Drain(c: Codec, b: string, w: Output): (string, Output)
    decreases |b|
  {
    var i := NewlineAt(b);
    if w.failed || i == |b| then (b, w) else Drain(c, b[i + 1..], Handle(c, w, TrimEnd(b[..i], "\r")))
  }

  function Write(c: Codec, w: Writer, p: string): Writer {
    var u := if w.status == 0 then w.(status := OK) else w;
    if u.out.failed then u
    else if u.status != OK then u.(rawError := u.rawError + p)
    else
      var (b, out) := Drain(c, u.lineBuf + p, u.out);
      u.(lineBuf := b, out := out)
  }

  function WriteAll(c: Codec, w: Writer, chunks: seq<string>): Writer
    decreases |chunks|
  {
    if chunks == [] then w else WriteAll(c, Write(c, w, chunks[0]), chunks[1..])
  }

  function Finalize(c: Codec, w: Writer): Writer {
    if w.out.failed then w
    else if w.status != 0 && w.status != OK then
      w.(out := w.out.(pieces := w.out.pieces + [Piece(ErrorPiece, c.errorPage(w.status, w.rawError))]))
    else
      var line := TrimEnd(w.lineBuf, "\r\n");
      var v := if line != "" then Handle(c, w.out, line) else w.out;
      w.(lineBuf := "", out := if v.failed then v else EmitDone(c, v, !v.terminal))
  }
}

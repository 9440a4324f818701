/** What a failing downstream means: nothing is written after the first write that fails, the closing mark counts as sent
    only if the downstream took it, and the bytes counted are those the downstream took. */
module StreamSink {
  import opened Domain
  import opened Text
  import opened StreamWriter
  import opened StreamSafety

  /** The bytes the downstream took of these writes. */
  function Took(c: Codec, pieces: seq<Piece>): nat {
    if pieces == [] then 0
    else Took(c, pieces[..|pieces| - 1]) + c.sink(|pieces| - 1, pieces[|pieces| - 1].text).n
  }

  predicate Succeeded(c: Codec, pieces: seq<Piece>, k: nat)
    requires k < |pieces|
  {
    c.sink(k, pieces[k].text).ok
  }

  /** The k-th write was the closing mark, and the downstream took it. */
  predicate Closed(c: Codec, pieces: seq<Piece>, k: nat)
    requires k < |pieces|
  {
    pieces[k].kind == DonePiece && Succeeded(c, pieces, k)
  }

  /** How many writes belong to chunks; a chunk takes three. */
  function ChunkWrites(pieces: seq<Piece>): nat {
    if pieces == [] then 0
    else ChunkWrites(pieces[..|pieces| - 1]) + if pieces[|pieces| - 1].kind == ChunkPiece then 1 else 0
  }

  /** What is written agrees with the downstream: every write but a failed last one succeeded, the bytes are counted, the
      headers came first, and the closing mark counts as sent exactly if it got through. */
  ghost predicate Honest(c: Codec, w: Output) {
    && w.bytes == Took(c, w.pieces) && (w.pieces != [] ==> w.headers)
    && (w.doneSent <==> exists k | 0 <= k < |w.pieces| :: Closed(c, w.pieces, k))
    && (w.failed <==> w.pieces != [] && !Succeeded(c, w.pieces, |w.pieces| - 1))
    && forall k | 0 <= k < |w.pieces| - 1 :: Succeeded(c, w.pieces, k)
  }

  /** And unless a write failed, every chunk counted was written. */
  ghost predicate Agrees(c: Codec, w: Output) {
    Honest(c, w) && (!w.failed ==> ChunkWrites(w.pieces) == 3 * w.chunks)
  }

  lemma SendKeepsWrites(c: Codec, w: Output, p: Piece)
    requires Honest(c, w) && !w.failed
    ensures var r := Send(c, w, p);
      && r.bytes == Took(c, r.pieces) && (r.failed <==> !Succeeded(c, r.pieces, |r.pieces| - 1))
      && (forall k | 0 <= k < |r.pieces| - 1 :: Succeeded(c, r.pieces, k))
      && ChunkWrites(r.pieces) == ChunkWrites(w.pieces) + if p.kind == ChunkPiece then 1 else 0
  {
    var r := Send(c, w, p);
    assert r.pieces[..|w.pieces|] == w.pieces;
    forall k | 0 <= k < |r.pieces| - 1 ensures Succeeded(c, r.pieces, k) {
      assert Succeeded(c, w.pieces, k);
    }
  }

  /** Another write closes the stream exactly if it is the closing mark and gets through. */
  lemma ClosedMore(c: Codec, w: Output, p: Piece)
    ensures var r := Send(c, w, p);
      (exists k | 0 <= k < |r.pieces| :: Closed(c, r.pieces, k))
      <==> (exists k | 0 <= k < |w.pieces| :: Closed(c, w.pieces, k)) || (p.kind == DonePiece && c.sink(|w.pieces|, p.text).ok)
  {
    var r := Send(c, w, p);
    if k :| 0 <= k < |w.pieces| && Closed(c, w.pieces, k) { assert Closed(c, r.pieces, k); }
    if k :| 0 <= k < |r.pieces| && Closed(c, r.pieces, k) { assert k < |w.pieces| ==> Closed(c, w.pieces, k); }
    if p.kind == DonePiece && c.sink(|w.pieces|, p.text).ok { assert Closed(c, r.pieces, |w.pieces|); }
  }

  lemma SendHonest(c: Codec, w: Output, p: Piece)
    requires Honest(c, w) && !w.failed && w.headers && p.kind != DonePiece
    ensures var r := Send(c, w, p);
      Honest(c, r) && r.headers && ChunkWrites(r.pieces) == ChunkWrites(w.pieces) + if p.kind == ChunkPiece then 1 else 0
  {
    SendKeepsWrites(c, w, p);
    ClosedMore(c, w, p);
  }

  lemma {:induction false} SendAllHonest(c: Codec, w: Output, kind: Kind, texts: seq<string>)
    requires Honest(c, w) && w.headers && kind != DonePiece
    ensures var r := SendAll(c, w, kind, texts);
      && Honest(c, r) && r.chunks == w.chunks
      && (!r.failed ==> ChunkWrites(r.pieces) == ChunkWrites(w.pieces) + if kind == ChunkPiece then |texts| else 0)
    decreases |texts|
  {
    if texts != [] && !w.failed {
      SendHonest(c, w, Piece(kind, texts[0]));
      SendAllHonest(c, Send(c, w, Piece(kind, texts[0])), kind, texts[1..]);
    }
  }

  /** Only what was written matters. */
  lemma AgreesFramed(c: Codec, w: Output, v: Output)
    requires Honest(c, w) && v.pieces == w.pieces && v.bytes == w.bytes && v.failed == w.failed && v.doneSent == w.doneSent
    requires w.headers ==> v.headers
    ensures Honest(c, v)
  {
  }

  lemma ChunkAgrees(c: Codec, w: Output, d: Delta, finish: Option<string>)
    requires Agrees(c, w)
    ensures Agrees(c, EmitChunk(c, w, d, finish))
  {
    match c.encode(ChunkId(w.(headers := true)), d, finish)
    case None => AgreesFramed(c, w, w.(headers := true));
    case Some(body) =>
      var v := w.(headers := true, contentChunks := if d.content != "" then w.contentChunks + 1 else w.contentChunks,
                  chunks := w.chunks + 1);
      AgreesFramed(c, w, v);
      SendAllHonest(c, v, ChunkPiece, [DATA, body, "\n\n"]);
  }

  /** The closing mark counts as sent if the downstream took it. */
  lemma MarkAgrees(c: Codec, w: Output, p: Piece)
    requires Honest(c, w) && !w.failed && w.headers && !w.doneSent && p.kind == DonePiece
    ensures var u := Send(c, w, p);
      && Honest(c, if u.failed then u else u.(doneSent := true))
      && ChunkWrites(u.pieces) == ChunkWrites(w.pieces) && u.chunks == w.chunks
  {
    SendKeepsWrites(c, w, p);
    ClosedMore(c, w, p);
  }

  lemma DoneAgrees(c: Codec, w: Output, synthetic: bool)
    requires Agrees(c, w) && !w.failed
    ensures Agrees(c, EmitDone(c, w, synthetic))
  {
    if !w.doneSent {
      var v := w.(headers := true, synthetic := synthetic);
      AgreesFramed(c, w, v);
      MarkAgrees(c, v, Piece(DonePiece, DATA + DONE + "\n\n"));
    }
  }

  lemma RoleAgrees(c: Codec, w: Output)
    requires Agrees(c, w)
    ensures Agrees(c, EmitRole(c, w))
  {
    if !w.roleSent {
      AgreesFramed(c, w, w.(roleSent := true));
      ChunkAgrees(c, w.(roleSent := true), Delta("assistant", ""), None);
    }
  }

  lemma ClaudeAgrees(c: Codec, w: Output, payload: string)
    requires c.dialect.ClaudeEvents? && Agrees(c, w) && !w.failed
    ensures Agrees(c, ClaudeData(c, w, payload))
  {
    if w.lastEvent == "message_start" {
      var id := c.dialect.messageId(payload);
      var v := if id.Some? && TrimSpace(id.value) != "" then w.(chunkId := id.value) else w;
      AgreesFramed(c, w, v);
      RoleAgrees(c, v);
    } else if w.lastEvent == "content_block_delta" {
      var d := c.dialect.delta(payload);
      if d.Some? { ChunkAgrees(c, w, Delta("", d.value.1), None); }
    } else if w.lastEvent == "message_delta" {
      var reason := c.dialect.stopReason(payload);
      if reason.Some? { ChunkAgrees(c, w, Delta("", ""), Some(c.dialect.claudeFinish(reason.value))); }
    } else if w.lastEvent == "message_stop" {
      AgreesFramed(c, w, w.(terminal := true));
      DoneAgrees(c, w.(terminal := true), false);
    } else if w.lastEvent == "ping" {
      AgreesFramed(c, w, w.(headers := true));
      SendAllHonest(c, w.(headers := true), PingPiece, [": ", "ping", "\n\n"]);
    }
  }

  lemma ContentAgrees(c: Codec, w: Output, parts: seq<string>)
    requires Agrees(c, w)
    ensures Agrees(c, GeminiContent(c, w, parts))
  {
    RoleAgrees(c, w);
    ChunkAgrees(c, EmitRole(c, w), Delta("", Joined(parts)), None);
  }

  lemma CandidateAgrees(c: Codec, w: Output, candidate: GeminiCandidate)
    requires c.dialect.GeminiEvents? && Agrees(c, w)
    ensures Agrees(c, GeminiCandidateLine(c, w, candidate))
  {
    if candidate.parts.Some? { ContentAgrees(c, w, candidate.parts.value); }
    var u := if candidate.parts.Some? then GeminiContent(c, w, candidate.parts.value) else w;
    AgreesFramed(c, u, u.(terminal := true));
    ChunkAgrees(c, u.(terminal := true), Delta("", ""), Some(c.dialect.geminiFinish(candidate.finish)));
  }

  lemma GeminiAgrees(c: Codec, w: Output, payload: string)
    requires c.dialect.GeminiEvents? && Agrees(c, w) && !w.failed
    ensures Agrees(c, GeminiData(c, w, payload))
  {
    if payload == "" || payload == DONE {
      AgreesFramed(c, w, w.(terminal := true));
      DoneAgrees(c, w.(terminal := true), false);
    } else if c.dialect.parse(payload).Some? {
      var reply := c.dialect.parse(payload).value;
      var u := if TrimSpace(reply.responseId) != "" then w.(chunkId := reply.responseId) else w;
      AgreesFramed(c, w, u);
      if reply.candidates != [] { CandidateAgrees(c, u, reply.candidates[0]); }
    }
  }

  lemma HandleAgrees(c: Codec, w: Output, line: string)
    requires Agrees(c, w) && !w.failed
    ensures Agrees(c, Handle(c, w, line))
  {
    if c.dialect.ClaudeEvents? {
      if HasPrefix(line, EVENT) {
        AgreesFramed(c, w, w.(lastEvent := After(line, EVENT)));
      } else if HasPrefix(line, DATA) {
        ClaudeAgrees(c, w, After(line, DATA));
      }
    } else if HasPrefix(line, DATA) {
      GeminiAgrees(c, w, TrimSpace(After(line, DATA)));
    }
  }

  lemma {:induction false} FoldAgrees(c: Codec, w: Output, lines: seq<string>)
    requires Agrees(c, w)
    ensures Agrees(c, Fold(c, w, lines))
    decreases |lines|
  {
    if lines != [] && !w.failed {
      HandleAgrees(c, w, lines[0]);
      FoldAgrees(c, Handle(c, w, lines[0]), lines[1..]);
    }
  }

  lemma ReferenceAgrees(c: Codec, s: string)
    ensures Agrees(c, Reference(c, s))
  {
    var w := Fold(c, NOTHING, SplitLines(s));
    FoldAgrees(c, NOTHING, SplitLines(s));
    if !w.failed { DoneAgrees(c, w, !w.terminal); }
  }

  lemma AgreesMeans(c: Codec, o: Output)
    requires Agrees(c, o)
    ensures forall k | 0 <= k < |o.pieces| - 1 :: c.sink(k, o.pieces[k].text).ok
    ensures o.doneSent <==> exists k | 0 <= k < |o.pieces| :: o.pieces[k].kind == DonePiece && c.sink(k, o.pieces[k].text).ok
  {
    forall k | 0 <= k < |o.pieces| - 1 ensures c.sink(k, o.pieces[k].text).ok {
      assert Succeeded(c, o.pieces, k);
    }
    if k :| 0 <= k < |o.pieces| && o.pieces[k].kind == DonePiece && c.sink(k, o.pieces[k].text).ok { assert Closed(c, o.pieces, k); }
  }

  /** For every downstream: all writes but possibly the last succeeded, the writer considers itself failed exactly if the
      last one did not and the stream closed exactly if the downstream took the closing mark; and the bytes, and without a
      failure the chunks, that it reports are those written. */
  lemma NothingAfterFailure(c: Codec, started: bool, chunks: seq<string>)
    ensures var o := Finalize(c, WriteAll(c, FRESH.(status := if started then 200 else 0), chunks)).out;
      && o.bytes == Took(c, o.pieces)
      && (forall k | 0 <= k < |o.pieces| - 1 :: c.sink(k, o.pieces[k].text).ok)
      && (o.doneSent <==> exists k | 0 <= k < |o.pieces| :: o.pieces[k].kind == DonePiece && c.sink(k, o.pieces[k].text).ok)
      && (o.pieces != [] ==> o.headers) && (!o.failed ==> ChunkWrites(o.pieces) == 3 * o.chunks)
      && (o.failed <==> o.pieces != [] && !c.sink(|o.pieces| - 1, o.pieces[|o.pieces| - 1].text).ok)
  {
    StreamRefinesReference(c, started, chunks);
    ReferenceAgrees(c, Concat(chunks));
    AgreesMeans(c, Reference(c, Concat(chunks)));
  }
}

/** The end of the headers and the body behind it: how the parser decides where a message ends, and
    that the body then arrives as sent. */
module HttpBodies {
  import opened HttpTypes
  import opened HttpChars
  import opened HttpStep
  import opened HttpInvariant
  import opened HttpTrace
  import opened HttpExecute
  import opened HttpMessage
  import opened HttpHeaders
  import opened HttpFraming

  // ---- the end of the headers ----

  /** The parser as the end of the headers is announced. */
  function HeadersOver(p: Parser): Parser {
    p.(state := HeadersDone, upgrade := p.flags.upgrade || p.verb.Connect?, nread := p.nread + 2)
  }

  /** What the blank line after the headers leads to; the application may say that no body follows. */
  function Opening(cfg: Settings, p: Parser): Out {
    var f := HeadersOver(p);
    var r := if cfg.onHeadersComplete(f) == 1 then f.(flags := f.flags.(skipBody := true)) else f;
    var o := StepHeadersDone(cfg, r, LF);
    o.(ev := [Notice(HeadersComplete, f)] + o.ev)
  }

  lemma BlankLineStep(cfg: Settings, p: Parser)
    requires AtLine(p.state) && p.nread + 2 <= MAX_HEADER_SIZE && !p.flags.trailing
    requires cfg.onHeadersComplete(HeadersOver(p)) == 0 || cfg.onHeadersComplete(HeadersOver(p)) == 1
    ensures var q := p.(state := HeadersAlmostDone, nread := p.nread + 1);
      Step(cfg, p, CR) == Out(q, [], Go) && Dispatch(cfg, Counted(q), LF) == Opening(cfg, p)
  {
    hide StepHeadersDone;
  }

  lemma OpeningKind(cfg: Settings, p: Parser)
    ensures var o := Opening(cfg, p);
      && (o.status.Go? || o.status.StopAfter?) && Collecting(o.p.state).None?
  {
    hide ShouldKeepAlive;
  }

  lemma BlankLineRuns(cfg: Settings, p: Parser)
    requires AtLine(p.state) && p.nread + 2 <= MAX_HEADER_SIZE && !p.flags.trailing
    requires cfg.onHeadersComplete(HeadersOver(p)) == 0 || cfg.onHeadersComplete(HeadersOver(p)) == 1
    ensures var o := Opening(cfg, p); Run(cfg, p, "\r\n") == RunResult(o.p, 2, o.ev, EndOf(o))
  {
    BlankLineStep(cfg, p);
    OpeningKind(cfg, p);
    hide Run, Dispatch, Opening;
    var q := p.(state := HeadersAlmostDone, nread := p.nread + 1);
    var o := Opening(cfg, p);
    ReadsOne(cfg, p, CR, q, []);
    assert Step(cfg, q, LF) == o;
    RunOne(cfg, q, LF);
    RunAppend(cfg, p, [CR], [LF]);
    assert [CR] + [LF] == "\r\n";
    assert [] + o.ev == o.ev;
  }

  // ---- where the body ends ----

  /** How far a message reaches past its headers. */
  datatype Extent = NoBody | InChunks | Exactly(n: nat) | UntilClose

  /** Status codes of responses that have no body. */
  predicate Bodyless(code: nat) { code / 100 == 1 || code == 204 || code == 304 }

  /** The extent the parser takes from the headers, unless it was told to skip the body; toEnd when a
      body without announced length may run to the end of the stream. */
  function TakenExtent(e: Effect, skip: bool, toEnd: bool): Extent {
    if skip || e.flags.upgrade then NoBody
    else if e.flags.chunked then InChunks
    else if e.length == 0 then NoBody
    else if e.length != ULLONG_MAX then Exactly(e.length)
    else if toEnd then UntilClose
    else NoBody
  }

  /** The extent of the message whose headers end here. */
  function ParserExtent(cfg: Settings, p: Parser): Extent {
    TakenExtent(Effect(p.flags, p.contentLength),
                p.verb.Connect? || p.flags.skipBody || cfg.onHeadersComplete(HeadersOver(p)) == 1,
                !p.kind.Request? && !Bodyless(p.status))
  }

  /** A parser that has read header lines, before the blank line that ends them. */
  predicate HeadersRead(cfg: Settings, p: Parser) {
    && AtLine(p.state) && p.nread + 2 <= MAX_HEADER_SIZE && !p.flags.trailing
    && (cfg.onHeadersComplete(HeadersOver(p)) == 0 || cfg.onHeadersComplete(HeadersOver(p)) == 1)
  }

  /** A run that ends with the completion of a message, as c; it stops there when the application says
      so or the connection was upgraded. */
  predicate Completes(cfg: Settings, r: RunResult, told: seq<Event>, c: Parser) {
    && r.ev == told + [Notice(MessageComplete, c)]
    && (if cfg.onMessageComplete(c) != 0 then r.end.Stopped? && r.p == c.(errno := CbMessageComplete)
        else r.p == c && (if c.upgrade then r.end.Stopped? else r.end.Live?))
  }

  /** The blank line announces the end of the headers, and there completes a message without a body
      or leaves the parser waiting for the body of the extent the headers gave. */
  lemma BlankLineReads(cfg: Settings, p: Parser)
    requires HeadersRead(cfg, p)
    ensures var r, told := Run(cfg, p, "\r\n"), [Notice(HeadersComplete, HeadersOver(p))];
      r.n == 2 &&
      match ParserExtent(cfg, p)
      case NoBody => exists c :: Completes(cfg, r, told, c) && c.errno == p.errno && c.upgrade == HeadersOver(p).upgrade
      case InChunks => r.end.Live? && r.ev == told && r.p.state == Chunk(SizeStart)
      case Exactly(n) => r.end.Live? && r.ev == told && r.p.state.BodyIdentity? && r.p.contentLength == n
      case UntilClose => r.end.Live? && r.ev == told && r.p.state.BodyIdentityEof?
  {
    BlankLineRuns(cfg, p);
    hide Run, NewMessage;
    var f := HeadersOver(p);
    var r := if cfg.onHeadersComplete(f) == 1 then f.(flags := f.flags.(skipBody := true)) else f;
    var c := r.(nread := 0, state := NewMessage(r.(nread := 0)));
    if ParserExtent(cfg, p).NoBody? {
      assert Opening(cfg, p).ev == [Notice(HeadersComplete, f)] + [Notice(MessageComplete, c)];
      assert Completes(cfg, Run(cfg, p, "\r\n"), [Notice(HeadersComplete, f)], c);
    }
  }

  // ---- the body ----

  /** A body, and headers trailing it, as they travel under an extent; open when only the end of the
      stream ends the body. */
  ghost predicate Travels(x: Extent, body: string, trailers: seq<HeaderLine>, wire: string, open: bool) {
    match x
    case NoBody => body == [] && trailers == [] && wire == [] && !open
    case InChunks => !open && exists c :: Carries(c, body, trailers, wire)
    case Exactly(n) => wire == body && |body| == n && trailers == [] && !open
    case UntilClose => wire == body && trailers == [] && open
  }

  ghost predicate Carries(c: ChunkedSent, body: string, trailers: seq<HeaderLine>, wire: string) {
    ChunkedOk(c) && Joined(c.chunks) == body && c.trailers == trailers && wire == ChunkedText(c)
  }

  /** What is reported of a body and the headers trailing it. */
  function Content(body: string, trailers: seq<HeaderLine>): seq<Event> { ByteEvents(Body, body) + BlockEvents(trailers) }

  /** A finished message: everything consumed, the body reported, one completion, then a stop. */
  ghost predicate Finishes(r: RunResult, n: nat, told: seq<Event>) {
    && r.n == n && r.end.Stopped? && r.p.errno.CbMessageComplete?
    && exists q :: r.ev == told + [Notice(MessageComplete, q)]
  }

  /** A body that runs to the end of the stream: every byte is body, and the end of input completes it. */
  lemma EofFraming(cfg: Settings, p: Parser, data: string)
    requires p.errno.Ok? && Inv(p) && p.state.BodyIdentityEof? && LeavesAtEnd(cfg)
    ensures Run(cfg, p, data) == RunResult(p, |data|, ByteEvents(Body, data), Live)
    ensures Call(cfg, p, []) == RunResult(p.(errno := CbMessageComplete), 0, [Notice(MessageComplete, p)], Stopped)
  {
    hide Run, Inv;
    RunBody(cfg, p, data);
  }

  /** The parser waits for a body of this extent. */
  predicate Awaits(p: Parser, x: Extent) {
    match x
    case NoBody => false
    case InChunks => p.state == Chunk(SizeStart)
    case Exactly(n) => p.state.BodyIdentity? && p.contentLength == n
    case UntilClose => p.state.BodyIdentityEof?
  }

  /** The body after the blank line. */
  lemma BodyFinishes(cfg: Settings, p: Parser, x: Extent, body: string, trailers: seq<HeaderLine>, wire: string)
    requires p.errno.Ok? && Inv(p) && Awaits(p, x) && Travels(x, body, trailers, wire, false) && LeavesAtEnd(cfg)
    ensures Finishes(Run(cfg, p, wire), |wire|, Content(body, trailers))
  {
    hide Run, Inv, ByteEvents;
    if x.Exactly? {
      assert wire[..|wire|] == wire && wire[|wire|..] == [];
      assert BlockEvents([]) == [] && ByteEvents(Body, body) + [] == ByteEvents(Body, body);
      IdentityFraming(cfg, p, wire);
    } else {
      var c :| Carries(c, body, trailers, wire);
      hide ChunkedOk, ChunkedText, ChunkedOver;
      ChunkedFraming(cfg, p, c);
    }
  }

  lemma ThenFinishes(cfg: Settings, p: Parser, a: string, q: Parser, ev: seq<Event>, b: string, told: seq<Event>)
    requires Reads(cfg, p, a, q, ev) && Finishes(Run(cfg, q, b), |b|, told)
    ensures Finishes(Run(cfg, p, a + b), |a| + |b|, ev + told)
  {
    hide Run;
    RunAppend(cfg, p, a, b);
    var c :| Run(cfg, q, b).ev == told + [Notice(MessageComplete, c)];
    assert ev + (told + [Notice(MessageComplete, c)]) == ev + told + [Notice(MessageComplete, c)];
  }

  /** A response whose body only the end of the stream ends is live until then. */
  ghost predicate StaysOpen(cfg: Settings, r: RunResult, n: nat, told: seq<Event>) {
    && r.n == n && r.end.Live? && r.ev == told
    && Call(cfg, r.p, []) == RunResult(r.p.(errno := CbMessageComplete), 0, [Notice(MessageComplete, r.p)], Stopped)
  }

  lemma BodylessFinishes(cfg: Settings, r: RunResult, told: seq<Event>, c: Parser)
    requires Completes(cfg, r, told, c) && r.n == 2 && LeavesAtEnd(cfg)
    ensures Finishes(r, 2, told + Content([], []))
  {
    assert Content([], []) == [] && told + [] == told;
  }

  lemma OpenBodyFollows(cfg: Settings, p: Parser, q: Parser, told: seq<Event>, wire: string)
    requires Reads(cfg, p, "\r\n", q, told) && q.errno.Ok? && Inv(q) && q.state.BodyIdentityEof? && LeavesAtEnd(cfg)
    ensures StaysOpen(cfg, Run(cfg, p, "\r\n" + wire), 2 + |wire|, told + Content(wire, []))
  {
    hide Run, Inv, ByteEvents, Call, LeavesAtEnd;
    assert BlockEvents([]) == [] && ByteEvents(Body, wire) + [] == ByteEvents(Body, wire);
    RunAppend(cfg, p, "\r\n", wire);
    EofFraming(cfg, q, wire);
  }

  lemma BodyFollows(cfg: Settings, p: Parser, q: Parser, told: seq<Event>, x: Extent,
                    body: string, trailers: seq<HeaderLine>, wire: string)
    requires Reads(cfg, p, "\r\n", q, told) && q.errno.Ok? && Inv(q) && Awaits(q, x) && LeavesAtEnd(cfg)
    requires Travels(x, body, trailers, wire, false)
    ensures Finishes(Run(cfg, p, "\r\n" + wire), 2 + |wire|, told + Content(body, trailers))
  {
    hide Run, Inv, Content, Travels, Awaits, LeavesAtEnd, Finishes, Reads;
    BodyFinishes(cfg, q, x, body, trailers, wire);
    ThenFinishes(cfg, p, "\r\n", q, told, wire, Content(body, trailers));
  }

  /** After the blank line a parser that goes on is one that bytes can be fed to. */
  lemma AfterBlankLine(cfg: Settings, p: Parser)
    requires p.errno.Ok? && Inv(p) && HeadersRead(cfg, p) && !ParserExtent(cfg, p).NoBody?
    ensures var q := Run(cfg, p, "\r\n").p;
      && Reads(cfg, p, "\r\n", q, [Notice(HeadersComplete, HeadersOver(p))])
      && q.errno.Ok? && Inv(q) && Awaits(q, ParserExtent(cfg, p))
  {
    hide Run, Inv, ParserExtent, HeadersRead, HeadersOver;
    BlankLineReads(cfg, p);
    RunSound(cfg, p, "\r\n");
  }

  /** The blank line and the body, from a parser that has read the headers: every byte is consumed and
      the body and the headers trailing it reported as sent; the message completes on the last byte or, when only the end of the
      stream ends the body, with the end of input. */
  lemma MessageFinishes(cfg: Settings, p: Parser, body: string, trailers: seq<HeaderLine>, wire: string, open: bool)
    requires p.errno.Ok? && Inv(p) && HeadersRead(cfg, p) && LeavesAtEnd(cfg)
    requires Travels(ParserExtent(cfg, p), body, trailers, wire, open)
    ensures var r := Run(cfg, p, "\r\n" + wire);
      var told := [Notice(HeadersComplete, HeadersOver(p))] + Content(body, trailers);
      if open then StaysOpen(cfg, r, 2 + |wire|, told) else Finishes(r, 2 + |wire|, told)
  {
    hide Run, Inv, ParserExtent, Content, HeadersOver, HeadersRead, LeavesAtEnd, Finishes, StaysOpen, Completes, Reads, Carries;
    var told, x := [Notice(HeadersComplete, HeadersOver(p))], ParserExtent(cfg, p);
    if x.NoBody? {
      BlankLineReads(cfg, p);
      var c :| Completes(cfg, Run(cfg, p, "\r\n"), told, c);
      BodylessFinishes(cfg, Run(cfg, p, "\r\n"), told, c);
      assert "\r\n" + wire == "\r\n";
    } else {
      AfterBlankLine(cfg, p);
      if open {
        OpenBodyFollows(cfg, p, Run(cfg, p, "\r\n").p, told, wire);
      } else {
        hide Travels;
        BodyFollows(cfg, p, Run(cfg, p, "\r\n").p, told, x, body, trailers, wire);
      }
    }
  }
}

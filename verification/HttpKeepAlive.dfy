/** When another message may follow on the connection. */
module HttpKeepAlive {
  import opened HttpTypes
  import opened HttpChars
  import opened UrlGrammar
  import opened HttpStep
  import opened HttpInvariant
  import opened HttpTrace
  import opened HttpExecute
  import opened HttpMessage
  import opened HttpHeaders
  import opened HttpFraming
  import opened HttpBodies
  import opened HttpRoundTrip

  /** From HTTP/1.1 on a connection persists unless a header says close, before that only if one says
      keep-alive. */
  ghost predicate Persistent(major: nat, minor: nat, lines: seq<HeaderLine>) {
    if major >= 1 && minor >= 1 then !exists h :: h in lines && SaysConnection(h, "close")
    else exists h :: h in lines && SaysConnection(h, "keep-alive")
  }

  /** The headers, with the kind of message and its code, leave the end of the message to the end of the
      stream. */
  predicate Endless(kind: ParserType, status: nat, skip: bool, e: Effect) {
    !kind.Request? && !Bodyless(status) && !skip && !e.flags.chunked && e.length == ULLONG_MAX
  }

  /** Where the parser stands once a message is over. */
  function Resumes(kind: ParserType, goesOn: bool): State {
    if !goesOn then Dead else if kind.Request? then StartReq else StartRes
  }

  ghost predicate Quiet(cfg: Settings) { forall p :: cfg.onMessageComplete(p) == 0 }

  /** The application says that no body follows. */
  predicate Skipped(cfg: Settings, p: Parser) { p.flags.skipBody || cfg.onHeadersComplete(HeadersOver(p)) == 1 }

  /** What header lines add to the flags about the connection. */
  ghost predicate ConnectionSaid(e: Flags, f: Flags, lines: seq<HeaderLine>) {
    && (f.keepAlive <==> e.keepAlive || exists h :: h in lines && SaysConnection(h, KEEP_ALIVE))
    && (f.close <==> e.close || exists h :: h in lines && SaysConnection(h, CLOSE))
  }

  predicate FlagsPersist(p: Parser, f: Flags) {
    if p.major >= 1 && p.minor >= 1 then !f.close else f.keepAlive
  }

  lemma BodylessOver(cfg: Settings, p: Parser)
    requires HeadersRead(cfg, p) && ParserExtent(cfg, p).NoBody? && Quiet(cfg)
    ensures var r := Run(cfg, p, "\r\n");
      && r.n == 2 && r.p.errno == p.errno && (r.end.Live? || (r.end.Stopped? && HeadersOver(p).upgrade))
      && (r.end.Live? <==> !HeadersOver(p).upgrade)
      && r.p.state == Resumes(p.kind, FlagsPersist(p, p.flags) && !Endless(p.kind, p.status, Skipped(cfg, p), Effect(p.flags, p.contentLength)))
  {
    BlankLineRuns(cfg, p);
    hide Run;
  }

  lemma BlankLinePast(cfg: Settings, p: Parser)
    requires HeadersRead(cfg, p) && !ParserExtent(cfg, p).NoBody?
    ensures var q := Run(cfg, p, "\r\n").p; q.flags == p.flags && q.major == p.major && q.minor == p.minor && q.kind == p.kind
  {
    BlankLineRuns(cfg, p);
    hide Run, NewMessage;
  }

  /** The body behind the blank line. */
  lemma BodyOver(cfg: Settings, q: Parser, x: Extent, body: string, trailers: seq<HeaderLine>, wire: string)
    requires q.errno.Ok? && Inv(q) && Awaits(q, x) && Travels(x, body, trailers, wire, false) && Quiet(cfg)
    ensures var r := Run(cfg, q, wire);
      && r.n == |wire| && r.p.errno.Ok? && r.end.Live?
      && exists f: Flags :: ConnectionSaid(q.flags, f, trailers) && r.p.state == Resumes(q.kind, FlagsPersist(q, f))
  {
    hide Run, Inv, ByteEvents, FlagsSaid;
    if x.Exactly? {
      IdentityOver(cfg, q, wire);
      assert ConnectionSaid(q.flags, q.flags, []);
    } else {
      var c :| Carries(c, body, trailers, wire);
      ChunkedOverIs(cfg, q, c);
    }
  }

  lemma IdentityOver(cfg: Settings, q: Parser, wire: string)
    requires q.errno.Ok? && Inv(q) && q.state.BodyIdentity? && q.contentLength == |wire| && Quiet(cfg)
    ensures var r := Run(cfg, q, wire);
      && r.n == |wire| && r.p.errno.Ok? && r.end.Live? && r.p.state == Resumes(q.kind, FlagsPersist(q, q.flags))
  {
    hide Inv, ByteEvents;
    assert wire[..|wire|] == wire && wire[|wire|..] == [];
    IdentityFraming(cfg, q, wire);
  }

  lemma ChunkedOverIs(cfg: Settings, q: Parser, c: ChunkedSent)
    requires q.errno.Ok? && Inv(q) && q.state == Chunk(SizeStart) && ChunkedOk(c) && Quiet(cfg)
    ensures var r := Run(cfg, q, ChunkedText(c));
      && r.n == |ChunkedText(c)| && r.p.errno.Ok? && r.end.Live?
      && exists f: Flags :: ConnectionSaid(q.flags, f, c.trailers) && r.p.state == Resumes(q.kind, FlagsPersist(q, f))
  {
    hide Run, ByteEvents, ChunkedText, AfterBlock, BlockEffect, Joined, BlockText, BlockEvents, BlockOk, ChunkOk, SizeOk, FlagsSaid;
    ChunkedFraming(cfg, q, c);
    var t := AfterBlock(InTrailer(q), c.trailers);
    BlockEffectOk(InTrailer(q), c.trailers);
    BlockFlags(Effect(InTrailer(q).flags, 0), c.trailers);
    StillChunked(q, t.flags, c.trailers);
  }

  lemma StillChunked(q: Parser, f: Flags, trailers: seq<HeaderLine>)
    requires q.flags.chunked && FlagsSaid(InTrailer(q).flags, f, trailers)
    ensures f.chunked && ConnectionSaid(q.flags, f, trailers)
  {
    hide SaysChunked, SaysConnection, SaysUpgrade;
  }

  lemma SaidBoth(p: Parser, b: Flags, c: Flags, lines: seq<HeaderLine>, trailers: seq<HeaderLine>)
    requires FlagsSaid(NO_FLAGS, b, lines) && ConnectionSaid(b, c, trailers)
    ensures FlagsPersist(p, c) <==> Persistent(p.major, p.minor, lines + trailers)
  {
    hide SaysChunked, SaysConnection, SaysUpgrade;
    assert CLOSE == "close" && KEEP_ALIVE == "keep-alive";
  }

  predicate EndlessAt(cfg: Settings, q: Parser) {
    Endless(q.kind, q.status, Skipped(cfg, q), Effect(q.flags, q.contentLength))
  }

  /** What is known of a run that has completed a message of headers and body. */
  ghost predicate Over(cfg: Settings, q: Parser, trailers: seq<HeaderLine>, r: RunResult, n: nat) {
    && r.n == n && r.p.errno.Ok? && (if HeadersOver(q).upgrade then r.end.Stopped? else r.end.Live?)
    && exists f: Flags :: ConnectionSaid(q.flags, f, trailers) && r.p.state == Resumes(q.kind, FlagsPersist(q, f) && !EndlessAt(cfg, q))
  }

  /** The blank line and the body. */
  lemma RestOver(cfg: Settings, q: Parser, body: string, trailers: seq<HeaderLine>, wire: string)
    requires q.errno.Ok? && Inv(q) && HeadersRead(cfg, q) && Quiet(cfg)
    requires Travels(ParserExtent(cfg, q), body, trailers, wire, false)
    ensures Over(cfg, q, trailers, Run(cfg, q, "\r\n" + wire), 2 + |wire|)
  {
    hide Run, Inv, HeadersRead, ParserExtent, HeadersOver, Resumes, EndlessAt, FlagsPersist, Carries;
    if ParserExtent(cfg, q).NoBody? {
      NoBodyOver(cfg, q);
      assert "\r\n" + wire == "\r\n";
      assert ConnectionSaid(q.flags, q.flags, trailers);
    } else {
      BodyRestOver(cfg, q, body, trailers, wire);
    }
  }

  lemma NoBodyOver(cfg: Settings, q: Parser)
    requires HeadersRead(cfg, q) && ParserExtent(cfg, q).NoBody? && Quiet(cfg)
    ensures var r := Run(cfg, q, "\r\n");
      && r.n == 2 && r.p.errno == q.errno && (if HeadersOver(q).upgrade then r.end.Stopped? else r.end.Live?)
      && r.p.state == Resumes(q.kind, FlagsPersist(q, q.flags) && !EndlessAt(cfg, q))
  {
    hide Run, HeadersRead, ParserExtent, HeadersOver, Resumes, FlagsPersist;
    BodylessOver(cfg, q);
  }

  lemma WithBody(cfg: Settings, q: Parser, body: string, trailers: seq<HeaderLine>, wire: string)
    requires !ParserExtent(cfg, q).NoBody? && Travels(ParserExtent(cfg, q), body, trailers, wire, false)
    ensures !HeadersOver(q).upgrade && !EndlessAt(cfg, q)
  {
    hide Carries;
  }

  lemma ReadsOn(cfg: Settings, p: Parser, a: string, q: Parser, b: string)
    requires exists ev :: Reads(cfg, p, a, q, ev)
    ensures var r, t := Run(cfg, p, a + b), Run(cfg, q, b); r.n == |a| + t.n && r.p == t.p && r.end == t.end
  {
    hide Run;
    RunAppend(cfg, p, a, b);
  }

  lemma SameConnection(q: Parser, b: Parser, f: Flags)
    requires b.flags == q.flags && b.major == q.major && b.minor == q.minor
    ensures FlagsPersist(b, f) == FlagsPersist(q, f)
  {
  }

  lemma BodyRestOver(cfg: Settings, q: Parser, body: string, trailers: seq<HeaderLine>, wire: string)
    requires q.errno.Ok? && Inv(q) && HeadersRead(cfg, q) && Quiet(cfg) && !ParserExtent(cfg, q).NoBody?
    requires Travels(ParserExtent(cfg, q), body, trailers, wire, false)
    ensures Over(cfg, q, trailers, Run(cfg, q, "\r\n" + wire), 2 + |wire|)
  {
    hide Run, Inv, HeadersRead, ParserExtent, EndlessAt, Travels, Resumes, HeadersOver, Reads, Awaits, FlagsPersist, ConnectionSaid;
    WithBody(cfg, q, body, trailers, wire);
    BlankLinePast(cfg, q);
    AfterBlankLine(cfg, q);
    var b := Run(cfg, q, "\r\n").p;
    BodyOver(cfg, b, ParserExtent(cfg, q), body, trailers, wire);
    ReadsOn(cfg, q, "\r\n", b, wire);
    var f :| ConnectionSaid(b.flags, f, trailers) && Run(cfg, b, wire).p.state == Resumes(b.kind, FlagsPersist(b, f));
    SameConnection(q, b, f);
  }

  /** A header block, the blank line and the body, behind a request or status line. */
  ghost predicate Follows(cfg: Settings, p: Parser, lines: seq<HeaderLine>, body: string, trailers: seq<HeaderLine>, wire: string) {
    && AtLine(p.state) && p.errno.Ok? && Inv(p) && p.flags == NO_FLAGS && p.contentLength == ULLONG_MAX
    && BlockOk(lines) && p.nread + |BlockText(lines)| + 2 <= MAX_HEADER_SIZE
    && var q := AfterBlock(p, lines);
       && (cfg.onHeadersComplete(HeadersOver(q)) == 0 || cfg.onHeadersComplete(HeadersOver(q)) == 1)
       && Travels(ParserExtent(cfg, q), body, trailers, wire, false)
  }

  /** Everything up to the blank line. */
  lemma BlockOver(cfg: Settings, p: Parser, lines: seq<HeaderLine>, body: string, trailers: seq<HeaderLine>, wire: string)
    requires Follows(cfg, p, lines, body, trailers, wire)
    ensures var q := AfterBlock(p, lines);
      && Reads(cfg, p, BlockText(lines), q, BlockEvents(lines))
      && q.errno.Ok? && Inv(q) && HeadersRead(cfg, q) && !q.flags.skipBody
      && q.kind == p.kind && q.status == p.status && q.major == p.major && q.minor == p.minor && q.verb == p.verb
      && FlagsSaid(NO_FLAGS, q.flags, lines)
  {
    hide Run, Inv, BlockText, BlockEvents, BlockEffect, BlockOk, AfterBlock, Travels, HeadersOver;
    BlockReads(cfg, p, lines);
    BlockEffectOk(p, lines);
    BlockFlags(Effect(p.flags, p.contentLength), lines);
    RunSound(cfg, p, BlockText(lines));
  }

  ghost predicate Upgraded(p: Parser, lines: seq<HeaderLine>) { p.verb.Connect? || exists h :: h in lines && SaysUpgrade(h) }

  lemma UpgradeSaid(p: Parser, q: Parser, lines: seq<HeaderLine>)
    requires FlagsSaid(NO_FLAGS, q.flags, lines) && q.verb == p.verb
    ensures HeadersOver(q).upgrade <==> Upgraded(p, lines)
  {
    hide SaysChunked, SaysConnection, SaysUpgrade;
  }

  /** When the application lets the parser go on, it stands at the start of the next message if and only
      if the connection persists, by its version and header lines, and the message had an end of its own. */
  lemma NextMessage(cfg: Settings, p: Parser, lines: seq<HeaderLine>, body: string, trailers: seq<HeaderLine>, wire: string)
    requires Follows(cfg, p, lines, body, trailers, wire) && Quiet(cfg)
    ensures var text, q := BlockText(lines) + "\r\n" + wire, AfterBlock(p, lines);
      var r, e := Run(cfg, p, text), BlockEffect(Effect(NO_FLAGS, ULLONG_MAX), lines);
      && r.n == |text| && r.p.errno.Ok?
      && (if Upgraded(p, lines) then r.end.Stopped? else r.end.Live?)
      && r.p.state == Resumes(p.kind, Persistent(p.major, p.minor, lines + trailers)
                                      && !Endless(p.kind, p.status, cfg.onHeadersComplete(HeadersOver(q)) == 1, e))
  {
    hide Run, Inv, BlockText, BlockEvents, BlockEffect, BlockOk, AfterBlock, Persistent, FlagsSaid, ParserExtent,
         Travels, Endless, Resumes, FlagsPersist, ConnectionSaid, HeadersRead;
    var q := AfterBlock(p, lines);
    BlockOver(cfg, p, lines, body, trailers, wire);
    BlockEffectOk(p, lines);
    RestOver(cfg, q, body, trailers, wire);
    UpgradeSaid(p, q, lines);
    RunAppend(cfg, p, BlockText(lines), "\r\n" + wire);
    assert BlockText(lines) + "\r\n" + wire == BlockText(lines) + ("\r\n" + wire);
    var f :| ConnectionSaid(q.flags, f, trailers)
      && Run(cfg, q, "\r\n" + wire).p.state == Resumes(q.kind, FlagsPersist(q, f) && !EndlessAt(cfg, q));
    SaidBoth(q, q.flags, f, lines, trailers);
  }

  // ---- requests one behind the other ----

  /** Every callback lets the parser go on. */
  ghost predicate Agreeable(cfg: Settings) {
    forall p :: cfg.onMessageBegin(p) == 0 && cfg.onHeadersComplete(p) == 0 && cfg.onMessageComplete(p) == 0
  }

  lemma AgreeableIs(cfg: Settings, p: Parser)
    requires Agreeable(cfg)
    ensures Quiet(cfg) && cfg.onMessageBegin(p) == 0 && cfg.onHeadersComplete(p) == 0
  {
  }

  lemma RequestFollows(cfg: Settings, m: Method, uri: string, v: Version, lines: seq<HeaderLine>,
                       body: string, trailers: seq<HeaderLine>, wire: string)
    requires Sendable(m, uri, v, lines, body, trailers, wire) && !v.Http09? && Agreeable(cfg)
    ensures var p, a := Init(Request), AfterRequestLine(Init(Request), m, uri, v);
      && Reads(cfg, p, RequestLine(m, uri, v), a, LineNotes(p, m, uri))
      && Follows(cfg, a, lines, body, trailers, wire)
      && a.verb == m && a.kind.Request? && a.major == 1 && a.minor == Minor(v)
  {
    hide Run, Inv, RequestLine, MethodStr, Target, BlockText, BlockOk, AfterBlock, BlockEffect, Travels;
    var p, a := Init(Request), AfterRequestLine(Init(Request), m, uri, v);
    AgreeableIs(cfg, InMethod(p, m, 1));
    RequestLineReads(cfg, p, m, uri, v);
    assert Inv(p) by { InitOk(Request); }
    RunSound(cfg, p, RequestLine(m, uri, v));
    BlockEffectOk(a, lines);
    BlockFlags(Effect(NO_FLAGS, ULLONG_MAX), lines);
    AgreeableIs(cfg, HeadersOver(AfterBlock(a, lines)));
    RequestExtentAt(cfg, AfterBlock(a, lines));
  }

  lemma RequestExtentAt(cfg: Settings, q: Parser)
    requires q.kind.Request? && !q.flags.skipBody && cfg.onHeadersComplete(HeadersOver(q)) == 0
    ensures ParserExtent(cfg, q) == RequestExtent(Effect(q.flags, q.contentLength), q.verb)
  {
  }

  /** Header bytes of one message are counted on into the next. */
  function Refusal(p: Parser): Errno { if p.nread < MAX_HEADER_SIZE then ClosedConnection else HeaderOverflow }

  /** Bytes behind a request that the application took are the start of the next one if the connection
      persists, and refused if it does not, as closed unless trailing headers have used
      up the limit on header bytes; after an upgrade they are left alone. */
  lemma NextRequest(cfg: Settings, m: Method, uri: string, v: Version, lines: seq<HeaderLine>,
                    body: string, trailers: seq<HeaderLine>, wire: string, next: string)
    requires Sendable(m, uri, v, lines, body, trailers, wire) && !v.Http09? && Agreeable(cfg)
    requires next != [] && next[0] != CR && next[0] != LF
    ensures var text := RequestText(m, uri, v, lines) + wire;
      var first, r := Run(cfg, Init(Request), text), Run(cfg, Init(Request), text + next);
      first.n == |text| && first.p.errno.Ok? &&
      if m.Connect? || exists h :: h in lines && SaysUpgrade(h) then r == first
      else if Persistent(1, Minor(v), lines + trailers) then first.p.state.StartReq? && r == Then(first, Run(cfg, first.p, next))
      else r.n == |text| && r.ev == first.ev && r.end.Failed? && r.p.errno == Refusal(first.p)
  {
    hide Run, Inv, RequestLine, MethodStr, Target, BlockText, BlockOk, AfterBlock, BlockEffect, Travels, Follows, Sendable, Persistent,
         AfterRequestLine, LineNotes, SaysUpgrade;
    var p, a := Init(Request), AfterRequestLine(Init(Request), m, uri, v);
    var head, text := RequestLine(m, uri, v), RequestText(m, uri, v, lines) + wire;
    RequestFollows(cfg, m, uri, v, lines, body, trailers, wire);
    AgreeableIs(cfg, a);
    NextMessage(cfg, a, lines, body, trailers, wire);
    var tail := BlockText(lines) + "\r\n" + wire;
    assert text == head + tail;
    ThenRun(cfg, p, head, a, LineNotes(p, m, uri), tail);
    var first := Run(cfg, p, text);
    RunAppend(cfg, p, text, next);
    if first.end.Live? && first.p.state.Dead? { ClosedRefuses(cfg, first.p, next); }
  }

  lemma ClosedRefuses(cfg: Settings, p: Parser, next: string)
    requires p.state.Dead? && next != [] && next[0] != CR && next[0] != LF
    ensures var r := Run(cfg, p, next); r.n == 0 && r.ev == [] && r.end.Failed? && r.p.errno == Refusal(p)
  {
  }
}

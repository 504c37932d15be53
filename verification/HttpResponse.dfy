/** Responses: the status line, and the ways a response's body can end. */
module HttpResponse {
  import opened Wrappers
  import opened HttpTypes
  import opened HttpChars
  import opened HttpStep
  import opened HttpInvariant
  import opened HttpExecute
  import opened HttpPieces
  import opened HttpMessage
  import opened HttpHeaders
  import opened HttpBodies
  import opened HttpRoundTrip

  // ---- the status line ----

  function DigitChar(d: nat): char
    requires d < 10
  {
    ('0' as int + d) as char
  }

  /** A number as it is printed. */
  function Dec(n: nat): (s: string)
    ensures s != []
  {
    if n < 10 then [DigitChar(n)] else Dec(n / 10) + [DigitChar(n % 10)]
  }

  /** One more character of a status line, silently. */
  lemma StatusLetter(cfg: Settings, p: Parser, s: string, q: Parser, ev: seq<Event>, c: char, r: Parser)
    requires Reads(cfg, p, s, q, ev) && q.state.StatusLine? && q.nread < MAX_HEADER_SIZE
    requires StepStatusLine(cfg, Counted(q), q.state.status, c) == Cont(r) && Collecting(r.state).None?
    ensures Reads(cfg, p, s + [c], r, ev)
  {
    hide Run, StepStatusLine;
    ReadsOne(cfg, q, c, r, []);
    ReadsThen(cfg, p, s, q, ev, [c], r, []);
    assert ev + [] == ev;
  }

  /** The parser after the first character of a response. */
  function ResponseBegun(p: Parser): Parser {
    p.(flags := NO_FLAGS, contentLength := ULLONG_MAX, state := StatusLine(ResH), nread := p.nread + 1)
  }

  function Major(v: Version): nat { if v.Http09? then 0 else 1 }

  lemma ProtocolNameReads(cfg: Settings, p: Parser)
    requires p.state.StartRes? && p.nread + 5 <= MAX_HEADER_SIZE && cfg.onMessageBegin(ResponseBegun(p)) == 0
    ensures Reads(cfg, p, "HTTP/", ResponseBegun(p).(state := StatusLine(ResFirstMajor), nread := p.nread + 5),
                  [Notice(MessageBegin, ResponseBegun(p))])
  {
    var a := ResponseBegun(p);
    var ev := [Notice(MessageBegin, a)];
    assert Step(cfg, p, 'H') == Out(a, ev, Go);
    hide Run, Reads, Step;
    ReadsOne(cfg, p, 'H', a, ev);
    var b := a.(state := StatusLine(ResHT), nread := p.nread + 2);
    var c := a.(state := StatusLine(ResHTT), nread := p.nread + 3);
    var d := a.(state := StatusLine(ResHTTP), nread := p.nread + 4);
    var e := a.(state := StatusLine(ResFirstMajor), nread := p.nread + 5);
    StatusLetter(cfg, p, ['H'], a, ev, 'T', b);
    StatusLetter(cfg, p, ['H'] + ['T'], b, ev, 'T', c);
    StatusLetter(cfg, p, ['H'] + ['T'] + ['T'], c, ev, 'P', d);
    StatusLetter(cfg, p, ['H'] + ['T'] + ['T'] + ['P'], d, ev, '/', e);
    assert ['H'] + ['T'] + ['T'] + ['P'] + ['/'] == "HTTP/";
  }

  /** The version number and the space behind it. */
  lemma ResponseVersionReads(cfg: Settings, p: Parser, v: Version)
    requires p.state == StatusLine(ResFirstMajor) && p.nread + 4 <= MAX_HEADER_SIZE
    ensures Reads(cfg, p, [DigitChar(Major(v)), '.', DigitChar(Minor(v)), ' '],
                  p.(state := StatusLine(ResFirstCode), nread := p.nread + 4, major := Major(v), minor := Minor(v)), [])
  {
    hide Run, Reads;
    var a := p.(state := StatusLine(ResMajor), nread := p.nread + 1, major := Major(v));
    var b := a.(state := StatusLine(ResFirstMinor), nread := p.nread + 2);
    var c := b.(state := StatusLine(ResMinor), nread := p.nread + 3, minor := Minor(v));
    var d := c.(state := StatusLine(ResFirstCode), nread := p.nread + 4);
    var x, y := DigitChar(Major(v)), DigitChar(Minor(v));
    ReadsNone(cfg, p);
    StatusLetter(cfg, p, [], p, [], x, a);
    StatusLetter(cfg, p, [] + [x], a, [], '.', b);
    StatusLetter(cfg, p, [] + [x] + ['.'], b, [], y, c);
    StatusLetter(cfg, p, [] + [x] + ['.'] + [y], c, [], ' ', d);
    assert [] + [x] + ['.'] + [y] + [' '] == [x, '.', y, ' '];
  }

  /** A status code of up to three digits is read as the number it is. */
  lemma {:induction false} CodeReads(cfg: Settings, p: Parser, code: nat)
    requires p.state == StatusLine(ResFirstCode) && code <= 999 && p.nread + |Dec(code)| <= MAX_HEADER_SIZE
    ensures Reads(cfg, p, Dec(code), p.(state := StatusLine(ResCode), nread := p.nread + |Dec(code)|, status := code), [])
    decreases code
  {
    hide Run, Reads;
    var d := DigitChar(code % 10);
    var r := p.(state := StatusLine(ResCode), nread := p.nread + |Dec(code)|, status := code);
    if code < 10 {
      ReadsNone(cfg, p);
      StatusLetter(cfg, p, [], p, [], d, r);
      assert [] + [d] == Dec(code);
    } else {
      CodeReads(cfg, p, code / 10);
      var q := p.(state := StatusLine(ResCode), nread := p.nread + |Dec(code / 10)|, status := code / 10);
      StatusLetter(cfg, p, Dec(code / 10), q, [], d, r);
    }
  }

  /** A longer one is refused, at its fourth digit. */
  lemma {:induction false} CodeRefused(cfg: Settings, p: Parser, code: nat)
    requires p.state == StatusLine(ResFirstCode) && code > 999 && p.nread + |Dec(code)| <= MAX_HEADER_SIZE
    ensures var r := Run(cfg, p, Dec(code)); r.end.Failed? && r.p.errno.InvalidStatus?
    decreases code
  {
    hide Run;
    var a, d := Dec(code / 10), DigitChar(code % 10);
    RunAppend(cfg, p, a, [d]);
    if code / 10 <= 999 {
      CodeReads(cfg, p, code / 10);
      var q := p.(state := StatusLine(ResCode), nread := p.nread + |a|, status := code / 10);
      FourthDigit(cfg, q, d);
    } else {
      CodeRefused(cfg, p, code / 10);
    }
  }

  lemma FourthDigit(cfg: Settings, p: Parser, d: char)
    requires p.state == StatusLine(ResCode) && 100 <= p.status && IsNum(d) && p.nread < MAX_HEADER_SIZE
    ensures var r := Run(cfg, p, [d]); r.end.Failed? && r.p.errno.InvalidStatus?
  {
    RunOne(cfg, p, d);
    hide Run;
  }

  lemma {:induction false} ReasonReads(cfg: Settings, p: Parser, reason: string)
    requires p.state == StatusLine(ResReason) && p.nread + |reason| <= MAX_HEADER_SIZE
    requires CR !in reason && LF !in reason
    ensures Reads(cfg, p, reason, p.(nread := p.nread + |reason|), [])
    decreases |reason|
  {
    hide Run, Reads;
    if reason == [] {
      ReadsNone(cfg, p);
    } else {
      var n := |reason| - 1;
      assert reason == reason[..n] + [reason[n]];
      assert CR !in reason[..n] && LF !in reason[..n];
      ReasonReads(cfg, p, reason[..n]);
      assert reason[n] in reason;
      StatusLetter(cfg, p, reason[..n], p.(nread := p.nread + n), [], reason[n], p.(nread := p.nread + |reason|));
    }
  }

  lemma StatusDone(cfg: Settings, p: Parser)
    requires p.state == StatusLine(ResAlmostDone) && p.nread < MAX_HEADER_SIZE
    requires cfg.onStatusComplete(p.(state := Header(FieldStart), nread := p.nread + 1)) == 0
    ensures var q := p.(state := Header(FieldStart), nread := p.nread + 1);
      Step(cfg, p, LF) == Out(q, [Notice(StatusComplete, q)], Go)
  {
  }

  /** The end of the status line. */
  lemma StatusEnds(cfg: Settings, p: Parser)
    requires p.state == StatusLine(ResReason) && p.nread + 2 <= MAX_HEADER_SIZE
    requires cfg.onStatusComplete(p.(state := Header(FieldStart), nread := p.nread + 2)) == 0
    ensures var q := p.(state := Header(FieldStart), nread := p.nread + 2);
      Reads(cfg, p, "\r\n", q, [Notice(StatusComplete, q)])
  {
    var a, q := p.(state := StatusLine(ResAlmostDone), nread := p.nread + 1), p.(state := Header(FieldStart), nread := p.nread + 2);
    hide Run, Reads, Step;
    ReadsNone(cfg, p);
    StatusLetter(cfg, p, [], p, [], CR, a);
    assert [] + [CR] == [CR];
    StatusDone(cfg, a);
    ReadsOne(cfg, a, LF, q, [Notice(StatusComplete, q)]);
    ReadsThen(cfg, p, [CR], a, [], [LF], q, [Notice(StatusComplete, q)]);
    assert [CR] + [LF] == "\r\n" && [] + [Notice(StatusComplete, q)] == [Notice(StatusComplete, q)];
  }

  /** What stands in a response before its status code. */
  function ResponseHead(v: Version): string { "HTTP/" + [DigitChar(Major(v)), '.', DigitChar(Minor(v)), ' '] }

  lemma ResponseHeadIs(v: Version)
    ensures VersionText(v) + " " == ResponseHead(v) && |ResponseHead(v)| == 9
  {
  }

  lemma ResponseHeadReads(cfg: Settings, p: Parser, v: Version)
    requires p.state.StartRes? && p.nread + 9 <= MAX_HEADER_SIZE && cfg.onMessageBegin(ResponseBegun(p)) == 0
    ensures Reads(cfg, p, ResponseHead(v),
      ResponseBegun(p).(state := StatusLine(ResFirstCode), nread := p.nread + 9, major := Major(v), minor := Minor(v)),
      [Notice(MessageBegin, ResponseBegun(p))])
  {
    hide Run, Reads;
    var a := ResponseBegun(p).(state := StatusLine(ResFirstMajor), nread := p.nread + 5);
    var b := a.(state := StatusLine(ResFirstCode), nread := p.nread + 9, major := Major(v), minor := Minor(v));
    var ev := [Notice(MessageBegin, ResponseBegun(p))];
    ProtocolNameReads(cfg, p);
    ResponseVersionReads(cfg, a, v);
    ReadsThen(cfg, p, "HTTP/", a, ev, [DigitChar(Major(v)), '.', DigitChar(Minor(v)), ' '], b, []);
    assert ev + [] == ev;
  }

  function StatusLineText(v: Version, code: nat, reason: string): string {
    VersionText(v) + " " + Dec(code) + " " + reason + "\r\n"
  }

  function AfterStatusLine(p: Parser, v: Version, code: nat, reason: string): Parser {
    ResponseBegun(p).(state := Header(FieldStart), nread := p.nread + |StatusLineText(v, code, reason)|,
                      major := Major(v), minor := Minor(v), status := code)
  }

  function StatusNotes(p: Parser, v: Version, code: nat, reason: string): seq<Event> {
    [Notice(MessageBegin, ResponseBegun(p)), Notice(StatusComplete, AfterStatusLine(p, v, code, reason))]
  }

  /** A printed status line is read as the version and the code it was printed from. */
  lemma StatusLineReads(cfg: Settings, p: Parser, v: Version, code: nat, reason: string)
    requires p.state.StartRes? && code <= 999 && CR !in reason && LF !in reason
    requires p.nread + |StatusLineText(v, code, reason)| <= MAX_HEADER_SIZE
    requires cfg.onMessageBegin(ResponseBegun(p)) == 0 && cfg.onStatusComplete(AfterStatusLine(p, v, code, reason)) == 0
    ensures Reads(cfg, p, StatusLineText(v, code, reason), AfterStatusLine(p, v, code, reason), StatusNotes(p, v, code, reason))
  {
    ResponseHeadIs(v);
    hide Run, Reads, ResponseHead, VersionText;
    var begun := [Notice(MessageBegin, ResponseBegun(p))];
    var a := ResponseBegun(p).(state := StatusLine(ResFirstCode), nread := p.nread + 9, major := Major(v), minor := Minor(v));
    var b := a.(state := StatusLine(ResCode), nread := a.nread + |Dec(code)|, status := code);
    var c := b.(state := StatusLine(ResReason), nread := b.nread + 1);
    var d := c.(nread := c.nread + |reason|);
    var e := d.(state := Header(FieldStart), nread := d.nread + 2);
    var head := ResponseHead(v);
    assert |StatusLineText(v, code, reason)| == 9 + |Dec(code)| + 1 + |reason| + 2;
    assert e == AfterStatusLine(p, v, code, reason);
    ResponseHeadReads(cfg, p, v);
    CodeReads(cfg, a, code);
    ReadsThen(cfg, p, head, a, begun, Dec(code), b, []);
    StatusLetter(cfg, p, head + Dec(code), b, begun + [], ' ', c);
    ReasonReads(cfg, c, reason);
    ReadsThen(cfg, p, head + Dec(code) + [' '], c, begun + [], reason, d, []);
    StatusEnds(cfg, d);
    ReadsThen(cfg, p, head + Dec(code) + [' '] + reason, d, begun + [] + [], "\r\n", e, [Notice(StatusComplete, e)]);
    assert begun + [] + [] + [Notice(StatusComplete, e)] == StatusNotes(p, v, code, reason);
    assert StatusLineText(v, code, reason) == head + Dec(code) + [' '] + reason + "\r\n";
  }

  /** The status line of a response is read if and only if its code has at most three digits. */
  lemma StatusLineIff(cfg: Settings, p: Parser, v: Version, code: nat, reason: string)
    requires p.state.StartRes? && CR !in reason && LF !in reason
    requires p.nread + |StatusLineText(v, code, reason)| <= MAX_HEADER_SIZE
    requires cfg.onMessageBegin(ResponseBegun(p)) == 0 && cfg.onStatusComplete(AfterStatusLine(p, v, code, reason)) == 0
    ensures Run(cfg, p, StatusLineText(v, code, reason)).end.Live? <==> code <= 999
  {
    hide Run, VersionText, ResponseHead;
    if code <= 999 {
      StatusLineReads(cfg, p, v, code, reason);
    } else {
      ResponseHeadIs(v);
      var a := ResponseBegun(p).(state := StatusLine(ResFirstCode), nread := p.nread + 9, major := Major(v), minor := Minor(v));
      ResponseHeadReads(cfg, p, v);
      CodeRefused(cfg, a, code);
      var rest := " " + reason + "\r\n";
      assert StatusLineText(v, code, reason) == ResponseHead(v) + (Dec(code) + rest);
      RunAppend(cfg, p, ResponseHead(v), Dec(code) + rest);
      RunAppend(cfg, a, Dec(code), rest);
    }
  }

  // ---- the body ----

  /** How the parser frames the body of a response. */
  function ResponseExtent(e: Effect, code: nat, toHead: bool): Extent { TakenExtent(e, toHead, !Bodyless(code)) }

  /** A response whose headers were read, before the blank line. */
  predicate ResponseRead(p: Parser) {
    && p.errno.Ok? && Inv(p) && p.kind.Response? && AtLine(p.state) && p.nread + 2 <= MAX_HEADER_SIZE
    && !p.flags.trailing && !p.flags.skipBody && !p.verb.Connect? && VersionOf(p).Some?
  }

  lemma ResponseExtentIs(toHead: bool, p: Parser)
    requires ResponseRead(p)
    ensures var cfg := ResponseSettings(toHead);
      && HeadersRead(cfg, p) && LeavesAtEnd(cfg)
      && ParserExtent(cfg, p) == ResponseExtent(Effect(p.flags, p.contentLength), p.status, toHead)
  {
    hide Inv;
  }

  /** A response as the library prints it, without its body. */
  function ResponseText(v: Version, code: nat, reason: string, lines: seq<HeaderLine>): string {
    StatusLineText(v, code, reason) + BlockText(lines) + "\r\n"
  }

  /** Prints a response: the status line, each header, a blank line. */
  method Print(v: Version, code: nat, reason: string, headers: seq<(string, string)>) returns (s: string)
    ensures s == ResponseText(v, code, reason, Printed(headers))
  {
    var block := WriteHeaders(headers);
    s := VersionText(v) + " " + Dec(code) + " " + reason + "\r\n" + block;
  }

  /** A response the parser can read up to its body. */
  predicate Readable(v: Version, code: nat, reason: string, lines: seq<HeaderLine>) {
    && code <= 999 && CR !in reason && LF !in reason && BlockOk(lines)
    && |ResponseText(v, code, reason, lines)| <= MAX_HEADER_SIZE
  }

  /** What header lines say of a response. */
  function Said(lines: seq<HeaderLine>): Effect { BlockEffect(Effect(NO_FLAGS, ULLONG_MAX), lines) }

  lemma ResponseHeadersRead(toHead: bool, v: Version, code: nat, reason: string, lines: seq<HeaderLine>)
    requires Readable(v, code, reason, lines)
    ensures var p := Init(Response); var q := AfterBlock(AfterStatusLine(p, v, code, reason), lines);
      && Reads(ResponseSettings(toHead), p, StatusLineText(v, code, reason) + BlockText(lines), q,
               StatusNotes(p, v, code, reason) + BlockEvents(lines))
      && ResponseRead(q) && q.status == code && VersionOf(q) == Some(v)
      && Effect(q.flags, q.contentLength) == Said(lines)
  {
    hide Run, Inv, StatusLineText, Reads, BlockEvents, BlockEffect, AfterBlock;
    var cfg := ResponseSettings(toHead);
    var p := Init(Response);
    var a := AfterStatusLine(p, v, code, reason);
    StatusLineReads(cfg, p, v, code, reason);
    BlockReads(cfg, a, lines);
    BlockEffectOk(a, lines);
    BlockFlags(Effect(NO_FLAGS, ULLONG_MAX), lines);
    ReadsThen(cfg, p, StatusLineText(v, code, reason), a, StatusNotes(p, v, code, reason),
              BlockText(lines), AfterBlock(a, lines), BlockEvents(lines));
    ReadsKeepInv(cfg, p, StatusLineText(v, code, reason) + BlockText(lines), AfterBlock(a, lines),
                 StatusNotes(p, v, code, reason) + BlockEvents(lines));
  }

  lemma ReadsKeepInv(cfg: Settings, p: Parser, text: string, q: Parser, ev: seq<Event>)
    requires p == Init(Response) && Reads(cfg, p, text, q, ev)
    ensures q.errno.Ok? && Inv(q)
  {
    hide Run, Inv;
    InitOk(Response);
    RunSound(cfg, p, text);
  }

  // ---- the round trip ----

  /** The events of a response up to its body. */
  ghost predicate ResponseTold(ev: seq<Event>, v: Version, code: nat, lines: seq<HeaderLine>, rest: seq<Event>) {
    exists b: Parser, c: Parser, f: Parser ::
      && f.kind.Response? && f.status == code && VersionOf(f) == Some(v)
      && ev == [Notice(MessageBegin, b), Notice(StatusComplete, c)] + BlockEvents(lines) + ([Notice(HeadersComplete, f)] + rest)
  }

  /** Every byte of a response and its body is consumed, and its version, code, headers and body are
      reported in order. It completes on its last byte or, when nothing says where its body ends, with
      the end of input. */
  lemma ResponseRoundTrip(toHead: bool, v: Version, code: nat, reason: string, lines: seq<HeaderLine>,
                          body: string, trailers: seq<HeaderLine>, wire: string, open: bool)
    requires Readable(v, code, reason, lines) && Travels(ResponseExtent(Said(lines), code, toHead), body, trailers, wire, open)
    ensures var cfg := ResponseSettings(toHead); var text := ResponseText(v, code, reason, lines) + wire;
      var r := Run(cfg, Init(Response), text);
      && r.n == |text|
      && (!open ==> r.end.Stopped? && r.p.errno.CbMessageComplete?
                    && exists q :: ResponseTold(r.ev, v, code, lines, Content(body, trailers) + [Notice(MessageComplete, q)]))
      && (open ==> r.end.Live? && ResponseTold(r.ev, v, code, lines, Content(body, trailers))
                   && Call(cfg, r.p, []) == RunResult(r.p.(errno := CbMessageComplete), 0, [Notice(MessageComplete, r.p)], Stopped))
  {
    hide Run, Inv, StatusLineText, BlockText, BlockEvents, Content, ResponseExtent, Travels, AfterBlock, BlockOk, Said,
         ParserExtent, HeadersRead, Call;
    var cfg, p := ResponseSettings(toHead), Init(Response);
    var head := StatusLineText(v, code, reason) + BlockText(lines);
    ResponseHeadersRead(toHead, v, code, reason, lines);
    var q := AfterBlock(AfterStatusLine(p, v, code, reason), lines);
    ResponseExtentIs(toHead, q);
    MessageFinishes(cfg, q, body, trailers, wire, open);
    RunAppend(cfg, p, head, "\r\n" + wire);
    assert ResponseText(v, code, reason, lines) + wire == head + ("\r\n" + wire);
    var t, f := Run(cfg, q, "\r\n" + wire), HeadersOver(q);
    var notes := StatusNotes(p, v, code, reason) + BlockEvents(lines);
    if open {
      assert notes + t.ev == notes + ([Notice(HeadersComplete, f)] + Content(body, trailers));
      assert ResponseTold(notes + t.ev, v, code, lines, Content(body, trailers));
    } else {
      var c :| t.ev == [Notice(HeadersComplete, f)] + Content(body, trailers) + [Notice(MessageComplete, c)];
      var rest := Content(body, trailers) + [Notice(MessageComplete, c)];
      assert t.ev == [Notice(HeadersComplete, f)] + rest;
      assert ResponseTold(notes + t.ev, v, code, lines, rest);
    }
  }

  lemma CollectResponse(ev: seq<Event>, v: Version, code: nat, lines: seq<HeaderLine>, body: string, trailers: seq<HeaderLine>, q: Parser)
    requires ResponseTold(ev, v, code, lines, Content(body, trailers) + [Notice(MessageComplete, q)])
    ensures CollectAll(FRESH, ev) == Message("", "", code, v, Pairs(lines + trailers), false, body, |body|, true, false)
  {
    hide Content, BlockEvents, MethodStr;
    var b: Parser, c: Parser, f: Parser :| f.kind.Response? && f.status == code && VersionOf(f) == Some(v)
      && ev == [Notice(MessageBegin, b), Notice(StatusComplete, c)] + BlockEvents(lines)
             + ([Notice(HeadersComplete, f)] + (Content(body, trailers) + [Notice(MessageComplete, q)]));
    var notes, rest := [Notice(MessageBegin, b), Notice(StatusComplete, c)],
                       [Notice(HeadersComplete, f)] + Content(body, trailers) + [Notice(MessageComplete, q)];
    assert ev == notes + BlockEvents(lines) + rest;
    CollectAppend(FRESH, notes + BlockEvents(lines), rest);
    CollectAppend(FRESH, notes, BlockEvents(lines));
    assert CollectAll(FRESH, notes) == FRESH by {
      assert notes[1..] == [notes[1]];
      CollectOne(FRESH, notes[1]);
    }
    CollectBlock(FRESH, lines);
    assert [] + Pairs(lines) == Pairs(lines);
    CollectEnd(FRESH.(headers := Pairs(lines)), f, body, trailers, q);
    PairsAppend(lines, trailers);
  }

  lemma ToldToTheEnd(ev: seq<Event>, v: Version, code: nat, lines: seq<HeaderLine>, body: string, trailers: seq<HeaderLine>, q: Parser)
    requires ResponseTold(ev, v, code, lines, Content(body, trailers))
    ensures ResponseTold(ev + [Notice(MessageComplete, q)], v, code, lines, Content(body, trailers) + [Notice(MessageComplete, q)])
  {
    hide Content, BlockEvents;
    var b: Parser, c: Parser, f: Parser :| f.kind.Response? && f.status == code && VersionOf(f) == Some(v)
      && ev == [Notice(MessageBegin, b), Notice(StatusComplete, c)] + BlockEvents(lines)
             + ([Notice(HeadersComplete, f)] + Content(body, trailers));
    var notes := [Notice(MessageBegin, b), Notice(StatusComplete, c)] + BlockEvents(lines);
    assert ev + [Notice(MessageComplete, q)]
        == notes + ([Notice(HeadersComplete, f)] + (Content(body, trailers) + [Notice(MessageComplete, q)]));
  }

  /** What a response and its body collect to, the end of input included where it ends the body. */
  lemma ResponseCollected(toHead: bool, v: Version, code: nat, reason: string, lines: seq<HeaderLine>,
                          body: string, trailers: seq<HeaderLine>, wire: string, open: bool)
    requires Readable(v, code, reason, lines) && Travels(ResponseExtent(Said(lines), code, toHead), body, trailers, wire, open)
    ensures var cfg := ResponseSettings(toHead); var text := ResponseText(v, code, reason, lines) + wire;
      var one := Call(cfg, Init(Response), text);
      && text != [] && !one.end.Failed? && one.n == |text| && (one.p.errno.Ok? <==> open)
      && CollectAll(FRESH, one.ev + if open then Call(cfg, one.p, []).ev else [])
         == Message("", "", code, v, Pairs(lines + trailers), false, body, |body|, true, false)
  {
    hide Run, Inv, Content, BlockEvents, Readable, ResponseExtent, Travels, Said, ResponseTold, CollectAll, StatusLineText;
    var cfg, text := ResponseSettings(toHead), ResponseText(v, code, reason, lines) + wire;
    var one := Run(cfg, Init(Response), text);
    ResponseRoundTrip(toHead, v, code, reason, lines, body, trailers, wire, open);
    RunKeepsGoing(cfg, text);
    CallRuns(cfg, Init(Response), text);
    hide Call;
    if open {
      ToldToTheEnd(one.ev, v, code, lines, body, trailers, one.p);
      CollectResponse(one.ev + [Notice(MessageComplete, one.p)], v, code, lines, body, trailers, one.p);
    } else {
      var q :| ResponseTold(one.ev, v, code, lines, Content(body, trailers) + [Notice(MessageComplete, q)]);
      CollectResponse(one.ev, v, code, lines, body, trailers, q);
      assert one.ev + [] == one.ev;
    }
  }

  lemma RunKeepsGoing(cfg: Settings, text: string)
    ensures var r := Run(cfg, Init(Response), text); r.end.Live? ==> r.p.errno.Ok?
  {
    hide Run, Inv;
    InitOk(Response);
    RunSound(cfg, Init(Response), text);
  }

  /** The round trip through the parser as it is called: a fresh response and parser, fed the text in
      any non-empty pieces, and then the end of input if the response is not yet complete. */
  method ReadBack(toHead: bool, v: Version, code: nat, ghost reason: string, ghost lines: seq<HeaderLine>,
                  ghost body: string, ghost trailers: seq<HeaderLine>, ghost wire: string, ghost open: bool, pieces: seq<string>)
    returns (res: HttpBase, n: nat, ended: bool)
    requires Readable(v, code, reason, lines) && Travels(ResponseExtent(Said(lines), code, toHead), body, trailers, wire, open)
    requires NonEmpty(pieces) && Flatten(pieces) == ResponseText(v, code, reason, lines) + wire
    ensures res.m == Message("", "", code, v, Pairs(lines + trailers), false, body, |body|, true, false)
    ensures n == |Flatten(pieces)| && ended == open
  {
    hide Run, Inv, Call, CollectAll, Readable, ResponseExtent, Travels, Said, ReadPieces, ResponseText;
    var parser := new HttpParser(Response);
    res := new HttpBase.Response(toHead);
    ResponseCollected(toHead, v, code, reason, lines, body, trailers, wire, open);
    ghost var one := Call(res.cfg, parser.s, Flatten(pieces));
    ghost var last := Call(res.cfg, one.p, []);
    n := res.ParsePieces(parser, pieces);
    ended := parser.s.errno.Ok?;
    if ended {
      var len, error := res.Parse(parser, []);
      CollectAppend(FRESH, one.ev, last.ev);
    } else {
      assert one.ev + [] == one.ev;
    }
  }
}

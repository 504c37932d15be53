/** Line ends, spaces and the kind of message: what the parser insists on and what it lets pass. */
module HttpLines {
  import opened HttpTypes
  import opened HttpChars
  import opened UrlGrammar
  import opened HttpStep
  import opened HttpExecute
  import opened HttpHeaders

  /** States behind a carriage return, where only a line feed will do. */
  predicate WantsLf(s: State) {
    || s == StatusLine(ResAlmostDone) || s == ReqVersion(ReqAlmostDone) || s == Header(AlmostDone) || s.HeadersAlmostDone?
    || s == Chunk(SizeAlmostDone) || s == Chunk(DataDone)
  }

  /** A carriage return that ends a line has to be followed by a line feed, and chunk data by a carriage
      return. */
  lemma CrNeedsLf(cfg: Settings, p: Parser, c: char)
    requires p.nread < MAX_HEADER_SIZE && (p.state.Chunk? ==> p.flags.chunked)
    requires (WantsLf(p.state) && c != LF) || (p.state == Chunk(DataAlmostDone) && p.contentLength == 0 && c != CR)
    ensures var r := Run(cfg, p, [c]); r.end.Failed? && r.n == 0 && r.ev == []
  {
    RunOne(cfg, p, c);
    hide Run;
  }

  /** A character that is neither a token character nor ends the name refuses a header line. */
  lemma NameRefuses(cfg: Settings, p: Parser, c: char)
    requires p.state == Header(InField) || p.state == Header(FieldStart)
    requires p.nread < MAX_HEADER_SIZE && !TokenChar(c as int) && c != CR && c != LF && (c != ':' || p.state == Header(FieldStart))
    ensures var r := Run(cfg, p, [c]); r.end.Failed? && r.n == 0 && r.ev == [] && r.p.errno.InvalidHeaderToken?
  {
    TokenTable(c);
    hide IsToken, TokenChar;
    RunOne(cfg, p, c);
    hide Run;
  }

  /** A character of a chunk size that is no digit, nor a byte above 127 which the table gives as zero,
      ends it if it is a carriage return, a semicolon or a space, and else refuses it. */
  lemma SizeRefuses(cfg: Settings, p: Parser, c: char)
    requires p.state == Chunk(Size) && p.flags.chunked && p.nread < MAX_HEADER_SIZE
    requires !HexChar(c as int) && !(128 <= c as int < 256)
    ensures var r := Run(cfg, p, [c]);
      if c == CR then r.end.Live? && r.p.state == Chunk(SizeAlmostDone)
      else if c == ';' || c == ' ' then r.end.Live? && r.p.state == Chunk(Parameters)
      else r.end.Failed? && r.n == 0 && r.ev == [] && r.p.errno.InvalidChunkSize?
  {
    RunOne(cfg, p, c);
    hide Run;
  }

  function Spaces(k: nat): string { if k == 0 then "" else Spaces(k - 1) + " " }

  /** Before a target, a version and a status code there may be any number of spaces. */
  lemma {:induction false} SpacesSkipped(cfg: Settings, p: Parser, k: nat)
    requires p.state == ReqUrl(SpacesBefore) || p.state == ReqVersion(ReqStart) || p.state == StatusLine(ResFirstCode)
    requires p.nread + k <= MAX_HEADER_SIZE
    ensures Reads(cfg, p, Spaces(k), p.(nread := p.nread + k), [])
    decreases k
  {
    hide Run, Reads;
    if k == 0 {
      ReadsNone(cfg, p);
    } else {
      var q := p.(nread := p.nread + k - 1);
      SpacesSkipped(cfg, p, k - 1);
      assert Step(cfg, q, ' ') == Out(q.(nread := p.nread + k), [], Go);
      hide Step;
      ReadsOne(cfg, q, ' ', q.(nread := p.nread + k), []);
      var none: seq<Event> := [];
      ReadsThen(cfg, p, Spaces(k - 1), q, none, [' '], q.(nread := p.nread + k), none);
      assert none + none == none;
    }
  }

  ghost predicate Begins(cfg: Settings) { forall p :: cfg.onMessageBegin(p) == 0 }

  function Settled(c: char, d: char): ParserType { if c == 'H' && d == 'T' then Response else Request }

  lemma TwoSteps(cfg: Settings, p: Parser, c: char, d: char)
    ensures var o, r := Step(cfg, p, c), Run(cfg, p, [c, d]);
      if !o.status.Go? then r.p == o.p && r.end == EndOf(o)
      else r.p == Step(cfg, o.p, d).p && r.end == EndOf(Step(cfg, o.p, d))
  {
    hide Step;
    RunCons(cfg, p, [c, d]);
    assert [c, d][1..] == [d];
    RunOne(cfg, Step(cfg, p, c).p, d);
    hide Run;
  }

  lemma FirstOther(cfg: Settings, c: char)
    requires c != 'H' && c != CR && c != LF
    ensures Step(cfg, Init(Both), c) == Step(cfg, Init(Request), c)
  {
  }

  /** The parser behind the first letter, for either kind, for responses and for requests. */
  function AfterH(t: ParserType): Parser {
    match t
    case Both => Init(t).(contentLength := ULLONG_MAX, state := ResOrRespH, nread := 1)
    case Response => Init(t).(contentLength := ULLONG_MAX, state := StatusLine(ResH), nread := 1)
    case Request => Init(t).(contentLength := ULLONG_MAX, state := ReqMethod, verb := Head, index := 1, nread := 1)
  }

  lemma FirstH(cfg: Settings, t: ParserType)
    requires Begins(cfg)
    ensures var o := Step(cfg, Init(t), 'H'); o.status.Go? && o.p == AfterH(t)
  {
  }

  lemma SecondLetter(cfg: Settings, d: char)
    ensures var a, b := Step(cfg, AfterH(Both), d), Step(cfg, AfterH(Settled('H', d)), d);
      EndOf(a) == EndOf(b) && (EndOf(a).Live? ==> a.p == b.p)
  {
  }

  /** A parser for either kind is, from the second byte on, the one for responses if the message starts
      with HT and the one for requests otherwise. */
  lemma SettlesOn(cfg: Settings, c: char, d: char)
    requires c != CR && c != LF && Begins(cfg)
    ensures var r, t := Run(cfg, Init(Both), [c, d]), Run(cfg, Init(Settled(c, d)), [c, d]);
      r.end == t.end && (r.end.Live? ==> r.p == t.p)
  {
    hide Run, Step;
    TwoSteps(cfg, Init(Both), c, d);
    TwoSteps(cfg, Init(Settled(c, d)), c, d);
    if c == 'H' {
      FirstH(cfg, Both);
      FirstH(cfg, Settled(c, d));
      SecondLetter(cfg, d);
    } else { FirstOther(cfg, c); }
  }
}

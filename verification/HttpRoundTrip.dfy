/** A request printed by `http_request::data`, followed by its body in either framing, parses back to
    the same request. */
module HttpRoundTrip {
  import opened Wrappers
  import opened HttpTypes
  import opened HttpChars
  import opened UrlAutomaton
  import opened UrlGrammar
  import opened HttpStep
  import opened HttpInvariant
  import opened HttpTrace
  import opened HttpExecute
  import opened HttpPieces
  import opened HttpMessage
  import opened HttpHeaders
  import opened HttpBodies

  // ---- the method ----

  /** The method the matcher has in mind after i characters of m's name. */
  function Candidate(m: Method, i: nat): Method {
    match m
    case Checkout => if i < 2 then Connect else m
    case Copy => if i < 3 then Connect else m
    case Move | Merge | MSearch => if i < 2 then MkCol else m
    case MkActivity => if i < 3 then MkCol else m
    case Search => if i < 2 then Subscribe else m
    case PropFind | Put | Patch => if i < 2 then Post else m
    case Purge => if i < 2 then Post else if i < 3 then Put else m
    case PropPatch => if i < 2 then Post else if i < 5 then PropFind else m
    case Unsubscribe => if i < 3 then Unlock else m
    case _ => m
  }

  /** What the matcher makes of one character: the method it now has in mind. */
  function MethodMatch(v: Method, i: nat, c: char): Option<Method> {
    if i < |MethodStr(v)| && c == MethodStr(v)[i] then Some(v) else OtherMethod(v, i, c)
  }

  lemma CandidateStarts(m: Method)
    ensures FirstMethod(MethodStr(m)[0]) == Some(Candidate(m, 1)) && IsAlpha(MethodStr(m)[0])
  {
  }

  lemma MethodLetters(m: Method, i: nat)
    requires i < |MethodStr(m)|
    ensures MethodStr(m)[i] != '\0' && MethodStr(m)[i] != ' '
  {
  }

  /** Methods the matcher first takes for another one, by first letter. */
  predicate Early(m: Method) { m.Checkout? || m.Copy? || m.Move? || m.Merge? || m.MSearch? || m.MkActivity? }

  predicate Late(m: Method) {
    m.Search? || m.PropFind? || m.Put? || m.Patch? || m.Purge? || m.PropPatch? || m.Unsubscribe?
  }

  lemma EarlyStep(m: Method, i: nat)
    requires Early(m) && 1 <= i < |MethodStr(m)|
    ensures MethodMatch(Candidate(m, i), i, MethodStr(m)[i]) == Some(Candidate(m, i + 1))
  {
  }

  lemma LateStep(m: Method, i: nat)
    requires Late(m) && 1 <= i < |MethodStr(m)|
    ensures MethodMatch(Candidate(m, i), i, MethodStr(m)[i]) == Some(Candidate(m, i + 1))
  {
  }

  lemma CandidateStep(m: Method, i: nat)
    requires 1 <= i < |MethodStr(m)|
    ensures MethodMatch(Candidate(m, i), i, MethodStr(m)[i]) == Some(Candidate(m, i + 1))
    ensures MethodStr(m)[i] != '\0' && MethodStr(m)[i] != ' '
  {
    hide MethodStr, OtherMethod;
    MethodLetters(m, i);
    if Early(m) {
      EarlyStep(m, i);
    } else if Late(m) {
      LateStep(m, i);
    }
  }

  /** The parser i characters into a method's name, started from p. */
  function InMethod(p: Parser, m: Method, i: nat): Parser {
    p.(flags := NO_FLAGS, contentLength := ULLONG_MAX, verb := Candidate(m, i), index := i, state := ReqMethod,
       nread := p.nread + i)
  }

  lemma MethodFirst(cfg: Settings, p: Parser, m: Method)
    requires p.state.StartReq? && p.nread < MAX_HEADER_SIZE && cfg.onMessageBegin(InMethod(p, m, 1)) == 0
    ensures var q := InMethod(p, m, 1);
      Step(cfg, p, MethodStr(m)[0]) == Out(q, [Notice(MessageBegin, q)], Go)
  {
    hide MethodStr, FirstMethod;
    CandidateStarts(m);
  }

  lemma MethodNext(cfg: Settings, p: Parser, m: Method, i: nat)
    requires 1 <= i < |MethodStr(m)| && p.nread + i < MAX_HEADER_SIZE
    ensures Step(cfg, InMethod(p, m, i), MethodStr(m)[i]) == Out(InMethod(p, m, i + 1), [], Go)
  {
    CandidateStep(m, i);
    hide MethodStr, OtherMethod, Candidate;
  }

  lemma {:induction false} MethodReads(cfg: Settings, p: Parser, m: Method, i: nat)
    requires p.state.StartReq? && 1 <= i <= |MethodStr(m)| && p.nread + i <= MAX_HEADER_SIZE
    requires cfg.onMessageBegin(InMethod(p, m, 1)) == 0
    ensures Reads(cfg, p, MethodStr(m)[..i], InMethod(p, m, i), [Notice(MessageBegin, InMethod(p, m, 1))])
    decreases i
  {
    hide Run, Step, MethodStr, Candidate;
    var s := MethodStr(m);
    var told := [Notice(MessageBegin, InMethod(p, m, 1))];
    if i == 1 {
      MethodFirst(cfg, p, m);
      ReadsOne(cfg, p, s[0], InMethod(p, m, 1), told);
      assert s[..1] == [s[0]];
    } else {
      MethodReads(cfg, p, m, i - 1);
      MethodNext(cfg, p, m, i - 1);
      ReadsOne(cfg, InMethod(p, m, i - 1), s[i - 1], InMethod(p, m, i), []);
      ReadsThen(cfg, p, s[..i - 1], InMethod(p, m, i - 1), told, [s[i - 1]], InMethod(p, m, i), []);
      assert s[..i] == s[..i - 1] + [s[i - 1]];
      assert told + [] == told;
    }
  }

  // ---- the url ----

  function UrlBegin(m: Method): UrlState { Begin(m.Connect?) }

  /** The parser after some of the url. */
  function InUrl(p: Parser, u: UrlState, n: nat): Parser { p.(state := ReqUrl(u), nread := p.nread + n) }

  lemma UrlStepReads(cfg: Settings, p: Parser, at: UrlState, c: char, u: UrlState)
    requires p.state == ReqUrl(at) && p.nread < MAX_HEADER_SIZE && !u.UrlDead?
    requires u == UrlStep(if at.SpacesBefore? && p.verb.Connect? then ServerStart else at, c)
    ensures Step(cfg, p, c) == Out(InUrl(p, u, 1), [Data(Url, [c])], Go)
  {
    assert c != ' ' && c != CR && c != LF;
    hide UrlStep;
    assert [] + [Data(Url, [c])] == [Data(Url, [c])];
  }

  lemma {:induction false} UrlReads(cfg: Settings, p: Parser, url: string)
    requires p.state == ReqUrl(SpacesBefore) && url != [] && p.nread + |url| <= MAX_HEADER_SIZE
    requires !UrlRun(UrlBegin(p.verb), url).UrlDead?
    ensures Reads(cfg, p, url, InUrl(p, UrlRun(UrlBegin(p.verb), url), |url|), ByteEvents(Url, url))
    decreases |url|
  {
    hide Run, Step, UrlStep;
    var n := |url| - 1;
    var a, c := url[..n], url[n];
    var begin := UrlBegin(p.verb);
    var u := UrlRun(begin, url);
    assert url == a + [c];
    UrlRunSnoc(begin, a, c);
    if n == 0 {
      assert a == [];
      UrlStepReads(cfg, p, SpacesBefore, c, u);
      ReadsOne(cfg, p, c, InUrl(p, u, 1), [Data(Url, [c])]);
      assert url == [c];
      assert ByteEvents(Url, url) == [Data(Url, [c])];
    } else {
      DeadStays(UrlRun(begin, a), c);
      NotBefore(begin, a);
      UrlReads(cfg, p, a);
      var q := InUrl(p, UrlRun(begin, a), n);
      UrlStepReads(cfg, q, UrlRun(begin, a), c, u);
      ReadsOne(cfg, q, c, InUrl(p, u, |url|), [Data(Url, [c])]);
      ReadsThen(cfg, p, a, q, ByteEvents(Url, a), [c], InUrl(p, u, |url|), [Data(Url, [c])]);
      assert ByteEvents(Url, url) == ByteEvents(Url, a) + [Data(Url, [c])];
    }
  }

  lemma DeadStays(u: UrlState, c: char)
    ensures u.UrlDead? ==> UrlStep(u, c).UrlDead?
  {
  }

  lemma NotBefore(s: UrlState, url: string)
    requires url != []
    ensures !UrlRun(s, url).SpacesBefore?
  {
    var n := |url| - 1;
    assert url == url[..n] + [url[n]];
    UrlRunSnoc(s, url[..n], url[n]);
  }

  // ---- the request line ----

  function VersionText(v: Version): string {
    match v case Http09 => "HTTP/0.9" case Http10 => "HTTP/1.0" case Http11 => "HTTP/1.1"
  }

  function Minor(v: Version): nat { match v case Http09 => 9 case Http10 => 0 case Http11 => 1 }

  /** One more character of the version, after the stretch s that led from p to q. */
  lemma VersionLetter(cfg: Settings, p: Parser, s: string, q: Parser, c: char, r: Parser)
    requires Reads(cfg, p, s, q, []) && q.state.ReqVersion? && q.nread < MAX_HEADER_SIZE
    requires StepReqVersion(Counted(q), q.state.version, c) == Cont(r) && Collecting(r.state).None?
    ensures Reads(cfg, p, s + [c], r, [])
  {
    hide Run, StepReqVersion;
    ReadsOne(cfg, q, c, r, []);
    ReadsThen(cfg, p, s, q, [], [c], r, []);
  }

  /** The protocol name up to the version number, after the url's closing space. */
  lemma ProtocolReads(cfg: Settings, p: Parser)
    requires p.state == ReqVersion(ReqStart) && p.nread + 5 <= MAX_HEADER_SIZE
    ensures Reads(cfg, p, "HTTP/", p.(state := ReqVersion(ReqFirstMajor), nread := p.nread + 5), [])
  {
    hide Run, Reads;
    var a := p.(state := ReqVersion(ReqH), nread := p.nread + 1);
    var b := p.(state := ReqVersion(ReqHT), nread := p.nread + 2);
    var c := p.(state := ReqVersion(ReqHTT), nread := p.nread + 3);
    var d := p.(state := ReqVersion(ReqHTTP), nread := p.nread + 4);
    var e := p.(state := ReqVersion(ReqFirstMajor), nread := p.nread + 5);
    ReadsNone(cfg, p);
    VersionLetter(cfg, p, [], p, 'H', a);
    VersionLetter(cfg, p, [] + ['H'], a, 'T', b);
    VersionLetter(cfg, p, [] + ['H'] + ['T'], b, 'T', c);
    VersionLetter(cfg, p, [] + ['H'] + ['T'] + ['T'], c, 'P', d);
    VersionLetter(cfg, p, [] + ['H'] + ['T'] + ['T'] + ['P'], d, '/', e);
    assert [] + ['H'] + ['T'] + ['T'] + ['P'] + ['/'] == "HTTP/";
  }

  function VersionNumber(v: Version): string
    requires !v.Http09?
  {
    ['1', '.', if v.Http10? then '0' else '1', CR, LF]
  }

  lemma MajorReads(cfg: Settings, p: Parser)
    requires p.state == ReqVersion(ReqFirstMajor) && p.nread + 2 <= MAX_HEADER_SIZE
    ensures Reads(cfg, p, "1.", p.(state := ReqVersion(ReqFirstMinor), nread := p.nread + 2, major := 1), [])
  {
    hide Run, Reads;
    var a := p.(state := ReqVersion(ReqMajor), nread := p.nread + 1, major := 1);
    ReadsNone(cfg, p);
    VersionLetter(cfg, p, [], p, '1', a);
    VersionLetter(cfg, p, [] + ['1'], a, '.', a.(state := ReqVersion(ReqFirstMinor), nread := p.nread + 2));
    assert [] + ['1'] + ['.'] == "1.";
  }

  lemma MinorReads(cfg: Settings, p: Parser, v: Version)
    requires p.state == ReqVersion(ReqFirstMinor) && p.nread + 3 <= MAX_HEADER_SIZE && !v.Http09? && p.major == 1
    ensures Reads(cfg, p, [if v.Http10? then '0' else '1', CR, LF],
      p.(state := Header(FieldStart), nread := p.nread + 3, minor := Minor(v)), [])
  {
    hide Run, Reads;
    var c := p.(state := ReqVersion(ReqMinor), nread := p.nread + 1, minor := Minor(v));
    var d := c.(state := ReqVersion(ReqAlmostDone), nread := p.nread + 2);
    var digit := if v.Http10? then '0' else '1';
    ReadsNone(cfg, p);
    VersionLetter(cfg, p, [], p, digit, c);
    VersionLetter(cfg, p, [] + [digit], c, CR, d);
    VersionLetter(cfg, p, [] + [digit] + [CR], d, LF, d.(state := Header(FieldStart), nread := p.nread + 3));
    assert [] + [digit] + [CR] + [LF] == [digit, CR, LF];
  }

  lemma NumberReads(cfg: Settings, p: Parser, v: Version)
    requires p.state == ReqVersion(ReqFirstMajor) && p.nread + 5 <= MAX_HEADER_SIZE && !v.Http09?
    ensures Reads(cfg, p, VersionNumber(v),
      p.(state := Header(FieldStart), nread := p.nread + 5, major := 1, minor := Minor(v)), [])
  {
    hide Run, Reads;
    var b := p.(state := ReqVersion(ReqFirstMinor), nread := p.nread + 2, major := 1);
    var e := p.(state := Header(FieldStart), nread := p.nread + 5, major := 1, minor := Minor(v));
    var rest := [if v.Http10? then '0' else '1', CR, LF];
    MajorReads(cfg, p);
    MinorReads(cfg, b, v);
    var none: seq<Event> := [];
    ReadsThen(cfg, p, "1.", b, none, rest, e, none);
    assert none + none == none;
    assert VersionNumber(v) == "1." + rest;
  }

  function RequestLine(m: Method, uri: string, v: Version): string {
    MethodStr(m) + " " + uri + " " + VersionText(v) + "\r\n"
  }

  /** The parser after the method and the space behind it. */
  function AfterMethod(p: Parser, m: Method): Parser {
    var n := |MethodStr(m)| + 1;
    p.(flags := NO_FLAGS, contentLength := ULLONG_MAX, verb := m, index := n, state := ReqUrl(SpacesBefore),
       nread := p.nread + n)
  }

  lemma MethodSpace(cfg: Settings, p: Parser, m: Method)
    requires |MethodStr(m)| >= 3 && Candidate(m, |MethodStr(m)|) == m && p.nread + |MethodStr(m)| < MAX_HEADER_SIZE
    ensures Step(cfg, InMethod(p, m, |MethodStr(m)|), ' ') == Out(AfterMethod(p, m), [], Go)
  {
    hide Candidate;
  }

  lemma MethodEnds(cfg: Settings, p: Parser, m: Method)
    requires p.state.StartReq? && p.nread + |MethodStr(m)| < MAX_HEADER_SIZE
    requires cfg.onMessageBegin(InMethod(p, m, 1)) == 0
    ensures Reads(cfg, p, MethodStr(m) + " ", AfterMethod(p, m), [Notice(MessageBegin, InMethod(p, m, 1))])
  {
    hide Run, Step;
    var n := |MethodStr(m)|;
    var q := InMethod(p, m, n);
    assert n >= 3 && Candidate(m, n) == m by { MethodLenOk(m); }
    MethodReads(cfg, p, m, n);
    assert MethodStr(m)[..n] == MethodStr(m);
    hide MethodStr;
    MethodSpace(cfg, p, m);
    hide Step, MethodMatch;
    ReadsOne(cfg, q, ' ', AfterMethod(p, m), []);
    var told := [Notice(MessageBegin, InMethod(p, m, 1))];
    ReadsThen(cfg, p, MethodStr(m), q, told, " ", AfterMethod(p, m), []);
    assert told + [] == told;
  }

  lemma UrlEnds(cfg: Settings, p: Parser, u: UrlState)
    requires p.state == ReqUrl(u) && UrlMayEnd(u) && p.nread < MAX_HEADER_SIZE
    ensures Reads(cfg, p, " ", p.(state := ReqVersion(ReqStart), nread := p.nread + 1), [Data(Url, [])])
  {
    hide Run;
    var q := p.(state := ReqVersion(ReqStart), nread := p.nread + 1);
    assert Step(cfg, p, ' ') == Out(q, [Data(Url, [])], Go);
    ReadsOne(cfg, p, ' ', q, [Data(Url, [])]);
  }

  function LineNotes(p: Parser, m: Method, uri: string): seq<Event> {
    [Notice(MessageBegin, InMethod(p, m, 1))] + ByteEvents(Url, uri) + [Data(Url, [])]
  }

  lemma TargetEnds(m: Method, uri: string)
    requires Target(uri, m.Connect?)
    ensures uri != [] && UrlMayEnd(UrlRun(UrlBegin(m), uri)) && !UrlRun(UrlBegin(m), uri).UrlDead?
  {
    TargetAccepted(uri, m.Connect?);
    hide UrlRun, UrlStep;
  }

  /** Everything of the request line up to the version. */
  lemma TargetReads(cfg: Settings, p: Parser, m: Method, uri: string)
    requires p.state.StartReq? && cfg.onMessageBegin(InMethod(p, m, 1)) == 0
    requires Target(uri, m.Connect?)
    requires p.nread + |MethodStr(m)| + |uri| + 2 <= MAX_HEADER_SIZE
    ensures Reads(cfg, p, MethodStr(m) + " " + uri + " ",
      AfterMethod(p, m).(state := ReqVersion(ReqStart), nread := p.nread + |MethodStr(m)| + |uri| + 2), LineNotes(p, m, uri))
  {
    hide Run, Reads, UrlRun, ByteEvents, MethodStr, Candidate;
    var u := UrlRun(UrlBegin(m), uri);
    var q := AfterMethod(p, m);
    TargetEnds(m, uri);
    MethodEnds(cfg, p, m);
    UrlReads(cfg, q, uri);
    var r := InUrl(q, u, |uri|);
    UrlEnds(cfg, r, u);
    var told := [Notice(MessageBegin, InMethod(p, m, 1))];
    ReadsThen(cfg, p, MethodStr(m) + " ", q, told, uri, r, ByteEvents(Url, uri));
    ReadsThen(cfg, p, MethodStr(m) + " " + uri, r, told + ByteEvents(Url, uri), " ",
              r.(state := ReqVersion(ReqStart), nread := r.nread + 1), [Data(Url, [])]);
  }

  function AfterRequestLine(p: Parser, m: Method, uri: string, v: Version): Parser {
    AfterMethod(p, m).(state := Header(FieldStart), nread := p.nread + |RequestLine(m, uri, v)|, major := 1, minor := Minor(v))
  }

  lemma RequestLineReads(cfg: Settings, p: Parser, m: Method, uri: string, v: Version)
    requires p.state.StartReq? && cfg.onMessageBegin(InMethod(p, m, 1)) == 0 && !v.Http09?
    requires Target(uri, m.Connect?)
    requires p.nread + |RequestLine(m, uri, v)| <= MAX_HEADER_SIZE
    ensures Reads(cfg, p, RequestLine(m, uri, v), AfterRequestLine(p, m, uri, v), LineNotes(p, m, uri))
  {
    hide Run, Reads, MethodStr, UrlRun, Candidate;
    var a := MethodStr(m) + " " + uri + " ";
    var q := AfterMethod(p, m).(state := ReqVersion(ReqStart), nread := p.nread + |MethodStr(m)| + |uri| + 2);
    var r := q.(state := ReqVersion(ReqFirstMajor), nread := q.nread + 5);
    var t := r.(state := Header(FieldStart), nread := r.nread + 5, major := 1, minor := Minor(v));
    assert |RequestLine(m, uri, v)| == |a| + 10;
    TargetReads(cfg, p, m, uri);
    ProtocolReads(cfg, q);
    ReadsThen(cfg, p, a, q, LineNotes(p, m, uri), "HTTP/", r, []);
    NumberReads(cfg, r, v);
    ReadsThen(cfg, p, a + "HTTP/", r, LineNotes(p, m, uri) + [], VersionNumber(v), t, []);
    assert LineNotes(p, m, uri) + [] + [] == LineNotes(p, m, uri);
    assert VersionText(v) + "\r\n" == "HTTP/" + VersionNumber(v);
    assert RequestLine(m, uri, v) == a + (VersionText(v) + "\r\n");
    assert a + "HTTP/" + VersionNumber(v) == a + ("HTTP/" + VersionNumber(v));
  }

  // ---- what is collected ----

  lemma CollectBytes(m: Message, k: Kind, s: string)
    requires s != []
    ensures CollectAll(m, ByteEvents(k, s)) == Collect(m, Data(k, s))
  {
    hide Collect;
    SameBytes(k, s);
    CollectSame(m, ByteEvents(k, s), [Data(k, s)]);
    CollectOne(m, Data(k, s));
  }

  /** A run of bytes closed by its data callback. */
  lemma CollectRun(m: Message, k: Kind, s: string)
    ensures CollectAll(m, ByteEvents(k, s) + [Data(k, [])]) == Collect(m, Data(k, s))
  {
    hide Collect;
    CollectAppend(m, ByteEvents(k, s), [Data(k, [])]);
    CollectOne(CollectAll(m, ByteEvents(k, s)), Data(k, []));
    if s == [] {
      assert ByteEvents(k, s) == [];
    } else {
      CollectBytes(m, k, s);
      CollectJoin(m, k, s, []);
      assert s + [] == s;
    }
  }

  lemma CollectFirst(m: Message, h: HeaderLine)
    requires !m.gotField
    ensures CollectAll(m, FirstEvents(h)) == m.(headers := m.headers + [(h.name, h.value)])
  {
    var name, v := h.name, h.value;
    var e := ByteEvents(Field, name) + [Data(Field, [])];
    var f := ByteEvents(Value, v) + [Data(Value, [])];
    assert FirstEvents(h) == e + f;
    CollectAppend(m, e, f);
    CollectRun(m, Field, name);
    var q := Collect(m, Data(Field, name));
    CollectRun(q, Value, v);
    assert q.headers == m.headers + [(name, "")];
    assert "" + v == v;
    assert q.headers[|m.headers| := (name, v)] == m.headers + [(name, v)];
  }

  lemma {:induction false} CollectFolds(m: Message, before: seq<(string, string)>, name: string, v: string, folds: seq<Fold>)
    requires !m.gotField && m.headers == before + [(name, v)]
    ensures CollectAll(m, FoldsEvents(folds)) == m.(headers := before + [(name, v + FoldsValue(folds))])
    decreases |folds|
  {
    if folds == [] {
      assert v + FoldsValue(folds) == v;
    } else {
      var f := folds[0].value;
      var e := ByteEvents(Value, f) + [Data(Value, [])];
      var q := m.(headers := before + [(name, v + f)]);
      CollectAppend(m, e, FoldsEvents(folds[1..]));
      CollectRun(m, Value, f);
      assert m.headers[|before| := (name, v + f)] == q.headers;
      CollectFolds(q, before, name, v + f, folds[1..]);
      assert v + f + FoldsValue(folds[1..]) == v + FoldsValue(folds);
    }
  }

  lemma CollectLine(m: Message, h: HeaderLine)
    requires !m.gotField
    ensures CollectAll(m, LineEvents(h)) == m.(headers := m.headers + [(h.name, Whole(h))])
  {
    hide CollectAll, FirstEvents, FoldsEvents;
    CollectAppend(m, FirstEvents(h), FoldsEvents(h.folds));
    CollectFirst(m, h);
    CollectFolds(m.(headers := m.headers + [(h.name, h.value)]), m.headers, h.name, h.value, h.folds);
  }

  lemma {:induction false} CollectBlock(m: Message, lines: seq<HeaderLine>)
    requires !m.gotField
    ensures CollectAll(m, BlockEvents(lines)) == m.(headers := m.headers + Pairs(lines))
    decreases |lines|
  {
    hide LineEvents, Whole;
    if lines == [] {
      assert m.headers + Pairs(lines) == m.headers;
    } else {
      var h := lines[0];
      CollectAppend(m, LineEvents(h), BlockEvents(lines[1..]));
      CollectLine(m, h);
      CollectBlock(m.(headers := m.headers + [(h.name, Whole(h))]), lines[1..]);
      assert m.headers + Pairs(lines) == m.headers + [(h.name, Whole(h))] + Pairs(lines[1..]);
    }
  }

  // ---- the round trip ----

  /** The text of a request up to its body. */
  function RequestText(m: Method, uri: string, v: Version, lines: seq<HeaderLine>): string {
    RequestLine(m, uri, v) + BlockText(lines) + "\r\n"
  }

  /** Prints a request: the request line, each header, a blank line. */
  method Print(m: Method, uri: string, v: Version, headers: seq<(string, string)>) returns (s: string)
    ensures s == RequestText(m, uri, v, Printed(headers))
  {
    var block := WriteHeaders(headers);
    s := MethodStr(m) + " " + uri + " " + VersionText(v) + "\r\n" + block;
  }

  /** How the body of a request is framed. */
  function RequestExtent(e: Effect, m: Method): Extent { TakenExtent(e, m.Connect?, false) }

  /** A request that can be sent: a target by the grammar of its characters, well-formed header lines
      within the size limit, and a body framed as the lines say. */
  ghost predicate Sendable(m: Method, uri: string, v: Version, lines: seq<HeaderLine>,
                   body: string, trailers: seq<HeaderLine>, wire: string) {
    && Target(uri, m.Connect?)
    && BlockOk(lines)
    && |RequestText(m, uri, v, lines)| <= MAX_HEADER_SIZE
    && Travels(RequestExtent(BlockEffect(Effect(NO_FLAGS, ULLONG_MAX), lines), m), body, trailers, wire, false)
  }

  /** The events of a request, up to the notification objects. */
  ghost predicate Told(ev: seq<Event>, m: Method, uri: string, v: Version, lines: seq<HeaderLine>,
                   body: string, trailers: seq<HeaderLine>) {
    exists b: Parser, f: Parser, q: Parser ::
      && f.kind.Request? && f.verb == m && VersionOf(f) == Some(v)
      && ev == [Notice(MessageBegin, b)] + ByteEvents(Url, uri) + [Data(Url, [])] + BlockEvents(lines)
             + ([Notice(HeadersComplete, f)] + Content(body, trailers) + [Notice(MessageComplete, q)])
  }

  /** The parser before the blank line. */
  function BeforeBlank(m: Method, uri: string, v: Version, lines: seq<HeaderLine>): Parser
    requires BlockOk(lines)
  {
    AfterBlock(AfterRequestLine(Init(Request), m, uri, v), lines)
  }

  lemma HeadReads(m: Method, uri: string, v: Version, lines: seq<HeaderLine>)
    requires Target(uri, m.Connect?) && !v.Http09? && BlockOk(lines)
    requires |RequestText(m, uri, v, lines)| <= MAX_HEADER_SIZE
    ensures var p := Init(Request); var q := BeforeBlank(m, uri, v, lines);
      && Reads(REQUEST_SETTINGS, p, RequestLine(m, uri, v) + BlockText(lines), q,
               LineNotes(p, m, uri) + BlockEvents(lines))
      && q.errno.Ok? && Inv(q) && AtLine(q.state) && q.kind.Request? && q.verb == m
      && q.nread + 2 <= MAX_HEADER_SIZE && VersionOf(q) == Some(v)
      && Effect(q.flags, q.contentLength) == BlockEffect(Effect(NO_FLAGS, ULLONG_MAX), lines)
      && !q.flags.trailing && !q.flags.skipBody
  {
    hide Run, Inv, RequestLine, UrlRun, MethodStr;
    var p := Init(Request);
    var a := AfterRequestLine(p, m, uri, v);
    RequestLineReads(REQUEST_SETTINGS, p, m, uri, v);
    BlockReads(REQUEST_SETTINGS, a, lines);
    BlockEffectOk(a, lines);
    BlockFlags(Effect(NO_FLAGS, ULLONG_MAX), lines);
    ReadsThen(REQUEST_SETTINGS, p, RequestLine(m, uri, v), a, LineNotes(p, m, uri),
              BlockText(lines), AfterBlock(a, lines), BlockEvents(lines));
    assert Inv(p) by { InitOk(Request); }
    RunSound(REQUEST_SETTINGS, p, RequestLine(m, uri, v) + BlockText(lines));
  }

  lemma InitOk(t: ParserType)
    ensures Inv(Init(t))
  {
  }

  lemma RequestExtentIs(p: Parser)
    requires p.kind.Request? && AtLine(p.state) && p.nread + 2 <= MAX_HEADER_SIZE && VersionOf(p).Some?
    requires !p.flags.trailing && !p.flags.skipBody
    ensures var cfg := REQUEST_SETTINGS;
      && HeadersRead(cfg, p) && LeavesAtEnd(cfg)
      && ParserExtent(cfg, p) == RequestExtent(Effect(p.flags, p.contentLength), p.verb)
  {
  }

  /** Every byte of a sendable request and its body is consumed, and its parts are reported in order. */
  lemma Parses(m: Method, uri: string, v: Version, lines: seq<HeaderLine>,
                   body: string, trailers: seq<HeaderLine>, wire: string)
    requires Sendable(m, uri, v, lines, body, trailers, wire) && !v.Http09?
    ensures var text := RequestText(m, uri, v, lines) + wire;
      var r := Run(REQUEST_SETTINGS, Init(Request), text);
      && r.n == |text| && r.end.Stopped? && r.p.errno.CbMessageComplete?
      && Told(r.ev, m, uri, v, lines, body, trailers)
  {
    hide Run, Inv, RequestLine, UrlRun, MethodStr, TakenExtent, Travels, Opening, BlockOk, BlockText, ByteEvents, BeforeBlank, BlockEvents, BlockEffect,
         UrlMayEnd, UrlBegin;
    var p := Init(Request);
    var q := BeforeBlank(m, uri, v, lines);
    var head := RequestLine(m, uri, v) + BlockText(lines);
    HeadReads(m, uri, v, lines);
    RequestExtentIs(q);
    MessageFinishes(REQUEST_SETTINGS, q, body, trailers, wire, false);
    RunAppend(REQUEST_SETTINGS, p, head, "\r\n" + wire);
    assert RequestText(m, uri, v, lines) + wire == head + ("\r\n" + wire);
    var r := Run(REQUEST_SETTINGS, p, RequestText(m, uri, v, lines) + wire);
    var t := Run(REQUEST_SETTINGS, q, "\r\n" + wire);
    var f := HeadersOver(q);
    var c :| t.ev == [Notice(HeadersComplete, f)] + Content(body, trailers) + [Notice(MessageComplete, c)];
    assert r.ev == LineNotes(p, m, uri) + BlockEvents(lines) + t.ev;
    assert f.kind.Request? && f.verb == m && VersionOf(f) == Some(v);
  }

  lemma CollectTold(ev: seq<Event>, m: Method, uri: string, v: Version, lines: seq<HeaderLine>,
                   body: string, trailers: seq<HeaderLine>)
    requires Told(ev, m, uri, v, lines, body, trailers)
    ensures CollectAll(FRESH, ev) == Message(MethodStr(m), uri, 0, v, Pairs(lines + trailers), false, body, |body|, true, false)
  {
    hide MethodStr, ByteEvents, Content, BlockEvents;
    var b: Parser, f: Parser, q: Parser :| f.kind.Request? && f.verb == m && VersionOf(f) == Some(v)
      && ev == [Notice(MessageBegin, b)] + ByteEvents(Url, uri) + [Data(Url, [])] + BlockEvents(lines)
             + ([Notice(HeadersComplete, f)] + Content(body, trailers) + [Notice(MessageComplete, q)]);
    var e1 := ByteEvents(Url, uri) + [Data(Url, [])];
    var e3 := [Notice(HeadersComplete, f)] + Content(body, trailers) + [Notice(MessageComplete, q)];
    assert ev == [Notice(MessageBegin, b)] + e1 + BlockEvents(lines) + e3;
    CollectAppend(FRESH, [Notice(MessageBegin, b)] + e1 + BlockEvents(lines), e3);
    CollectAppend(FRESH, [Notice(MessageBegin, b)] + e1, BlockEvents(lines));
    CollectAppend(FRESH, [Notice(MessageBegin, b)], e1);
    CollectOne(FRESH, Notice(MessageBegin, b));
    CollectRun(FRESH, Url, uri);
    assert "" + uri == uri;
    var m1 := FRESH.(uri := uri);
    CollectBlock(m1, lines);
    assert [] + Pairs(lines) == Pairs(lines);
    CollectEnd(m1.(headers := Pairs(lines)), f, body, trailers, q);
    PairsAppend(lines, trailers);
  }

  lemma PairsAppend(a: seq<HeaderLine>, b: seq<HeaderLine>)
    ensures Pairs(a + b) == Pairs(a) + Pairs(b)
  {
    hide Whole;
  }

  lemma CollectBody(m: Message, body: string, trailers: seq<HeaderLine>)
    requires m.body == "" && !m.gotField
    ensures CollectAll(m, Content(body, trailers)) == m.(body := body, headers := m.headers + Pairs(trailers))
  {
    CollectAppend(m, ByteEvents(Body, body), BlockEvents(trailers));
    if body == [] {
      assert ByteEvents(Body, body) == [];
    } else {
      CollectBytes(m, Body, body);
      assert "" + body == body;
    }
    hide ByteEvents, BlockEvents;
    CollectBlock(m.(body := body), trailers);
  }

  lemma CollectEnd(m: Message, f: Parser, body: string, trailers: seq<HeaderLine>, q: Parser)
    requires m.body == "" && !m.gotField
    ensures CollectAll(m, [Notice(HeadersComplete, f)] + Content(body, trailers) + [Notice(MessageComplete, q)])
      == Collect(m, Notice(HeadersComplete, f)).(
           body := body, headers := m.headers + Pairs(trailers), complete := true, bodyLength := |body|)
  {
    hide MethodStr, VersionOf, Content, CollectAll;
    CollectAppend(m, [Notice(HeadersComplete, f)] + Content(body, trailers), [Notice(MessageComplete, q)]);
    CollectAppend(m, [Notice(HeadersComplete, f)], Content(body, trailers));
    CollectOne(m, Notice(HeadersComplete, f));
    var m1 := Collect(m, Notice(HeadersComplete, f));
    CollectBody(m1, body, trailers);
    CollectOne(m1.(body := body, headers := m.headers + Pairs(trailers)), Notice(MessageComplete, q));
  }

  /** A request with any sendable header lines parses to that request, body and trailing headers
      included: complete, with every byte consumed. */
  lemma ParsesBack(m: Method, uri: string, v: Version, lines: seq<HeaderLine>,
                   body: string, trailers: seq<HeaderLine>, wire: string)
    requires Sendable(m, uri, v, lines, body, trailers, wire) && !v.Http09?
    ensures var text := RequestText(m, uri, v, lines) + wire;
      var r := Run(REQUEST_SETTINGS, Init(Request), text);
      && r.n == |text| && r.end.Stopped?
      && CollectAll(FRESH, r.ev) == Message(MethodStr(m), uri, 0, v, Pairs(lines + trailers), false, body, |body|, true, false)
  {
    hide Run, RequestText, Sendable, Told, CollectAll;
    Parses(m, uri, v, lines, body, trailers, wire);
    CollectTold(Run(REQUEST_SETTINGS, Init(Request), RequestText(m, uri, v, lines) + wire).ev, m, uri, v, lines, body, trailers);
  }

  /** Printing a request and parsing it back, body included, gives the same request. */
  lemma RoundTrip(m: Method, uri: string, v: Version, headers: seq<(string, string)>, body: string, wire: string)
    requires Sendable(m, uri, v, Printed(headers), body, [], wire) && !v.Http09?
    ensures var text := RequestText(m, uri, v, Printed(headers)) + wire;
      var r := Run(REQUEST_SETTINGS, Init(Request), text);
      && r.n == |text| && r.end.Stopped?
      && CollectAll(FRESH, r.ev) == Message(MethodStr(m), uri, 0, v, headers, false, body, |body|, true, false)
  {
    hide Run, RequestText, Sendable, CollectAll;
    ParsesBack(m, uri, v, Printed(headers), body, [], wire);
    assert Printed(headers) + [] == Printed(headers);
    PrintedPairs(headers);
  }

  lemma Text09(m: Method, uri: string, lines: seq<HeaderLine>, wire: string)
    ensures RequestText(m, uri, Http09, lines) + wire ==
      MethodStr(m) + " " + uri + " " + "HTTP/" + (['0'] + (".9" + "\r\n" + BlockText(lines) + "\r\n" + wire))
  {
    hide MethodStr, BlockText;
  }

  lemma FailsAfter(cfg: Settings, p: Parser, head: string, r: Parser, ev: seq<Event>, rest: string)
    requires Reads(cfg, p, head, r, ev) && r.state == ReqVersion(ReqFirstMajor) && r.nread < MAX_HEADER_SIZE
    ensures var o := Run(cfg, p, head + (['0'] + rest)); o.end.Failed? && o.p.errno.InvalidVersion?
  {
    hide Run;
    RunAppend(cfg, p, head, ['0'] + rest);
    RunAppend(cfg, r, ['0'], rest);
    ZeroRefused(cfg, r);
  }

  /** The version the library can print but not read: the parser refuses a request line that says
      HTTP/0.9, at the zero. */
  lemma Version09Refused(m: Method, uri: string, lines: seq<HeaderLine>, wire: string)
    requires Target(uri, m.Connect?) && |RequestLine(m, uri, Http09)| <= MAX_HEADER_SIZE
    ensures var r := Run(REQUEST_SETTINGS, Init(Request), RequestText(m, uri, Http09, lines) + wire);
      r.end.Failed? && r.p.errno.InvalidVersion?
  {
    hide Run, UrlRun, MethodStr, BlockText, UrlMayEnd, UrlBegin, Reads, RequestText;
    var cfg := REQUEST_SETTINGS;
    var p := Init(Request);
    var a := MethodStr(m) + " " + uri + " ";
    var q := AfterMethod(p, m).(state := ReqVersion(ReqStart), nread := |MethodStr(m)| + |uri| + 2);
    var r := q.(state := ReqVersion(ReqFirstMajor), nread := q.nread + 5);
    TargetReads(cfg, p, m, uri);
    ProtocolReads(cfg, q);
    ReadsThen(cfg, p, a, q, LineNotes(p, m, uri), "HTTP/", r, []);
    var rest := ".9" + "\r\n" + BlockText(lines) + "\r\n" + wire;
    Text09(m, uri, lines, wire);
    FailsAfter(cfg, p, a + "HTTP/", r, LineNotes(p, m, uri) + [], rest);
  }

  lemma ZeroRefused(cfg: Settings, p: Parser)
    requires p.state == ReqVersion(ReqFirstMajor) && p.nread < MAX_HEADER_SIZE
    ensures var r := Run(cfg, p, ['0']); r.end.Failed? && r.p.errno.InvalidVersion?
  {
    RunOne(cfg, p, '0');
    hide Run;
  }

  /** A sendable request survives the round trip exactly when its version is not 0.9. */
  lemma RoundTripIff(m: Method, uri: string, v: Version, lines: seq<HeaderLine>,
                   body: string, trailers: seq<HeaderLine>, wire: string)
    requires Sendable(m, uri, v, lines, body, trailers, wire)
    ensures var r := Run(REQUEST_SETTINGS, Init(Request), RequestText(m, uri, v, lines) + wire);
      (r.end.Stopped? && CollectAll(FRESH, r.ev) == Message(MethodStr(m), uri, 0, v, Pairs(lines + trailers), false, body, |body|, true, false))
      <==> !v.Http09?
  {
    if v.Http09? {
      Version09Refused(m, uri, lines, wire);
    } else {
      hide Run, RequestText, Sendable, CollectAll;
      ParsesBack(m, uri, v, lines, body, trailers, wire);
    }
  }

  lemma RequestTextStarts(m: Method, uri: string, v: Version, lines: seq<HeaderLine>)
    ensures RequestText(m, uri, v, lines) != []
  {
    hide MethodStr, BlockText, VersionText;
  }

  lemma CallRuns(cfg: Settings, p: Parser, data: string)
    requires p.errno.Ok? && data != [] && !Run(cfg, p, data).end.Failed?
    ensures Call(cfg, p, data) == Run(cfg, p, data)
  {
    hide Run, HeldFrom;
  }

  /** The round trip through the parser as it is called: a fresh request and parser, fed the text in
      any non-empty pieces. */
  method ReadBack(m: Method, uri: string, v: Version, ghost lines: seq<HeaderLine>,
                  ghost body: string, ghost trailers: seq<HeaderLine>, ghost wire: string, pieces: seq<string>) returns (req: HttpBase, n: nat)
    requires Sendable(m, uri, v, lines, body, trailers, wire) && !v.Http09?
    requires NonEmpty(pieces) && Flatten(pieces) == RequestText(m, uri, v, lines) + wire
    ensures req.m == Message(MethodStr(m), uri, 0, v, Pairs(lines + trailers), false, body, |body|, true, false)
    ensures n == |Flatten(pieces)|
  {
    hide Run, RequestText, Sendable, CollectAll, Inv, MethodStr;
    var parser := new HttpParser(Request);
    req := new HttpBase.Request();
    ParsesBack(m, uri, v, lines, body, trailers, wire);
    RequestTextStarts(m, uri, v, lines);
    CallRuns(REQUEST_SETTINGS, parser.s, Flatten(pieces));
    hide Call;
    n := req.ParsePieces(parser, pieces);
  }

  // ---- what a refused byte costs ----

  /** Characters the url automaton has no way on for, and that do not end a url here either. */
  predicate UrlRefuses(u: UrlState, c: char) {
    UrlStep(u, c).UrlDead? && !(UrlMayEnd(u) && (c == ' ' || c == CR || c == LF))
  }

  lemma UrlRefused(cfg: Settings, p: Parser, u: UrlState, c: char)
    requires p.state == ReqUrl(u) && !u.SpacesBefore? && UrlRefuses(u, c) && p.nread < MAX_HEADER_SIZE
    ensures var r := Run(cfg, p, [c]); r.end.Failed? && r.n == 0 && r.ev == [] && r.p.errno.InvalidUrl?
  {
    hide UrlStep;
    RunOne(cfg, p, c);
    hide Run;
  }

  predicate Unbroken(w: string) { ' ' !in w && CR !in w && LF !in w }

  lemma FirstRefused(cfg: Settings, p: Parser, c: char)
    requires p.state == ReqUrl(SpacesBefore) && Unbroken([c]) && p.nread < MAX_HEADER_SIZE
    requires UrlStep(UrlBegin(p.verb), c).UrlDead?
    ensures var r := Run(cfg, p, [c]); r.end.Failed? && r.p.errno.InvalidUrl?
  {
    hide UrlStep;
    assert c in [c];
    RunOne(cfg, p, c);
    hide Run;
  }

  lemma {:induction false} DeadRefused(cfg: Settings, p: Parser, w: string)
    requires p.state == ReqUrl(SpacesBefore) && w != [] && Unbroken(w) && p.nread + |w| <= MAX_HEADER_SIZE
    requires UrlRun(UrlBegin(p.verb), w).UrlDead?
    ensures var r := Run(cfg, p, w); r.end.Failed? && r.p.errno.InvalidUrl?
    decreases |w|
  {
    hide Run, Step, UrlStep, UrlRun, ByteEvents;
    var n := |w| - 1;
    var a, c, begin := w[..n], w[n], UrlBegin(p.verb);
    assert w == a + [c];
    UrlRunSnoc(begin, a, c);
    if n == 0 {
      assert w == [c] && a == [];
      EmptyRun(begin);
      FirstRefused(cfg, p, c);
    } else {
      RunAppend(cfg, p, a, [c]);
      if UrlRun(begin, a).UrlDead? {
        DeadRefused(cfg, p, a);
      } else {
        UrlReads(cfg, p, a);
        NotBefore(begin, a);
        UrlRefused(cfg, InUrl(p, UrlRun(begin, a), n), UrlRun(begin, a), c);
      }
    }
  }

  /** What stands between the method and the next space is taken, and reported, if it is a target, and
      refused as a url if it is not. */
  lemma TargetIff(cfg: Settings, p: Parser, w: string)
    requires p.state == ReqUrl(SpacesBefore) && w != [] && Unbroken(w) && p.nread + |w| + 1 <= MAX_HEADER_SIZE
    ensures var r := Run(cfg, p, w + " ");
      if Target(w, p.verb.Connect?)
      then r.end.Live? && r.p == p.(state := ReqVersion(ReqStart), nread := p.nread + |w| + 1) && r.ev == ByteEvents(Url, w) + [Data(Url, [])]
      else r.end.Failed? && r.p.errno.InvalidUrl?
  {
    hide Run, Step, UrlStep, UrlRun, ByteEvents, Target;
    var u := UrlRun(UrlBegin(p.verb), w);
    TargetAccepted(w, p.verb.Connect?);
    RunAppend(cfg, p, w, " ");
    if u.UrlDead? {
      DeadRefused(cfg, p, w);
    } else {
      UrlReads(cfg, p, w);
      NotBefore(UrlBegin(p.verb), w);
      if UrlMayEnd(u) {
        UrlEnds(cfg, InUrl(p, u, |w|), u);
      } else {
        SpaceRefused(u);
        UrlRefused(cfg, InUrl(p, u, |w|), u, ' ');
      }
    }
  }

  /** A target that ends its line is a request of HTTP/0.9. */
  lemma TargetEndsLine(cfg: Settings, p: Parser, w: string)
    requires p.state == ReqUrl(SpacesBefore) && Target(w, p.verb.Connect?) && p.nread + |w| + 2 <= MAX_HEADER_SIZE
    ensures var told, r := ByteEvents(Url, w) + [Data(Url, [])], p.(major := 0, minor := 9, state := Header(FieldStart));
      && Reads(cfg, p, w + "\r\n", r.(nread := p.nread + |w| + 2), told)
      && Reads(cfg, p, w + "\n", r.(nread := p.nread + |w| + 1), told)
  {
    hide Run, Reads, UrlStep, UrlRun, ByteEvents, Target;
    var u := UrlRun(UrlBegin(p.verb), w);
    var q := InUrl(p, u, |w|);
    TargetEnds(p.verb, w);
    UrlReads(cfg, p, w);
    NotBefore(UrlBegin(p.verb), w);
    UrlLineEnds(cfg, q, u);
    var r := q.(major := 0, minor := 9, state := Header(FieldStart));
    ReadsThen(cfg, p, w, q, ByteEvents(Url, w), "\r\n", r.(nread := q.nread + 2), [Data(Url, [])]);
    ReadsThen(cfg, p, w, q, ByteEvents(Url, w), "\n", r.(nread := q.nread + 1), [Data(Url, [])]);
  }

  lemma UrlLineEnds(cfg: Settings, p: Parser, u: UrlState)
    requires p.state == ReqUrl(u) && UrlMayEnd(u) && p.nread + 2 <= MAX_HEADER_SIZE
    ensures var r := p.(major := 0, minor := 9, state := Header(FieldStart));
      Reads(cfg, p, "\r\n", r.(nread := p.nread + 2), [Data(Url, [])]) && Reads(cfg, p, "\n", r.(nread := p.nread + 1), [Data(Url, [])])
  {
    hide Run, Reads;
    var r := p.(major := 0, minor := 9, state := Header(FieldStart));
    var q := r.(state := ReqVersion(ReqAlmostDone), nread := p.nread + 1);
    assert Step(cfg, p, CR) == Out(q, [Data(Url, [])], Go) && Step(cfg, q, LF) == Out(r.(nread := p.nread + 2), [], Go);
    assert Step(cfg, p, LF) == Out(r.(nread := p.nread + 1), [Data(Url, [])], Go);
    hide Step;
    ReadsOne(cfg, p, CR, q, [Data(Url, [])]);
    ReadsOne(cfg, q, LF, r.(nread := p.nread + 2), []);
    ReadsOne(cfg, p, LF, r.(nread := p.nread + 1), [Data(Url, [])]);
    ReadsThen(cfg, p, [CR], q, [Data(Url, [])], [LF], r.(nread := p.nread + 2), []);
    assert [CR] + [LF] == "\r\n" && [LF] == "\n" && [Data(Url, [])] + [] == [Data(Url, [])];
  }

  lemma SpaceRefused(u: UrlState)
    ensures UrlStep(u, ' ').UrlDead?
  {
  }

  /** Every byte of a url is held while it is being read. */
  lemma {:induction false} UrlHeld(cfg: Settings, p: Parser, url: string, h: nat)
    requires p.state == ReqUrl(SpacesBefore) && url != [] && p.nread + |url| <= MAX_HEADER_SIZE
    requires !UrlRun(UrlBegin(p.verb), url).UrlDead?
    ensures HeldFrom(cfg, p, url, h) == |url|
    decreases |url|
  {
    hide Run, Step, UrlStep, UrlRun, HeldFrom, ByteEvents;
    var n := |url| - 1;
    var a, c, begin := url[..n], url[n], UrlBegin(p.verb);
    assert url == a + [c];
    UrlReads(cfg, p, url);
    NotBefore(begin, url);
    UrlRunSnoc(begin, a, c);
    DeadStays(UrlRun(begin, a), c);
    if n == 0 {
      assert url == [c];
      RunOne(cfg, p, c);
      HeldOne(cfg, p, c, h);
    } else {
      UrlHeld(cfg, p, a, h);
      UrlReads(cfg, p, a);
      NotBefore(begin, a);
      HeldAppend(cfg, p, a, [c], h);
      var q := Run(cfg, p, a).p;
      RunAppend(cfg, p, a, [c]);
      RunOne(cfg, q, c);
      HeldOne(cfg, q, c, n);
    }
  }

  lemma DropsHeld(told: seq<Event>, url: string)
    ensures Settled(told + ByteEvents(Url, url), |url|) == told
  {
  }

  /** The url as far as it was read is reported when a call ends inside it, but not when the byte that
      follows it in the same call is refused. */
  lemma SliceLost(m: Method, url: string, c: char)
    requires url != [] && |MethodStr(m)| + |url| + 2 <= MAX_HEADER_SIZE
    requires var u := UrlRun(UrlBegin(m), url); !u.UrlDead? && UrlRefuses(u, c)
    ensures var cfg, p, head := REQUEST_SETTINGS, Init(Request), MethodStr(m) + " " + url;
      var one, two := Call(cfg, p, head + [c]), ReadPieces(cfg, p, [head, [c]]);
      && one.end.Failed? && two.end.Failed? && one.n == two.n == |head|
      && one.ev == [Notice(MessageBegin, InMethod(p, m, 1))]
      && two.ev == one.ev + ByteEvents(Url, url)
  {
    hide Run, Step, HeldFrom, Candidate, UrlRun, UrlStep, ByteEvents, UrlRefuses, MethodStr, InMethod;
    var cfg, p, head := REQUEST_SETTINGS, Init(Request), MethodStr(m) + " " + url;
    var told := [Notice(MessageBegin, InMethod(p, m, 1))];
    var q := AfterMethod(p, m);
    var u := UrlRun(UrlBegin(m), url);
    var r := InUrl(q, u, |url|);
    MethodEnds(cfg, p, m);
    UrlReads(cfg, q, url);
    ReadsThen(cfg, p, MethodStr(m) + " ", q, told, url, r, ByteEvents(Url, url));
    NotBefore(UrlBegin(m), url);
    UrlRefused(cfg, r, u, c);
    HeldAppend(cfg, p, MethodStr(m) + " ", url, 0);
    UrlHeld(cfg, q, url, HeldFrom(cfg, p, MethodStr(m) + " ", 0));
    LostAfter(cfg, p, head, r, told, url, c);
  }

  lemma LostAfter(cfg: Settings, p: Parser, head: string, q: Parser, told: seq<Event>, url: string, c: char)
    requires p.errno.Ok? && q.errno.Ok? && head != []
    requires Reads(cfg, p, head, q, told + ByteEvents(Url, url)) && HeldFrom(cfg, p, head, 0) == |url|
    requires var r := Run(cfg, q, [c]); r.end.Failed? && r.n == 0 && r.ev == []
    ensures var one, two := Call(cfg, p, head + [c]), ReadPieces(cfg, p, [head, [c]]);
      && one.end.Failed? && two.end.Failed? && one.n == two.n == |head|
      && one.ev == told && two.ev == told + ByteEvents(Url, url)
  {
    hide Run, HeldFrom, ByteEvents;
    var ev := told + ByteEvents(Url, url);
    RunAppend(cfg, p, head, [c]);
    assert ev + [] == ev && (head + [c])[..|head|] == head;
    DropsHeld(told, url);
    LostInTwo(cfg, p, head, q, c);
  }

  lemma LostInTwo(cfg: Settings, p: Parser, head: string, q: Parser, c: char)
    requires p.errno.Ok? && q.errno.Ok? && head != []
    requires Reads(cfg, p, head, q, Run(cfg, p, head).ev)
    requires var r := Run(cfg, q, [c]); r.end.Failed? && r.n == 0 && r.ev == []
    ensures var two := ReadPieces(cfg, p, [head, [c]]);
      two.end.Failed? && two.n == |head| && two.ev == Run(cfg, p, head).ev
  {
    hide Run, HeldFrom;
    assert [head, [c]][1..] == [[c]] && [[c]][1..] == [];
    assert Call(cfg, p, head) == Run(cfg, p, head);
    var r := Call(cfg, q, [c]);
    assert r.end.Failed? && r.n == 0 && r.ev == [];
    assert ReadPieces(cfg, q, [[c]]) == r;
    assert Run(cfg, p, head).ev + [] == Run(cfg, p, head).ev;
  }

  /** For one: a control character after the first two characters of a path. */
  lemma SliceLostOnce(c: char)
    requires c == 1 as char
    ensures var cfg, p := REQUEST_SETTINGS, Init(Request);
      Call(cfg, p, "GET " + "/a" + [c]).ev + ByteEvents(Url, "/a") == ReadPieces(cfg, p, ["GET " + "/a", [c]]).ev
  {
    hide Run, HeldFrom, ByteEvents;
    assert UrlRun(SpacesBefore, "/a") == Path by {
      assert "/a"[1..] == "a" && "a"[1..] == "";
      assert UrlStep(SpacesBefore, '/') == Path && UrlStep(Path, 'a') == Path;
    }
    assert UrlStep(Path, c).UrlDead?;
    assert MethodStr(Get) + " " == "GET ";
    hide UrlRun, UrlStep, MethodStr, Call;
    SliceLost(Get, "/a", c);
  }
}

/** The url automaton shared by the message parser and the url splitter. */
module UrlAutomaton {
  import opened HttpTypes
  import opened HttpChars

  /** One step of the automaton; `UrlDead` means the character is not allowed there. */
  function UrlStep(s: UrlState, ch: char): (r: UrlState)
    ensures !r.SpacesBefore?
  {
    if ch == ' ' || ch == CR || ch == LF || ch == '\t' || ch as int == 12 then UrlDead
    else match s
      case SpacesBefore =>
        if ch == '/' || ch == '*' then Path else if IsAlpha(ch) then Schema else UrlDead
      case Schema => if IsAlpha(ch) then Schema else if ch == ':' then SchemaSlash else UrlDead
      case SchemaSlash => if ch == '/' then SchemaSlashSlash else UrlDead
      case SchemaSlashSlash => if ch == '/' then ServerStart else UrlDead
      case ServerWithAt => if ch == '@' then UrlDead else ServerStep(ch)
      case ServerStart => ServerStep(ch)
      case Server => ServerStep(ch)
      case Path =>
        if IsUrlChar(ch) then Path
        else if ch == '?' then QueryStart else if ch == '#' then FragmentStart else UrlDead
      case QueryStart => QueryStep(ch)
      case Query => QueryStep(ch)
      case FragmentStart =>
        if IsUrlChar(ch) || ch == '?' then Fragment else if ch == '#' then FragmentStart else UrlDead
      case Fragment => if IsUrlChar(ch) || ch == '?' || ch == '#' then Fragment else UrlDead
      case UrlDead => UrlDead
  }

  function ServerStep(ch: char): UrlState {
    if ch == '/' then Path
    else if ch == '?' then QueryStart
    else if ch == '@' then ServerWithAt
    else if IsUserinfoChar(ch) || ch == '[' || ch == ']' then Server
    else UrlDead
  }

  function QueryStep(ch: char): UrlState {
    if IsUrlChar(ch) || ch == '?' then Query
    else if ch == '#' then FragmentStart
    else UrlDead
  }

  /** The automaton over a whole string. */
  function UrlRun(s: UrlState, url: string): UrlState
    decreases |url|
  {
    if url == [] then s else UrlRun(UrlStep(s, url[0]), url[1..])
  }

  lemma {:induction false} UrlRunSnoc(s: UrlState, w: string, c: char)
    ensures UrlRun(s, w + [c]) == UrlStep(UrlRun(s, w), c)
    decreases |w|
  {
    hide UrlStep;
    if w == [] {
      assert [c][1..] == [];
    } else {
      assert (w + [c])[1..] == w[1..] + [c];
      UrlRunSnoc(UrlStep(s, w[0]), w[1..], c);
    }
  }
}

/** What `http_parser_execute` does with a single byte, one function per group of states.
    The jumps back to `reexecute_byte` always go forward in the state order, so they are calls. */
module HttpStep {
  import opened Wrappers
  import opened HttpTypes
  import opened HttpChars
  import opened UrlAutomaton

  const CONNECTION := "connection"
  const PROXY_CONNECTION := "proxy-connection"
  const CONTENT_LENGTH := "content-length"
  const TRANSFER_ENCODING := "transfer-encoding"
  const UPGRADE := "upgrade"
  const CHUNKED := "chunked"
  const KEEP_ALIVE := "keep-alive"
  const CLOSE := "close"

  // ---- outcomes ----

  function Cont(p: Parser): Out { Out(p, [], Go) }

  function Fail(p: Parser, e: Errno): Out { Out(p.(errno := e), [], StopAt) }

  function Crash(p: Parser): Out { Out(p, [], Abort) }

  /** A notification callback that consumes the byte when it asks to stop. */
  function Tell(p: Parser, n: Note, rc: int, e: Errno): Out {
    if rc != 0 then Out(p.(errno := e), [Notice(n, p)], StopAfter) else Out(p, [Notice(n, p)], Go)
  }

  function TellComplete(cfg: Settings, p: Parser): Out {
    Tell(p, MessageComplete, cfg.onMessageComplete(p), CbMessageComplete)
  }

  /** The data callback at the end of a run of `k` bytes; the bytes themselves are reported one by one. */
  function Flush(p: Parser, k: Kind): Out { Out(p, [Data(k, [])], Go) }

  // ---- end of message ----

  predicate NeedsEof(p: Parser) {
    && !p.kind.Request?
    && !(p.status / 100 == 1 || p.status == 204 || p.status == 304 || p.flags.skipBody)
    && !(p.flags.chunked || p.contentLength != ULLONG_MAX)
  }

  predicate ShouldKeepAlive(p: Parser) {
    && (if p.major > 0 && p.minor > 0 then !p.flags.close else p.flags.keepAlive)
    && !NeedsEof(p)
  }

  function NewMessage(p: Parser): State {
    if !ShouldKeepAlive(p) then Dead else if p.kind.Request? then StartReq else StartRes
  }

  function Finish(cfg: Settings, p: Parser): Out {
    TellComplete(cfg, p.(state := NewMessage(p)))
  }

  // ---- start of a message ----

  function FirstMethod(ch: char): Option<Method> {
    match ch
    case 'C' => Some(Connect) case 'D' => Some(Delete) case 'G' => Some(Get) case 'H' => Some(Head)
    case 'L' => Some(Lock) case 'M' => Some(MkCol) case 'N' => Some(Notify) case 'O' => Some(Options)
    case 'P' => Some(Post) case 'R' => Some(Report) case 'S' => Some(Subscribe) case 'T' => Some(Trace)
    case 'U' => Some(Unlock) case _ => None
  }

  function StepStartReq(cfg: Settings, p: Parser, ch: char): Out {
    if ch == CR || ch == LF then Cont(p)
    else
      var q := p.(flags := NO_FLAGS, contentLength := ULLONG_MAX);
      if !IsAlpha(ch) then Fail(q, InvalidMethod)
      else if FirstMethod(ch).None? then Fail(q.(verb := Delete, index := 1), InvalidMethod)
      else
        var r := q.(verb := FirstMethod(ch).value, index := 1, state := ReqMethod);
        Tell(r, MessageBegin, cfg.onMessageBegin(r), CbMessageBegin)
  }

  /** The other method a mismatch at `index` may lead to. */
  function OtherMethod(m: Method, index: nat, ch: char): Option<Method> {
    match m
    case Connect => if index == 1 && ch == 'H' then Some(Checkout) else if index == 2 && ch == 'P' then Some(Copy) else None
    case MkCol =>
      if index == 1 && ch == 'O' then Some(Move)
      else if index == 1 && ch == 'E' then Some(Merge)
      else if index == 1 && ch == '-' then Some(MSearch)
      else if index == 2 && ch == 'A' then Some(MkActivity) else None
    case Subscribe => if index == 1 && ch == 'E' then Some(Search) else None
    case Post =>
      if index != 1 then None
      else if ch == 'R' then Some(PropFind) else if ch == 'U' then Some(Put) else if ch == 'A' then Some(Patch) else None
    case Put => if index == 2 && ch == 'R' then Some(Purge) else None
    case Unlock => if index == 2 && ch == 'S' then Some(Unsubscribe) else None
    case PropFind => if index == 4 && ch == 'P' then Some(PropPatch) else None
    case _ => None
  }

  function StepReqMethod(p: Parser, ch: char): Out {
    var s := MethodStr(p.verb);
    var q := p.(index := p.index + 1);
    if ch == '\0' then Fail(p, InvalidMethod)
    else if ch == ' ' && p.index == |s| then Cont(q.(state := ReqUrl(SpacesBefore)))
    else if p.index < |s| && ch == s[p.index] then Cont(q)
    else if OtherMethod(p.verb, p.index, ch).None? then Fail(p, InvalidMethod)
    else Cont(q.(verb := OtherMethod(p.verb, p.index, ch).value))
  }

  function StepStart(cfg: Settings, p: Parser, ch: char): Out {
    match p.state
    case Dead => if ch == CR || ch == LF then Cont(p) else Fail(p, ClosedConnection)
    case StartReqOrRes =>
      if ch == CR || ch == LF then Cont(p)
      else
        var q := p.(flags := NO_FLAGS, contentLength := ULLONG_MAX);
        if ch == 'H' then
          var r := q.(state := ResOrRespH);
          Tell(r, MessageBegin, cfg.onMessageBegin(r), CbMessageBegin)
        else StepStartReq(cfg, q.(kind := Request, state := StartReq), ch)
    case ResOrRespH =>
      if ch == 'T' then Cont(p.(kind := Response, state := StatusLine(ResHT)))
      else if ch != 'E' then Fail(p, InvalidConstant)
      else Cont(p.(kind := Request, verb := Head, index := 2, state := ReqMethod))
    case StartRes =>
      var q := p.(flags := NO_FLAGS, contentLength := ULLONG_MAX);
      if ch != 'H' && ch != CR && ch != LF then Fail(q, InvalidConstant)
      else
        var r := if ch == 'H' then q.(state := StatusLine(ResH)) else q;
        Tell(r, MessageBegin, cfg.onMessageBegin(r), CbMessageBegin)
    case StartReq => StepStartReq(cfg, p, ch)
    case _ => StepReqMethod(p, ch)
  }

  // ---- status line and request line ----

  function Expect(p: Parser, ch: char, want: char, next: State): Out {
    if ch != want then Fail(p, Strict) else Cont(p.(state := next))
  }

  function StepStatusLine(cfg: Settings, p: Parser, at: StatusState, ch: char): Out {
    match at
    case ResH => Expect(p, ch, 'T', StatusLine(ResHT))
    case ResHT => Expect(p, ch, 'T', StatusLine(ResHTT))
    case ResHTT => Expect(p, ch, 'P', StatusLine(ResHTTP))
    case ResHTTP => Expect(p, ch, '/', StatusLine(ResFirstMajor))
    case ResFirstMajor =>
      if !IsNum(ch) then Fail(p, InvalidVersion) else Cont(p.(major := Digit(ch), state := StatusLine(ResMajor)))
    case ResMajor => if ch == '.' then Cont(p.(state := StatusLine(ResFirstMinor))) else StepMajor(p, ch)
    case ResFirstMinor =>
      if !IsNum(ch) then Fail(p, InvalidVersion) else Cont(p.(minor := Digit(ch), state := StatusLine(ResMinor)))
    case ResMinor => if ch == ' ' then Cont(p.(state := StatusLine(ResFirstCode))) else StepMinor(p, ch)
    case ResFirstCode =>
      if IsNum(ch) then Cont(p.(status := Digit(ch), state := StatusLine(ResCode)))
      else if ch == ' ' then Cont(p) else Fail(p, InvalidStatus)
    case ResCode =>
      if IsNum(ch) then
        var q := p.(status := p.status * 10 + Digit(ch));
        if q.status > 999 then Fail(q, InvalidStatus) else Cont(q)
      else if ch == ' ' then Cont(p.(state := StatusLine(ResReason)))
      else if ch == CR then Cont(p.(state := StatusLine(ResAlmostDone)))
      else if ch == LF then Cont(p.(state := Header(FieldStart)))
      else Fail(p, InvalidStatus)
    case ResReason =>
      if ch == CR then Cont(p.(state := StatusLine(ResAlmostDone)))
      else if ch == LF then Cont(p.(state := Header(FieldStart)))
      else Cont(p)
    case ResAlmostDone =>
      if ch != LF then Fail(p, Strict)
      else
        var q := p.(state := Header(FieldStart));
        Tell(q, StatusComplete, cfg.onStatusComplete(q), CbStatusComplete)
  }

  function StepMajor(p: Parser, ch: char): Out {
    if !IsNum(ch) then Fail(p, InvalidVersion)
    else
      var q := p.(major := p.major * 10 + Digit(ch));
      if q.major > 999 then Fail(q, InvalidVersion) else Cont(q)
  }

  function StepMinor(p: Parser, ch: char): Out {
    if !IsNum(ch) then Fail(p, InvalidVersion)
    else
      var q := p.(minor := p.minor * 10 + Digit(ch));
      if q.minor > 999 then Fail(q, InvalidVersion) else Cont(q)
  }

  function StepUrlChar(p: Parser, at: UrlState, ch: char): Out {
    var u := UrlStep(at, ch);
    if u.UrlDead? then Fail(p.(state := Dead), InvalidUrl) else Cont(p.(state := ReqUrl(u)))
  }

  function StepUrl(p: Parser, at: UrlState, ch: char): Out {
    if at.SpacesBefore? then
      if ch == ' ' then Cont(p) else StepUrlChar(p, if p.verb.Connect? then ServerStart else SpacesBefore, ch)
    else if !UrlMayEnd(at) then
      if ch == ' ' || ch == CR || ch == LF then Fail(p, InvalidUrl) else StepUrlChar(p, at, ch)
    else if ch == ' ' then Flush(p.(state := ReqVersion(ReqStart)), Url)
    else if ch == CR then Flush(p.(major := 0, minor := 9, state := ReqVersion(ReqAlmostDone)), Url)
    else if ch == LF then Flush(p.(major := 0, minor := 9, state := Header(FieldStart)), Url)
    else StepUrlChar(p, at, ch)
  }

  function StepReqVersion(p: Parser, at: VersionState, ch: char): Out {
    match at
    case ReqStart =>
      if ch == 'H' then Cont(p.(state := ReqVersion(ReqH))) else if ch == ' ' then Cont(p) else Fail(p, InvalidConstant)
    case ReqH => Expect(p, ch, 'T', ReqVersion(ReqHT))
    case ReqHT => Expect(p, ch, 'T', ReqVersion(ReqHTT))
    case ReqHTT => Expect(p, ch, 'P', ReqVersion(ReqHTTP))
    case ReqHTTP => Expect(p, ch, '/', ReqVersion(ReqFirstMajor))
    case ReqFirstMajor =>
      if !('1' <= ch <= '9') then Fail(p, InvalidVersion)
      else Cont(p.(major := Digit(ch), state := ReqVersion(ReqMajor)))
    case ReqMajor => if ch == '.' then Cont(p.(state := ReqVersion(ReqFirstMinor))) else StepMajor(p, ch)
    case ReqFirstMinor =>
      if !IsNum(ch) then Fail(p, InvalidVersion) else Cont(p.(minor := Digit(ch), state := ReqVersion(ReqMinor)))
    case ReqMinor =>
      if ch == CR then Cont(p.(state := ReqVersion(ReqAlmostDone)))
      else if ch == LF then Cont(p.(state := Header(FieldStart)))
      else StepMinor(p, ch)
    case ReqAlmostDone =>
      if ch != LF then Fail(p, LfExpected) else Cont(p.(state := Header(FieldStart)))
  }

  // ---- headers ----

  /** One character of an incremental match against `keyword`. */
  function Advance(keyword: string, matching: HeaderState, done: HeaderState, index: nat, c: char): HeaderState {
    if index >= |keyword| || c != keyword[index] then General
    else if index == |keyword| - 1 then done
    else matching
  }

  function FieldMatchStart(c: char): HeaderState {
    match c
    case 'c' => HC
    case 'p' => MatchingProxyConnection
    case 't' => MatchingTransferEncoding
    case 'u' => MatchingUpgrade
    case _ => General
  }

  /** One more character of a header name: the next matcher state and index. There is none for the
      matcher states that belong to values. */
  function FieldMatch(h: HeaderState, index: nat, ch: char): Option<(HeaderState, nat)> {
    var c := Token(ch);
    var i := index + 1;
    match h
    case General => Some((General, index))
    case HC => Some((if c == 'o' then HCO else General, i))
    case HCO => Some((if c == 'n' then HCON else General, i))
    case HCON => Some((if c == 'n' then MatchingConnection else if c == 't' then MatchingContentLength else General, i))
    case MatchingConnection => Some((Advance(CONNECTION, h, Connection, i, c), i))
    case MatchingProxyConnection => Some((Advance(PROXY_CONNECTION, h, Connection, i, c), i))
    case MatchingContentLength => Some((Advance(CONTENT_LENGTH, h, ContentLength, i, c), i))
    case MatchingTransferEncoding => Some((Advance(TRANSFER_ENCODING, h, TransferEncoding, i, c), i))
    case MatchingUpgrade => Some((Advance(UPGRADE, h, Upgrade, i, c), i))
    case Connection | ContentLength | TransferEncoding | Upgrade => Some((if ch != ' ' then General else h, index))
    case MatchingChunked | MatchingKeepAlive | MatchingClose | Chunked | KeepAlive | Close => None
  }

  function StepFieldStart(cfg: Settings, p: Parser, ch: char): Out {
    if ch == CR then Cont(p.(state := HeadersAlmostDone))
    else if ch == LF then StepHeadersAlmostDone(cfg, p.(state := HeadersAlmostDone), ch)
    else if !IsToken(ch) then Fail(p, InvalidHeaderToken)
    else Cont(p.(index := 0, state := Header(InField), hstate := FieldMatchStart(Token(ch))))
  }

  function StepField(p: Parser, ch: char): Out {
    if IsToken(ch) then
      match FieldMatch(p.hstate, p.index, ch)
      case Some((h, i)) => Cont(p.(hstate := h, index := i))
      case None => Crash(p)
    else if ch == ':' then Flush(p.(state := Header(ValueStart)), Field)
    else if ch == CR then Flush(p.(state := Header(AlmostDone)), Field)
    else if ch == LF then Flush(p.(state := Header(FieldStart)), Field)
    else Fail(p, InvalidHeaderToken)
  }

  /** The first character of a header value. */
  function ValueMatchStart(h: HeaderState, ch: char): HeaderState {
    var c := SetBit5(ch);
    match h
    case TransferEncoding => if c == 'c' then MatchingChunked else General
    case Connection => if c == 'k' then MatchingKeepAlive else if c == 'c' then MatchingClose else General
    case ContentLength => ContentLength
    case _ => General
  }

  function StepValueStart(p: Parser, ch: char): Out {
    var q := p.(state := Header(InValue), index := 0);
    if IsBlank(ch) then Cont(p)
    else if ch == CR then Flush(q.(hstate := General, state := Header(AlmostDone)), Value)
    else if ch == LF then Flush(q.(state := Header(FieldStart)), Value)
    else if p.hstate.ContentLength? then
      if !IsNum(ch) then Fail(q, InvalidContentLength) else Cont(q.(contentLength := Digit(ch)))
    else
      Cont(q.(flags := if p.hstate.Upgrade? then p.flags.(upgrade := true) else p.flags,
              hstate := ValueMatchStart(p.hstate, ch)))
  }

  /** The next value of a decimal or hexadecimal length in 64-bit arithmetic, refused when it got
      smaller or equals 2^64 - 1. */
  function AddDigit(n: nat, base: nat, d: nat): (r: (nat, bool))
    ensures r.0 <= ULLONG_MAX && (r.1 ==> n <= r.0 < ULLONG_MAX)
  {
    var t := ((n * base) % TWO_64 + d) % TWO_64;
    (t, !(t < n || t == ULLONG_MAX))
  }

  /** One more character of a Content-Length value: the new length, if it is acceptable. */
  function LengthMatch(n: nat, ch: char): Option<nat> {
    if ch == ' ' then Some(n)
    else if !IsNum(ch) then None
    else
      var (t, ok) := AddDigit(n, 10, Digit(ch));
      if ok then Some(t) else None
  }

  /** One more character of any other header value; there is no next state after a name whose value
      has not been started. */
  function ValueMatch(h: HeaderState, index: nat, ch: char): Option<(HeaderState, nat)> {
    var c := SetBit5(ch);
    var i := index + 1;
    match h
    case General => Some((General, index))
    case Connection | TransferEncoding => None
    case MatchingChunked => Some((Advance(CHUNKED, h, Chunked, i, c), i))
    case MatchingKeepAlive => Some((Advance(KEEP_ALIVE, h, KeepAlive, i, c), i))
    case MatchingClose => Some((Advance(CLOSE, h, Close, i, c), i))
    case Chunked | KeepAlive | Close => Some((if ch != ' ' then General else h, index))
    case _ => Some((General, index))
  }

  function StepValueMatch(p: Parser, ch: char): Out {
    if p.hstate.ContentLength? then
      match LengthMatch(p.contentLength, ch)
      case Some(n) => Cont(p.(contentLength := n))
      case None => Fail(p, InvalidContentLength)
    else
      match ValueMatch(p.hstate, p.index, ch)
      case Some((h, i)) => Cont(p.(hstate := h, index := i))
      case None => Crash(p)
  }

  function StepValue(p: Parser, ch: char): Out {
    if ch == CR then Flush(p.(state := Header(AlmostDone)), Value)
    else if ch == LF then
      var o := StepHeaderAlmostDone(p.(state := Header(AlmostDone)), ch);
      o.(ev := [Data(Value, [])] + o.ev)
    else StepValueMatch(p, ch)
  }

  /** The flag a completed header line sets. */
  function LineFlags(f: Flags, h: HeaderState): Flags {
    match h
    case KeepAlive => f.(keepAlive := true)
    case Close => f.(close := true)
    case Chunked => f.(chunked := true)
    case _ => f
  }

  function StepHeaderAlmostDone(p: Parser, ch: char): Out {
    if ch != LF then Fail(p, Strict)
    else Cont(p.(state := Header(ValueLws), flags := LineFlags(p.flags, p.hstate)))
  }

  function StepLws(cfg: Settings, p: Parser, ch: char): Out {
    if IsBlank(ch) then Cont(p.(state := Header(ValueStart)))
    else StepFieldStart(cfg, p.(state := Header(FieldStart)), ch)
  }

  function StepHeader(cfg: Settings, p: Parser, at: LineState, ch: char): Out {
    match at
    case FieldStart => StepFieldStart(cfg, p, ch)
    case InField => StepField(p, ch)
    case ValueStart => StepValueStart(p, ch)
    case InValue => StepValue(p, ch)
    case ValueLws => StepLws(cfg, p, ch)
    case AlmostDone => StepHeaderAlmostDone(p, ch)
  }

  // ---- end of headers ----

  function StepHeadersAlmostDone(cfg: Settings, p: Parser, ch: char): Out {
    if ch != LF then Fail(p, Strict)
    else if p.flags.trailing then Finish(cfg, p)
    else
      var q := p.(state := HeadersDone, upgrade := p.flags.upgrade || p.verb.Connect?);
      var rc := cfg.onHeadersComplete(q);
      var told := [Notice(HeadersComplete, q)];
      if rc != 0 && rc != 1 then Out(q.(errno := CbHeadersComplete), told, StopAt)
      else
        var r := if rc == 1 then q.(flags := q.flags.(skipBody := true)) else q;
        var o := StepHeadersDone(cfg, r, ch);
        o.(ev := told + o.ev)
  }

  function StepHeadersDone(cfg: Settings, p: Parser, ch: char): Out {
    var q := p.(nread := 0);
    if ch != LF then Fail(p, Strict)
    else if p.upgrade then
      // The rest of the connection speaks another protocol: leave the call here.
      Finish(cfg, q).(status := StopAfter)
    else if p.flags.skipBody then Finish(cfg, q)
    else if p.flags.chunked then Cont(q.(state := Chunk(SizeStart)))
    else if p.contentLength == 0 then Finish(cfg, q)
    else if p.contentLength != ULLONG_MAX then Cont(q.(state := BodyIdentity))
    else if p.kind.Request? || !NeedsEof(q) then Finish(cfg, q)
    else Cont(q.(state := BodyIdentityEof))
  }

  // ---- bodies ----

  /** One byte of a body whose length is known. */
  function StepCounted(p: Parser, ch: char): Out {
    if p.contentLength == 0 || p.contentLength == ULLONG_MAX then Crash(p)
    else Out(p.(contentLength := p.contentLength - 1), [Data(Body, [ch])], Go)
  }

  function StepBodyIdentity(cfg: Settings, p: Parser, ch: char): Out {
    var o := StepCounted(p, ch);
    if o.status.Go? && o.p.contentLength == 0 then
      var m := Finish(cfg, o.p.(state := MessageDone));
      m.(ev := o.ev + m.ev)
    else o
  }

  function StepChunkData(p: Parser, ch: char): Out {
    var o := StepCounted(p, ch);
    if o.status.Go? && o.p.contentLength == 0 then o.(p := o.p.(state := Chunk(DataAlmostDone)))
    else o
  }

  function StepChunkSize(p: Parser, ch: char): Out {
    if ch == CR then Cont(p.(state := Chunk(SizeAlmostDone)))
    else if !IsSizeDigit(ch) then
      if ch == ';' || ch == ' ' then Cont(p.(state := Chunk(Parameters))) else Fail(p, InvalidChunkSize)
    else
      var (t, ok) := AddDigit(p.contentLength, 16, Unhex(ch));
      if !ok then Fail(p, InvalidContentLength) else Cont(p.(contentLength := t))
  }

  function StepChunk(p: Parser, at: ChunkState, ch: char): Out {
    if !p.flags.chunked then Crash(p)
    else match at
      case SizeStart =>
        if p.nread != 1 then Crash(p)
        else if !IsSizeDigit(ch) then Fail(p, InvalidChunkSize)
        else Cont(p.(contentLength := Unhex(ch), state := Chunk(Size)))
      case Size => StepChunkSize(p, ch)
      case Parameters => if ch == CR then Cont(p.(state := Chunk(SizeAlmostDone))) else Cont(p)
      case SizeAlmostDone =>
        if ch != LF then Fail(p, Strict)
        else if p.contentLength == 0 then
          Cont(p.(nread := 0, flags := p.flags.(trailing := true), state := Header(FieldStart)))
        else Cont(p.(nread := 0, state := Chunk(InData)))
      case InData => StepChunkData(p, ch)
      case DataAlmostDone =>
        if p.contentLength != 0 then Crash(p)
        else if ch != CR then Fail(p, Strict)
        else Cont(p.(state := Chunk(DataDone)))
      case DataDone =>
        if ch != LF then Fail(p, Strict) else Cont(p.(nread := 0, state := Chunk(SizeStart)))
  }

  // ---- one byte ----

  /** The switch over the parser state. */
  function Dispatch(cfg: Settings, p: Parser, ch: char): Out {
    match p.state
    case StatusLine(at) => StepStatusLine(cfg, p, at, ch)
    case ReqUrl(at) => StepUrl(p, at, ch)
    case ReqVersion(at) => StepReqVersion(p, at, ch)
    case Header(at) => StepHeader(cfg, p, at, ch)
    case HeadersAlmostDone => StepHeadersAlmostDone(cfg, p, ch)
    case HeadersDone => StepHeadersDone(cfg, p, ch)
    case Chunk(at) => StepChunk(p, at, ch)
    case BodyIdentity => StepBodyIdentity(cfg, p, ch)
    case BodyIdentityEof => Out(p, [Data(Body, [ch])], Go)
    case MessageDone => Finish(cfg, p)
    case _ => StepStart(cfg, p, ch)
  }

  /** The kind of data being collected in a state, for the three kinds collected byte by byte. */
  function Collecting(s: State): Option<Kind> {
    match s
    case ReqUrl(u) => if u.SpacesBefore? then None else Some(Url)
    case Header(h) => if h.InField? then Some(Field) else if h.InValue? then Some(Value) else None
    case _ => None
  }

  /** The byte as seen by the callbacks: it belongs to whatever is being collected after it. */
  function Observed(o: Out, ch: char): Out {
    if o.status.Go? && Collecting(o.p.state).Some?
    then o.(ev := o.ev + [Data(Collecting(o.p.state).value, [ch])]) else o
  }

  /** The header-size count of a byte. */
  function Counted(p: Parser): Parser {
    if ParsingHeader(p.state) then p.(nread := p.nread + 1) else p
  }

  /** Everything that happens for one byte, header-size limit included. */
  function Step(cfg: Settings, p: Parser, ch: char): Out {
    var q := Counted(p);
    if ParsingHeader(p.state) && q.nread > MAX_HEADER_SIZE then Fail(q, HeaderOverflow)
    else Observed(Dispatch(cfg, q, ch), ch)
  }

  // ---- many bytes ----

  /** How a call ends: all bytes consumed, stopped by the application (or an upgrade), a parse
      error, or a failed assertion. */
  datatype End = Live | Stopped | Failed | Aborted

  datatype RunResult = RunResult(p: Parser, n: nat, ev: seq<Event>, end: End)

  function EndOf(o: Out): End {
    match o.status
    case Go => Live
    case StopAfter => Stopped
    case StopAt => if o.p.errno.CbHeadersComplete? then Stopped else Failed
    case Abort => Aborted
  }

  /** The byte-at-a-time reading of a non-empty input. */
  function Run(cfg: Settings, p: Parser, data: string): RunResult
    decreases |data|
  {
    if data == [] then RunResult(p, 0, [], Live)
    else
      var o := Step(cfg, p, data[0]);
      if o.status.Go? then
        var r := Run(cfg, o.p, data[1..]);
        r.(n := r.n + 1, ev := o.ev + r.ev)
      else RunResult(o.p, if o.status.StopAfter? then 1 else 0, o.ev, EndOf(o))
  }
}

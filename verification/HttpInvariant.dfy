/** What every reachable parser satisfies, and that no internal assertion of the parser can fail. */
module HttpInvariant {
  import opened HttpTypes
  import opened UrlAutomaton
  import opened HttpStep

  /** Matcher states that may occur while a header name is read, with the largest index each
      allows: two less than the length of the keyword it is matching. */
  predicate FieldMatchOk(h: HeaderState, index: nat) {
    match h
    case HC => index == 0
    case HCO => index == 1
    case HCON => index == 2
    case MatchingConnection => index <= 8
    case MatchingProxyConnection => index <= 14
    case MatchingContentLength => index <= 12
    case MatchingTransferEncoding => index <= 15
    case MatchingUpgrade => index <= 5
    case General | Connection | ContentLength | TransferEncoding | Upgrade => true
    case _ => false
  }

  /** Matcher states that may occur while a header value is read. */
  predicate ValueMatchOk(h: HeaderState, index: nat, contentLength: nat) {
    match h
    case MatchingChunked => index <= 5
    case MatchingKeepAlive => index <= 8
    case MatchingClose => index <= 3
    case ContentLength => contentLength < ULLONG_MAX
    case General | Chunked | KeepAlive | Close => true
    case _ => false
  }

  /** The numbers fit the fields the source stores them in. */
  predicate InRange(p: Parser) {
    p.index <= 17 && p.nread <= MAX_HEADER_SIZE && p.contentLength <= ULLONG_MAX &&
    p.major <= 999 && p.minor <= 999 && p.status <= 999
  }

  /** The length of a method's name; the matcher's index never runs past it. */
  function MethodLen(m: Method): nat {
    match m
    case Get | Put => 3
    case Head | Post | Copy | Lock | Move => 4
    case Trace | MkCol | Merge | Patch | Purge => 5
    case Delete | Search | Unlock | Report | Notify => 6
    case Connect | Options => 7
    case PropFind | Checkout | MSearch => 8
    case PropPatch | Subscribe => 9
    case MkActivity => 10
    case Unsubscribe => 11
  }

  lemma MethodLenOk(m: Method)
    ensures MethodLen(m) == |MethodStr(m)|
  {
  }

  /** What each state promises about the other fields. */
  predicate StateInv(p: Parser) {
    match p.state
    case ReqMethod => p.index <= MethodLen(p.verb)
    case ReqUrl(u) => !u.UrlDead?
    case Header(h) =>
      if h.InField? then FieldMatchOk(p.hstate, p.index)
      else h.InValue? ==> ValueMatchOk(p.hstate, p.index, p.contentLength)
    case Chunk(c) => p.flags.chunked && ChunkInv(c, p.nread, p.contentLength)
    case BodyIdentity => 0 < p.contentLength < ULLONG_MAX
    case HeadersDone => false
    case MessageDone => false
    case _ => true
  }

  predicate ChunkInv(c: ChunkState, nread: nat, contentLength: nat) {
    match c
    case SizeStart => nread == 0
    case InData => 0 < contentLength < ULLONG_MAX
    case DataAlmostDone => contentLength == 0
    case DataDone => true
    case Size | Parameters | SizeAlmostDone => contentLength < ULLONG_MAX
  }

  predicate Inv(p: Parser) { InRange(p) && StateInv(p) }

  predicate Valid(p: Parser) { p.errno.Ok? ==> Inv(p) }

  /** Handling a byte neither fails an assertion nor leaves the invariant, and it goes on exactly
      when no error is recorded, save for the exit after an upgrade the application went along with. */
  predicate Sound(cfg: Settings, o: Out) {
    && !o.status.Abort?
    && Valid(o.p)
    && (o.status.Go? ==> o.p.errno.Ok?)
    && (o.status.StopAt? ==> !o.p.errno.Ok?)
    && (o.status.StopAfter? && o.p.errno.Ok? ==> o.p.upgrade && cfg.onMessageComplete(o.p) == 0)
  }

  /** The invariant as it stands after the header-size count of a byte. */
  predicate InvCounted(p: Parser) {
    p.errno.Ok? && InRange(p) &&
    if p.state == Chunk(SizeStart) then p.nread == 1 && p.flags.chunked else StateInv(p)
  }

  lemma FinishSound(cfg: Settings, p: Parser)
    requires InRange(p) && p.errno.Ok?
    ensures Sound(cfg, Finish(cfg, p))
    ensures p.upgrade ==> Sound(cfg, Finish(cfg, p).(status := StopAfter))
  {
    hide FieldMatchOk, ValueMatchOk, ChunkInv;
  }

  lemma MethodSound(cfg: Settings, p: Parser, ch: char)
    requires InvCounted(p) && p.state.ReqMethod?
    ensures Sound(cfg, StepReqMethod(p, ch))
  {
    hide FieldMatchOk, ValueMatchOk, ChunkInv, MethodStr;
    MethodLenOk(p.verb);
  }

  lemma StartReqSound(cfg: Settings, p: Parser, ch: char)
    requires InRange(p) && p.errno.Ok? && p.state.StartReq?
    ensures Sound(cfg, StepStartReq(cfg, p, ch))
  {
    hide FieldMatchOk, ValueMatchOk, ChunkInv;
  }

  lemma StartSound(cfg: Settings, p: Parser, ch: char)
    requires InvCounted(p)
    requires p.state in {Dead, StartReqOrRes, ResOrRespH, StartRes, StartReq, ReqMethod}
    ensures Sound(cfg, StepStart(cfg, p, ch))
  {
    if p.state.ReqMethod? { MethodSound(cfg, p, ch); }
    if p.state.StartReq? { StartReqSound(cfg, p, ch); }
    if p.state.StartReqOrRes? {
      StartReqSound(cfg, p.(flags := NO_FLAGS, contentLength := ULLONG_MAX, kind := Request, state := StartReq), ch);
    }
    hide FieldMatchOk, ValueMatchOk, ChunkInv, StepReqMethod, StepStartReq;
  }

  predicate InCode(at: StatusState) { at.ResFirstCode? || at.ResCode? || at.ResReason? || at.ResAlmostDone? }

  lemma StatusVersionSound(cfg: Settings, p: Parser, at: StatusState, ch: char)
    requires p.state == StatusLine(at) && !InCode(at) && InvCounted(p)
    ensures Sound(cfg, StepStatusLine(cfg, p, at, ch))
  {
    hide FieldMatchOk, ValueMatchOk, ChunkInv;
  }

  lemma StatusCodeSound(cfg: Settings, p: Parser, at: StatusState, ch: char)
    requires p.state == StatusLine(at) && InCode(at) && InvCounted(p)
    ensures Sound(cfg, StepStatusLine(cfg, p, at, ch))
  {
    hide FieldMatchOk, ValueMatchOk, ChunkInv;
  }

  lemma UrlSound(cfg: Settings, p: Parser, ch: char)
    requires p.state.ReqUrl? && InvCounted(p)
    ensures Sound(cfg, StepUrl(p, p.state.url, ch))
  {
    hide FieldMatchOk, ValueMatchOk, ChunkInv;
  }

  /** The states while the name of the protocol is read. */
  predicate InProtocol(at: VersionState) { at.ReqStart? || at.ReqH? || at.ReqHT? || at.ReqHTT? || at.ReqHTTP? }

  lemma ProtocolSound(cfg: Settings, p: Parser, ch: char)
    requires p.state.ReqVersion? && InProtocol(p.state.version) && InvCounted(p)
    ensures Sound(cfg, StepReqVersion(p, p.state.version, ch))
  {
    hide FieldMatchOk, ValueMatchOk, ChunkInv, StepMajor, StepMinor;
  }

  lemma NumberSound(cfg: Settings, p: Parser, ch: char)
    requires p.state.ReqVersion? && !InProtocol(p.state.version) && InvCounted(p)
    ensures Sound(cfg, StepReqVersion(p, p.state.version, ch))
  {
    hide FieldMatchOk, ValueMatchOk, ChunkInv;
  }

  lemma VersionSound(cfg: Settings, p: Parser, ch: char)
    requires p.state.ReqVersion? && InvCounted(p)
    ensures Sound(cfg, StepReqVersion(p, p.state.version, ch))
  {
    hide InvCounted, StepReqVersion, Sound;
    if InProtocol(p.state.version) { ProtocolSound(cfg, p, ch); } else { NumberSound(cfg, p, ch); }
  }

  lemma HeadersAlmostDoneSound(cfg: Settings, p: Parser, ch: char)
    requires p.state.HeadersAlmostDone? && InRange(p) && p.errno.Ok?
    ensures Sound(cfg, StepHeadersAlmostDone(cfg, p, ch))
  {
    hide FieldMatchOk, ValueMatchOk;
  }

  lemma FieldStartSound(cfg: Settings, p: Parser, ch: char)
    requires p.state == Header(FieldStart) && InRange(p) && p.errno.Ok?
    ensures Sound(cfg, StepFieldStart(cfg, p, ch))
  {
    HeadersAlmostDoneSound(cfg, p.(state := HeadersAlmostDone), ch);
  }

  /** The name matcher never meets a state it does not know. */
  lemma FieldMatchKeeps(h: HeaderState, index: nat, ch: char)
    requires FieldMatchOk(h, index) && index <= 17
    ensures var r := FieldMatch(h, index, ch);
      r.Some? && FieldMatchOk(r.value.0, r.value.1) && r.value.1 <= 17
  {
  }

  lemma FieldSound(cfg: Settings, p: Parser, ch: char)
    requires p.state == Header(InField) && InRange(p) && FieldMatchOk(p.hstate, p.index) && p.errno.Ok?
    ensures Sound(cfg, StepField(p, ch))
  {
    hide FieldMatch, FieldMatchOk;
    FieldMatchKeeps(p.hstate, p.index, ch);
  }

  lemma ValueStartSound(cfg: Settings, p: Parser, ch: char)
    requires p.state == Header(ValueStart) && InRange(p) && p.errno.Ok?
    ensures Sound(cfg, StepValueStart(p, ch))
  {
    hide FieldMatchOk, ChunkInv;
  }

  /** The value matcher never meets a state it should not. */
  lemma ValueMatchKeeps(h: HeaderState, index: nat, n: nat, ch: char)
    requires ValueMatchOk(h, index, n) && !h.ContentLength? && index <= 17
    ensures var r := ValueMatch(h, index, ch);
      r.Some? && ValueMatchOk(r.value.0, r.value.1, n) && !r.value.0.ContentLength? && r.value.1 <= 17
  {
  }

  lemma ValueSound(cfg: Settings, p: Parser, ch: char)
    requires p.state == Header(InValue) && InRange(p) && p.errno.Ok?
    requires ValueMatchOk(p.hstate, p.index, p.contentLength)
    ensures Sound(cfg, StepValue(p, ch))
  {
    hide ValueMatch, FieldMatchOk, ChunkInv;
    if !p.hstate.ContentLength? {
      ValueMatchKeeps(p.hstate, p.index, p.contentLength, ch);
    }
  }

  lemma HeaderSound(cfg: Settings, p: Parser, ch: char)
    requires p.state.Header? && InvCounted(p)
    ensures Sound(cfg, StepHeader(cfg, p, p.state.header, ch))
  {
    match p.state.header
    case InField => FieldSound(cfg, p, ch);
    case ValueStart => ValueStartSound(cfg, p, ch);
    case InValue => ValueSound(cfg, p, ch);
    case AlmostDone =>
    case FieldStart | ValueLws => FieldStartSound(cfg, p.(state := Header(FieldStart)), ch);
  }

  lemma ChunkSizeSound(cfg: Settings, p: Parser, ch: char)
    requires p.state == Chunk(Size) && InvCounted(p)
    ensures Sound(cfg, StepChunkSize(p, ch))
  {
    hide FieldMatchOk, ValueMatchOk;
  }

  lemma ChunkDataSound(cfg: Settings, p: Parser, ch: char)
    requires p.state == Chunk(InData) && InvCounted(p)
    ensures Sound(cfg, StepChunkData(p, ch))
  {
    hide FieldMatchOk, ValueMatchOk;
  }

  lemma ChunkSound(cfg: Settings, p: Parser, ch: char)
    requires p.state.Chunk? && InvCounted(p)
    ensures Sound(cfg, StepChunk(p, p.state.chunk, ch))
  {
    hide FieldMatchOk, ValueMatchOk;
    match p.state.chunk
    case Size => ChunkSizeSound(cfg, p, ch);
    case InData => ChunkDataSound(cfg, p, ch);
    case _ =>
  }

  lemma DispatchSound(cfg: Settings, p: Parser, ch: char)
    requires InvCounted(p)
    ensures Sound(cfg, Dispatch(cfg, p, ch))
  {
    match p.state
    case StatusLine(at) =>
      if InCode(at) { StatusCodeSound(cfg, p, at, ch); } else { StatusVersionSound(cfg, p, at, ch); }
    case ReqUrl(at) => UrlSound(cfg, p, ch);
    case ReqVersion(at) => VersionSound(cfg, p, ch);
    case Header(at) => HeaderSound(cfg, p, ch);
    case HeadersAlmostDone => HeadersAlmostDoneSound(cfg, p, ch);
    case Chunk(at) => ChunkSound(cfg, p, ch);
    case BodyIdentity => FinishSound(cfg, p.(contentLength := 0, state := MessageDone));
    case BodyIdentityEof =>
    case _ => StartSound(cfg, p, ch);
  }

  lemma CountedOk(p: Parser)
    requires p.errno.Ok? && Inv(p) && (ParsingHeader(p.state) ==> p.nread < MAX_HEADER_SIZE)
    ensures InvCounted(Counted(p))
  {
    hide FieldMatchOk, ValueMatchOk;
  }

  lemma StepSound(cfg: Settings, p: Parser, ch: char)
    requires p.errno.Ok? && Inv(p)
    ensures Sound(cfg, Step(cfg, p, ch))
  {
    hide Dispatch, StateInv;
    if !(ParsingHeader(p.state) && p.nread + 1 > MAX_HEADER_SIZE) {
      CountedOk(p);
      DispatchSound(cfg, Counted(p), ch);
    }
  }

  /** No input whatsoever makes an internal assertion fail, and the invariant survives it. */
  lemma {:induction false} RunSound(cfg: Settings, p: Parser, data: string)
    requires p.errno.Ok? && Inv(p)
    ensures var r := Run(cfg, p, data);
      && !r.end.Aborted? && Valid(r.p) && r.n <= |data|
      && (r.end.Live? ==> r.p.errno.Ok? && r.n == |data|)
      && (!r.end.Live? && r.p.errno.Ok? ==> r.p.upgrade && cfg.onMessageComplete(r.p) == 0)
    decreases |data|
  {
    hide Step;
    if data != [] {
      StepSound(cfg, p, data[0]);
      var o := Step(cfg, p, data[0]);
      if o.status.Go? {
        RunSound(cfg, o.p, data[1..]);
      }
    }
  }

  // ---- upgrades ----

  /** Going on after a byte means that no upgrade was found with it. */
  predicate KeepsOn(p: Parser, o: Out) { o.status.Go? && !p.upgrade ==> !o.p.upgrade }

  lemma LineKeepsOn(cfg: Settings, p: Parser, ch: char)
    ensures p.state.StatusLine? ==> KeepsOn(p, StepStatusLine(cfg, p, p.state.status, ch))
    ensures p.state.ReqVersion? ==> KeepsOn(p, StepReqVersion(p, p.state.version, ch))
    ensures p.state.ReqUrl? ==> KeepsOn(p, StepUrl(p, p.state.url, ch))
  {
    hide UrlStep;
  }

  lemma HeaderKeepsOn(cfg: Settings, p: Parser, ch: char)
    ensures KeepsOn(p, StepHeadersAlmostDone(cfg, p, ch))
    ensures p.state.Header? ==> KeepsOn(p, StepHeader(cfg, p, p.state.header, ch))
  {
    hide FieldMatch, ValueMatch, AddDigit, ShouldKeepAlive;
  }

  lemma DispatchKeepsOn(cfg: Settings, p: Parser, ch: char)
    ensures KeepsOn(p, Dispatch(cfg, p, ch))
  {
    LineKeepsOn(cfg, p, ch);
    HeaderKeepsOn(cfg, p, ch);
    hide StepStatusLine, StepReqVersion, StepUrl, StepHeader, StepHeadersAlmostDone, AddDigit, ShouldKeepAlive;
  }

  /** What a caller can see: a call goes on exactly if it left no errno, consumed everything and found
      no upgrade. */
  lemma {:induction false} RunGoesOn(cfg: Settings, p: Parser, data: string)
    requires p.errno.Ok? && Inv(p) && !p.upgrade
    ensures var r := Run(cfg, p, data); r.end.Live? <==> r.p.errno.Ok? && r.n == |data| && !r.p.upgrade
    decreases |data|
  {
    hide Dispatch, Inv;
    if data != [] {
      var o := Step(cfg, p, data[0]);
      StepSound(cfg, p, data[0]);
      DispatchKeepsOn(cfg, Counted(p), data[0]);
      if o.status.Go? {
        RunGoesOn(cfg, o.p, data[1..]);
      }
    }
  }
}

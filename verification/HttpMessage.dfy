/** The request or response that the callbacks collect. */
module HttpMessage {
  import opened Wrappers
  import opened HttpTypes
  import opened HttpStep
  import opened HttpInvariant
  import opened HttpTrace
  import opened HttpExecute
  import opened HttpPieces

  // ---- the collected message ----

  datatype Version = Http09 | Http10 | Http11

  /** The fields of a request or a response the callbacks fill in. `crashed` records a failed assertion in the
      value callback: a header value with no header to put it in. */
  datatype Message = Message(
    verb: string, uri: string, status: nat, version: Version, headers: seq<(string, string)>, gotField: bool,
    body: string, bodyLength: nat, complete: bool, crashed: bool)

  /** A cleared message. */
  const FRESH := Message("", "", 0, Http11, [], false, "", 0, false, false)

  function VersionOf(p: Parser): Option<Version> {
    if p.major == 0 && p.minor == 9 then Some(Http09)
    else if p.major == 1 && p.minor == 0 then Some(Http10)
    else if p.major == 1 && p.minor == 1 then Some(Http11)
    else None
  }

  function AppendField(m: Message, b: string): Message {
    var n := |m.headers|;
    if m.gotField && n > 0 then
      m.(headers := m.headers[n - 1 := (m.headers[n - 1].0 + b, m.headers[n - 1].1)])
    else m.(headers := m.headers + [(b, "")], gotField := true)
  }

  function AppendValue(m: Message, b: string): Message {
    var n := |m.headers|;
    if n == 0 then m.(crashed := true)
    else m.(headers := m.headers[n - 1 := (m.headers[n - 1].0, m.headers[n - 1].1 + b)], gotField := false)
  }

  /** The callbacks of a request or a response. */
  function Collect(m: Message, e: Event): Message {
    match e
    case Data(Url, b) => m.(uri := m.uri + b)
    case Data(Field, b) => AppendField(m, b)
    case Data(Value, b) => AppendValue(m, b)
    case Data(Body, b) => m.(body := m.body + b)
    case Notice(HeadersComplete, p) =>
      var n := m.(version := if VersionOf(p).Some? then VersionOf(p).value else m.version);
      if p.kind.Response? then n.(status := p.status) else n.(verb := MethodStr(p.verb))
    case Notice(MessageComplete, p) => m.(complete := true, bodyLength := |m.body|)
    case Notice(_, p) => m
  }

  function CollectAll(m: Message, ev: seq<Event>): Message
    decreases |ev|
  {
    if ev == [] then m else CollectAll(Collect(m, ev[0]), ev[1..])
  }

  /** The callbacks' return codes: an unknown version is refused, a complete message stops the parser. */
  const REQUEST_SETTINGS := Settings(p => 0, p => 0, p => if VersionOf(p).Some? then 0 else -1, p => 1)

  /** The same for a response; when it answers a HEAD request no body is expected. */
  function ResponseSettings(toHead: bool): Settings {
    Settings(p => 0, p => 0, p => if VersionOf(p).None? then -1 else if toHead then 1 else 0, p => 1)
  }

  /** The application leaves the parser at the end of every message, as requests and responses do. */
  ghost predicate LeavesAtEnd(cfg: Settings) { forall p :: cfg.onMessageComplete(p) == 1 }

  lemma {:induction false} CollectAppend(m: Message, a: seq<Event>, b: seq<Event>)
    ensures CollectAll(m, a + b) == CollectAll(CollectAll(m, a), b)
    decreases |a|
  {
    if a == [] {
      assert a + b == b;
    } else {
      assert (a + b)[0] == a[0] && (a + b)[1..] == a[1..] + b;
      CollectAppend(Collect(m, a[0]), a[1..], b);
    }
  }

  lemma CollectOne(m: Message, e: Event)
    ensures CollectAll(m, [e]) == Collect(m, e)
  {
    assert [e][1..] == [];
    assert CollectAll(Collect(m, e), []) == Collect(m, e);
  }

  /** Two slices in a row collect to what their concatenation collects to. */
  lemma CollectJoin(m: Message, k: Kind, x: string, y: string)
    ensures Collect(Collect(m, Data(k, x)), Data(k, y)) == Collect(m, Data(k, x + y))
  {
    match k
    case Url => assert m.uri + x + y == m.uri + (x + y);
    case Body => assert m.body + x + y == m.body + (x + y);
    case Field =>
      var n := |m.headers|;
      if m.gotField && n > 0 {
        assert m.headers[n - 1].0 + x + y == m.headers[n - 1].0 + (x + y);
      } else {
        assert (m.headers + [(x, "")])[n := (x + y, "")] == m.headers + [(x + y, "")];
      }
    case Value =>
      var n := |m.headers|;
      if n > 0 {
        assert m.headers[n - 1].1 + x + y == m.headers[n - 1].1 + (x + y);
      }
  }

  lemma CollectPush(m: Message, t: seq<Event>, e: Event)
    ensures CollectAll(m, Push(t, e)) == Collect(CollectAll(m, t), e)
  {
    hide Collect;
    var n := |t|;
    if n > 0 && e.Data? && t[n - 1].Data? && t[n - 1].kind == e.kind {
      var joined := Data(e.kind, t[n - 1].bytes + e.bytes);
      CollectAppend(m, t[..n - 1], [joined]);
      CollectOne(CollectAll(m, t[..n - 1]), joined);
      CollectJoin(CollectAll(m, t[..n - 1]), e.kind, t[n - 1].bytes, e.bytes);
      assert t == t[..n - 1] + [t[n - 1]];
      CollectAppend(m, t[..n - 1], [t[n - 1]]);
      CollectOne(CollectAll(m, t[..n - 1]), t[n - 1]);
    } else {
      CollectAppend(m, t, [e]);
      CollectOne(CollectAll(m, t), e);
    }
  }

  lemma {:induction false} CollectOnto(m: Message, t: seq<Event>, u: seq<Event>)
    ensures CollectAll(m, Onto(t, u)) == CollectAll(CollectAll(m, t), u)
    decreases |u|
  {
    hide Collect, Push;
    if u != [] {
      CollectOnto(m, Push(t, u[0]), u[1..]);
      CollectPush(m, t, u[0]);
    }
  }

  /** Traces that tell the same collect to the same message. */
  lemma CollectSame(m: Message, t: seq<Event>, u: seq<Event>)
    requires Same(t, u)
    ensures CollectAll(m, t) == CollectAll(m, u)
  {
    CollectOnto(m, [], t);
    CollectOnto(m, [], u);
  }

  /** A request or a response, with the callbacks its parser is given. */
  class HttpBase {
    const cfg: Settings
    var m: Message

    /** Clears a request before its parser starts. */
    constructor Request()
      ensures m == FRESH && cfg == REQUEST_SETTINGS
    {
      cfg, m := REQUEST_SETTINGS, FRESH;
    }

    /** Clears a response before its parser starts; toHead when it answers a HEAD request. */
    constructor Response(toHead: bool)
      ensures m == FRESH && cfg == ResponseSettings(toHead)
    {
      cfg, m := ResponseSettings(toHead), FRESH;
    }

    /** One read: runs the parser and its callbacks; a parse error is what consumes less than the
        whole read without completing the message. */
    method Parse(parser: HttpParser, data: string) returns (len: nat, error: bool)
      requires Valid(parser.s)
      modifies this, parser
      ensures Valid(parser.s)
      ensures var r := Call(cfg, old(parser.s), data);
        parser.s == r.p && len == r.n && m == CollectAll(old(m), r.ev)
      ensures error <==> !m.complete && len != |data|
    {
      hide Run, Merged, Inv, Call;
      var calls;
      len, calls := parser.Execute(cfg, data);
      CollectSame(m, calls, Call(cfg, old(parser.s), data).ev);
      var i := 0;
      while i < |calls|
        modifies this
        invariant 0 <= i <= |calls|
        invariant CollectAll(m, calls[i..]) == CollectAll(old(m), calls)
      {
        m := Collect(m, calls[i]);
        assert calls[i..][1..] == calls[i + 1..];
        i := i + 1;
      }
      error := !m.complete && len != |data|;
    }

    /** Reads until the message is over or the pieces run out; without a parse error the message
        collected is the one a single read of all the bytes collects. */
    method ParsePieces(parser: HttpParser, pieces: seq<string>) returns (n: nat)
      requires Valid(parser.s) && parser.s.errno.Ok? && NonEmpty(pieces) && LeavesAtEnd(cfg)
      modifies this, parser
      ensures Valid(parser.s)
      ensures var r := ReadPieces(cfg, old(parser.s), pieces);
        parser.s == r.p && n == r.n && m == CollectAll(old(m), r.ev)
      ensures pieces != [] ==> var one := Call(cfg, old(parser.s), Flatten(pieces));
        parser.s == one.p && n == one.n && (!one.end.Failed? ==> m == CollectAll(old(m), one.ev))
    {
      hide Run, Merged, Inv, Collect, Progress, ReadPieces, Call;
      ghost var p0 := parser.s;
      ghost var sofar := RunResult(p0, 0, [], Live);
      var i := 0;
      n := 0;
      ProgressStart(cfg, p0, pieces);
      while i < |pieces| && parser.s.errno.Ok?
        invariant 0 <= i <= |pieces|
        invariant Valid(parser.s) && parser.s == sofar.p && n == sofar.n
        invariant sofar.end.Live? <==> parser.s.errno.Ok?
        invariant Progress(cfg, p0, pieces, i, sofar)
        invariant m == CollectAll(old(m), sofar.ev)
      {
        ghost var r := Call(cfg, parser.s, pieces[i]);
        CallEnds(cfg, parser.s, pieces[i]);
        var len, error := Parse(parser, pieces[i]);
        n := n + len;
        CollectAppend(old(m), sofar.ev, r.ev);
        ProgressStep(cfg, p0, pieces, i, sofar);
        sofar := Then(sofar, r);
        i := i + 1;
      }
      ProgressEnd(cfg, p0, pieces, i, sofar);
      if pieces != [] { SplitInvariance(cfg, p0, pieces); }
    }
  }

  /** As a complete message stops the parser, a call that is over leaves an errno. */
  lemma CallEnds(cfg: Settings, p: Parser, data: string)
    requires p.errno.Ok? && Inv(p) && data != [] && LeavesAtEnd(cfg)
    ensures var r := Call(cfg, p, data); r.end.Live? <==> r.p.errno.Ok?
  {
    hide Run, Inv, Spoken;
    RunSound(cfg, p, data);
    SpokenIs(cfg, p, data);
  }

  // ---- the value callback always has a header to extend ----

  /** Inside a header line some header has been started. */
  ghost predicate HasHeader(m: Message, s: State) { !m.crashed && (InLine(s) ==> m.headers != []) }

  lemma StepHasHeader(cfg: Settings, p: Parser, ch: char, m: Message)
    requires p.errno.Ok? && Inv(p) && HasHeader(m, p.state) && !InBody(p.state)
    ensures var o := Step(cfg, p, ch);
      !CollectAll(m, o.ev).crashed && (o.status.Go? ==> HasHeader(CollectAll(m, o.ev), o.p.state))
  {
    hide Dispatch, Inv, MethodStr;
    var o := Step(cfg, p, ch);
    if !(ParsingHeader(p.state) && p.nread + 1 > MAX_HEADER_SIZE) {
      CountedOk(p);
      var d := Dispatch(cfg, Counted(p), ch);
      DispatchShape(cfg, Counted(p), ch);
      if OnlyNotices(d.ev) {
        NoticesKeep(m, d.ev);
      }
      if d.status.Go? && Collecting(d.p.state).Some? {
        CollectAppend(m, d.ev, [Data(Collecting(d.p.state).value, [ch])]);
        CollectOne(CollectAll(m, d.ev), Data(Collecting(d.p.state).value, [ch]));
      }
      if |d.ev| == 1 {
        assert d.ev == [d.ev[0]];
        CollectOne(m, d.ev[0]);
      }
    }
  }

  ghost predicate TellsBody(o: Out, ch: char) {
    && o.ev != [] && o.ev[0] == Data(Body, [ch]) && OnlyNotices(o.ev[1..])
    && (o.status.Go? ==> !InLine(o.p.state) && Collecting(o.p.state).None?)
  }

  lemma CountedTellsBody(cfg: Settings, p: Parser, ch: char)
    requires 0 < p.contentLength < ULLONG_MAX
    ensures p.state.BodyIdentity? ==> TellsBody(StepBodyIdentity(cfg, p, ch), ch)
    ensures p.state == Chunk(InData) && p.flags.chunked ==> TellsBody(StepChunk(p, InData, ch), ch)
  {
    hide ShouldKeepAlive;
  }

  lemma BodyTellsBody(cfg: Settings, p: Parser, ch: char)
    requires p.errno.Ok? && Inv(p) && InBody(p.state)
    ensures TellsBody(Step(cfg, p, ch), ch)
  {
    if !p.state.BodyIdentityEof? { CountedTellsBody(cfg, p, ch); }
    hide FieldMatchOk, ValueMatchOk, StepBodyIdentity, StepChunk;
  }

  lemma BodyHasHeader(cfg: Settings, p: Parser, ch: char, m: Message)
    requires p.errno.Ok? && Inv(p) && !m.crashed && InBody(p.state)
    ensures var o := Step(cfg, p, ch);
      !CollectAll(m, o.ev).crashed && (o.status.Go? ==> HasHeader(CollectAll(m, o.ev), o.p.state))
  {
    hide Step, Inv, InBody, InLine, MethodStr, OnlyNotices, Collecting;
    var o := Step(cfg, p, ch);
    BodyTellsBody(cfg, p, ch);
    NoticesKeep(Collect(m, o.ev[0]), o.ev[1..]);
  }

  /** Whatever a client sends, the value callback never runs before a header has been started. */
  lemma {:induction false} NeverCrashes(cfg: Settings, p: Parser, data: string, m: Message)
    requires p.errno.Ok? && Inv(p) && HasHeader(m, p.state)
    ensures !CollectAll(m, Run(cfg, p, data).ev).crashed
    decreases |data|
  {
    hide Step, Inv, InLine;
    if data != [] {
      var o := Step(cfg, p, data[0]);
      StepSound(cfg, p, data[0]);
      if InBody(p.state) {
        BodyHasHeader(cfg, p, data[0], m);
      } else {
        StepHasHeader(cfg, p, data[0], m);
      }
      if o.status.Go? {
        NeverCrashes(cfg, o.p, data[1..], CollectAll(m, o.ev));
        CollectAppend(m, o.ev, Run(cfg, o.p, data[1..]).ev);
      }
    }
  }

  lemma {:induction false} NoticesKeep(m: Message, ev: seq<Event>)
    requires OnlyNotices(ev)
    ensures CollectAll(m, ev).crashed == m.crashed && CollectAll(m, ev).headers == m.headers
    decreases |ev|
  {
    hide MethodStr, VersionOf;
    if ev != [] {
      assert ev[0] in ev;
      NoticesKeep(Collect(m, ev[0]), ev[1..]);
    }
  }
}
